/** The web prompt builder, `generate_prompt`. The pages the fetcher saved
    under "./downloaded" (one file per URL, named by `EncodeUrlToFilename`)
    have been loaded, split into chunks and indexed; the model starts from the
    index's ranking of those chunks for the user's question. The builder takes
    the best five, joins their text into the context block, fills the fixed
    template, and derives one source per chunk from its stored path. */
module SystemPromptBuilder {

  import opened Base
  import opened WebSearch
  import opened PyRepr

  /** `k` of the similarity search on the raw question. */
  const SEARCH_K := 5

  const CONTEXT_SEPARATOR := "\n\n---\n\n"

  /** The stored path of a saved page is "downloaded/" followed by its file
      name; the builder drops this many leading characters. */
  const DOWNLOAD_PREFIX := "downloaded/"
  const DROPPED_PREFIX_LENGTH := 11

  /** The prompt template, rendered as a chat prompt ("Human: " + text), cut
      at its two slots. */
  const CHAT_ROLE_PREFIX := "Human: "
  const TEMPLATE_INTRO := "\n        You are an intelligent assistant designed to answer user questions accurately and using the following context document.\n        Context:\n        "
  const TEMPLATE_HEAD := CHAT_ROLE_PREFIX + TEMPLATE_INTRO
  const TEMPLATE_MIDDLE := "\n\n        ---\n\n        Now answer the following question: \n        "
  const TEMPLATE_TAIL := "\n        "

  datatype WebPrompt = WebPrompt(prompt: string, sources: string)

  /** `prompt_template.format(context=..., question=...)`: the template
      with the context and the question inserted verbatim, at positions fixed
      by the template alone. */
  function FillTemplate(context: string, question: string): (r: string)
    ensures var h, m, t := |TEMPLATE_HEAD|, |TEMPLATE_MIDDLE|, |TEMPLATE_TAIL|;
      && |r| == h + |context| + m + |question| + t
      && r[..h] == TEMPLATE_HEAD
      && r[h..h + |context|] == context
      && r[h + |context|..h + |context| + m] == TEMPLATE_MIDDLE
      && r[h + |context| + m..|r| - t] == question
      && r[|r| - t..] == TEMPLATE_TAIL
  {
    var r := TEMPLATE_HEAD + context + TEMPLATE_MIDDLE + question + TEMPLATE_TAIL;
    var h, m := |TEMPLATE_HEAD|, |TEMPLATE_MIDDLE|;
    assert r[h..h + |context|] == context;
    assert r[h + |context|..h + |context| + m] == TEMPLATE_MIDDLE;
    r
  }

  function ContextText(results: seq<Document>): string
  {
    Join(Contents(results), CONTEXT_SEPARATOR)
  }

  /** `decode_filename_to_url(source)[11:]`: Python's slice gives "" when
      the decoded text is 11 characters or shorter. */
  function DisplaySource(stored: string): (r: string)
    ensures var decoded := DecodeFilenameToUrl(stored);
      && |r| == (if |decoded| <= DROPPED_PREFIX_LENGTH then 0 else |decoded| - DROPPED_PREFIX_LENGTH)
      && r == decoded[|decoded| - |r|..]
    ensures r == "" || |r| + DROPPED_PREFIX_LENGTH <= |stored|
  {
    var decoded := DecodeFilenameToUrl(stored);
    if |decoded| <= DROPPED_PREFIX_LENGTH then "" else decoded[DROPPED_PREFIX_LENGTH..]
  }

  /** One displayed source per result, in result order. */
  function SourceList(results: seq<Document>): (r: seq<string>)
    ensures |r| == |results|
  {
    seq(|results|, i requires 0 <= i < |results| => DisplaySource(SourceOrUnknown(results[i])))
  }

  /** The number of chunks `generate_prompt` uses: the five best, or all of
      them when the index holds fewer. */
  function UsedCount(ranked: seq<Document>): (n: nat)
    ensures n <= SEARCH_K && n <= |ranked|
    ensures n == SEARCH_K || n == |ranked|
  {
    if |ranked| < SEARCH_K then |ranked| else SEARCH_K
  }

  /** The prompt text `generate_prompt` builds for `query`. */
  function PromptText(query: string, ranked: seq<Document>): string
  {
    FillTemplate(ContextText(TopK(ranked, SEARCH_K)), query)
  }

  /** `str(sources)`: it reads back as one displayed source per chunk used,
      in rank order. */
  function SourcesText(ranked: seq<Document>): (r: string)
    ensures ReadListRepr(r) == Some(SourceList(ranked[..UsedCount(ranked)]))
  {
    var results := TopK(ranked, SEARCH_K);
    assert results == ranked[..UsedCount(ranked)];
    ReadListReprInverse(SourceList(results));
    ListRepr(SourceList(results))
  }

  /** `generate_prompt(query, ...)`: the raw question is both the search key
      and the question in the template. The sources text reads back as one
      displayed source per chunk used, and the prompt is laid out as
      `PromptLayout` states. */
  function GeneratePrompt(query: string, index: string -> seq<Document>): (r: WebPrompt)
    ensures var ranked := index(query);
      ReadListRepr(r.sources) == Some(SourceList(ranked[..UsedCount(ranked)]))
  {
    WebPrompt(PromptText(query, index(query)), SourcesText(index(query)))
  }

  /** For an index of saved pages, the sources text is the list of the URLs
      of the five best chunks (fewer when the index holds fewer), in rank
      order, and reads back as that list. */
  lemma SavedPagesSources(query: string, index: string -> seq<Document>, urls: seq<seq<Byte>>)
    requires |urls| == |index(query)|
    requires forall i :: 0 <= i < |index(query)| ==>
      index(query)[i].source == Some(DOWNLOAD_PREFIX + EncodeUrlToFilename(urls[i]))
    ensures var n := UsedCount(index(query));
      var r := GeneratePrompt(query, index);
      r.sources == ListRepr(urls[..n]) && ReadListRepr(r.sources) == Some(urls[..n])
  {
    var ranked := index(query);
    var n := UsedCount(ranked);
    var results := TopK(ranked, SEARCH_K);
    assert results == ranked[..n];
    var us := urls[..n];
    assert forall i :: 0 <= i < |results| ==>
      results[i].source == Some(DOWNLOAD_PREFIX + EncodeUrlToFilename(us[i]));
    FetchedSourcesAreUrls(results, us);
    assert GeneratePrompt(query, index).sources == ListRepr(SourceList(results));
    ReadListReprInverse(us);
  }

  /** The prompt holds the text of the five best chunks (fewer when the index
      holds fewer) joined by the separator, right after the template head,
      and the question right before the template tail. */
  lemma PromptLayout(query: string, ranked: seq<Document>)
    ensures var n := UsedCount(ranked);
      var p := PromptText(query, ranked);
      var h, t := |TEMPLATE_HEAD|, |TEMPLATE_TAIL|;
      var ctx := ContextText(ranked[..n]);
      && |p| >= h + |ctx| + |query| + t
      && p[h..h + |ctx|] == ctx
      && (n > 0 ==> |ctx| == TotalLength(Contents(ranked[..n])) + (n - 1) * |CONTEXT_SEPARATOR|)
      && (n == 0 ==> ctx == "")
      && p[|p| - t - |query|..|p| - t] == query
  {
    var n := UsedCount(ranked);
    var results := ranked[..n];
    assert TopK(ranked, SEARCH_K) == results;
    TemplateSlots(ContextText(results), query);
    if n > 0 {
      JoinLength(Contents(results), CONTEXT_SEPARATOR);
    }
  }

  /** End to end, for an index of saved pages: the prompt is laid out as
      `PromptLayout` says, and the sources are the chunks' URLs. */
  lemma GeneratePromptFromSavedPages(query: string, index: string -> seq<Document>, urls: seq<seq<Byte>>)
    requires |urls| == |index(query)|
    requires forall i :: 0 <= i < |index(query)| ==>
      index(query)[i].source == Some(DOWNLOAD_PREFIX + EncodeUrlToFilename(urls[i]))
    ensures var ranked := index(query);
      var n := UsedCount(ranked);
      var r := GeneratePrompt(query, index);
      var h, t := |TEMPLATE_HEAD|, |TEMPLATE_TAIL|;
      var ctx := ContextText(ranked[..n]);
      && r.sources == ListRepr(urls[..n])
      && ReadListRepr(r.sources) == Some(urls[..n])
      && |r.prompt| >= h + |ctx| + |query| + t
      && r.prompt[h..h + |ctx|] == ctx
      && (n > 0 ==> |ctx| == TotalLength(Contents(ranked[..n])) + (n - 1) * |CONTEXT_SEPARATOR|)
      && r.prompt[|r.prompt| - t - |query|..|r.prompt| - t] == query
  {
    SavedPagesSources(query, index, urls);
    PromptLayout(query, index(query));
  }

  /** Where the context and the question sit in the filled template. */
  lemma TemplateSlots(context: string, question: string)
    ensures var p := FillTemplate(context, question);
      var h, t := |TEMPLATE_HEAD|, |TEMPLATE_TAIL|;
      && |p| >= h + |context| + |question| + t
      && p[h..h + |context|] == context
      && p[|p| - t - |question|..|p| - t] == question
  {
    var p := FillTemplate(context, question);
    assert |p| - |TEMPLATE_TAIL| - |question| == |TEMPLATE_HEAD| + |context| + |TEMPLATE_MIDDLE|;
  }

  /** With nothing in the index the builder still produces a prompt, over an
      empty context, and an empty source list. */
  lemma EmptyIndexStillPrompts(query: string, index: string -> seq<Document>)
    requires index(query) == []
    ensures GeneratePrompt(query, index) == WebPrompt(FillTemplate("", query), "[]")
  {
  }

  /** A page saved under its encoded URL is shown as exactly that URL:
      decoding undoes the file name encoding, and the dropped characters are
      exactly the folder prefix. */
  lemma FetchedSourceIsUrl(url: seq<Byte>)
    ensures DisplaySource(DOWNLOAD_PREFIX + EncodeUrlToFilename(url)) == url
  {
    var e := EncodeUrlToFilename(url);
    DecodeAfterPlainPrefix(DOWNLOAD_PREFIX, e);
    DecodeEncode(url);
    var d := DecodeFilenameToUrl(DOWNLOAD_PREFIX + e);
    assert d == DOWNLOAD_PREFIX + url;
    assert d[DROPPED_PREFIX_LENGTH..] == url;
  }

  /** For chunks of saved pages, the source list is the list of their URLs:
      one per chunk, in chunk order, repeated URLs kept. */
  lemma FetchedSourcesAreUrls(results: seq<Document>, urls: seq<seq<Byte>>)
    requires |urls| == |results|
    requires forall i :: 0 <= i < |results| ==>
      results[i].source == Some(DOWNLOAD_PREFIX + EncodeUrlToFilename(urls[i]))
    ensures SourceList(results) == urls
  {
    forall i | 0 <= i < |results| ensures SourceList(results)[i] == urls[i] {
      FetchedSourceIsUrl(urls[i]);
    }
  }

  /** A chunk without a recorded source is shown with an empty source: the
      default "Unknown" is shorter than the dropped prefix. */
  lemma MissingSourceShowsEmpty(content: string)
    ensures DisplaySource(SourceOrUnknown(Document(content, None))) == ""
  {
    DecodeWithoutPercent("Unknown");
  }
}
