# Retrieval core of a RAG question-answering app, in Dafny

This project models the decision, validation and string rules at the centre of a
retrieval-augmented question-answering app. The app answers a question from an
uploaded file or, failing that, from web pages it fetches. Its core consists of:

- **The scoring file search** (`DocumentWebProcessing.SearchInFile`). It walks
  through the expanded queries under a cooperative time budget. It scores every
  chunk retrieved for any query against one embedding of all the queries joined
  by spaces, and keeps the first chunk that reaches the highest score. It
  accepts that chunk only when its score is strictly above 0.4.
- **The first-hit file search** (`DbOperations.SearchInFile`), which the apps
  import. The first query whose similarity search returns anything wins. Its up
  to four chunks become the context, and each chunk contributes one
  `Source: …` line.
- **The web prompt builder** (`SystemPromptBuilder.GeneratePrompt`;
  `src/prompt_generator.py` holds the same function word for word). It takes
  the five best chunks for the raw question, joins them with `\n\n---\n\n`, and
  fills the fixed template. Each chunk's stored path is percent-decoded and its
  first 11 characters (`downloaded/`) are dropped. The list of sources is
  returned as its Python `str()` rendering (`PyRepr`).
- **Query-expansion reply validation** (`QueryExtractor.ExtractQueries`). It
  looks up the reply's content, parses it as JSON, and requires an object that
  holds a list under `"queries"`.
- **The URL ⇄ filename codec** (`WebSearch`). This is percent-encoding as in
  section 2.1 of RFC 3986. Only the unreserved characters of section 2.3 stay
  literal. Every other byte becomes `%` followed by two upper-case hex digits.
  Decoding accepts hex digits of either case and leaves a malformed `%` as it
  is.

## How the outside world is modelled

- **Similarity search.** An index is a function `index: string -> seq<Document>`
  that gives the full ranking of chunks for a query. `similarity_search(q, k)`
  is the first `k` entries of that ranking (`Base.TopK`, `FileIndex.Retrieve`).
- **Scores.** Embeddings and cosine similarity are an oracle
  `sim(fullQuery, chunkText): real`.
- **The clock.** `time.time()` is a sequence of readings `clock: nat -> real`.
  `clock(0)` is read when the search starts, and `clock(i + 1)` just before
  query `i` is searched. The file is loaded, split and indexed before
  `clock(0)`, so that work does not count against the timeout.
- **JSON.** `json.loads` is any partial parser `parse: string -> Option<Json>`.
  The chat reply is an input.

## Behaviour worth knowing

- **What a chunk is scored against.** The scoring search embeds all queries
  joined by single spaces once, and scores every retrieved chunk against that
  one embedding, not against the query that retrieved it
  (src/document_web_processing.py:51-52, 65-66).
- **How web sources are shown.** The web prompt builder drops the first 11
  characters of the decoded stored path (src/system_prompt_builder.py:66).
  Those are the `downloaded/` folder prefix, so a source is shown as the full
  URL, scheme included. A chunk without a source shows `""`, because
  `"Unknown"` is shorter than 11 characters.
- **Query expansion.** The extractor returns any list found under
  `"queries"` unchanged: empty, of any length, or with elements that are not
  strings (src/query_extractor.py:52-60).
- **The URLs `.` and `..`.** Both consist of unreserved characters, so
  `quote(url, safe="")` leaves them as they are (src/web_search.py:17), and
  `os.path.join` (src/web_search.py:35) turns them into the download folder
  itself and its parent. Every other URL gets a name that is neither.
- **Timeouts.** Both file searches return `None` for a timeout and for "nothing
  relevant" alike. After a timeout break, the scoring search still applies its
  threshold to the best chunk found so far
  (src/document_web_processing.py:60-61, 73).

## Model

| member | source | states |
|---|---|---|
| `WebSearch.EncodeByte` | src/web_search.py:17 | An unreserved byte (ALPHA, DIGIT, `-`, `.`, `_`, `~`) stays as itself. Any other byte becomes `%` and two upper-case hex digits whose value is the byte. |
| `WebSearch.EncodeUrlToFilename` | src/web_search.py:16-17 | The encoded name is never shorter than the URL. It has the same length exactly when every byte is unreserved. |
| `WebSearch.DecodeEncode` | src/web_search.py:16-22 | Decoding the filename made from a URL gives back the URL. |
| `WebSearch.EncodeInjective` | src/web_search.py:16-22 | Distinct URLs get distinct filenames. |
| `WebSearch.EncodedAlphabet` | src/web_search.py:17 | Every character of an encoded name is unreserved or `%`, and every `%` is followed by two upper-case hex digits. |
| `WebSearch.DecodeFilenameToUrl` | src/web_search.py:21-22 | Decoding never lengthens a name, and shortens it at most to a third (each `%XX` becomes one character). This bound is for one character per decoded byte; see "Text encoding" under "Left out". |
| `WebSearch.JoinPath` | src/web_search.py:35 | `os.path.join` ends with the name. A name starting with `/` replaces the folder; otherwise the folder is kept as the prefix. |
| `WebSearch.FilenameIsOneComponent` | src/web_search.py:34-35 | An encoded name holds no `/`. Joining it to the download folder gives the folder, possibly one separator, and then exactly the encoded name. An empty URL encodes to `""` and adds only the separator. |
| `WebSearch.DotNames` | src/web_search.py:17-35 | The URLs `.` and `..`, and only they, are stored under the names `.` and `..`, so the joined path is `./downloaded/.` or `./downloaded/..`: the download folder itself or its parent. |
| `WebSearch.DecodeWithoutPercent` | src/web_search.py:21-22 | Decoding a name that contains no `%` returns it unchanged. |
| `WebSearch.DecodeAfterPlainPrefix` | src/web_search.py:21-22 | A prefix without `%` passes through decoding unchanged and does not affect how the rest is decoded. |
| `Base.TopK` | src/system_prompt_builder.py:48 | A search with parameter `k` returns a prefix of the ranking, of length min(k, ranking length). |
| `Base.JoinSnoc` | src/system_prompt_builder.py:50 | Joining one more part appends the separator and that part, so the parts appear in the text in result order. |
| `Base.JoinLength` | src/db_operations.py:51 | `Base.Join` is `sep.join(parts)`. A joined text is as long as its parts plus one separator between each pair of neighbours. |
| `Base.SplitJoin` | src/db_operations.py:52 | How the sources text is read back line by line: lines that contain no line break, once joined by `\n`, split back into exactly those lines. |
| `FileIndex.Retrieve` | src/db_operations.py:48 | `similarity_search(q, k=4)` returns at most 4 chunks. They are the top of the ranking, and the result is empty only when the index has nothing for `q`. |
| `FileIndex.SourceLine` | src/db_operations.py:52 | A source line is `Source: ` followed by the chunk's source, or by `Unknown` when it has none (`Base.SourceOrUnknown`, which is `metadata.get("source", "Unknown")`, also at src/document_web_processing.py:75). |
| `FileIndex.AnswerPrompt` | src/document_web_processing.py:76 | The answer prompt starts with the fixed header and ends with `\n\nQuestion: ` and the question. |
| `FileIndex.AnswerPromptEmbeds` | src/document_web_processing.py:76 | The answer prompt is the fixed header, the context verbatim, `\n\nQuestion: `, and the question verbatim, at fixed positions. |
| `FileIndex.Attempted` | src/document_web_processing.py:55-61 | The number of queries searched is the index of the first query whose pre-search time check finds more than `timeout` elapsed since the start, or all of them. Every earlier check passed. |
| `FileIndex.AttemptedFrom` | src/db_operations.py:43-46 | From position `i`, the loop searches up to the first failing time check, and every check in between passes. |
| `FileIndex.AttemptedAt` | src/db_operations.py:44-46 | A loop position at which all earlier checks passed, and where either the queries are used up or the check fails, is the number of queries searched. |
| `DocumentWebProcessing.FullQuery` | src/document_web_processing.py:51 | The joined query is empty for no queries, and is the query itself for one query. |
| `DocumentWebProcessing.Answer` | src/document_web_processing.py:74-78 | The accepted triple carries the score unchanged, a prompt with the chunk's text verbatim after the header and the joined queries at its end, and `Source: ` plus the chunk's source or `Unknown`. |
| `DocumentWebProcessing.Candidates` | src/document_web_processing.py:59-64 | The chunks scored for `n` queries are the at most 4 retrieved per query, in order, so at most 4·n scores are computed. |
| `DocumentWebProcessing.SearchInFile` | src/document_web_processing.py:50-80 | Consider the chunks retrieved for the queries searched before any timeout break, each scored against the joined query (`DocumentWebProcessing.Score`, the similarity of the two embeddings, lines 65-66). The result is `None` exactly when none of them scores above 0.4. Otherwise it is the first chunk with the highest score, returned as (the header-content-question prompt, `Source: ` plus its source or `Unknown`, that score), and the score is above 0.4. With no queries, or with the budget already spent at the first check, the result is `None`. |
| `DocumentWebProcessing.FirstBestIsUnique` | src/document_web_processing.py:66-70 | At most one chunk is the first one with the highest score, because a later equal score does not replace it. The choice is therefore determined by the scores. |
| `DocumentWebProcessing.CandidatesPrefix` | src/document_web_processing.py:59-61 | The chunks scored before a timeout break are a prefix of the chunks scored without one. |
| `DbOperations.SearchInFile` | src/db_operations.py:42-56 | The result is `None` exactly when every query searched before any timeout break retrieves nothing. Otherwise the winner is the first query whose search is non-empty. The result is (the prompt built from that query's chunks joined by `\n\n` and that query alone, one `Source:` line per chunk). |
| `DbOperations.Hit` | src/db_operations.py:50-54 | The returned prompt starts with the header and ends with `\n\nQuestion: ` and the winning query. With one chunk, the sources text is that chunk's single source line. |
| `DbOperations.SourcesOneLinePerChunk` | src/db_operations.py:52 | The sources text (`Join` of `DbOperations.SourceLines`, one `SourceLine` per chunk) has exactly one `Source: <source or Unknown>` line per chunk, in chunk order, whichever query won, provided no source contains a line break. |
| `DbOperations.HitQuotesWinningQueryOnly` | src/db_operations.py:51-53 | The prompt ends with the winning query and holds the context (`DbOperations.HitContext`, the chunks joined by blank lines) right after the header, with its length stated. |
| `SystemPromptBuilder.SourceList` | src/system_prompt_builder.py:65-68 | There is one source per search result. |
| `SystemPromptBuilder.DisplaySource` | src/system_prompt_builder.py:66 | The displayed source is the decoded stored path without its first 11 characters, or `""` when the decoded path has at most 11. A non-empty one is at least 11 characters shorter than the stored path. |
| `SystemPromptBuilder.FillTemplate` | src/system_prompt_builder.py:52-69 | The prompt is the fixed template, starting with `Human: `, with the context and the question inserted verbatim at positions fixed by the template alone. |
| `SystemPromptBuilder.TemplateSlots` | src/system_prompt_builder.py:52-69 | The context sits right after the template head, and the question sits right before the template tail. |
| `SystemPromptBuilder.UsedCount` | src/system_prompt_builder.py:48 | The builder uses min(5, number of ranked chunks) chunks. |
| `SystemPromptBuilder.SourcesText` | src/system_prompt_builder.py:65-72 | `str(sources)` reads back as one displayed source per chunk used, in rank order. |
| `SystemPromptBuilder.GeneratePrompt` | src/system_prompt_builder.py:44-72 | The raw question is the search key. The sources text returned with the prompt reads back as the displayed sources of the at most 5 chunks the index ranks best for that question, in rank order. |
| `SystemPromptBuilder.PromptLayout` | src/prompt_generator.py:31-49 | Stated of `SystemPromptBuilder.PromptText`, the filled template, whose context is `SystemPromptBuilder.ContextText` (`"\n\n---\n\n".join` of the chunks' text, src/system_prompt_builder.py:50). The prompt holds the text of the at most 5 best chunks, joined by `\n\n---\n\n`, right after the template head. That context is as long as those chunks plus n-1 separators, or empty when nothing is indexed. The question sits right before the template tail. |
| `SystemPromptBuilder.SavedPagesSources` | src/system_prompt_builder.py:65-72 | For an index of saved pages, the sources text is `str()` of the URLs of the chunks used, in rank order, and it reads back as that list. |
| `SystemPromptBuilder.GeneratePromptFromSavedPages` | src/system_prompt_builder.py:44-72 | End to end, for saved pages, with the raw question as both search key and template question: the context and question placement of `PromptLayout`, and the sources as the list of the used chunks' URLs. |
| `SystemPromptBuilder.EmptyIndexStillPrompts` | src/prompt_generator.py:27-52 | When the index returns nothing for the question, the result is the template over an empty context, and the sources are `"[]"`. |
| `SystemPromptBuilder.FetchedSourceIsUrl` | src/prompt_generator.py:48 | For a page stored as `downloaded/` plus its encoded URL, the displayed source is exactly the URL. |
| `SystemPromptBuilder.FetchedSourcesAreUrls` | src/system_prompt_builder.py:65-68 | For chunks of saved pages, the source list is their URLs in chunk order, with duplicates kept. |
| `SystemPromptBuilder.MissingSourceShowsEmpty` | src/prompt_generator.py:48 | A chunk with no recorded source is shown as an empty source, because `"Unknown"` is shorter than the 11 characters dropped. |
| `PyRepr.StrRepr` | src/prompt_generator.py:52 | `repr` of a string is at least two characters longer than the string. |
| `PyRepr.UnescapeEscape` | src/prompt_generator.py:52 | Reading back the escaped body of a `repr` with either quote gives back the text. |
| `PyRepr.ReadStrRepr` | src/system_prompt_builder.py:72 | The `repr` of one source reads back as that source. |
| `PyRepr.ListRepr` | src/system_prompt_builder.py:72 | `str()` of a list is bracketed, and is `"[]"` exactly for the empty list. |
| `PyRepr.ClosingQuote` | src/system_prompt_builder.py:72 | Part of the reader used to read `str(sources)` back (`ReadListRepr`), not of the source: where a string literal in that text ends. The position found, if any, holds the quote character. |
| `PyRepr.ReadListReprInverse` | src/system_prompt_builder.py:72 | `str()` of a list of strings reads back as the same list, item for item, whatever quotes, commas or brackets the items hold. |
| `PyRepr.ListReprInjective` | src/system_prompt_builder.py:72 | Distinct source lists are rendered as distinct texts. |
| `PyRepr.PlainStrRepr` | src/system_prompt_builder.py:72 | Text with no single quote, backslash or control character appears between single quotes, exactly as it is. |
| `QueryExtractor.ExtractQueries` | src/query_extractor.py:43-60 | `QueryExtractor.ContentOf` is `response.get("message", {}).get("content")` (line 44). A list is returned exactly when there is content, it parses, it is an object, and it holds a list under `"queries"`. That list is returned unchanged. Every other failure is a `ValueError`, except a parsed value that is not an object. |
| `QueryExtractor.AnyQueriesListAccepted` | src/query_extractor.py:52-60 | Any list under `"queries"` is returned as it is. |
| `QueryExtractor.MissingOrNonListQueriesRejected` | src/query_extractor.py:52-55 | A missing or `null` `"queries"`, or one that is not a list, raises the same `ValueError`. |
| `QueryExtractor.NonObjectIsNotValueError` | src/query_extractor.py:49-52 | Content that parses to a non-object fails with an error that is not a `ValueError`. |
| `QueryExtractor.ExtractQueriesAsDocumented` | src/query_extractor.py:26-27 | In the documented behaviour, every failure is a `ValueError`. |
| `QueryExtractor.AsDocumentedDiffersOnlyOnNonObjects` | src/query_extractor.py:49-58 | The documented behaviour matches the code on every reply except those that parse to a non-object. For those it raises the `"queries"` list error. |

## Left out

- Loading, splitting and indexing are library calls. This covers PyPDFLoader,
  TextLoader, DirectoryLoader, RecursiveCharacterTextSplitter, FAISS and
  InMemoryVectorStore, plus `add_to_db` and `get_embedding_function`. The model
  starts from the index's ranking, so the splitter settings (1000/150 for
  files, 2000/250 from `config_settings.py`) play no part in it.
- Embeddings and cosine similarity are floating-point numerics. Scores are
  abstract reals from an oracle.
- The scores returned by `similarity_search_with_score` are ignored by the
  prompt builders, so the model ranks documents only.
- `fetch_and_save`, `get_urls`, `fetch_web_pages` and `remove_temp_files` are
  network, asynchronous and filesystem I/O.
- The chat call, the date and the `PROMPT` text it is formatted with are
  external. The model's reply is an input.
- Text encoding: a URL is taken as its UTF-8 bytes. `unquote` reassembles
  decoded bytes of 0x80 and above into UTF-8 characters, with replacement
  characters for invalid sequences. The model keeps one character per decoded
  byte.
- PyRepr.StrRepr: treats every character from U+0080 up as printable. Python
  escapes the non-printable ones as `\x`, `\u` or `\U`.
- `src/main_app.py` and `src/app.py` are the Streamlit UI, session history and
  answer streaming. Their acceptance thresholds (0.8 and 0.7) and their broken
  wiring are not modelled: they unpack three values from a two-value result,
  and `src/app.py` (line 3) imports `extract_query`, which does not exist;
  `src/main_app.py` (line 3) imports `extract_queries` correctly.
- `src/extract_queries.py` is an older extractor and is not part of this
  model. It is nevertheless the one both apps import (src/app.py:3,
  src/main_app.py:3); neither imports `src/query_extractor.py`, so the
  extractor the apps actually run is the unvalidated one. It indexes `response['message']['content']` and then
  `json.loads(content)["queries"]` with no checks, so it behaves differently
  from `src/query_extractor.py` in these cases:
  - A missing message or content raises `KeyError`.
  - An object without `"queries"` raises `KeyError`.
  - A reply that parses to a non-object raises `TypeError`.
  - A `"queries"` that is `null` or not a list is returned as it is, where
    `src/query_extractor.py` raises `ValueError`.
  - Invalid JSON raises `json.JSONDecodeError`, a subclass of `ValueError`,
    in both files.
- The `timeout=30` default of both `search_in_file` versions
  (src/document_web_processing.py:30, src/db_operations.py:19) is not
  modelled: the timeout is always an explicit argument.
- The truthiness of `best_result` (src/document_web_processing.py:73) is
  modelled as "a chunk has been kept", because a document object is always
  truthy.

## Findings

| source | as written | input that shows it | evidently intended | confidence | as-written member | corrected member |
|---|---|---|---|---|---|---|
| src/query_extractor.py:51-52 | Calls `.get("queries")` on whatever `json.loads` returns | Content `[1]` or `"x"` parses to a list or a string, which has no `.get`, so an `AttributeError` escapes | The docstring (lines 26-27) says a response that is not in the expected format raises `ValueError` | high; not executed | `QueryExtractor.NonObjectIsNotValueError` | `QueryExtractor.ExtractQueriesAsDocumented` |
