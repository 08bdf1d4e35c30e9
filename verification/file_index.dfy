/** What the two `search_in_file` versions share: the uploaded file's index
    seen through its similarity search, the prompt wording, and the
    cooperative time budget. Loading, splitting and embedding happen before the clock starts and are not
    modelled; `index(q)` is the index's full ranking of chunks for query `q`. */
module FileIndex {

  import opened Base

  /** `k` of `similarity_search(query, k=4)`. */
  const RETRIEVE_K := 4

  const ANSWER_HEADER := "Use the following information to answer the question:\n\n"
  const QUESTION_LABEL := "\n\nQuestion: "
  const SOURCE_LABEL := "Source: "

  /** `vectorstore.similarity_search(q, k=4)` */
  function Retrieve(index: string -> seq<Document>, q: string): (r: seq<Document>)
    ensures |r| <= RETRIEVE_K && |r| <= |index(q)|
    ensures r == index(q)[..|r|]
    ensures r == [] <==> index(q) == []
  {
    TopK(index(q), RETRIEVE_K)
  }

  /** `f"Source: {doc.metadata.get('source', 'Unknown')}"` */
  function SourceLine(d: Document): (r: string)
    ensures |r| == |SOURCE_LABEL| + |SourceOrUnknown(d)|
    ensures r[..|SOURCE_LABEL|] == SOURCE_LABEL && r[|SOURCE_LABEL|..] == SourceOrUnknown(d)
    ensures d.source.None? ==> r == "Source: Unknown"
  {
    SOURCE_LABEL + SourceOrUnknown(d)
  }

  /** The answer prompt both versions build around some context text and a
      question. */
  function AnswerPrompt(context: string, question: string): (r: string)
    ensures |r| >= |ANSWER_HEADER| + |QUESTION_LABEL| + |question|
    ensures r[..|ANSWER_HEADER|] == ANSWER_HEADER
    ensures r[|r| - |QUESTION_LABEL| - |question|..] == QUESTION_LABEL + question
  {
    ANSWER_HEADER + context + QUESTION_LABEL + question
  }

  /** The prompt starts with the fixed header, then the context verbatim, and
      ends with the question label and the question verbatim. */
  lemma AnswerPromptEmbeds(context: string, question: string)
    ensures var p := AnswerPrompt(context, question);
      var h := |ANSWER_HEADER|;
      && |p| == h + |context| + |QUESTION_LABEL| + |question|
      && p[..h] == ANSWER_HEADER
      && p[h..h + |context|] == context
      && p[h + |context|..|p| - |question|] == QUESTION_LABEL
      && p[|p| - |question|..] == question
  {
    var p := AnswerPrompt(context, question);
    var h := |ANSWER_HEADER|;
    assert p == ANSWER_HEADER + context + QUESTION_LABEL + question;
    assert p[h..h + |context|] == context;
    assert p[h + |context|..|p| - |question|] == QUESTION_LABEL;
  }

  // The clock is a sequence of `time.time()` readings: clock(0) is taken as
  // the search starts, clock(i + 1) just before query i is searched.

  /** The check before query `i` finds the budget spent. */
  predicate TimedOut(clock: nat -> real, timeout: real, i: nat)
  {
    clock(i + 1) - clock(0) > timeout
  }

  /** How many of `n` queries are searched before the time check breaks the
      loop: the first query whose check finds the budget spent, else all. */
  function Attempted(clock: nat -> real, timeout: real, n: nat): (a: nat)
    ensures a <= n
    ensures forall i :: 0 <= i < a ==> !TimedOut(clock, timeout, i)
    ensures a < n ==> TimedOut(clock, timeout, a)
  {
    AttemptedFrom(clock, timeout, n, 0)
  }

  function AttemptedFrom(clock: nat -> real, timeout: real, n: nat, i: nat): (a: nat)
    requires i <= n
    ensures i <= a <= n
    ensures forall j :: i <= j < a ==> !TimedOut(clock, timeout, j)
    ensures a < n ==> TimedOut(clock, timeout, a)
    decreases n - i
  {
    if i == n then n
    else if TimedOut(clock, timeout, i) then i
    else AttemptedFrom(clock, timeout, n, i + 1)
  }

  /** The loop position where the checks passed for every earlier query and
      either all queries are done or the check at this query failed is the
      number of attempted queries. */
  lemma AttemptedAt(clock: nat -> real, timeout: real, n: nat, i: nat)
    requires i <= n
    requires forall j :: 0 <= j < i ==> !TimedOut(clock, timeout, j)
    requires i == n || TimedOut(clock, timeout, i)
    ensures Attempted(clock, timeout, n) == i
  {
  }
}
