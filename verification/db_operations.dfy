/** The first-hit version of `search_in_file`, the one the apps import: the
    first query whose similarity search returns anything decides the answer,
    built from all the chunks of that search; nothing is scored. */
module DbOperations {

  import opened Base
  import opened FileIndex

  /** `(prompt, sources)` */
  datatype FileHit = FileHit(prompt: string, sources: string)

  /** `"\n\n".join(page contents)` */
  function HitContext(results: seq<Document>): string
  {
    Join(Contents(results), "\n\n")
  }

  /** `"\n".join(f"Source: ..." for each result)` */
  function SourceLines(results: seq<Document>): (r: seq<string>)
    ensures |r| == |results|
  {
    seq(|results|, i requires 0 <= i < |results| => SourceLine(results[i]))
  }

  /** The pair returned for the chunks `results` of the winning query `q`. */
  function Hit(q: string, results: seq<Document>): (r: FileHit)
    ensures |r.prompt| >= |ANSWER_HEADER| + |QUESTION_LABEL| + |q|
    ensures r.prompt[..|ANSWER_HEADER|] == ANSWER_HEADER
    ensures r.prompt[|r.prompt| - |QUESTION_LABEL| - |q|..] == QUESTION_LABEL + q
    ensures |results| == 1 ==> r.sources == SourceLine(results[0])
  {
    FileHit(AnswerPrompt(HitContext(results), q), Join(SourceLines(results), "\n"))
  }

  /** Query `w` wins: it is searched, its search is the first non-empty one. */
  predicate Wins(queries: seq<string>, index: string -> seq<Document>, a: nat, w: int)
    requires a <= |queries|
  {
    && 0 <= w < a
    && (forall j :: 0 <= j < w ==> Retrieve(index, queries[j]) == [])
    && Retrieve(index, queries[w]) != []
  }

  /** `search_in_file(queries, file_path, embedding_function, timeout)` once
      the file is indexed. */
  method SearchInFile(queries: seq<string>, index: string -> seq<Document>,
                      clock: nat -> real, timeout: real)
    returns (r: Option<FileHit>)
    ensures var a := Attempted(clock, timeout, |queries|);
      && (r.None? <==> forall j :: 0 <= j < a ==> Retrieve(index, queries[j]) == [])
      && (r.Some? ==>
            exists w :: (Wins(queries, index, a, w)
                         && r.value == Hit(queries[w], Retrieve(index, queries[w]))))
  {
    var start := clock(0);
    var i := 0;
    while i < |queries|
      invariant 0 <= i <= |queries|
      invariant forall j :: 0 <= j < i ==> !TimedOut(clock, timeout, j)
      invariant forall j :: 0 <= j < i ==> Retrieve(index, queries[j]) == []
    {
      if clock(i + 1) - start > timeout {
        break;
      }
      var results := Retrieve(index, queries[i]);
      if results != [] {
        var content := Join(Contents(results), "\n\n");
        var sources := Join(SourceLines(results), "\n");
        var prompt := ANSWER_HEADER + content + QUESTION_LABEL + queries[i];
        r := Some(FileHit(prompt, sources));
        assert Attempted(clock, timeout, |queries|) > i;
        assert Wins(queries, index, Attempted(clock, timeout, |queries|), i);
        return;
      }
      i := i + 1;
    }
    AttemptedAt(clock, timeout, |queries|, i);
    r := None;
  }

  /** The sources text has one line per returned chunk, in chunk order, and
      splitting it at line breaks gives back exactly those lines when no
      source holds a line break, whichever query won. */
  lemma SourcesOneLinePerChunk(q: string, results: seq<Document>)
    requires |results| > 0
    requires forall i :: 0 <= i < |results| ==> '\n' !in SourceOrUnknown(results[i])
    ensures var lines := SplitOn(Hit(q, results).sources, '\n');
      && |lines| == |results|
      && forall i :: 0 <= i < |results| ==> lines[i] == SOURCE_LABEL + SourceOrUnknown(results[i])
  {
    var ls := SourceLines(results);
    forall i | 0 <= i < |ls| ensures '\n' !in ls[i] {
      assert ls[i] == SOURCE_LABEL + SourceOrUnknown(results[i]);
    }
    SplitJoin(ls, '\n');
  }

  /** The prompt quotes the winning query alone, after the context of its
      chunks joined by blank lines in retrieval order. */
  lemma HitQuotesWinningQueryOnly(q: string, results: seq<Document>)
    requires |results| > 0
    ensures var p := Hit(q, results).prompt;
      var ctx := HitContext(results);
      && p[|p| - |q|..] == q
      && p[|ANSWER_HEADER|..|ANSWER_HEADER| + |ctx|] == ctx
      && |ctx| == TotalLength(Contents(results)) + (|results| - 1) * 2
  {
    AnswerPromptEmbeds(HitContext(results), q);
    JoinLength(Contents(results), "\n\n");
  }
}
