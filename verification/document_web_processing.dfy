/** The scoring version of `search_in_file`: every chunk retrieved for any
    query is scored against one embedding of all the queries joined together;
    the first chunk reaching the highest score is kept, and it is accepted
    only when that score is strictly above 0.4. Embeddings and cosine
    similarity are the oracle `sim(fullQuery, chunkText)`. */
module DocumentWebProcessing {

  import opened Base
  import opened FileIndex

  const ACCEPT_THRESHOLD: real := 0.4

  /** `best_score = -1` before anything is scored. */
  const INITIAL_BEST_SCORE: real := -1.0

  /** `(prompt, sources, similarity_score)` */
  datatype FileAnswer = FileAnswer(prompt: string, sources: string, score: real)

  /** `" ".join(queries)`, the text whose embedding every chunk is scored
      against. */
  function FullQuery(queries: seq<string>): (r: string)
    ensures queries == [] ==> r == ""
    ensures |queries| == 1 ==> r == queries[0]
  {
    Join(queries, " ")
  }

  /** The chunks scored, in scoring order, when the queries `qs` are
      searched one after the other: up to four per query. */
  function Candidates(index: string -> seq<Document>, qs: seq<string>): (c: seq<Document>)
    ensures |c| <= RETRIEVE_K * |qs|
  {
    if |qs| == 0 then []
    else Candidates(index, qs[..|qs| - 1]) + Retrieve(index, qs[|qs| - 1])
  }

  /** `calculate_similarity(query_embedding, embed(doc.page_content))` */
  function Score(sim: (string, string) -> real, fullQuery: string, d: Document): real
  {
    sim(fullQuery, d.pageContent)
  }

  /** Chunk `i` has the highest score among `c`, and no earlier chunk has
      that score. */
  predicate IsFirstBest(sim: (string, string) -> real, fullQuery: string, c: seq<Document>, i: int)
  {
    && 0 <= i < |c|
    && (forall j :: 0 <= j < |c| ==> Score(sim, fullQuery, c[j]) <= Score(sim, fullQuery, c[i]))
    && (forall j :: 0 <= j < i ==> Score(sim, fullQuery, c[j]) < Score(sim, fullQuery, c[i]))
  }

  /** The triple returned for an accepted chunk. */
  function Answer(d: Document, fullQuery: string, score: real): (r: FileAnswer)
    ensures r.score == score
    ensures |r.prompt| == |ANSWER_HEADER| + |d.pageContent| + |QUESTION_LABEL| + |fullQuery|
    ensures r.prompt[..|ANSWER_HEADER|] == ANSWER_HEADER
    ensures r.prompt[|ANSWER_HEADER|..|ANSWER_HEADER| + |d.pageContent|] == d.pageContent
    ensures r.prompt[|r.prompt| - |QUESTION_LABEL| - |fullQuery|..] == QUESTION_LABEL + fullQuery
    ensures r.sources == SOURCE_LABEL + SourceOrUnknown(d)
  {
    AnswerPromptEmbeds(d.pageContent, fullQuery);
    FileAnswer(AnswerPrompt(d.pageContent, fullQuery), SourceLine(d), score)
  }

  /** The state of `best_result` / `best_score` after the chunks `seen`. */
  predicate BestSoFar(sim: (string, string) -> real, fullQuery: string, seen: seq<Document>,
                      best: Option<Document>, bestScore: real, bestAt: nat)
  {
    match best
    case None =>
      bestScore == INITIAL_BEST_SCORE
      && forall j :: 0 <= j < |seen| ==> Score(sim, fullQuery, seen[j]) <= INITIAL_BEST_SCORE
    case Some(d) =>
      IsFirstBest(sim, fullQuery, seen, bestAt) && d == seen[bestAt]
      && bestScore == Score(sim, fullQuery, d) && bestScore > INITIAL_BEST_SCORE
  }

  /** `search_in_file(queries, file_path, embedding_function, timeout)` once
      the file is indexed. The answer is decided by the chunks retrieved for
      the queries searched before the time check broke the loop: none when no
      such chunk scores above 0.4, otherwise the first best one. */
  method SearchInFile(queries: seq<string>, index: string -> seq<Document>,
                      sim: (string, string) -> real, clock: nat -> real, timeout: real)
    returns (r: Option<FileAnswer>)
    ensures var fq := FullQuery(queries);
      var c := Candidates(index, queries[..Attempted(clock, timeout, |queries|)]);
      && (r.None? <==> forall j :: 0 <= j < |c| ==> Score(sim, fq, c[j]) <= ACCEPT_THRESHOLD)
      && (r.Some? ==> exists i :: IsFirstBest(sim, fq, c, i) && r.value == Answer(c[i], fq, Score(sim, fq, c[i])))
    ensures r.Some? ==> r.value.score > ACCEPT_THRESHOLD
    ensures queries == [] || TimedOut(clock, timeout, 0) ==> r.None?
  {
    var fullQuery := FullQuery(queries);
    var start := clock(0);
    var bestResult: Option<Document> := None;
    var bestScore := INITIAL_BEST_SCORE;
    ghost var seen: seq<Document> := [];
    ghost var bestAt: nat := 0;
    var i := 0;
    while i < |queries|
      invariant 0 <= i <= |queries|
      invariant forall j :: 0 <= j < i ==> !TimedOut(clock, timeout, j)
      invariant seen == Candidates(index, queries[..i])
      invariant BestSoFar(sim, fullQuery, seen, bestResult, bestScore, bestAt)
    {
      if clock(i + 1) - start > timeout {
        break;
      }
      var results := Retrieve(index, queries[i]);
      var k := 0;
      while k < |results|
        invariant 0 <= k <= |results|
        invariant seen == Candidates(index, queries[..i]) + results[..k]
        invariant BestSoFar(sim, fullQuery, seen, bestResult, bestScore, bestAt)
      {
        var doc := results[k];
        var score := sim(fullQuery, doc.pageContent);
        if score > bestScore {
          bestScore := score;
          bestResult := Some(doc);
          bestAt := |seen|;
        }
        seen := seen + [doc];
        assert results[..k + 1] == results[..k] + [doc];
        k := k + 1;
      }
      assert queries[..i + 1][..i] == queries[..i];
      assert results[..k] == results;
      i := i + 1;
    }
    AttemptedAt(clock, timeout, |queries|, i);
    if bestResult.Some? && bestScore > ACCEPT_THRESHOLD {
      r := Some(Answer(bestResult.value, fullQuery, bestScore));
    } else {
      r := None;
    }
  }

  /** At most one chunk is the first best, so the answer is determined by the
      scores: re-running with the same index, scores and clock gives the same
      answer. */
  lemma FirstBestIsUnique(sim: (string, string) -> real, fullQuery: string, c: seq<Document>, i: int, j: int)
    requires IsFirstBest(sim, fullQuery, c, i) && IsFirstBest(sim, fullQuery, c, j)
    ensures i == j
  {
    assert Score(sim, fullQuery, c[i]) == Score(sim, fullQuery, c[j]);
  }

  /** Searching more queries only appends chunks: the chunks scored before a
      timeout are a prefix of those scored without one. */
  lemma {:induction false} CandidatesPrefix(index: string -> seq<Document>, qs: seq<string>, n: nat)
    requires n <= |qs|
    ensures var c := Candidates(index, qs);
      var p := Candidates(index, qs[..n]);
      |p| <= |c| && c[..|p|] == p
    decreases |qs|
  {
    if n < |qs| {
      var front := qs[..|qs| - 1];
      assert front[..n] == qs[..n];
      CandidatesPrefix(index, front, n);
    } else {
      assert qs[..n] == qs;
    }
  }
}
