/** Reordering the head of a semantic shortlist by the scores of a reranker, ties going to the anchor rank and then
    to the earlier candidate. */
module Rerank {
  import opened Options
  import opened Sequences
  import opened SearchMatches

  /** The reranker, if it could be loaded: its scores for a list of candidates, and where they come from. */
  datatype Backend = Backend(modelName: string, scorePairs: (string, seq<VectorMatch>) -> seq<real>, source: string)

  datatype Result = Result(candidates: seq<VectorMatch>, debug: RerankDebug, source: string)

  /** Whether a component of the path is `tests`, in any case. */
  type TestPath = PathText -> bool

  /** `_vector_anchor_rank`. */
  function AnchorRank(m: VectorMatch, isTest: TestPath, allowTests: bool): (int, int) {
    (m.cosineSimilarity, if allowTests || !isTest(m.filePath) then 0 else -1)
  }

  /** The number of leading candidates a Python slice up to `limit` takes; a negative limit counts from the end. */
  function WindowSize(n: nat, limit: int): (w: nat)
    ensures w <= n
  {
    var bound := if n <= limit then n else limit;
    if bound >= 0 then bound else if n + bound >= 0 then n + bound else 0
  }

  function Label(m: VectorMatch): string {
    if m.symbolName != "" then m.symbolName else m.qualifiedName
  }

  function Labels(ms: seq<VectorMatch>): seq<string> {
    seq(|ms|, i requires 0 <= i < |ms| => Label(ms[i]))
  }

  /** A candidate with its sort key. */
  datatype Ranked = Ranked(score: real, rank: (int, int), index: nat, candidate: VectorMatch)

  /** Python's order on the key tuples, read downwards. */
  predicate AtLeast(a: Ranked, b: Ranked) {
    || a.score > b.score
    || (a.score == b.score &&
        (a.rank.0 > b.rank.0 ||
         (a.rank.0 == b.rank.0 &&
          (a.rank.1 > b.rank.1 ||
           (a.rank.1 == b.rank.1 && a.index <= b.index)))))
  }

  function RankedWindow(
    window: seq<VectorMatch>, scores: seq<real>, isTest: TestPath, allowTests: bool): (r: seq<Ranked>)
    requires |scores| == |window|
    ensures |r| == |window|
  {
    seq(|window|, i requires 0 <= i < |window| =>
      Ranked(scores[i], AnchorRank(window[i], isTest, allowTests), i, window[i]))
  }

  function Candidates(rs: seq<Ranked>): (r: seq<VectorMatch>)
    ensures |r| == |rs|
  {
    seq(|rs|, i requires 0 <= i < |rs| => rs[i].candidate)
  }

  function Reordered(window: seq<VectorMatch>, scores: seq<real>, isTest: TestPath, allowTests: bool): seq<VectorMatch>
    requires |scores| == |window|
  {
    Candidates(Sort(AtLeast, RankedWindow(window, scores, isTest, allowTests)))
  }

  function Rerank(
    query: string, candidates: seq<VectorMatch>, limit: int, backend: Option<Backend>, defaultModel: Option<string>,
    isTest: TestPath, allowTests: bool): Result
  {
    var w := WindowSize(|candidates|, limit);
    var window := candidates[..w];
    var before := Labels(window);
    if |candidates| < 2 then
      Result(candidates, RerankDebug("skipped", None, |candidates|, false, before, before), "heuristic")
    else if backend.None? then
      Result(candidates, RerankDebug("unavailable", defaultModel, |candidates|, false, before, before), "heuristic")
    else
      var b := backend.value;
      var scores := b.scorePairs(query, window);
      if |scores| != |window| then
        Result(candidates,
               RerankDebug("unavailable", Some(b.modelName), |candidates|, false, before, before), "heuristic")
      else
        var ordered := Reordered(window, scores, isTest, allowTests) + candidates[w..];
        var after := Labels(ordered[..w]);
        Result(ordered,
               RerankDebug("applied", Some(b.modelName), |candidates|, before != after, before, after), b.source)
  }

  // ---------------------------------------------------------------- the order

  lemma AtLeastIsPreorder()
    ensures IsTotalPreorder(AtLeast)
  {
  }

  /** Candidate j of the window beats candidate i: by score, then by anchor rank, then by coming earlier. */
  predicate Beats(
    window: seq<VectorMatch>, scores: seq<real>, isTest: TestPath, allowTests: bool, j: nat, i: nat)
    requires |scores| == |window| && i < |window| && j < |window|
  {
    var (cj, tj) := AnchorRank(window[j], isTest, allowTests);
    var (ci, ti) := AnchorRank(window[i], isTest, allowTests);
    if scores[j] != scores[i] then scores[j] > scores[i]
    else if cj != ci then cj > ci
    else if tj != ti then tj > ti
    else j < i
  }

  function Winners(
    window: seq<VectorMatch>, scores: seq<real>, isTest: TestPath, allowTests: bool, i: nat): set<nat>
    requires |scores| == |window| && i < |window|
  {
    set j: nat | j < |window| && Beats(window, scores, isTest, allowTests, j, i)
  }

  lemma RankedRepeatsNothing(window: seq<VectorMatch>, scores: seq<real>, isTest: TestPath, allowTests: bool)
    requires |scores| == |window|
    ensures NoRepeats(RankedWindow(window, scores, isTest, allowTests))
  {
    var r := RankedWindow(window, scores, isTest, allowTests);
    forall i, j | 0 <= i < j < |r| ensures r[i] != r[j] {
      assert r[i].index == i && r[j].index == j;
    }
  }

  lemma AheadIff(window: seq<VectorMatch>, scores: seq<real>, isTest: TestPath, allowTests: bool, i: nat, j: nat)
    requires |scores| == |window| && i < |window| && j < |window|
    ensures RankedWindow(window, scores, isTest, allowTests)[j] in
            Ahead(AtLeast, RankedWindow(window, scores, isTest, allowTests), i) <==>
            j in Winners(window, scores, isTest, allowTests, i)
  {
    hide AnchorRank;
    var r := RankedWindow(window, scores, isTest, allowTests);
    if r[j] in Ahead(AtLeast, r, i) {
      var k :| 0 <= k < |r| && k != i && (if k < i then AtLeast(r[k], r[i]) else !AtLeast(r[i], r[k])) && r[k] == r[j];
      assert r[k].index == k && r[j].index == j;
    }
  }

  lemma AheadAreRanked(r: seq<Ranked>, i: nat)
    requires i < |r| && forall k :: 0 <= k < |r| ==> r[k].index == k
    ensures forall x :: x in Ahead(AtLeast, r, i) ==> x.index < |r| && r[x.index] == x
  {
    hide AtLeast;
  }

  lemma AheadWins(window: seq<VectorMatch>, scores: seq<real>, isTest: TestPath, allowTests: bool, i: nat)
    requires |scores| == |window| && i < |window|
    ensures |Ahead(AtLeast, RankedWindow(window, scores, isTest, allowTests), i)| ==
            |Winners(window, scores, isTest, allowTests, i)|
  {
    var r := RankedWindow(window, scores, isTest, allowTests);
    var ahead, winners := Ahead(AtLeast, r, i), Winners(window, scores, isTest, allowTests, i);
    assert forall k :: 0 <= k < |r| ==> r[k].index == k;
    AheadAreRanked(r, i);
    hide RankedWindow, Ahead, Beats;
    forall j: nat | j < |window| ensures r[j] in ahead <==> j in winners {
      AheadIff(window, scores, isTest, allowTests, i, j);
    }
    forall j ensures j in winners <==> exists x :: x in ahead && x.index == j {
      assert j in winners ==> r[j] in ahead && r[j].index == j;
    }
    assert (set x | x in ahead :: x.index) == winners;
    IndexesCount(ahead);
  }

  lemma {:induction false} IndexesCount(s: set<Ranked>)
    requires forall x, y :: x in s && y in s && x.index == y.index ==> x == y
    ensures |set x | x in s :: x.index| == |s|
  {
    if x :| x in s {
      IndexesCount(s - {x});
      assert (set y | y in s :: y.index) == (set y | y in s - {x} :: y.index) + {x.index};
    }
  }

  /** Where each candidate of the window goes: behind exactly those that beat it. No two go to the same place. */
  lemma EachGoesToItsRank(window: seq<VectorMatch>, scores: seq<real>, isTest: TestPath, allowTests: bool, i: nat)
    requires |scores| == |window| && i < |window|
    ensures var p := |Winners(window, scores, isTest, allowTests, i)|;
      p < |window| && Reordered(window, scores, isTest, allowTests)[p] == window[i]
  {
    hide Sort, AtLeast, AnchorRank, Winners, Ahead, IsTotalPreorder;
    var r := RankedWindow(window, scores, isTest, allowTests);
    var sorted := Sort(AtLeast, r);
    SortMembers(AtLeast, r, r[i]);
    var p :| 0 <= p < |sorted| && sorted[p] == r[i];
    AtLeastIsPreorder();
    RankedRepeatsNothing(window, scores, isTest, allowTests);
    SortRank(AtLeast, r, i, p);
    AheadWins(window, scores, isTest, allowTests, i);
  }

  lemma RanksDiffer(window: seq<VectorMatch>, scores: seq<real>, isTest: TestPath, allowTests: bool, i: nat, j: nat)
    requires |scores| == |window| && i < |window| && j < |window| && i != j
    ensures Beats(window, scores, isTest, allowTests, i, j) <==> !Beats(window, scores, isTest, allowTests, j, i)
    ensures Beats(window, scores, isTest, allowTests, i, j) ==>
      |Winners(window, scores, isTest, allowTests, i)| < |Winners(window, scores, isTest, allowTests, j)|
  {
    hide AnchorRank;
    if Beats(window, scores, isTest, allowTests, i, j) {
      var a := Winners(window, scores, isTest, allowTests, i);
      var b := Winners(window, scores, isTest, allowTests, j);
      assert a <= b - {i};
      SubsetSize(a, b - {i});
    }
  }

  lemma WithoutOne<T>(s: seq<T>, k: nat)
    requires k < |s|
    ensures multiset(s) == multiset(s[..k] + s[k + 1..]) + multiset{s[k]}
    ensures multiset(s[..k] + s[k + 1..]) == multiset(s) - multiset{s[k]}
  {
    assert s == s[..k] + [s[k]] + s[k + 1..];
  }

  lemma CandidatesWithoutOne(s: seq<Ranked>, k: nat)
    requires k < |s|
    ensures multiset(Candidates(s)) == multiset(Candidates(s[..k] + s[k + 1..])) + multiset{s[k].candidate}
  {
    WithoutOne(Candidates(s), k);
    assert Candidates(s[..k] + s[k + 1..]) == Candidates(s)[..k] + Candidates(s)[k + 1..];
  }

  lemma TakeAway<T>(a: seq<T>, b: seq<T>) returns (k: nat)
    requires multiset(a) == multiset(b) && a != []
    ensures k < |b| && b[k] == a[0]
    ensures multiset(a[..0] + a[1..]) == multiset(b[..k] + b[k + 1..])
  {
    assert a[0] in multiset(b);
    k :| 0 <= k < |b| && b[k] == a[0];
    WithoutOne(a, 0);
    WithoutOne(b, k);
  }

  lemma {:induction false} SameCandidates(a: seq<Ranked>, b: seq<Ranked>)
    requires multiset(a) == multiset(b)
    ensures multiset(Candidates(a)) == multiset(Candidates(b))
    decreases |a|
  {
    if a == [] {
      assert |multiset(b)| == 0;
      assert b == [];
    } else {
      hide Candidates;
      var k := TakeAway(a, b);
      SameCandidates(a[..0] + a[1..], b[..k] + b[k + 1..]);
      CandidatesWithoutOne(a, 0);
      CandidatesWithoutOne(b, k);
    }
  }

  /** Reranking only rearranges the window: nothing is added, lost or duplicated, and what follows the window stays
      where it was. Without usable scores nothing moves at all. */
  lemma RerankRearrangesWindow(
    query: string, candidates: seq<VectorMatch>, limit: int, backend: Option<Backend>, defaultModel: Option<string>,
    isTest: TestPath, allowTests: bool)
    ensures var r := Rerank(query, candidates, limit, backend, defaultModel, isTest, allowTests);
      var w := WindowSize(|candidates|, limit);
      && |r.candidates| == |candidates|
      && r.candidates[w..] == candidates[w..]
      && multiset(r.candidates[..w]) == multiset(candidates[..w])
      && (r.debug.status != "applied" ==> r.candidates == candidates && r.source == "heuristic" && !r.debug.changed)
      && (r.debug.changed ==> r.candidates != candidates)
      && r.debug.beforeSymbols == Labels(candidates[..w]) && r.debug.afterSymbols == Labels(r.candidates[..w])
  {
    hide Sort, AtLeast, AnchorRank, Labels;
    var w := WindowSize(|candidates|, limit);
    var window := candidates[..w];
    if |candidates| >= 2 && backend.Some? && |backend.value.scorePairs(query, window)| == w {
      var ranked := RankedWindow(window, backend.value.scorePairs(query, window), isTest, allowTests);
      SameCandidates(Sort(AtLeast, ranked), ranked);
      assert Candidates(ranked) == window;
    }
  }

  /** The reranker scores each candidate by itself. */
  ghost predicate ScoresEach(b: Backend, query: string, score: VectorMatch -> real) {
    forall ms :: b.scorePairs(query, ms) == seq(|ms|, i requires 0 <= i < |ms| => score(ms[i]))
  }

  lemma SortedByScores(window: seq<VectorMatch>, scores: seq<real>, isTest: TestPath, allowTests: bool,
                       score: VectorMatch -> real)
    requires |scores| == |window| && forall i :: 0 <= i < |window| ==> scores[i] == score(window[i])
    ensures var again := Reordered(window, scores, isTest, allowTests);
      var scores' := seq(|again|, i requires 0 <= i < |again| => score(again[i]));
      SortedBy(AtLeast, RankedWindow(again, scores', isTest, allowTests))
  {
    hide Sort, AnchorRank;
    var r := RankedWindow(window, scores, isTest, allowTests);
    var sorted := Sort(AtLeast, r);
    AtLeastIsPreorder();
    SortSorts(AtLeast, r);
    forall p | 0 <= p < |sorted|
      ensures sorted[p].score == score(sorted[p].candidate)
      ensures sorted[p].rank == AnchorRank(sorted[p].candidate, isTest, allowTests)
    {
      SortMembers(AtLeast, r, sorted[p]);
      var i :| 0 <= i < |r| && r[i] == sorted[p];
    }
  }

  /** Reranking what was reranked changes nothing, when each candidate is scored by itself. */
  lemma RerankTwice(
    query: string, candidates: seq<VectorMatch>, limit: int, b: Backend, defaultModel: Option<string>,
    isTest: TestPath, allowTests: bool, score: VectorMatch -> real)
    requires ScoresEach(b, query, score)
    ensures var once := Rerank(query, candidates, limit, Some(b), defaultModel, isTest, allowTests);
      var twice := Rerank(query, once.candidates, limit, Some(b), defaultModel, isTest, allowTests);
      twice.candidates == once.candidates && !twice.debug.changed
  {
    hide Sort, AtLeast, AnchorRank, Labels;
    RerankRearrangesWindow(query, candidates, limit, Some(b), defaultModel, isTest, allowTests);
    var once := Rerank(query, candidates, limit, Some(b), defaultModel, isTest, allowTests);
    var w := WindowSize(|candidates|, limit);
    if |candidates| >= 2 {
      var window := candidates[..w];
      var scores := b.scorePairs(query, window);
      var again := Reordered(window, scores, isTest, allowTests);
      assert once.candidates[..w] == again;
      var scores' := b.scorePairs(query, again);
      SortedByScores(window, scores, isTest, allowTests, score);
      AtLeastIsPreorder();
      var ranked := RankedWindow(again, scores', isTest, allowTests);
      SortedStays(AtLeast, ranked);
      assert Candidates(ranked) == again;
      assert once.candidates == again + once.candidates[w..];
    }
  }

  // ---------------------------------------------------------------- what reranking does to a shortlist

  /** The number of candidates of a list that a slice up to `limit` takes in Python. */
  lemma WindowIs(n: nat, limit: int)
    ensures n <= limit ==> WindowSize(n, limit) == n
    ensures 0 <= limit <= n ==> WindowSize(n, limit) == limit
    ensures limit < 0 <= n + limit ==> WindowSize(n, limit) == n + limit
    ensures n + limit < 0 ==> WindowSize(n, limit) == 0
  {
  }

  /** The window is the first `limit` candidates, or all but the last `-limit` ones for a negative limit. With two
      candidates or more and a score for each of the window, reranking takes place: every candidate of the
      window stands behind exactly those that beat it, and the report says so. Otherwise the list stays as it was,
      with the reason. */
  lemma RerankPutsInOrder(
    query: string, candidates: seq<VectorMatch>, limit: int, backend: Option<Backend>, defaultModel: Option<string>,
    isTest: TestPath, allowTests: bool)
    ensures var n := |candidates|;
      var w := if n <= limit then n else if limit >= 0 then limit else if n + limit >= 0 then n + limit else 0;
      var window := candidates[..w];
      var r := Rerank(query, candidates, limit, backend, defaultModel, isTest, allowTests);
      if |candidates| >= 2 && backend.Some? && |backend.value.scorePairs(query, window)| == w then
        && r.debug.status == "applied" && r.debug.modelName == Some(backend.value.modelName)
        && r.source == backend.value.source && |r.candidates| == |candidates|
        && (forall i :: 0 <= i < w ==>
              var p := |Winners(window, backend.value.scorePairs(query, window), isTest, allowTests, i)|;
              p < w && r.candidates[p] == candidates[i])
        && (forall i :: w <= i < |candidates| ==> r.candidates[i] == candidates[i])
      else
        && r.candidates == candidates && r.source == "heuristic"
        && r.debug.status == (if |candidates| < 2 then "skipped" else "unavailable")
        && r.debug.modelName ==
           (if |candidates| < 2 then None
            else if backend.Some? then Some(backend.value.modelName) else defaultModel)
  {
    hide Sort, AtLeast, AnchorRank, Labels, Winners, RankedWindow;
    WindowIs(|candidates|, limit);
    var w := WindowSize(|candidates|, limit);
    var window := candidates[..w];
    if |candidates| >= 2 && backend.Some? && |backend.value.scorePairs(query, window)| == w {
      var scores := backend.value.scorePairs(query, window);
      hide Reordered;
      forall i | 0 <= i < w
        ensures var p := |Winners(window, scores, isTest, allowTests, i)|;
          p < w && Reordered(window, scores, isTest, allowTests)[p] == window[i]
      {
        EachGoesToItsRank(window, scores, isTest, allowTests, i);
      }
    }
  }

  /** Of two candidates of the window the one with the higher score stands ahead; with equal scores the more similar
      one; then the one that is not a test, unless tests are welcome; then the one that was ahead. */
  lemma BetterStandsAhead(
    window: seq<VectorMatch>, scores: seq<real>, isTest: TestPath, allowTests: bool, i: nat, j: nat)
    requires |scores| == |window| && i < |window| && j < |window| && i != j
    requires var a, b := window[i], window[j];
      var demoted := (m: VectorMatch) => !allowTests && isTest(m.filePath);
      if scores[i] != scores[j] then scores[i] > scores[j]
      else if a.cosineSimilarity != b.cosineSimilarity then a.cosineSimilarity > b.cosineSimilarity
      else if demoted(a) != demoted(b) then demoted(b)
      else i < j
    ensures |Winners(window, scores, isTest, allowTests, i)| < |Winners(window, scores, isTest, allowTests, j)|
  {
    RanksDiffer(window, scores, isTest, allowTests, i, j);
    hide Winners;
  }

  /** The diagnostics: the names shown for the window before and after, whether they differ, and the length of the
      whole list. */
  lemma RerankReports(
    query: string, candidates: seq<VectorMatch>, limit: int, backend: Option<Backend>, defaultModel: Option<string>,
    isTest: TestPath, allowTests: bool)
    ensures var r := Rerank(query, candidates, limit, backend, defaultModel, isTest, allowTests);
      var w := WindowSize(|candidates|, limit);
      var shown := (m: VectorMatch) => if m.symbolName != "" then m.symbolName else m.qualifiedName;
      && r.debug.candidateCount == |candidates| == |r.candidates|
      && |r.debug.beforeSymbols| == |r.debug.afterSymbols| == w
      && (forall i :: 0 <= i < w ==> r.debug.beforeSymbols[i] == shown(candidates[i]))
      && (forall i :: 0 <= i < w ==> r.debug.afterSymbols[i] == shown(r.candidates[i]))
      && (r.debug.changed <==> r.debug.beforeSymbols != r.debug.afterSymbols)
  {
    RerankRearrangesWindow(query, candidates, limit, backend, defaultModel, isTest, allowTests);
    hide Reordered, WindowSize;
  }
}
