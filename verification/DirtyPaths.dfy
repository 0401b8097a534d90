/** Which paths git reports as changed, remembered per requested scope; a scope asked for after the whole
    repository is answered by filtering the remembered listing instead of asking git again. */
module DirtyPaths {
  import opened Options
  import opened Sequences
  import opened Text
  import VectorTrust

  type Scope = seq<string>

  /** A Python set: callers get one of their own and may change it. */
  class PathSet {
    var items: set<string>

    constructor (initial: set<string>)
      ensures items == initial
    {
      items := initial;
    }
  }

  /** A working tree as git lists it. `listed` holds the changed and untracked paths that get an entry of their
      own; a directory without tracked files gets a single entry, ending in a slash, for the files in it. A scope
      inside such a directory is listed by entries further down, `inside`. */
  datatype Tree = Tree(listed: set<string>, folded: map<string, set<string>>, inside: (string, Scope) -> set<string>)

  /** The path is one of the scope's, or below one of them. */
  predicate Under(path: string, scopePath: string) {
    path == scopePath || StartsWith(path, VectorTrust.StripSlashes(scopePath) + "/")
  }

  predicate InScope(path: string, scope: Scope) {
    exists i :: 0 <= i < |scope| && Under(path, scope[i])
  }

  function Filter(paths: set<string>, scope: Scope): set<string> {
    set p | p in paths && InScope(p, scope)
  }

  function Everything(t: Tree): set<string> {
    t.listed + t.folded.Keys
  }

  /** A folded directory lies above the scope, so that its entry is not in scope, but untracked files in it are. */
  predicate Hides(t: Tree, folder: string, scope: Scope) {
    folder in t.folded && !InScope(folder, scope) && exists f :: f in t.folded[folder] && InScope(f, scope)
  }

  /** Git's own answer; the empty scope asks for the whole repository. */
  function Listing(t: Tree, scope: Scope): set<string> {
    if scope == [] then Everything(t)
    else Filter(Everything(t), scope) + set d, p | d in t.folded && Hides(t, d, scope) && p in t.inside(d, scope) :: p
  }

  /** A scope that a folded directory hides gets entries of its own, none of which the full listing has. */
  ghost predicate IsTree(t: Tree) {
    forall d, scope :: d in t.folded && Hides(t, d, scope) ==>
      t.inside(d, scope) != {} && t.inside(d, scope) !! Everything(t)
  }

  function Dedup(paths: seq<string>): Scope {
    if paths == [] then []
    else
      var r := Dedup(paths[..|paths| - 1]);
      if paths[|paths| - 1] in r then r else r + [paths[|paths| - 1]]
  }

  /** None stands for a probe that failed. */
  type Answers = map<Scope, Option<set<string>>>

  datatype Query = Query(paths: seq<string>, gitRuns: bool)

  function Answer(c: Answers, t: Tree, q: Query): Option<set<string>> {
    var key := Dedup(q.paths);
    if key in c then c[key]
    else if key != [] && [] in c then
      if c[[]].None? then None else Some(Filter(c[[]].value, key))
    else if q.gitRuns then Some(Listing(t, key))
    else None
  }

  function After(c: Answers, t: Tree, q: Query): Answers {
    var key := Dedup(q.paths);
    if key in c || (key != [] && [] in c && c[[]].None?) then c else c[key := Answer(c, t, q)]
  }

  function AfterAll(t: Tree, queries: seq<Query>): Answers
    decreases |queries|
  {
    if queries == [] then map[]
    else After(AfterAll(t, queries[..|queries| - 1]), t, queries[|queries| - 1])
  }

  class Cache {
    var entries: map<Scope, PathSet?>

    constructor ()
      ensures entries == map[]
    {
      entries := map[];
    }

    /** No two scopes share a set object. */
    ghost predicate Valid()
      reads this
    {
      forall k, l :: k in entries && l in entries && k != l && entries[k] != null ==> entries[k] != entries[l]
    }

    ghost function Objects(): set<object>
      reads this
    {
      set k | k in entries && entries[k] != null :: entries[k]
    }

    ghost function View(): Answers
      reads this, Objects()
    {
      map k | k in entries :: if entries[k] == null then None else Some(entries[k].items)
    }

    /** Keeps one copy and hands out another. */
    method Remember(key: Scope, paths: set<string>) returns (r: PathSet)
      requires Valid()
      modifies this
      ensures Valid() && View() == old(View())[key := Some(paths)]
      ensures fresh(Objects() - old(Objects()))
      ensures fresh(r) && r !in Objects() && r.items == paths
    {
      var kept := new PathSet(paths);
      r := new PathSet(kept.items);
      entries := entries[key := kept];
    }

    /** The answer is the caller's own copy: the cache keeps no reference to it. */
    method DirtyPaths(q: Query, t: Tree) returns (r: PathSet?)
      requires Valid()
      modifies this
      ensures Valid() && View() == After(old(View()), t, q)
      ensures fresh(Objects() - old(Objects()))
      ensures r != null ==> fresh(r) && r !in Objects()
      ensures Answer(old(View()), t, q) == if r == null then None else Some(r.items)
    {
      hide Listing, Filter, Dedup;
      var key := Dedup(q.paths);
      if key in entries {
        var cached := entries[key];
        if cached == null {
          return null;
        }
        r := new PathSet(cached.items);
        return;
      }
      if key != [] && [] in entries {
        var all := entries[[]];
        if all == null {
          return null;
        }
        r := Remember(key, Filter(all.items, key));
        return;
      }
      if !q.gitRuns {
        entries := entries[key := null];
        return null;
      }
      r := Remember(key, Listing(t, key));
    }
  }

  lemma NothingAsked(t: Tree)
    ensures AfterAll(t, []) == map[]
  {
  }

  lemma AskedOneMore(t: Tree, queries: seq<Query>, n: nat)
    requires n < |queries|
    ensures AfterAll(t, queries[..n + 1]) == After(AfterAll(t, queries[..n]), t, queries[n])
  {
    hide After;
    assert queries[..n + 1][..n] == queries[..n];
  }

  method RewriteAll(held: seq<PathSet>, contents: nat -> set<string>)
    modifies held
  {
    var j := 0;
    while j < |held| {
      held[j].items := contents(j);
      j := j + 1;
    }
  }

  /** Any queries, with the callers rewriting every set they were ever given after each of them. */
  method Session(queries: seq<Query>, t: Tree, rewrite: (nat, nat) -> set<string>)
    returns (answers: seq<Option<set<string>>>)
    ensures |answers| == |queries|
    ensures forall i :: 0 <= i < |queries| ==> answers[i] == Answer(AfterAll(t, queries[..i]), t, queries[i])
  {
    hide After, Answer, AfterAll;
    NothingAsked(t);
    var cache := new Cache();
    var held: seq<PathSet> := [];
    answers := [];
    var n := 0;
    assert queries[..0] == [];
    while n < |queries|
      invariant 0 <= n <= |queries| && |answers| == n
      invariant cache.Valid() && cache.View() == AfterAll(t, queries[..n])
      invariant fresh(cache) && fresh(cache.Objects())
      invariant forall h :: h in held ==> fresh(h) && h !in cache.Objects()
      invariant forall i :: 0 <= i < n ==> answers[i] == Answer(AfterAll(t, queries[..i]), t, queries[i])
    {
      var r := cache.DirtyPaths(queries[n], t);
      answers := answers + [if r == null then None else Some(r.items)];
      if r != null {
        held := held + [r];
      }
      RewriteAll(held, (j: nat) => rewrite(n, j));
      AskedOneMore(t, queries, n);
      n := n + 1;
    }
    assert queries[..n] == queries;
  }

  // ---------------------------------------------------------------- the cache against git

  lemma {:induction false} DedupMembers(paths: seq<string>)
    ensures NoRepeats(Dedup(paths))
    ensures forall p :: p in Dedup(paths) <==> p in paths
    ensures Dedup(paths) == [] <==> paths == []
    ensures Dedup(Dedup(paths)) == Dedup(paths)
    decreases |paths|
  {
    if paths != [] {
      var n := |paths| - 1;
      DedupMembers(paths[..n]);
      assert paths == paths[..n] + [paths[n]];
      DedupDistinct(Dedup(paths));
    }
  }

  lemma {:induction false} DedupDistinct(paths: seq<string>)
    requires NoRepeats(paths)
    ensures Dedup(paths) == paths
    decreases |paths|
  {
    if paths != [] {
      var n := |paths| - 1;
      DedupDistinct(paths[..n]);
      assert paths == paths[..n] + [paths[n]];
    }
  }

  lemma SameScope(paths: seq<string>)
    ensures forall p :: InScope(p, Dedup(paths)) <==> InScope(p, paths)
  {
    hide Dedup, Under;
    DedupMembers(paths);
    var key := Dedup(paths);
    forall p ensures InScope(p, key) <==> InScope(p, paths) {
      if i :| 0 <= i < |key| && Under(p, key[i]) {
        assert key[i] in paths;
      }
      if i :| 0 <= i < |paths| && Under(p, paths[i]) {
        assert paths[i] in key;
      }
    }
  }

  /** What is remembered is git's listing, the filter of the whole repository's listing, or a failed probe. */
  ghost predicate Faithful(c: Answers, t: Tree) {
    forall k :: k in c && c[k].Some? ==>
      c[k].value == Listing(t, k) || (k != [] && c[k].value == Filter(Everything(t), k))
  }

  lemma {:induction false} RememberedAnswers(t: Tree, queries: seq<Query>)
    ensures Faithful(AfterAll(t, queries), t)
    decreases |queries|
  {
    hide Dedup, InScope;
    if queries != [] {
      RememberedAnswers(t, queries[..|queries| - 1]);
    }
  }

  /** Whatever was asked before, the answer is git's own listing or the filter of the full one. */
  lemma AnswerIsListingOrFilter(t: Tree, earlier: seq<Query>, q: Query)
    ensures var key := Dedup(q.paths); var r := Answer(AfterAll(t, earlier), t, q);
      r == None || r == Some(Listing(t, key)) || (key != [] && r == Some(Filter(Everything(t), key)))
  {
    hide Dedup, InScope;
    RememberedAnswers(t, earlier);
  }

  lemma HiddenEntries(t: Tree, scope: Scope)
    requires IsTree(t) && scope != []
    ensures Listing(t, scope) == Filter(Everything(t), scope) <==> forall d :: !Hides(t, d, scope)
  {
    hide InScope, Hides;
    if d :| Hides(t, d, scope) {
      assert d in t.folded by {
        HidingIsFolded(t, d, scope);
      }
      var p :| p in t.inside(d, scope);
      assert p in Listing(t, scope) && p !in Filter(Everything(t), scope);
    }
  }

  lemma HidingIsFolded(t: Tree, d: string, scope: Scope)
    requires Hides(t, d, scope)
    ensures d in t.folded
  {
  }

  ghost predicate AnsweredByGit(t: Tree, earlier: seq<Query>, q: Query) {
    Answer(AfterAll(t, earlier), t, q) in {None, Some(Listing(t, Dedup(q.paths)))}
  }

  /** Reusing the full listing is sound for a scope exactly if the scope does not lie inside a directory that git
      lists by a single entry: then, and only then, every answer there is equals git's, whatever was asked before. */
  lemma CoherentIffNothingHidden(t: Tree, q: Query)
    requires IsTree(t) && q.paths != []
    ensures (forall earlier :: AnsweredByGit(t, earlier, q)) <==> forall d :: !Hides(t, d, q.paths)
  {
    hide Dedup, Listing, Filter, InScope;
    DedupMembers(q.paths);
    HiddenEntries(t, Dedup(q.paths));
    HidesSame(t, q.paths);
    if Listing(t, Dedup(q.paths)) == Filter(Everything(t), Dedup(q.paths)) {
      forall earlier ensures AnsweredByGit(t, earlier, q) {
        AnswerIsListingOrFilter(t, earlier, q);
      }
    } else {
      AfterTheFullListing(t, q);
      assert !AnsweredByGit(t, [Query([], true)], q);
    }
  }

  lemma HidesSame(t: Tree, paths: seq<string>)
    ensures forall d :: Hides(t, d, Dedup(paths)) <==> Hides(t, d, paths)
  {
    hide Dedup, InScope;
    SameScope(paths);
  }

  lemma AfterTheFullListing(t: Tree, q: Query)
    requires q.paths != []
    ensures Answer(AfterAll(t, [Query([], true)]), t, q) == Some(Filter(Everything(t), Dedup(q.paths)))
  {
    hide Filter, InScope;
    DedupMembers(q.paths);
    var all := Query([], true);
    assert [all][..0] == [];
    assert AfterAll(t, [all]) == After(AfterAll(t, []), t, all);
    assert AfterAll(t, [all]) == map[[] := Some(Everything(t))];
  }

  /** `_has_path_changes`: without an answer, changes are assumed. */
  predicate HasChanges(answer: Option<set<string>>) {
    answer.None? || answer.value != {}
  }

  /** New files in a directory git has never seen count as changes when asked about first, and as no changes once
      the whole repository has been listed, if nothing else in the scope changed. */
  lemma HiddenFilesLookClean(t: Tree, q: Query, d: string)
    requires IsTree(t) && q.paths != [] && q.gitRuns
    requires Hides(t, d, q.paths) && Filter(Everything(t), Dedup(q.paths)) == {}
    ensures HasChanges(Answer(AfterAll(t, []), t, q))
    ensures !HasChanges(Answer(AfterAll(t, [Query([], true)]), t, q))
  {
    hide Dedup, Filter, InScope;
    DedupMembers(q.paths);
    HidesSame(t, q.paths);
    HiddenEntries(t, Dedup(q.paths));
    AfterTheFullListing(t, q);
  }

  /** An answer is missing only if git could not run, for this scope or for the whole repository. */
  lemma {:induction false} MissingOnlyAfterFailure(t: Tree, queries: seq<Query>)
    requires forall i :: 0 <= i < |queries| ==> queries[i].gitRuns
    ensures forall k :: k in AfterAll(t, queries) ==> AfterAll(t, queries)[k].Some?
    ensures forall q: Query :: q.gitRuns ==> Answer(AfterAll(t, queries), t, q).Some?
    decreases |queries|
  {
    hide Dedup, Listing, Filter;
    if queries != [] {
      MissingOnlyAfterFailure(t, queries[..|queries| - 1]);
    }
  }

  // ---------------------------------------------------------------- the split

  /** `candidates` lists the dirty set in any order; the source sorts it first. */
  method SplitDirtyCandidates(paths: seq<string>, candidates: seq<string>)
    returns (inScope: seq<string>, outOfScope: seq<string>)
    requires NoRepeats(candidates)
    ensures SortedBy(TextLe, inScope) && NoRepeats(inScope)
    ensures SortedBy(TextLe, outOfScope) && NoRepeats(outOfScope)
    ensures SeqToSet(inScope) == Filter(SeqToSet(candidates), paths)
    ensures SeqToSet(outOfScope) == SeqToSet(candidates) - Filter(SeqToSet(candidates), paths)
  {
    hide TextLe, Sort, InScope;
    var sorted := Sort(TextLe, candidates);
    TextLeIsTotalOrder();
    SortSorts(TextLe, candidates);
    SortNoRepeats(TextLe, candidates);
    inScope, outOfScope := [], [];
    var n := 0;
    while n < |sorted|
      invariant 0 <= n <= |sorted|
      invariant SortedBy(TextLe, inScope) && NoRepeats(inScope)
      invariant SortedBy(TextLe, outOfScope) && NoRepeats(outOfScope)
      invariant forall x :: x in inScope <==> x in sorted[..n] && InScope(x, paths)
      invariant forall x :: x in outOfScope <==> x in sorted[..n] && !InScope(x, paths)
    {
      var candidate := sorted[n];
      assert forall x :: x in sorted[..n] ==> TextLe(x, candidate) && x != candidate;
      assert sorted[..n + 1] == sorted[..n] + [candidate];
      if InScope(candidate, paths) {
        inScope := inScope + [candidate];
      } else {
        outOfScope := outOfScope + [candidate];
      }
      n := n + 1;
    }
    assert sorted[..n] == sorted;
    forall x ensures x in sorted <==> x in candidates {
      SortMembers(TextLe, candidates, x);
    }
  }

  /** The two halves depend on the dirty set alone, not on the order it is listed in. */
  lemma SplitIsDetermined(a: seq<string>, b: seq<string>)
    requires SortedBy(TextLe, a) && NoRepeats(a) && SortedBy(TextLe, b) && NoRepeats(b)
    requires SeqToSet(a) == SeqToSet(b)
    ensures a == b
  {
    hide TextLe;
    TextLeIsTotalOrder();
    forall x ensures x in a <==> x in b {
      assert x in a <==> x in SeqToSet(a);
      assert x in b <==> x in SeqToSet(b);
    }
    SameMembers(a, b);
    SortedUnique(TextLe, a, b);
  }

  /** The in-scope half of the full listing is git's answer for the same paths, except that no paths mean an empty
      half but the whole repository to git, and except for files hidden in a folded directory. */
  lemma SplitAgreesIff(t: Tree, paths: seq<string>)
    requires IsTree(t)
    ensures Filter(Everything(t), paths) == Listing(t, Dedup(paths)) <==>
            if paths == [] then Everything(t) == {} else forall d :: !Hides(t, d, paths)
  {
    hide Dedup, InScope;
    DedupMembers(paths);
    SameScope(paths);
    HidesSame(t, paths);
    assert Filter(Everything(t), paths) == Filter(Everything(t), Dedup(paths));
    if paths != [] {
      HiddenEntries(t, Dedup(paths));
    } else {
      assert forall p :: !InScope(p, []) by {
        NothingInNoScope();
      }
    }
  }

  lemma NothingInNoScope()
    ensures forall p :: !InScope(p, [])
  {
  }

  /** The textual test is ancestry by components, for a path and a scope path below the root that may both carry
      final slashes. */
  lemma UnderIsAncestry(p: VectorTrust.Components, path: string, s: VectorTrust.Components, scopePath: string)
    requires p != [] && s != [] && VectorTrust.Plain(p) && VectorTrust.Plain(s)
    requires VectorTrust.Spells(path, p) && VectorTrust.Spells(scopePath, s)
    ensures Under(path, scopePath) ==> s <= p
    ensures s < p ==> Under(path, scopePath)
    ensures s == p ==> (Under(path, scopePath) <==> path == scopePath || |path| > |VectorTrust.AsPosix(p)|)
  {
    hide VectorTrust.AsPosix, VectorTrust.Slashed, VectorTrust.StripSlashes;
    VectorTrust.SlashedIsPosix(p);
    VectorTrust.SlashedIsPosix(s);
    var a, b := VectorTrust.AsPosix(p), VectorTrust.AsPosix(s);
    var extra := path[|a|..];
    assert path == a + extra && scopePath == b + scopePath[|b|..];
    VectorTrust.StripSlashesOf(b, scopePath[|b|..]);
    VectorTrust.ScopeAbove(s, p, extra);
    if path == scopePath {
      VectorTrust.StripSlashesOf(a, extra);
      assert a == b;
      VectorTrust.SamePath(s, p, "");
    }
  }

  // ---------------------------------------------------------------- a hidden file

  /** A new directory "n/" with one file, which git lists by "n/a/" when asked about "n/a". */
  const NEW_DIRECTORY := Tree({}, map["n/" := {"n/a/x"}], (d: string, scope: Scope) => {"n/a/"})

  lemma NewDirectoryIsATree()
    ensures IsTree(NEW_DIRECTORY) && Hides(NEW_DIRECTORY, "n/", ["n/a"])
    ensures Filter(Everything(NEW_DIRECTORY), ["n/a"]) == {}
  {
    assert "n/" != "n/a/" by {
      assert |"n/"| != |"n/a/"|;
    }
    assert VectorTrust.StripSlashes("n/a") == "n/a";
    assert "n/a" + "/" == "n/a/" && |"n/a/"| == 4;
    assert "n/a/x"[..4] == "n/a/";
    var scope := ["n/a"];
    assert |"n/"| != |"n/a"|;
    assert !Under("n/", "n/a") && Under("n/a/x", "n/a");
    assert !InScope("n/", scope) && scope[0] == "n/a" && InScope("n/a/x", scope);
  }

  /** Asked about "n/a" first, git reports changes; after a listing of the whole repository there are none. */
  lemma NewDirectoryLooksClean()
    ensures var q := Query(["n/a"], true);
      && HasChanges(Answer(AfterAll(NEW_DIRECTORY, []), NEW_DIRECTORY, q))
      && !HasChanges(Answer(AfterAll(NEW_DIRECTORY, [Query([], true)]), NEW_DIRECTORY, q))
      && !AnsweredByGit(NEW_DIRECTORY, [Query([], true)], q)
  {
    var q := Query(["n/a"], true);
    NewDirectoryIsATree();
    hide Hides, Filter, InScope, AfterAll;
    assert ["n/a"][..0] == [] && Dedup(["n/a"]) == ["n/a"];
    HiddenFilesLookClean(NEW_DIRECTORY, q, "n/");
    AfterTheFullListing(NEW_DIRECTORY, q);
    HiddenEntries(NEW_DIRECTORY, ["n/a"]);
  }

  /** Where git did not run, nothing is known and changes are assumed. */
  lemma UnknownCountsAsChanged(t: Tree, paths: seq<string>)
    ensures HasChanges(Answer(map[], t, Query(paths, false)))
    ensures !HasChanges(Answer(map[], t, Query(paths, true))) <==> Listing(t, Dedup(paths)) == {}
  {
    hide Listing, Dedup;
  }
}
