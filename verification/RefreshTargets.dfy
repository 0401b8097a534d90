/** Planning which directories to re-index after a set of files changed. Both copies of the algorithm (the edit
    hook's and the read helper's) collapse the changed paths to targets no target of which lies in another. */
module RefreshTargets {
  import opened Options
  import opened Sequences

  /** An absolute path, by components; a path is below another when that one is a prefix of it. */
  type Path = seq<string>

  datatype Tree = Tree(root: Path, files: set<Path>, directories: set<Path>)

  /** `is_relative_to`. */
  predicate Within(p: Path, ancestor: Path) {
    ancestor <= p
  }

  lemma WithinIsPartialOrder(a: Path, b: Path, c: Path)
    requires Within(c, b) && Within(b, a)
    ensures Within(c, a) && (Within(a, c) ==> a == b == c)
  {
    assert a == b[..|a|] == c[..|b|][..|a|] == c[..|a|];
  }

  function Parent(p: Path): Path {
    if p == [] then [] else p[..|p| - 1]
  }

  /** The target that one changed path asks for: its directory, except that the repository root is never
      refreshed on behalf of a path directly below it; nothing for paths that are gone or lie outside. */
  function Target(t: Tree, p: Path): Option<Path> {
    if p !in t.files && p !in t.directories then None
    else
      var directory := if p in t.directories then p else Parent(p);
      var target := if directory == t.root then p else directory;
      if Within(target, t.root) then Some(target) else None
  }

  function Candidates(t: Tree, paths: seq<Path>): set<Path> {
    set p | p in paths && Target(t, p).Some? :: Target(t, p).value
  }

  /** The candidates that lie below no other candidate. */
  function Topmost(c: set<Path>): set<Path> {
    set x | x in c && forall y :: y in c && Within(x, y) ==> y == x
  }

  predicate PathLe(a: Path, b: Path) {
    a == [] || (b != [] && (if a[0] == b[0] then PathLe(a[1..], b[1..]) else TextLe(a[0], b[0])))
  }

  lemma PathLeTotal(a: Path, b: Path)
    ensures PathLe(a, b) || PathLe(b, a)
    ensures PathLe(a, b) && PathLe(b, a) ==> a == b
  {
    if a != [] && b != [] {
      TextLeTotal(a[0], b[0]);
      PathLeTotal(a[1..], b[1..]);
      assert a == [a[0]] + a[1..] && b == [b[0]] + b[1..];
    }
  }

  lemma PathLeTransitive(a: Path, b: Path, c: Path)
    requires PathLe(a, b) && PathLe(b, c)
    ensures PathLe(a, c)
  {
    if a != [] {
      if a[0] == b[0] == c[0] {
        PathLeTransitive(a[1..], b[1..], c[1..]);
      } else if a[0] != b[0] && b[0] != c[0] {
        TextLeTransitive(a[0], b[0], c[0]);
        TextLeTotal(a[0], b[0]);
      }
    }
  }

  lemma PathLeIsTotalOrder()
    ensures IsTotalOrder(PathLe)
  {
    forall a, b ensures (PathLe(a, b) || PathLe(b, a)) && (PathLe(a, b) && PathLe(b, a) ==> a == b) {
      PathLeTotal(a, b);
    }
    forall a, b, c | PathLe(a, b) && PathLe(b, c) ensures PathLe(a, c) {
      PathLeTransitive(a, b, c);
    }
  }

  function NotBelow(targets: seq<Path>, target: Path): (r: seq<Path>)
    ensures forall x :: x in r <==> x in targets && !Within(x, target)
    ensures NoRepeats(targets) ==> NoRepeats(r)
  {
    if targets == [] then []
    else
      var n := |targets| - 1;
      assert forall x :: x in targets[..n] ==> x in targets;
      var front := NotBelow(targets[..n], target);
      assert NoRepeats(targets) ==> targets[n] !in targets[..n];
      if Within(targets[n], target) then front else front + [targets[n]]
  }

  /** The plan for changed paths: the topmost candidates, each once, in path order. */
  ghost predicate IsPlan(t: Tree, paths: seq<Path>, targets: seq<Path>) {
    NoRepeats(targets) && SortedBy(PathLe, targets) && SeqToSet(targets) == Topmost(Candidates(t, paths))
  }

  method CodegraphRefreshTargets(t: Tree, paths: seq<Path>) returns (result: seq<Path>)
    ensures IsPlan(t, paths, result)
  {
    hide Within, IsPlan, Sort, Topmost, Candidates, NotBelow, NoRepeats, SeqToSet;
    NothingPlanned(t);
    assert paths[..0] == [];
    var targets: seq<Path>, seen: set<Path> := [], {};
    for i := 0 to |paths|
      invariant seen == Candidates(t, paths[..i])
      invariant NoRepeats(targets) && SeqToSet(targets) == Topmost(seen)
    {
      assert paths[..i + 1] == paths[..i] + [paths[i]];
      var path := paths[i];
      CandidatesGrow(t, paths[..i], path);
      if path !in t.files && path !in t.directories {
        continue;
      }
      var target := if path in t.directories then path else Parent(path);
      if target == t.root {
        target := path;
      }
      if !Within(target, t.root) {
        continue;
      }
      if target in seen {
        assert seen + {target} == seen;
        continue;
      }
      TargetAdded(targets, seen, target);
      seen := seen + {target};
      if exists existing :: existing in targets && Within(target, existing) {
        continue;
      }
      targets := NotBelow(targets, target) + [target];
    }
    assert paths[..|paths|] == paths;
    SortedPlan(t, paths, targets);
    result := Sort(PathLe, targets);
  }

  lemma SortedPlan(t: Tree, paths: seq<Path>, targets: seq<Path>)
    requires NoRepeats(targets) && SeqToSet(targets) == Topmost(Candidates(t, paths))
    ensures IsPlan(t, paths, Sort(PathLe, targets))
  {
    hide PathLe, Sort, Topmost, Candidates;
    PathLeIsTotalOrder();
    SortSorts(PathLe, targets);
    SortNoRepeats(PathLe, targets);
    forall x ensures x in SeqToSet(Sort(PathLe, targets)) <==> x in SeqToSet(targets) {
      SortMembers(PathLe, targets, x);
    }
  }

  lemma CandidatesGrow(t: Tree, paths: seq<Path>, p: Path)
    ensures Candidates(t, paths + [p]) ==
            Candidates(t, paths) + (if Target(t, p).Some? then {Target(t, p).value} else {})
  {
    hide Target;
    var added := if Target(t, p).Some? then {Target(t, p).value} else {};
    forall x ensures x in Candidates(t, paths + [p]) <==> x in Candidates(t, paths) + added {
      if x in Candidates(t, paths) {
        var q :| q in paths && Target(t, q) == Some(x);
        assert q in paths + [p];
      }
      assert p in paths + [p];
    }
  }

  lemma NothingPlanned(t: Tree)
    ensures Candidates(t, []) == {} && NoRepeats<Path>([]) && SeqToSet<Path>([]) == Topmost({})
  {
  }

  /** One more target either lies below one that is kept, or takes the place of those below it. */
  lemma TargetAdded(targets: seq<Path>, seen: set<Path>, target: Path)
    requires NoRepeats(targets) && SeqToSet(targets) == Topmost(seen) && target !in seen
    ensures if exists existing :: existing in targets && Within(target, existing) then
        SeqToSet(targets) == Topmost(seen + {target})
      else
        var r := NotBelow(targets, target) + [target];
        NoRepeats(r) && SeqToSet(r) == Topmost(seen + {target})
  {
    hide Within;
    assert forall x :: x in targets <==> x in SeqToSet(targets);
    if exists existing :: existing in targets && Within(target, existing) {
      AddBelow(seen, target);
    } else {
      AddAbove(seen, target);
    }
  }

  /** Every candidate has a topmost one at or above it. */
  lemma {:induction false} CoveredByTopmost(c: set<Path>, x: Path) returns (y: Path)
    requires x in c
    ensures y in Topmost(c) && Within(x, y)
    decreases |x|
  {
    if exists z :: z in c && Within(x, z) && z != x {
      var z :| z in c && Within(x, z) && z != x;
      y := CoveredByTopmost(c, z);
      WithinIsPartialOrder(y, z, x);
    } else {
      y := x;
    }
  }

  lemma AddBelow(c: set<Path>, target: Path)
    requires target !in c && exists y :: y in Topmost(c) && Within(target, y)
    ensures Topmost(c + {target}) == Topmost(c)
  {
    var y :| y in Topmost(c) && Within(target, y);
    forall x | x in Topmost(c) ensures !Within(x, target) {
      if Within(x, target) {
        WithinIsPartialOrder(y, target, x);
      }
    }
  }

  lemma AddAbove(c: set<Path>, target: Path)
    requires target !in c && !exists y :: y in Topmost(c) && Within(target, y)
    ensures Topmost(c + {target}) == (set x | x in Topmost(c) && !Within(x, target)) + {target}
  {
    forall y | y in c ensures !Within(target, y) {
      if Within(target, y) {
        var z := CoveredByTopmost(c, y);
        WithinIsPartialOrder(z, y, target);
      }
    }
  }

  ghost predicate Covers(cover: set<Path>, c: set<Path>) {
    forall x :: x in c ==> exists y :: y in cover && Within(x, y)
  }

  lemma TopmostCovers(c: set<Path>)
    ensures Covers(Topmost(c), c)
  {
    forall x | x in c ensures exists y :: y in Topmost(c) && Within(x, y) {
      var y := CoveredByTopmost(c, x);
    }
  }

  lemma TopmostInEveryCover(c: set<Path>, cover: set<Path>)
    requires cover <= c && Covers(cover, c)
    ensures Topmost(c) <= cover
  {
    hide Within;
  }

  lemma TopmostIsAntichain(c: set<Path>, targets: seq<Path>)
    requires SeqToSet(targets) == Topmost(c)
    ensures forall x, y :: x in targets && y in targets && Within(x, y) ==> x == y
  {
    hide Within;
    forall x, y | x in targets && y in targets && Within(x, y) ensures x == y {
      assert x in SeqToSet(targets) && y in SeqToSet(targets);
    }
  }

  lemma PlanMeans(t: Tree, paths: seq<Path>, targets: seq<Path>)
    requires IsPlan(t, paths, targets)
    ensures NoRepeats(targets) && SeqToSet(targets) == Topmost(Candidates(t, paths))
  {
  }

  /** The plan covers every eligible input's target with elements none of which lies below another; every
      covering subset of the candidates contains it, so none is smaller. */
  lemma PlanIsSmallestCover(t: Tree, paths: seq<Path>, targets: seq<Path>, cover: set<Path>)
    requires IsPlan(t, paths, targets)
    requires cover <= Candidates(t, paths) && Covers(cover, Candidates(t, paths))
    ensures Covers(SeqToSet(targets), Candidates(t, paths))
    ensures forall x, y :: x in targets && y in targets && Within(x, y) ==> x == y
    ensures SeqToSet(targets) <= cover && |targets| <= |cover|
  {
    hide *;
    var c := Candidates(t, paths);
    assert NoRepeats(targets) && SeqToSet(targets) == Topmost(c) by { PlanMeans(t, paths, targets); }
    TopmostCovers(c);
    TopmostInEveryCover(c, cover);
    NoRepeatsSize(targets);
    SubsetSize(SeqToSet(targets), cover);
    TopmostIsAntichain(c, targets);
  }

  /** Neither the order nor the repetition of the changed paths matters. */
  lemma PlanIgnoresOrder(t: Tree, paths: seq<Path>, others: seq<Path>, r: seq<Path>, s: seq<Path>)
    requires SeqToSet(paths) == SeqToSet(others)
    requires IsPlan(t, paths, r) && IsPlan(t, others, s)
    ensures r == s
  {
    forall p ensures p in paths <==> p in others {
      assert p in SeqToSet(paths) <==> p in SeqToSet(others);
    }
    assert Candidates(t, paths) == Candidates(t, others);
    forall x ensures x in r <==> x in s {
      assert x in SeqToSet(r) <==> x in SeqToSet(s);
    }
    SameMembers(r, s);
    PathLeIsTotalOrder();
    SortedUnique(PathLe, r, s);
  }

  /** What a changed path is refreshed by: a directory by itself, a file by its directory, unless that is the root. */
  ghost predicate AsksFor(t: Tree, p: Path, target: Path) {
    && (p in t.files || p in t.directories)
    && target == (if p in t.directories || (p != [] && p[..|p| - 1] == t.root) || p == t.root == [] then p
                  else if p == [] then [] else p[..|p| - 1])
    && t.root <= target
  }

  lemma TargetIs(t: Tree, p: Path, target: Path)
    ensures Target(t, p) == Some(target) <==> AsksFor(t, p, target)
  {
  }

  /** Every changed path that exists inside the root is refreshed, by what it asks for or something above that; and
      nothing is refreshed that no changed path asks for. */
  lemma EveryChangeIsCovered(t: Tree, paths: seq<Path>, targets: seq<Path>, p: Path, target: Path)
    requires IsPlan(t, paths, targets)
    ensures p in paths && AsksFor(t, p, target) ==> exists y :: y in targets && y <= target
    ensures target in targets ==> exists q :: q in paths && AsksFor(t, q, target)
  {
    hide Target, AsksFor, IsPlan, Topmost;
    PlanMeans(t, paths, targets);
    var c := Candidates(t, paths);
    if p in paths && AsksFor(t, p, target) {
      TargetIs(t, p, target);
      var y := CoveredByTopmost(c, target);
      assert y in SeqToSet(targets);
    }
    if target in targets {
      assert target in SeqToSet(targets);
      TopmostAreCandidates(c);
      var q :| q in paths && Target(t, q) == Some(target);
      TargetIs(t, q, target);
    }
  }

  lemma TopmostAreCandidates(c: set<Path>)
    ensures Topmost(c) <= c
  {
  }

  /** Path order: the first component in which two paths differ decides, and a path comes before what lies below it. */
  lemma {:induction false} PathOrder(a: Path, b: Path, k: nat)
    requires k <= |a| && k <= |b| && a[..k] == b[..k]
    ensures k == |a| ==> PathLe(a, b)
    ensures k < |a| && k == |b| ==> !PathLe(a, b)
    ensures k < |a| && k < |b| && a[k] != b[k] ==> (PathLe(a, b) <==> TextLe(a[k], b[k]))
  {
    if k > 0 {
      assert a[0] == a[..k][0] == b[..k][0] == b[0];
      assert a[1..][..k - 1] == a[..k][1..] == b[..k][1..] == b[1..][..k - 1];
      PathOrder(a[1..], b[1..], k - 1);
    }
  }
}
