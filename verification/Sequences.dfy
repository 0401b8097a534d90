/** Subsequences and stable sorting of sequences. */
module Sequences {
  /** `f` lists, in increasing order, where the elements of `a` sit in `b`. */
  ghost predicate EmbedsVia<T>(a: seq<T>, b: seq<T>, f: seq<nat>) {
    && |f| == |a|
    && (forall i :: 0 <= i < |a| ==> f[i] < |b| && b[f[i]] == a[i])
    && (forall i, j :: 0 <= i < j < |a| ==> f[i] < f[j])
  }

  /** `a` is what is left of `b` after deleting some of its elements. */
  ghost predicate Embeds<T>(a: seq<T>, b: seq<T>) {
    exists f :: EmbedsVia(a, b, f)
  }

  lemma EmbedsSelf<T>(a: seq<T>)
    ensures Embeds(a, a)
  {
    assert EmbedsVia(a, a, seq(|a|, i requires 0 <= i => i));
  }

  lemma EmbedsTransitive<T>(a: seq<T>, b: seq<T>, c: seq<T>)
    requires Embeds(a, b) && Embeds(b, c)
    ensures Embeds(a, c)
  {
    var f :| EmbedsVia(a, b, f);
    var g :| EmbedsVia(b, c, g);
    assert EmbedsVia(a, c, seq(|a|, i requires 0 <= i < |a| => g[f[i]]));
  }

  lemma EmbedsInsert<T>(a: seq<T>, p: nat, block: seq<T>)
    requires p <= |a|
    ensures Embeds(a, a[..p] + block + a[p..])
  {
    var f := seq(|a|, i requires 0 <= i => if i < p then i else i + |block|);
    assert EmbedsVia(a, a[..p] + block + a[p..], f);
  }

  lemma EmbedsCons<T>(x: T, a: seq<T>, b: seq<T>)
    requires Embeds(a, b)
    ensures Embeds([x] + a, [x] + b) && Embeds(a, [x] + b)
  {
    var f :| EmbedsVia(a, b, f);
    var g := seq(|f|, i requires 0 <= i < |f| => f[i] + 1);
    assert EmbedsVia(a, [x] + b, g);
    assert EmbedsVia([x] + a, [x] + b, [0] + g);
  }

  // ---------------------------------------------------------------- sorting

  ghost predicate IsTotalPreorder<T(!new)>(le: (T, T) -> bool) {
    && (forall x, y :: le(x, y) || le(y, x))
    && (forall x, y, z :: le(x, y) && le(y, z) ==> le(x, z))
  }

  ghost predicate IsTotalOrder<T(!new)>(le: (T, T) -> bool) {
    IsTotalPreorder(le) && forall x, y :: le(x, y) && le(y, x) ==> x == y
  }

  ghost predicate SortedBy<T>(le: (T, T) -> bool, s: seq<T>) {
    forall i, j :: 0 <= i < j < |s| ==> le(s[i], s[j])
  }

  /** Where an element goes in a sorted sequence: before those it ties with. */
  function PlaceFor<T>(le: (T, T) -> bool, x: T, s: seq<T>): (m: nat)
    ensures m <= |s| && (forall k :: 0 <= k < m ==> !le(x, s[k])) && (m < |s| ==> le(x, s[m]))
  {
    if s == [] || le(x, s[0]) then 0 else 1 + PlaceFor(le, x, s[1..])
  }

  function InsertInOrder<T>(le: (T, T) -> bool, x: T, s: seq<T>): (r: seq<T>)
    ensures |r| == |s| + 1 && multiset(r) == multiset{x} + multiset(s)
  {
    var m := PlaceFor(le, x, s);
    assert s == s[..m] + s[m..];
    s[..m] + [x] + s[m..]
  }

  /** The built-in stable `sorted`: an element stays before those it ties with. */
  function Sort<T>(le: (T, T) -> bool, s: seq<T>): (r: seq<T>)
    ensures multiset(r) == multiset(s)
    ensures |r| == |s|
  {
    if s == [] then []
    else
      assert s == [s[0]] + s[1..];
      var r := InsertInOrder(le, s[0], Sort(le, s[1..]));
      assert |multiset(r)| == |r| && |multiset(s)| == |s|;
      r
  }

  lemma InsertKeepsOrder<T(!new)>(le: (T, T) -> bool, x: T, s: seq<T>)
    requires IsTotalPreorder(le) && SortedBy(le, s)
    ensures SortedBy(le, InsertInOrder(le, x, s))
  {
    hide PlaceFor;
    var m, r := PlaceFor(le, x, s), InsertInOrder(le, x, s);
    forall i, j | 0 <= i < j < |r| ensures le(r[i], r[j]) {
      assert i < m ==> r[i] == s[i] && le(r[i], x);
      assert m < j ==> r[j] == s[j - 1] && le(s[m], r[j]);
    }
  }

  lemma SortSorts<T(!new)>(le: (T, T) -> bool, s: seq<T>)
    requires IsTotalPreorder(le)
    ensures SortedBy(le, Sort(le, s))
  {
    if s != [] {
      SortSorts(le, s[1..]);
      InsertKeepsOrder(le, s[0], Sort(le, s[1..]));
    }
  }

  lemma SortMembers<T>(le: (T, T) -> bool, s: seq<T>, x: T)
    ensures x in Sort(le, s) <==> x in s
  {
    assert x in Sort(le, s) <==> x in multiset(Sort(le, s));
    assert x in s <==> x in multiset(s);
  }

  lemma LeastComesFirst<T(!new)>(le: (T, T) -> bool, a: seq<T>, b: seq<T>)
    requires IsTotalOrder(le) && SortedBy(le, a) && SortedBy(le, b)
    requires multiset(a) == multiset(b) && a != [] && b != []
    ensures a[0] == b[0]
  {
    assert a[0] in multiset(b) && b[0] in multiset(a);
    var i :| 0 <= i < |b| && b[i] == a[0];
    var j :| 0 <= j < |a| && a[j] == b[0];
    assert le(a[0], a[0]) && le(b[0], b[0]);
    assert le(b[0], b[i]) && le(a[0], a[j]);
  }

  lemma WithoutFirst<T>(a: seq<T>)
    requires a != []
    ensures multiset(a[1..]) == multiset(a) - multiset{a[0]}
  {
    assert a == [a[0]] + a[1..];
  }

  lemma SameLength<T>(a: seq<T>, b: seq<T>)
    requires multiset(a) == multiset(b)
    ensures |a| == |b|
  {
    assert |a| == |multiset(a)| && |b| == |multiset(b)|;
  }

  /** Under a total order only one arrangement of given elements is sorted. */
  lemma {:induction false} SortedUnique<T(!new)>(le: (T, T) -> bool, a: seq<T>, b: seq<T>)
    requires IsTotalOrder(le)
    requires SortedBy(le, a) && SortedBy(le, b) && multiset(a) == multiset(b)
    ensures a == b
  {
    hide IsTotalOrder;
    SameLength(a, b);
    if a != [] {
      LeastComesFirst(le, a, b);
      WithoutFirst(a);
      WithoutFirst(b);
      SortedUnique(le, a[1..], b[1..]);
      assert a == [a[0]] + a[1..] && b == [b[0]] + b[1..];
    }
  }

  predicate NoRepeats<T(==)>(s: seq<T>) {
    forall i, j :: 0 <= i < j < |s| ==> s[i] != s[j]
  }

  function SeqToSet<T>(s: seq<T>): set<T> {
    set x | x in s
  }

  lemma NoRepeatsSize<T>(s: seq<T>)
    requires NoRepeats(s)
    ensures |SeqToSet(s)| == |s|
  {
    if s == [] {
      assert SeqToSet(s) == {};
    } else {
      NoRepeatsSize(s[1..]);
      assert s == [s[0]] + s[1..];
      assert SeqToSet(s) == {s[0]} + SeqToSet(s[1..]);
    }
  }

  lemma SortNoRepeats<T>(le: (T, T) -> bool, s: seq<T>)
    requires NoRepeats(s)
    ensures NoRepeats(Sort(le, s))
  {
    OnceEach(s);
    RepeatCounts(Sort(le, s));
  }

  lemma RepeatCounts<T>(r: seq<T>)
    requires forall x :: multiset(r)[x] <= 1
    ensures NoRepeats(r)
  {
    forall i, j | 0 <= i < j < |r| ensures r[i] != r[j] {
      assert r == r[..j] + r[j..];
      assert r[i] == r[..j][i] && r[j] == r[j..][0];
      assert multiset(r) == multiset(r[..j]) + multiset(r[j..]);
      assert r[i] in multiset(r[..j]) && r[j] in multiset(r[j..]);
      assert multiset(r)[r[i]] == multiset(r[..j])[r[i]] + multiset(r[j..])[r[i]];
    }
  }

  lemma OnceEach<T>(s: seq<T>)
    requires NoRepeats(s)
    ensures forall x :: multiset(s)[x] <= 1
  {
    if s != [] {
      OnceEach(s[1..]);
      assert s == [s[0]] + s[1..];
      assert s[0] !in s[1..];
    }
  }

  /** Duplicate-free sequences with the same members are arrangements of each other. */
  lemma {:induction false} SameMembers<T>(a: seq<T>, b: seq<T>)
    requires NoRepeats(a) && NoRepeats(b)
    requires forall x :: x in a <==> x in b
    ensures multiset(a) == multiset(b)
  {
    OnceEach(a);
    OnceEach(b);
    forall x ensures multiset(a)[x] == multiset(b)[x] {
      assert x in multiset(a) <==> x in a;
      assert x in multiset(b) <==> x in b;
    }
  }

  /** Where an inserted element and the others end up. */
  lemma InsertedAmong<T(!new)>(le: (T, T) -> bool, x: T, r: seq<T>, q: nat) returns (q': nat)
    requires IsTotalPreorder(le) && SortedBy(le, r) && x !in r
    requires q < |InsertInOrder(le, x, r)| && InsertInOrder(le, x, r)[q] != x
    ensures PlaceFor(le, x, r) <= |r| && InsertInOrder(le, x, r)[PlaceFor(le, x, r)] == x
    ensures q' == (if q < PlaceFor(le, x, r) then q else q - 1) && q != PlaceFor(le, x, r)
    ensures q' < |r| && r[q'] == InsertInOrder(le, x, r)[q]
    ensures PlaceFor(le, x, r) < q <==> le(x, r[q'])
  {
    hide PlaceFor;
    var m := PlaceFor(le, x, r);
    q' := if q < m then q else q - 1;
    if m < q {
      assert le(x, r[m]);
      assert q' > m ==> le(r[m], r[q']);
    }
  }

  lemma OnePlace<T>(s: seq<T>, i: nat, j: nat)
    requires NoRepeats(s) && i < |s| && j < |s| && s[i] == s[j]
    ensures i == j
  {
  }

  lemma TailRepeatsNothing<T>(s: seq<T>)
    requires NoRepeats(s) && s != []
    ensures NoRepeats(s[1..]) && s[0] !in s[1..]
  {
  }

  /** Sorting puts the earlier of two elements first exactly if it may come first. */
  lemma {:induction false} SortStable<T(!new)>(le: (T, T) -> bool, s: seq<T>, i: nat, j: nat, p: nat, q: nat)
    requires IsTotalPreorder(le) && NoRepeats(s)
    requires i < j < |s| && p < |s| && q < |s| && Sort(le, s)[p] == s[i] && Sort(le, s)[q] == s[j]
    ensures p < q <==> le(s[i], s[j])
    decreases |s|
  {
    OnePlaceBut(s, i, j);
    hide NoRepeats;
    var x, r := s[0], Sort(le, s[1..]);
    assert Sort(le, s) == InsertInOrder(le, x, r);
    hide Sort, InsertInOrder, PlaceFor, IsTotalPreorder, SortedBy;
    SortSorts(le, s[1..]);
    SortMembers(le, s[1..], x);
    TailRepeatsNothing(s);
    var q' := InsertedAmong(le, x, r, q);
    if i == 0 {
      SortNoRepeats(le, s);
      OnePlace(Sort(le, s), PlaceFor(le, x, r), p);
    } else {
      var p' := InsertedAmong(le, x, r, p);
      SortStable(le, s[1..], i - 1, j - 1, p', q');
    }
  }

  lemma OnePlaceBut<T>(s: seq<T>, i: nat, j: nat)
    requires NoRepeats(s) && i < j < |s|
    ensures s[j] != s[0] && (i > 0 ==> s[i] != s[0])
  {
  }

  /** The elements that a stable sort puts before s[i]. */
  ghost function Ahead<T>(le: (T, T) -> bool, s: seq<T>, i: nat): set<T>
    requires i < |s|
  {
    set j | 0 <= j < |s| && j != i && (if j < i then le(s[j], s[i]) else !le(s[i], s[j])) :: s[j]
  }

  lemma AheadComesFirst<T(!new)>(le: (T, T) -> bool, s: seq<T>, i: nat, j: nat, p: nat, q: nat)
    requires IsTotalPreorder(le) && NoRepeats(s)
    requires i < |s| && j < |s| && p < |s| && q < |s| && Sort(le, s)[p] == s[i] && Sort(le, s)[q] == s[j]
    ensures s[j] in Ahead(le, s, i) <==> q < p
  {
    hide Sort, IsTotalPreorder;
    SortNoRepeats(le, s);
    if i < j {
      SortStable(le, s, i, j, p, q);
    } else if j < i {
      SortStable(le, s, j, i, q, p);
    }
  }

  /** The place of an element after sorting is the number of those ahead of it. */
  lemma SortRank<T(!new)>(le: (T, T) -> bool, s: seq<T>, i: nat, p: nat)
    requires IsTotalPreorder(le) && NoRepeats(s) && i < |s| && p < |s| && Sort(le, s)[p] == s[i]
    ensures Ahead(le, s, i) == SeqToSet(Sort(le, s)[..p]) && |Ahead(le, s, i)| == p
  {
    hide Sort, IsTotalPreorder;
    var r := Sort(le, s);
    SortNoRepeats(le, s);
    forall y ensures y in Ahead(le, s, i) <==> y in r[..p] {
      SortMembers(le, s, y);
      if y in s {
        var j :| 0 <= j < |s| && s[j] == y;
        var q :| 0 <= q < |r| && r[q] == y;
        AheadComesFirst(le, s, i, j, p, q);
        assert q < p ==> r[..p][q] == y;
      }
    }
    NoRepeatsSize(r[..p]);
  }

  lemma {:induction false} SubsetSize<T>(a: set<T>, b: set<T>)
    requires a <= b
    ensures |a| <= |b|
  {
    if x :| x in a {
      SubsetSize(a - {x}, b - {x});
    }
  }

  lemma SortStep<T>(le: (T, T) -> bool, s: seq<T>)
    requires s != []
    ensures Sort(le, s) == InsertInOrder(le, s[0], Sort(le, s[1..]))
  {
    hide InsertInOrder;
  }

  lemma InsertFirst<T>(le: (T, T) -> bool, x: T, s: seq<T>)
    requires s != [] ==> le(x, s[0])
    ensures InsertInOrder(le, x, s) == [x] + s
  {
  }

  lemma {:induction false} SortedStays<T(!new)>(le: (T, T) -> bool, s: seq<T>)
    requires SortedBy(le, s)
    ensures Sort(le, s) == s
  {
    hide InsertInOrder;
    if s != [] {
      SortedStays(le, s[1..]);
      SortStep(le, s);
      hide Sort;
      assert |s| > 1 ==> le(s[0], s[1]);
      InsertFirst(le, s[0], s[1..]);
    }
  }

  // ---------------------------------------------------------------- text order

  /** The order of `str`: by the first differing character, a prefix coming first. */
  predicate TextLe(a: string, b: string) {
    a == "" || (b != "" && (a[0] < b[0] || (a[0] == b[0] && TextLe(a[1..], b[1..]))))
  }

  lemma TextLeTotal(a: string, b: string)
    ensures TextLe(a, b) || TextLe(b, a)
    ensures TextLe(a, b) && TextLe(b, a) ==> a == b
  {
    if a != "" && b != "" {
      TextLeTotal(a[1..], b[1..]);
      assert a == [a[0]] + a[1..] && b == [b[0]] + b[1..];
    }
  }

  lemma TextLeTransitive(a: string, b: string, c: string)
    requires TextLe(a, b) && TextLe(b, c)
    ensures TextLe(a, c)
  {
    if a != "" && a[0] == b[0] == c[0] {
      TextLeTransitive(a[1..], b[1..], c[1..]);
    }
  }

  lemma TextLeIsTotalOrder()
    ensures IsTotalOrder(TextLe)
  {
    forall a, b ensures (TextLe(a, b) || TextLe(b, a)) && (TextLe(a, b) && TextLe(b, a) ==> a == b) {
      TextLeTotal(a, b);
    }
    forall a, b, c | TextLe(a, b) && TextLe(b, c) ensures TextLe(a, c) {
      TextLeTransitive(a, b, c);
    }
  }
}
