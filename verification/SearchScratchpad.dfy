/** The session's store of search results: one JSON object of entries, rewritten whole on every store, bounded to
    the newest entries, and read back under a signature and an age limit. */
module SearchScratchpad {
  import opened Options
  import opened Sequences
  import opened SearchMatches

  /** One member of the `entries` object, in file order. */
  datatype Slot = Slot(key: string, value: Json)

  type Disk = seq<Slot>

  predicate OneEach(slots: seq<Slot>) {
    forall i, j :: 0 <= i < j < |slots| ==> slots[i].key != slots[j].key
  }

  /** Members that are not objects are dropped. */
  function Loaded(disk: Disk): seq<Slot> {
    if disk == [] then []
    else (if disk[0].value.JObject? then [disk[0]] else []) + Loaded(disk[1..])
  }

  function CachedAt(entry: Json): real {
    if entry.JObject? && Real(Get(entry, "cached_at", JNull)).Some? then Real(Get(entry, "cached_at", JNull)).value
    else 0.0
  }

  function Place(slots: seq<Slot>, key: string): (i: nat)
    ensures i <= |slots| && (i < |slots| ==> slots[i].key == key)
    ensures forall j :: 0 <= j < i ==> slots[j].key != key
  {
    if slots == [] || slots[0].key == key then 0 else 1 + Place(slots[1..], key)
  }

  /** Assignment to a dictionary: a known key keeps its place, a new one comes last. */
  function Put(slots: seq<Slot>, key: string, value: Json): seq<Slot> {
    var i := Place(slots, key);
    if i < |slots| then slots[i := Slot(key, value)] else slots + [Slot(key, value)]
  }

  predicate NewerFirst(a: Slot, b: Slot) {
    CachedAt(a.value) >= CachedAt(b.value)
  }

  predicate ByKey(a: Slot, b: Slot) {
    TextLe(a.key, b.key)
  }

  /** The slots that are kept, newest first. A cap that is not positive keeps everything. */
  function Kept(slots: seq<Slot>, cap: int): seq<Slot> {
    var ordered := Sort(NewerFirst, slots);
    if 0 < cap < |ordered| then ordered[..cap] else ordered
  }

  function Persisted(slots: seq<Slot>, cap: int): Disk {
    Sort(ByKey, Kept(slots, cap))
  }

  /** What a caller wants remembered. */
  datatype Result = Result(
    command: string, query: map<string, Json>, signature: string, matches: seq<Json>, rerankDebug: Option<Json>)

  function Entry(r: Result, now: real): Json {
    var fields := map[
      "command" := JString(r.command),
      "query" := JObject(r.query),
      "signature" := JString(r.signature),
      "cached_at" := JReal(now),
      "match_count" := JInt(|r.matches|),
      "matches" := JArray(r.matches)];
    var withDebug := if r.rerankDebug.Some? then fields["rerank_debug" := r.rerankDebug.value] else fields;
    var source := if "rerank_source" in r.query then r.query["rerank_source"] else JNull;
    JObject(if source.JString? && source.text != "" then withDebug["rerank_source" := source] else withDebug)
  }

  function AfterStore(disk: Disk, cap: int, key: string, r: Result, now: real): Disk {
    Persisted(Put(Loaded(disk), key, Entry(r, now)), cap)
  }

  predicate Usable(entry: Json, signature: string, ttl: real, now: real)
    requires entry.JObject?
  {
    && Get(entry, "signature", JNull) == JString(signature)
    && !(ttl > 0.0 && CachedAt(entry) > 0.0 && now - CachedAt(entry) > ttl)
  }

  function Lookup(disk: Disk, key: string, signature: string, ttl: real, now: real): Option<Json> {
    var slots := Loaded(disk);
    var i := Place(slots, key);
    if i < |slots| && slots[i].value.JObject? && Usable(slots[i].value, signature, ttl, now) then Some(slots[i].value)
    else None
  }

  lemma {:induction false} LoadedObjects(disk: Disk)
    ensures forall x :: x in Loaded(disk) <==> x in disk && x.value.JObject?
    ensures (forall x :: x in disk ==> x.value.JObject?) ==> Loaded(disk) == disk
  {
    if disk != [] {
      LoadedObjects(disk[1..]);
      assert disk == [disk[0]] + disk[1..];
    }
  }

  lemma {:induction false} LoadedOneEach(disk: Disk)
    requires OneEach(disk)
    ensures OneEach(Loaded(disk))
  {
    if disk != [] {
      LoadedOneEach(disk[1..]);
      var rest := Loaded(disk[1..]);
      assert forall x :: x in rest ==> x.key != disk[0].key by {
        LoadedObjects(disk[1..]);
      }
      assert forall j :: 0 <= j < |rest| ==> rest[j] in rest;
    }
  }

  lemma {:induction false} LoadedGrows(disk: Disk, n: nat)
    requires n < |disk|
    ensures Loaded(disk[..n + 1]) == Loaded(disk[..n]) + if disk[n].value.JObject? then [disk[n]] else []
  {
    if n == 0 {
      assert disk[..1][1..] == [];
    } else {
      assert disk[..n + 1][1..] == disk[1..][..n] && disk[..n][1..] == disk[1..][..n - 1];
      LoadedGrows(disk[1..], n - 1);
    }
  }

  class Scratchpad {
    var disk: Disk
    const cap: int
    const ttl: real

    constructor (cap: int, ttl: real)
      ensures disk == [] && this.cap == cap && this.ttl == ttl
    {
      disk := [];
      this.cap := cap;
      this.ttl := ttl;
    }

    method Load() returns (entries: seq<Slot>)
      ensures entries == Loaded(disk)
    {
      entries := [];
      var n := 0;
      while n < |disk|
        invariant 0 <= n <= |disk| && entries == Loaded(disk[..n])
      {
        LoadedGrows(disk, n);
        if disk[n].value.JObject? {
          entries := entries + [disk[n]];
        }
        n := n + 1;
      }
      assert disk[..n] == disk;
    }

    method Store(key: string, r: Result, now: real)
      modifies this
      ensures disk == AfterStore(old(disk), cap, key, r, now)
    {
      hide Loaded, Place, Sort, Entry;
      var entries := Load();
      entries := Put(entries, key, Entry(r, now));
      var ordered := Sort(NewerFirst, entries);
      if 0 < cap < |ordered| {
        ordered := ordered[..cap];
      }
      disk := Sort(ByKey, ordered);
    }

    method LoadCached(key: string, signature: string, now: real) returns (entry: Option<Json>)
      ensures entry == Lookup(disk, key, signature, ttl, now)
    {
      hide Loaded;
      var entries := Load();
      LoadedObjects(disk);
      var i := Place(entries, key);
      if i == |entries| {
        return None;
      }
      var found := entries[i].value;
      if Get(found, "signature", JNull) != JString(signature) {
        return None;
      }
      var cachedAt := CachedAt(found);
      if ttl > 0.0 && cachedAt > 0.0 && now - cachedAt > ttl {
        return None;
      }
      return Some(found);
    }
  }

  // ---------------------------------------------------------------- one store

  lemma NewerFirstIsPreorder()
    ensures IsTotalPreorder(NewerFirst)
  {
    hide CachedAt;
  }

  lemma ByKeyIsPreorder()
    ensures IsTotalPreorder(ByKey)
  {
    hide TextLe;
    TextLeIsTotalOrder();
  }

  lemma OneEachRepeatsNothing(slots: seq<Slot>)
    requires OneEach(slots)
    ensures NoRepeats(slots)
  {
  }

  lemma PutKeepsOneEach(slots: seq<Slot>, key: string, value: Json)
    requires OneEach(slots)
    ensures OneEach(Put(slots, key, value))
    ensures forall x :: x in Put(slots, key, value) <==> x == Slot(key, value) || (x in slots && x.key != key)
  {
    hide Place;
    var i := Place(slots, key);
    var r := Put(slots, key, value);
    assert r[i] == Slot(key, value);
    forall x | x in slots && x.key != key ensures x in r {
      var j :| 0 <= j < |slots| && slots[j] == x;
      assert r[j] == x;
    }
  }

  lemma PersistedMembers(slots: seq<Slot>, cap: int)
    requires OneEach(slots)
    ensures forall x :: x in Persisted(slots, cap) <==> x in Kept(slots, cap)
    ensures OneEach(Persisted(slots, cap)) && SortedBy(ByKey, Persisted(slots, cap))
    ensures forall x :: x in Kept(slots, cap) ==> x in slots
  {
    hide Sort, TextLe, CachedAt;
    var k := Kept(slots, cap);
    forall x ensures x in Persisted(slots, cap) <==> x in k {
      SortMembers(ByKey, k, x);
    }
    forall x | x in k ensures x in slots {
      SortMembers(NewerFirst, slots, x);
    }
    OneEachRepeatsNothing(slots);
    SortNoRepeats(NewerFirst, slots);
    assert NoRepeats(k);
    SortNoRepeats(ByKey, k);
    ByKeyIsPreorder();
    SortSorts(ByKey, k);
    var d := Persisted(slots, cap);
    forall i, j | 0 <= i < j < |d| ensures d[i].key != d[j].key {
      assert d[i] in slots && d[j] in slots && d[i] != d[j];
    }
  }

  /** Which slots a store keeps: those with fewer than `cap` others ahead of them, newer ones first and, among
      equally new ones, the earlier in the dictionary first. */
  lemma KeptIff(slots: seq<Slot>, cap: int, i: nat)
    requires OneEach(slots) && i < |slots|
    ensures slots[i] in Kept(slots, cap) <==> cap <= 0 || |Ahead(NewerFirst, slots, i)| < cap
  {
    hide Sort, CachedAt, NewerFirst, Ahead, IsTotalPreorder;
    OneEachRepeatsNothing(slots);
    NewerFirstIsPreorder();
    var ordered := Sort(NewerFirst, slots);
    SortMembers(NewerFirst, slots, slots[i]);
    var p :| 0 <= p < |ordered| && ordered[p] == slots[i];
    SortRank(NewerFirst, slots, i, p);
    SortNoRepeats(NewerFirst, slots);
    if 0 < cap < |ordered| {
      if p < cap {
        assert ordered[..cap][p] == slots[i];
      }
    }
  }

  /** The bound holds, and nothing that was dropped is newer than anything kept. */
  lemma BoundedAndNewest(disk: Disk, cap: int, key: string, r: Result, now: real)
    requires OneEach(disk)
    ensures var d := AfterStore(disk, cap, key, r, now);
      && OneEach(d) && SortedBy(ByKey, d)
      && (cap > 0 ==> |d| <= cap)
      && (cap <= 0 ==> forall x :: x in Put(Loaded(disk), key, Entry(r, now)) ==> x in d)
      && (forall x, y :: x in d && y in Put(Loaded(disk), key, Entry(r, now)) && y !in d ==>
            CachedAt(x.value) >= CachedAt(y.value))
      && (forall x :: x in d ==> x == Slot(key, Entry(r, now)) || (x in disk && x.key != key))
  {
    hide Sort, TextLe, CachedAt, Entry, Loaded, Put;
    LoadedObjects(disk);
    LoadedOneEach(disk);
    PutKeepsOneEach(Loaded(disk), key, Entry(r, now));
    var slots := Put(Loaded(disk), key, Entry(r, now));
    PersistedMembers(slots, cap);
    NewerFirstIsPreorder();
    SortSorts(NewerFirst, slots);
    var ordered := Sort(NewerFirst, slots);
    forall x | x in slots ensures x in ordered {
      SortMembers(NewerFirst, slots, x);
    }
    forall x, y | x in Kept(slots, cap) && y in slots && y !in Kept(slots, cap)
      ensures CachedAt(x.value) >= CachedAt(y.value)
    {
      var p :| 0 <= p < |ordered| && ordered[p] == y;
      var q :| 0 <= q < |Kept(slots, cap)| && Kept(slots, cap)[q] == x;
      assert NewerFirst(ordered[q], ordered[p]);
    }
  }

  // ---------------------------------------------------------------- runs

  datatype StoreOp = StoreOp(key: string, result: Result, now: real)

  function AfterStores(cap: int, ops: seq<StoreOp>): Disk
    decreases |ops|
  {
    if ops == [] then []
    else
      var op := ops[|ops| - 1];
      AfterStore(AfterStores(cap, ops[..|ops| - 1]), cap, op.key, op.result, op.now)
  }

  /** The number of the last store under a key, or -1. */
  function Latest(ops: seq<StoreOp>, key: string): (i: int)
    ensures -1 <= i < |ops| && (i >= 0 ==> ops[i].key == key)
    ensures forall j :: i < j < |ops| ==> ops[j].key != key
    decreases |ops|
  {
    if ops == [] then -1
    else if ops[|ops| - 1].key == key then |ops| - 1
    else Latest(ops[..|ops| - 1], key)
  }

  /** The keys stored more recently than this one. */
  function MoreRecent(ops: seq<StoreOp>, key: string): set<string> {
    set i | Latest(ops, key) < i < |ops| && 0 <= i :: ops[i].key
  }

  predicate Recent(cap: int, ops: seq<StoreOp>, key: string) {
    Latest(ops, key) >= 0 && (cap <= 0 || |MoreRecent(ops, key)| < cap)
  }

  function LastEntry(ops: seq<StoreOp>, key: string): Json
    requires Latest(ops, key) >= 0
  {
    var op := ops[Latest(ops, key)];
    Entry(op.result, op.now)
  }

  ghost predicate ClockTicks(ops: seq<StoreOp>) {
    forall i, j :: 0 <= i < j < |ops| ==> ops[i].now < ops[j].now
  }

  /** The scratchpad holds, for each of the `cap` most recently stored keys, the last entry stored under it. */
  ghost predicate HoldsRecent(cap: int, ops: seq<StoreOp>, disk: Disk) {
    && OneEach(disk)
    && forall x :: x in disk <==> Recent(cap, ops, x.key) && x.value == LastEntry(ops, x.key)
  }

  lemma EntryFacts(r: Result, now: real)
    ensures var e := Entry(r, now);
      && e.JObject? && CachedAt(e) == now
      && Get(e, "signature", JNull) == JString(r.signature) && Get(e, "matches", JNull) == JArray(r.matches)
  {
  }

  lemma KeysOf(slots: set<Slot>)
    requires forall x, y :: x in slots && y in slots && x.key == y.key ==> x == y
    ensures |set x | x in slots :: x.key| == |slots|
  {
    if x :| x in slots {
      KeysOf(slots - {x});
      assert (set y | y in slots :: y.key) == (set y | y in slots - {x} :: y.key) + {x.key};
    }
  }

  lemma LatestStep(ops: seq<StoreOp>, op: StoreOp, key: string)
    ensures Latest(ops + [op], key) == if key == op.key then |ops| else Latest(ops, key)
    ensures key == op.key ==> MoreRecent(ops + [op], key) == {}
    ensures key != op.key && Latest(ops, key) >= 0 ==> MoreRecent(ops + [op], key) == MoreRecent(ops, key) + {op.key}
    ensures Latest(ops + [op], key) >= 0 ==>
      LastEntry(ops + [op], key) == if key == op.key then Entry(op.result, op.now) else LastEntry(ops, key)
  {
    hide Entry;
    var all := ops + [op];
    assert all[..|ops|] == ops;
    if key != op.key && Latest(ops, key) >= 0 {
      assert op.key in MoreRecent(all, key) by {
        assert all[|ops|].key == op.key;
      }
      forall k ensures k in MoreRecent(all, key) <==> k in MoreRecent(ops, key) + {op.key} {
        if i :| Latest(ops, key) < i < |ops| && 0 <= i && ops[i].key == k {
          assert all[i].key == k;
        }
      }
    }
  }

  /** Whatever was stored later than something still held is held too. */
  lemma NewerAreRecent(cap: int, ops: seq<StoreOp>, key: string, k: string)
    requires Recent(cap, ops, key) && k in MoreRecent(ops, key)
    ensures Recent(cap, ops, k) && Latest(ops, k) > Latest(ops, key)
  {
    hide Latest;
    var i :| Latest(ops, key) < i < |ops| && ops[i].key == k;
    assert Latest(ops, k) >= i;
    assert MoreRecent(ops, k) <= MoreRecent(ops, key);
    SubsetSize(MoreRecent(ops, k), MoreRecent(ops, key));
  }

  /** After storing, every slot at hand is the last entry of its key, and is dated by that store. */
  lemma SlotsAtHand(cap: int, ops: seq<StoreOp>, op: StoreOp, disk: Disk) returns (slots: seq<Slot>)
    requires HoldsRecent(cap, ops, disk)
    ensures slots == Put(Loaded(disk), op.key, Entry(op.result, op.now)) && OneEach(slots)
    ensures AtHand(slots, op, disk)
    ensures forall x :: x in slots ==>
      var all := ops + [op];
      Latest(all, x.key) >= 0 && x.value == LastEntry(all, x.key) && CachedAt(x.value) == all[Latest(all, x.key)].now
  {
    hide Entry, CachedAt, MoreRecent, Loaded, Put;
    var all := ops + [op];
    LoadedObjects(disk);
    assert Loaded(disk) == disk by {
      forall x | x in disk ensures x.value.JObject? {
        EntryFacts(ops[Latest(ops, x.key)].result, ops[Latest(ops, x.key)].now);
      }
    }
    slots := Put(disk, op.key, Entry(op.result, op.now));
    PutKeepsOneEach(disk, op.key, Entry(op.result, op.now));
    forall x | x in slots
      ensures Latest(all, x.key) >= 0 && x.value == LastEntry(all, x.key)
      ensures CachedAt(x.value) == all[Latest(all, x.key)].now
    {
      LatestStep(ops, op, x.key);
      var last := all[Latest(all, x.key)];
      EntryFacts(last.result, last.now);
    }
  }

  /** Among slots dated by distinct times, those ahead are those stored later. */
  lemma AheadIsLater(ops: seq<StoreOp>, slots: seq<Slot>, i: nat)
    requires ClockTicks(ops) && OneEach(slots) && i < |slots|
    requires forall x :: x in slots ==> Latest(ops, x.key) >= 0 && CachedAt(x.value) == ops[Latest(ops, x.key)].now
    ensures Ahead(NewerFirst, slots, i) == Later(ops, slots, slots[i].key)
  {
    hide CachedAt, Latest;
    var x := slots[i];
    forall j | 0 <= j < |slots| && j != i
      ensures NewerFirst(slots[j], x) <==> Latest(ops, slots[j].key) > Latest(ops, x.key)
      ensures NewerFirst(x, slots[j]) <==> Latest(ops, x.key) > Latest(ops, slots[j].key)
    {
      var a, b := Latest(ops, slots[j].key), Latest(ops, x.key);
      assert slots[j] in slots && ops[a].key == slots[j].key && ops[b].key == x.key && a != b;
    }
  }

  ghost predicate AtHand(slots: seq<Slot>, op: StoreOp, disk: Disk) {
    forall y :: y in slots <==> y == Slot(op.key, Entry(op.result, op.now)) || (y in disk && y.key != op.key)
  }

  function Later(ops: seq<StoreOp>, slots: seq<Slot>, key: string): set<Slot> {
    set y | y in slots && Latest(ops, y.key) > Latest(ops, key)
  }

  lemma LaterKey(cap: int, ops: seq<StoreOp>, op: StoreOp, disk: Disk, slots: seq<Slot>, x: Slot, k: string)
    requires HoldsRecent(cap, ops, disk) && x in slots && AtHand(slots, op, disk)
    requires k in MoreRecent(ops + [op], x.key)
    ensures exists y :: y in Later(ops + [op], slots, x.key) && y.key == k
  {
    hide Entry, Latest, MoreRecent;
    var all := ops + [op];
    LatestStep(ops, op, x.key);
    LatestStep(ops, op, k);
    MoreRecentMeaning(all, x.key, k);
    if k == op.key {
      assert Slot(op.key, Entry(op.result, op.now)) in Later(all, slots, x.key);
    } else {
      NewerAreRecent(cap, ops, x.key, k);
      assert Slot(k, LastEntry(ops, k)) in disk;
      assert Slot(k, LastEntry(ops, k)) in Later(all, slots, x.key);
    }
  }

  lemma LaterKeys(cap: int, ops: seq<StoreOp>, op: StoreOp, disk: Disk, slots: seq<Slot>, x: Slot)
    requires HoldsRecent(cap, ops, disk) && OneEach(slots) && x in slots && AtHand(slots, op, disk)
    ensures |Later(ops + [op], slots, x.key)| == |MoreRecent(ops + [op], x.key)|
  {
    hide Entry, Latest, MoreRecent, HoldsRecent;
    var all := ops + [op];
    var later := Later(all, slots, x.key);
    forall k | k in MoreRecent(all, x.key) ensures exists y :: y in later && y.key == k {
      LaterKey(cap, ops, op, disk, slots, x, k);
    }
    forall y | y in later ensures y.key in MoreRecent(all, x.key) {
      MoreRecentMeaning(all, x.key, y.key);
      assert HoldsRecent(cap, ops, disk);
      StoredAtHand(cap, ops, op, disk, slots, y);
    }
    assert (set y | y in later :: y.key) == MoreRecent(all, x.key);
    KeysOf(later);
  }

  lemma StoredAtHand(cap: int, ops: seq<StoreOp>, op: StoreOp, disk: Disk, slots: seq<Slot>, y: Slot)
    requires HoldsRecent(cap, ops, disk) && AtHand(slots, op, disk) && y in slots
    ensures Latest(ops + [op], y.key) >= 0
  {
    hide Entry, Latest, MoreRecent;
    LatestStep(ops, op, y.key);
  }

  lemma MoreRecentMeaning(ops: seq<StoreOp>, key: string, k: string)
    ensures k in MoreRecent(ops, key) <==> Latest(ops, k) > Latest(ops, key) && Latest(ops, k) >= 0
  {
    hide Latest;
    var l := Latest(ops, k);
    if l > Latest(ops, key) && l >= 0 {
      assert ops[l].key == k;
    }
  }

  lemma StoreKeepsRecent(cap: int, ops: seq<StoreOp>, op: StoreOp, disk: Disk)
    requires ClockTicks(ops + [op]) && HoldsRecent(cap, ops, disk)
    ensures HoldsRecent(cap, ops + [op], AfterStore(disk, cap, op.key, op.result, op.now))
  {
    hide Entry, Latest, MoreRecent, CachedAt, Loaded, Put, Persisted, Kept, Ahead, NewerFirst;
    var all := ops + [op];
    var slots := SlotsAtHand(cap, ops, op, disk);
    PersistedMembers(slots, cap);
    forall x
      ensures x in Persisted(slots, cap) <==> Recent(cap, all, x.key) && x.value == LastEntry(all, x.key)
    {
      LatestStep(ops, op, x.key);
      if x.key != op.key && Latest(ops, x.key) >= 0 {
        SubsetSize(MoreRecent(ops, x.key), MoreRecent(all, x.key));
      }
      if x in slots {
        var i :| 0 <= i < |slots| && slots[i] == x;
        KeptIff(slots, cap, i);
        AheadIsLater(all, slots, i);
        LaterKeys(cap, ops, op, disk, slots, x);
      }
    }
  }

  /** Under a clock that ticks between stores, the scratchpad is exactly the table of the most recently stored
      keys, as many as the cap allows, each with what was last stored under it. */
  lemma {:induction false} HoldsMostRecent(cap: int, ops: seq<StoreOp>)
    requires ClockTicks(ops)
    ensures HoldsRecent(cap, ops, AfterStores(cap, ops))
    decreases |ops|
  {
    hide AfterStore, Latest;
    if ops == [] {
    } else {
      var n := |ops| - 1;
      assert ops == ops[..n] + [ops[n]];
      HoldsMostRecent(cap, ops[..n]);
      StoreKeepsRecent(cap, ops[..n], ops[n], AfterStores(cap, ops[..n]));
    }
  }

  lemma LookupFinds(disk: Disk, key: string, signature: string, ttl: real, now: real, entry: Json)
    requires OneEach(disk)
    ensures Lookup(disk, key, signature, ttl, now) == Some(entry) <==>
            Slot(key, entry) in disk && entry.JObject? && Usable(entry, signature, ttl, now)
  {
    hide Loaded, Usable;
    LoadedObjects(disk);
    LoadedOneEach(disk);
    var slots := Loaded(disk);
    var i := Place(slots, key);
    if Slot(key, entry) in slots {
      var j :| 0 <= j < |slots| && slots[j] == Slot(key, entry);
      assert i == j;
    }
    assert i < |slots| ==> slots[i] in slots && slots[i] == Slot(key, slots[i].value);
  }

  /** A lookup hits exactly if the key was stored, fewer than `cap` others were stored since, under the signature
      asked for, and not too long ago; it then returns what was stored last. */
  lemma HitIff(cap: int, ttl: real, ops: seq<StoreOp>, key: string, signature: string, now: real)
    requires ClockTicks(ops)
    ensures var found := Lookup(AfterStores(cap, ops), key, signature, ttl, now);
      && (found.Some? <==>
            && Recent(cap, ops, key)
            && ops[Latest(ops, key)].result.signature == signature
            && var at := ops[Latest(ops, key)].now; ttl <= 0.0 || at <= 0.0 || now - at <= ttl)
      && (found.Some? ==> found.value == LastEntry(ops, key))
  {
    hide Entry, Latest, Recent, CachedAt, Lookup, AfterStores, ClockTicks, OneEach;
    HoldsMostRecent(cap, ops);
    var disk := AfterStores(cap, ops);
    var found := Lookup(disk, key, signature, ttl, now);
    if found.Some? {
      LookupFinds(disk, key, signature, ttl, now, found.value);
      assert Slot(key, found.value) in disk;
      RecentIsStored(cap, ops, key);
    }
    if Recent(cap, ops, key) {
      RecentIsStored(cap, ops, key);
      LookupFinds(disk, key, signature, ttl, now, LastEntry(ops, key));
      var op := ops[Latest(ops, key)];
      EntryFacts(op.result, op.now);
    }
  }

  lemma RecentIsStored(cap: int, ops: seq<StoreOp>, key: string)
    requires Recent(cap, ops, key)
    ensures Latest(ops, key) >= 0
  {
  }

  /** Whatever the clock does between stores, ticking, standing still or stepping back, an entry that is still
      held is the one last stored under its key. */
  lemma {:induction false} HoldsOnlyLatest(cap: int, ops: seq<StoreOp>)
    ensures OneEach(AfterStores(cap, ops))
    ensures forall x :: x in AfterStores(cap, ops) ==> Latest(ops, x.key) >= 0 && x.value == LastEntry(ops, x.key)
    decreases |ops|
  {
    hide AfterStore, Latest, Entry, OneEach, CachedAt;
    if ops == [] {
      NothingHeld(cap);
    } else {
      var n := |ops| - 1;
      var front, op := ops[..n], ops[n];
      assert ops == front + [op];
      HoldsOnlyLatest(cap, front);
      BoundedAndNewest(AfterStores(cap, front), cap, op.key, op.result, op.now);
      forall x | x in AfterStores(cap, ops) ensures Latest(ops, x.key) >= 0 && x.value == LastEntry(ops, x.key) {
        LatestStep(front, op, x.key);
      }
    }
  }

  lemma NothingHeld(cap: int)
    ensures AfterStores(cap, []) == [] && OneEach([])
  {
  }

  /** No store is dated before an earlier one; stores may be dated alike. */
  ghost predicate ClockNeverBack(ops: seq<StoreOp>) {
    forall i, j :: 0 <= i <= j < |ops| ==> ops[i].now <= ops[j].now
  }

  /** When the key was last stored. */
  function StoredAt(ops: seq<StoreOp>, key: string): real
    requires Latest(ops, key) >= 0
  {
    ops[Latest(ops, key)].now
  }

  /** The other keys that were last stored at a later time. */
  ghost function LaterKeysOf(ops: seq<StoreOp>, key: string): set<string>
    requires Latest(ops, key) >= 0
  {
    set i | 0 <= i < |ops| && StoredAt(ops, ops[i].key) > StoredAt(ops, key) :: ops[i].key
  }

  /** The other keys that were last stored at the same time or later. */
  ghost function OtherKeysNotOlder(ops: seq<StoreOp>, key: string): set<string>
    requires Latest(ops, key) >= 0
  {
    set i | 0 <= i < |ops| && ops[i].key != key && StoredAt(ops, ops[i].key) >= StoredAt(ops, key) :: ops[i].key
  }

  ghost predicate Held(disk: Disk, key: string) {
    exists x :: x in disk && x.key == key
  }

  /** The file is full of entries at least as new as the key's. */
  ghost predicate FullOfNewer(cap: int, ops: seq<StoreOp>, disk: Disk, key: string)
    requires Latest(ops, key) >= 0
  {
    && cap > 0 && |disk| == cap
    && forall x :: x in disk ==> Latest(ops, x.key) >= 0 && StoredAt(ops, x.key) >= StoredAt(ops, key)
  }

  /** A store that drops anything leaves the file full, and the file never shrinks to less than it held. */
  lemma StoreFills(disk: Disk, cap: int, op: StoreOp, y: Slot)
    requires OneEach(disk) && (forall x :: x in disk ==> x.value.JObject?)
    ensures var d := AfterStore(disk, cap, op.key, op.result, op.now);
      && (cap > 0 && |disk| == cap ==> |d| == cap)
      && (y !in d && (y == Slot(op.key, Entry(op.result, op.now)) || (y in disk && y.key != op.key)) ==>
            cap > 0 && |d| == cap && forall x :: x in d ==> CachedAt(x.value) >= CachedAt(y.value))
  {
    LoadedObjects(disk);
    var slots := Put(disk, op.key, Entry(op.result, op.now));
    assert |Persisted(slots, cap)| == if 0 < cap < |slots| then cap else |slots|;
    hide Sort, CachedAt, Entry, Loaded, Put, OneEach;
    PutKeepsOneEach(disk, op.key, Entry(op.result, op.now));
    BoundedAndNewest(disk, cap, op.key, op.result, op.now);
    if !(0 < cap < |slots|) {
      PersistedMembers(slots, cap);
      SortMembers(NewerFirst, slots, y);
    }
  }

  /** What is held after a store is dated by the last store of its key. */
  lemma HeldAreDated(cap: int, ops: seq<StoreOp>)
    ensures OneEach(AfterStores(cap, ops))
    ensures forall x :: x in AfterStores(cap, ops) ==>
      Latest(ops, x.key) >= 0 && x.value == LastEntry(ops, x.key) && x.value.JObject? &&
      CachedAt(x.value) == StoredAt(ops, x.key)
  {
    hide Entry, Latest, CachedAt, AfterStores, OneEach;
    HoldsOnlyLatest(cap, ops);
    forall x | x in AfterStores(cap, ops) ensures x.value.JObject? && CachedAt(x.value) == StoredAt(ops, x.key) {
      var op := ops[Latest(ops, x.key)];
      EntryFacts(op.result, op.now);
    }
  }

  lemma NeverBackLatest(ops: seq<StoreOp>, op: StoreOp, key: string)
    requires ClockNeverBack(ops + [op])
    ensures ClockNeverBack(ops)
    ensures Latest(ops + [op], key) >= 0 ==> StoredAt(ops + [op], key) <= op.now
    ensures key != op.key && Latest(ops, key) >= 0 ==> StoredAt(ops + [op], key) == StoredAt(ops, key)
  {
    hide Latest;
    LatestStep(ops, op, key);
    var all := ops + [op];
    assert all[|ops|] == op && all[..|ops|] == ops;
    assert forall i :: 0 <= i < |ops| ==> all[i] == ops[i];
  }

  /** Over any run whose clock never steps back, a key that is missing has made way: the file is full of entries
      stored at the same time or later. */
  lemma {:induction false} MissingMadeWay(cap: int, ops: seq<StoreOp>, key: string)
    requires ClockNeverBack(ops) && Latest(ops, key) >= 0 && !Held(AfterStores(cap, ops), key)
    ensures FullOfNewer(cap, ops, AfterStores(cap, ops), key)
    decreases |ops|
  {
    hide AfterStore, Latest, Entry, OneEach, CachedAt, ClockNeverBack;
    var n := |ops| - 1;
    var front, op := ops[..n], ops[n];
    assert ops == front + [op];
    var before, after := AfterStores(cap, front), AfterStores(cap, ops);
    NeverBackLatest(front, op, key);
    LatestStep(front, op, key);
    HeldAreDated(cap, front);
    HeldAreDated(cap, ops);
    EntryFacts(op.result, op.now);
    if key != op.key && !Held(before, key) {
      MissingMadeWay(cap, front, key);
      StoreFills(before, cap, op, Slot(key, JNull));
      BoundedAndNewest(before, cap, op.key, op.result, op.now);
      forall x | x in after ensures StoredAt(ops, x.key) >= StoredAt(ops, key) {
        NeverBackLatest(front, op, x.key);
      }
    } else {
      var y := Slot(key, LastEntry(ops, key));
      if key != op.key {
        var x :| x in before && x.key == key;
        assert x == y;
      }
      assert CachedAt(y.value) == StoredAt(ops, key) by {
        var last := ops[Latest(ops, key)];
        EntryFacts(last.result, last.now);
      }
      assert y !in after;
      StoreFills(before, cap, op, y);
    }
  }

  lemma {:induction false} HeldKeysCount(disk: Disk)
    requires OneEach(disk)
    ensures |set x | x in disk :: x.key| == |disk|
  {
    if disk != [] {
      HeldKeysCount(disk[1..]);
      var keys := set x | x in disk[1..] :: x.key;
      assert disk == [disk[0]] + disk[1..];
      assert disk[0].key !in keys;
      assert (set x | x in disk :: x.key) == keys + {disk[0].key};
    }
  }

  /** Over any run whose clock never steps back: a key is held if fewer than `cap` others were stored last at the
      same time or later, and only if fewer than `cap` were stored last at a later time. The two bounds differ by
      the keys that tie with it; among those, `KeptIff` says which make way at each store. */
  lemma HeldByTime(cap: int, ops: seq<StoreOp>, key: string)
    requires ClockNeverBack(ops) && Latest(ops, key) >= 0
    ensures cap <= 0 || |OtherKeysNotOlder(ops, key)| < cap ==> Held(AfterStores(cap, ops), key)
    ensures Held(AfterStores(cap, ops), key) ==> cap <= 0 || |LaterKeysOf(ops, key)| < cap
  {
    hide Latest, Entry, OneEach, CachedAt, ClockNeverBack, AfterStores, StoredAt;
    var disk := AfterStores(cap, ops);
    var keys := set x | x in disk :: x.key;
    HeldAreDated(cap, ops);
    HeldKeysCount(disk);
    if !Held(disk, key) {
      MissingMadeWay(cap, ops, key);
      forall k | k in keys ensures k in OtherKeysNotOlder(ops, key) {
        assert ops[Latest(ops, k)].key == k;
      }
      SubsetSize(keys, OtherKeysNotOlder(ops, key));
    } else if cap > 0 {
      forall k | k in LaterKeysOf(ops, key) ensures k in keys - {key} {
        if !Held(disk, k) {
          MissingMadeWay(cap, ops, k);
          assert false;
        }
      }
      SubsetSize(LaterKeysOf(ops, key), keys - {key});
      assert key in keys;
      DiskIsBounded(cap, ops);
    }
  }

  lemma DiskIsBounded(cap: int, ops: seq<StoreOp>)
    requires cap > 0
    ensures |AfterStores(cap, ops)| <= cap
  {
    hide AfterStore;
    if ops != [] {
      var n := |ops| - 1;
      HoldsOnlyLatest(cap, ops[..n]);
      BoundedAndNewest(AfterStores(cap, ops[..n]), cap, ops[n].key, ops[n].result, ops[n].now);
    }
  }

  /** A hit is never stale, whatever the clock does: it is what was last stored under the key, with the signature
      asked for and within the age limit. */
  lemma HitIsLatest(cap: int, ttl: real, ops: seq<StoreOp>, key: string, signature: string, now: real)
    requires Lookup(AfterStores(cap, ops), key, signature, ttl, now).Some?
    ensures Latest(ops, key) >= 0
    ensures Lookup(AfterStores(cap, ops), key, signature, ttl, now).value == LastEntry(ops, key)
    ensures var op := ops[Latest(ops, key)];
      op.result.signature == signature && (ttl <= 0.0 || op.now <= 0.0 || now - op.now <= ttl)
  {
    hide Entry, Latest, CachedAt, Lookup, AfterStores, OneEach;
    HoldsOnlyLatest(cap, ops);
    var disk := AfterStores(cap, ops);
    var found := Lookup(disk, key, signature, ttl, now).value;
    LookupFinds(disk, key, signature, ttl, now, found);
    assert Slot(key, found) in disk;
    var op := ops[Latest(ops, key)];
    EntryFacts(op.result, op.now);
  }

  /** A hit for find returns the matches that were stored, whatever they were. */
  lemma FindHitReturnsStored(cap: int, ttl: real, ops: seq<StoreOp>, key: string, signature: string, now: real,
                             matches: seq<FindMatch>)
    requires Lookup(AfterStores(cap, ops), key, signature, ttl, now).Some?
    requires Latest(ops, key) >= 0 ==> ops[Latest(ops, key)].result.matches == Written(matches, SerializeFind)
    ensures Matches(Lookup(AfterStores(cap, ops), key, signature, ttl, now).value, DeserializeFind) == Some(matches)
  {
    hide Entry, Latest, MoreRecent, AfterStores, Lookup, SerializeFind, DeserializeFind, ReadAll;
    HitIsLatest(cap, ttl, ops, key, signature, now);
    var op := ops[Latest(ops, key)];
    EntryFacts(op.result, op.now);
    forall i | 0 <= i < |matches| ensures DeserializeFind(SerializeFind(matches[i])) == Some(matches[i]) {
      FindReadsBack(matches[i]);
    }
    WrittenReadsBack(matches, SerializeFind, DeserializeFind);
  }

  /** The same for analyze. */
  lemma AnalyzeHitReturnsStored(cap: int, ttl: real, ops: seq<StoreOp>, key: string, signature: string, now: real,
                                matches: seq<AnalyzeMatch>)
    requires Lookup(AfterStores(cap, ops), key, signature, ttl, now).Some?
    requires Latest(ops, key) >= 0 ==> ops[Latest(ops, key)].result.matches == Written(matches, SerializeAnalyze)
    ensures
      Matches(Lookup(AfterStores(cap, ops), key, signature, ttl, now).value, DeserializeAnalyze) == Some(matches)
  {
    hide Entry, Latest, MoreRecent, AfterStores, Lookup, SerializeAnalyze, DeserializeAnalyze, ReadAll;
    HitIsLatest(cap, ttl, ops, key, signature, now);
    var op := ops[Latest(ops, key)];
    EntryFacts(op.result, op.now);
    forall i | 0 <= i < |matches| ensures DeserializeAnalyze(SerializeAnalyze(matches[i])) == Some(matches[i]) {
      AnalyzeReadsBack(matches[i]);
    }
    WrittenReadsBack(matches, SerializeAnalyze, DeserializeAnalyze);
  }

  /** The stored form of an entry, with its diagnostics and its source where there are any. */
  lemma EntryFields(r: Result, now: real)
    ensures var f := Entry(r, now).fields;
      && f["command"] == JString(r.command) && f["query"] == JObject(r.query)
      && f["signature"] == JString(r.signature) && f["cached_at"] == JReal(now)
      && f["match_count"] == JInt(|r.matches|) && f["matches"] == JArray(r.matches)
      && ("rerank_debug" in f <==> r.rerankDebug.Some?)
      && (r.rerankDebug.Some? ==> f["rerank_debug"] == r.rerankDebug.value)
      && ("rerank_source" in f <==>
            "rerank_source" in r.query && r.query["rerank_source"].JString? && r.query["rerank_source"].text != "")
      && ("rerank_source" in f ==> f["rerank_source"] == r.query["rerank_source"])
  {
  }
}
