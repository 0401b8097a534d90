/** Feature locks with leases: one record per feature, taken over once its lease has run out. Each acquire or
    release is one step. */
module FeatureLock {
  import opened Options

  /** A stored record. An unreadable file is a record that has neither owner nor expiry. */
  datatype Record = Record(owner: Option<string>, expires: Option<int>)

  type Locks = map<string, Record>

  datatype Outcome =
    | BadArguments
    | Created | Reused | StaleReused | StaleReplaced(previousOwner: Option<string>) | Held(holder: Option<string>)
    | Absent | Released | StaleReleased | OwnedByOther(holder: Option<string>)

  predicate Acquired(o: Outcome) {
    o.Created? || o.Reused? || o.StaleReused? || o.StaleReplaced?
  }

  predicate IsStale(r: Record, now: int) {
    r.expires.None? || r.expires.value <= now
  }

  function Lease(owner: string, seconds: int, now: int): Record {
    Record(Some(owner), Some(now + seconds))
  }

  function AcquireOutcome(locks: Locks, feature: string, owner: string, seconds: int, now: int): Outcome {
    if feature == "" || owner == "" || seconds <= 0 then BadArguments
    else if feature !in locks then Created
    else
      var r := locks[feature];
      if r.owner == Some(owner) && !IsStale(r, now) then Reused
      else if IsStale(r, now) then
        if r.owner == Some(owner) then StaleReused else StaleReplaced(r.owner)
      else Held(r.owner)
  }

  /** A live lock that its owner asks for again keeps its record, expiry included. */
  function AcquireEffect(locks: Locks, feature: string, owner: string, seconds: int, now: int): Locks {
    var o := AcquireOutcome(locks, feature, owner, seconds, now);
    if Acquired(o) && o != Reused then locks[feature := Lease(owner, seconds, now)] else locks
  }

  function ReleaseOutcome(locks: Locks, feature: string, owner: string, now: int): Outcome {
    if feature == "" || owner == "" then BadArguments
    else if feature !in locks then Absent
    else
      var r := locks[feature];
      if r.owner == Some(owner) then Released
      else if IsStale(r, now) then StaleReleased
      else OwnedByOther(r.owner)
  }

  function ReleaseEffect(locks: Locks, feature: string, owner: string, now: int): Locks {
    var o := ReleaseOutcome(locks, feature, owner, now);
    if o == Released || o == StaleReleased then locks - {feature} else locks
  }

  class LockDirectory {
    var records: Locks

    method Acquire(feature: string, owner: string, seconds: int, now: int) returns (o: Outcome)
      modifies this
      ensures o == AcquireOutcome(old(records), feature, owner, seconds, now)
      ensures records == AcquireEffect(old(records), feature, owner, seconds, now)
      ensures Acquired(o) ==> feature in records && records[feature].owner == Some(owner) &&
                              !IsStale(records[feature], now)
    {
      if feature == "" || owner == "" || seconds <= 0 {
        return BadArguments;
      }
      var newRecord := Lease(owner, seconds, now);
      if feature !in records {
        records := records[feature := newRecord];
        return Created;
      }
      var existing := records[feature];
      var stale := IsStale(existing, now);
      if existing.owner == Some(owner) && !stale {
        return Reused;
      }
      if stale {
        records := records[feature := newRecord];
        return if existing.owner == Some(owner) then StaleReused else StaleReplaced(existing.owner);
      }
      return Held(existing.owner);
    }

    method Release(feature: string, owner: string, now: int) returns (o: Outcome)
      modifies this
      ensures o == ReleaseOutcome(old(records), feature, owner, now)
      ensures records == ReleaseEffect(old(records), feature, owner, now)
      ensures forall f :: f != feature ==> (f in records <==> f in old(records))
    {
      if feature == "" || owner == "" {
        return BadArguments;
      }
      if feature !in records {
        return Absent;
      }
      var existing := records[feature];
      if existing.owner == Some(owner) || IsStale(existing, now) {
        records := records - {feature};
        return if existing.owner == Some(owner) then Released else StaleReleased;
      }
      return OwnedByOther(existing.owner);
    }
  }

  // ---------------------------------------------------------------- runs

  datatype Op =
    | Acquire(feature: string, owner: string, seconds: int, now: int)
    | Release(feature: string, owner: string, now: int)

  function OutcomeOf(locks: Locks, op: Op): Outcome {
    match op
    case Acquire(f, owner, seconds, now) => AcquireOutcome(locks, f, owner, seconds, now)
    case Release(f, owner, now) => ReleaseOutcome(locks, f, owner, now)
  }

  function Effect(locks: Locks, op: Op): Locks {
    match op
    case Acquire(f, owner, seconds, now) => AcquireEffect(locks, f, owner, seconds, now)
    case Release(f, owner, now) => ReleaseEffect(locks, f, owner, now)
  }

  /** The lock directory after the first k operations of a run. */
  function After(locks: Locks, ops: seq<Op>, k: nat): Locks
    requires k <= |ops|
  {
    if k == 0 then locks else Effect(After(locks, ops, k - 1), ops[k - 1])
  }

  ghost predicate ClockAdvances(ops: seq<Op>) {
    forall i, j :: 0 <= i < j < |ops| ==> ops[i].now <= ops[j].now
  }

  predicate ReleasesOwn(op: Op, feature: string, owner: string) {
    op.Release? && op.feature == feature && op.owner == owner
  }

  ghost predicate NoOwnRelease(ops: seq<Op>, i: nat, j: nat, feature: string, owner: string)
    requires i <= j <= |ops|
  {
    forall k :: i <= k < j ==> !ReleasesOwn(ops[k], feature, owner)
  }

  lemma LiveRecordStays(locks: Locks, op: Op, feature: string, owner: string, e: int)
    requires feature in locks && locks[feature] == Record(Some(owner), Some(e))
    requires op.now < e && !ReleasesOwn(op, feature, owner)
    ensures feature in Effect(locks, op) && Effect(locks, op)[feature] == locks[feature]
    ensures op.feature == feature && op.owner != owner ==>
      OutcomeOf(locks, op) == BadArguments ||
      OutcomeOf(locks, op) == (if op.Acquire? then Held(Some(owner)) else OwnedByOther(Some(owner)))
  {
  }

  /** Until its lease runs out or its owner releases it, a record survives every operation of everybody, and
      everybody else is turned away. */
  lemma {:induction false} HeldUntilExpiry(locks: Locks, ops: seq<Op>, i: nat, j: nat,
                                           feature: string, owner: string, e: int)
    requires i <= j <= |ops| && NoOwnRelease(ops, i, j, feature, owner)
    requires feature in After(locks, ops, i) && After(locks, ops, i)[feature] == Record(Some(owner), Some(e))
    requires forall k :: i <= k < j ==> ops[k].now < e
    ensures feature in After(locks, ops, j) && After(locks, ops, j)[feature] == Record(Some(owner), Some(e))
    ensures forall k :: i <= k < j && ops[k].feature == feature && ops[k].owner != owner ==>
      OutcomeOf(After(locks, ops, k), ops[k]) in {BadArguments, Held(Some(owner)), OwnedByOther(Some(owner))}
    decreases j
  {
    hide Effect, OutcomeOf;
    if i < j {
      HeldUntilExpiry(locks, ops, i, j - 1, feature, owner, e);
      LiveRecordStays(After(locks, ops, j - 1), ops[j - 1], feature, owner, e);
    }
  }

  lemma AcquiredHolds(locks: Locks, op: Op)
    requires op.Acquire? && Acquired(OutcomeOf(locks, op))
    ensures op.feature in Effect(locks, op)
    ensures var r := Effect(locks, op)[op.feature];
      r.owner == Some(op.owner) && r.expires.Some? && op.now < r.expires.value
  {
  }

  /** Mutual exclusion: if two owners acquire the same feature one after the other, then between the two the
      first one released it or its lease, counted from the record it then held, ran out. The same is needed
      before anybody else's release can remove the record. */
  lemma MutualExclusion(locks: Locks, ops: seq<Op>, i: nat, j: nat)
    requires ClockAdvances(ops) && i < j < |ops|
    requires ops[i].Acquire? && Acquired(OutcomeOf(After(locks, ops, i), ops[i]))
    requires ops[j].feature == ops[i].feature && ops[j].owner != ops[i].owner
    requires OutcomeOf(After(locks, ops, j), ops[j]) !in
      {BadArguments, Held(Some(ops[i].owner)), OwnedByOther(Some(ops[i].owner))}
    ensures var held := After(locks, ops, i + 1);
      ops[i].feature in held && held[ops[i].feature].expires.Some? &&
      (held[ops[i].feature].expires.value <= ops[j].now ||
       exists k :: i < k < j && ReleasesOwn(ops[k], ops[i].feature, ops[i].owner))
  {
    AcquiredHolds(After(locks, ops, i), ops[i]);
    var f, owner := ops[i].feature, ops[i].owner;
    var e := After(locks, ops, i + 1)[f].expires.value;
    if ops[j].now < e && NoOwnRelease(ops, i + 1, j, f, owner) {
      HeldUntilExpiry(locks, ops, i + 1, j, f, owner, e);
      LiveRecordStays(After(locks, ops, j), ops[j], f, owner, e);
      assert false;
    }
  }

  /** An owner that keeps asking for its own live lock does not extend it: as soon as the first lease has run
      out, anybody takes the feature over, whatever the owner asked for in between. */
  lemma ReuseDoesNotRenew(locks: Locks, ops: seq<Op>, i: nat, j: nat, e: int)
    requires i < j < |ops| && ops[i].Acquire? && ops[j].Acquire?
    requires After(locks, ops, i + 1) == After(locks, ops, i)[ops[i].feature := Record(Some(ops[i].owner), Some(e))]
    requires forall k :: i < k < j ==> ops[k].now < e && !ReleasesOwn(ops[k], ops[i].feature, ops[i].owner)
    requires ops[j].feature == ops[i].feature && ops[j].owner != ops[i].owner && e <= ops[j].now
    ensures OutcomeOf(After(locks, ops, j), ops[j]) in {BadArguments, StaleReplaced(Some(ops[i].owner))}
  {
    HeldUntilExpiry(locks, ops, i + 1, j, ops[i].feature, ops[i].owner, e);
  }

  // ---------------------------------------------------------------- how long a lease lasts

  predicate WellFormed(op: Op) {
    op.feature != "" && op.owner != "" && (op.Acquire? ==> op.seconds > 0)
  }

  /** The operation writes a new lease. */
  predicate Grants(o: Outcome) {
    o.Created? || o.StaleReused? || o.StaleReplaced?
  }

  lemma GrantedUntil(locks: Locks, op: Op)
    requires op.Acquire? && Grants(OutcomeOf(locks, op))
    ensures Effect(locks, op) == locks[op.feature := Record(Some(op.owner), Some(op.now + op.seconds))]
  {
  }

  /** A granted lease lasts as long as was asked for: until then, unless its owner releases it, everybody else is
      turned away and the owner's further requests change nothing. */
  lemma LeaseLastsAsAsked(locks: Locks, ops: seq<Op>, i: nat, j: nat)
    requires ClockAdvances(ops) && i < j < |ops| && ops[i].Acquire? && Grants(OutcomeOf(After(locks, ops, i), ops[i]))
    requires NoOwnRelease(ops, i + 1, j, ops[i].feature, ops[i].owner)
    requires ops[j].feature == ops[i].feature && WellFormed(ops[j]) && ops[j].now < ops[i].now + ops[i].seconds
    ensures var o := OutcomeOf(After(locks, ops, j), ops[j]);
      if ops[j].owner != ops[i].owner then
        o == (if ops[j].Acquire? then Held(Some(ops[i].owner)) else OwnedByOther(Some(ops[i].owner)))
      else
        o == (if ops[j].Acquire? then Reused else Released)
    ensures ops[j].Acquire? ==> After(locks, ops, j + 1) == After(locks, ops, j)
  {
    GrantedUntil(After(locks, ops, i), ops[i]);
    HeldUntilExpiry(locks, ops, i + 1, j, ops[i].feature, ops[i].owner, ops[i].now + ops[i].seconds);
  }

  ghost predicate Untouched(ops: seq<Op>, i: nat, j: nat, feature: string)
    requires i <= j <= |ops|
  {
    forall k :: i <= k < j ==> ops[k].feature != feature
  }

  lemma {:induction false} UntouchedStays(locks: Locks, ops: seq<Op>, i: nat, j: nat, feature: string)
    requires i <= j <= |ops| && Untouched(ops, i, j, feature)
    ensures feature in After(locks, ops, j) <==> feature in After(locks, ops, i)
    ensures feature in After(locks, ops, j) ==> After(locks, ops, j)[feature] == After(locks, ops, i)[feature]
    decreases j
  {
    if i < j {
      UntouchedStays(locks, ops, i, j - 1, feature);
    }
  }

  /** And no longer: from its end on, the next to ask takes the feature over, with a lease of its own. */
  lemma LeaseEndsAsAsked(locks: Locks, ops: seq<Op>, i: nat, j: nat)
    requires i < j < |ops| && ops[i].Acquire? && Grants(OutcomeOf(After(locks, ops, i), ops[i]))
    requires Untouched(ops, i + 1, j, ops[i].feature)
    requires ops[j].Acquire? && ops[j].feature == ops[i].feature && WellFormed(ops[j])
    requires ops[i].now + ops[i].seconds <= ops[j].now
    ensures OutcomeOf(After(locks, ops, j), ops[j]) ==
            if ops[j].owner == ops[i].owner then StaleReused else StaleReplaced(Some(ops[i].owner))
    ensures After(locks, ops, j + 1) ==
            After(locks, ops, j)[ops[j].feature := Record(Some(ops[j].owner), Some(ops[j].now + ops[j].seconds))]
  {
    GrantedUntil(After(locks, ops, i), ops[i]);
    UntouchedStays(locks, ops, i + 1, j, ops[i].feature);
  }

  /** A feature that is free, never locked or released by its holder, goes to the next to ask. */
  lemma FreeFeatureIsGranted(locks: Locks, ops: seq<Op>, i: nat, j: nat)
    requires i <= j < |ops| && ops[j].feature !in After(locks, ops, i) && Untouched(ops, i, j, ops[j].feature)
    requires ops[j].Acquire? && WellFormed(ops[j])
    ensures OutcomeOf(After(locks, ops, j), ops[j]) == Created
  {
    UntouchedStays(locks, ops, i, j, ops[j].feature);
  }

  /** The holder can always release, and then the feature is free. */
  lemma HolderReleases(locks: Locks, ops: seq<Op>, i: nat, j: nat)
    requires ClockAdvances(ops) && i < j < |ops| && ops[i].Acquire? && Grants(OutcomeOf(After(locks, ops, i), ops[i]))
    requires NoOwnRelease(ops, i + 1, j, ops[i].feature, ops[i].owner)
    requires ReleasesOwn(ops[j], ops[i].feature, ops[i].owner) && ops[j].now < ops[i].now + ops[i].seconds
    ensures OutcomeOf(After(locks, ops, j), ops[j]) == Released && ops[i].feature !in After(locks, ops, j + 1)
  {
    assert WellFormed(ops[j]);
    LeaseLastsAsAsked(locks, ops, i, j);
  }

  /** A lease that has run out can be cleared or taken over by anybody, and so can a record that is unreadable. */
  lemma StaleIsAnybodys(locks: Locks, feature: string, owner: string, seconds: int, now: int)
    requires feature in locks && feature != "" && owner != "" && seconds > 0 && locks[feature].owner != Some(owner)
    requires locks[feature].expires.None? || locks[feature].expires.value <= now
    ensures ReleaseOutcome(locks, feature, owner, now) == StaleReleased
    ensures feature !in ReleaseEffect(locks, feature, owner, now)
    ensures AcquireOutcome(locks, feature, owner, seconds, now) == StaleReplaced(locks[feature].owner)
  {
  }

  /** What is not well formed is refused and changes nothing. */
  lemma BadArgumentsIff(locks: Locks, op: Op)
    ensures OutcomeOf(locks, op) == BadArguments <==> !WellFormed(op)
    ensures !WellFormed(op) ==> Effect(locks, op) == locks
  {
  }
}
