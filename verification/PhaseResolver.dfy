/** Which phase a feature is in, as the driver derives it from the ledger: the feature's own events, or, if there
    are none, those of its numeric prefix; the phase of the last event, or the caller's hint if that event has
    none; and the reasons to distrust the result. */
module PhaseResolver {
  import opened Options
  import opened Text
  import opened PipelineLedger
  import opened PipelinePhases
  import opened PipelineHistory

  /** A phase as callers write it. */
  datatype Label = Known(phase: Phase) | Text(text: string)

  const UNKNOWN := Label.Text("unknown")

  datatype Drift = LedgerReadFailed | LedgerSequenceInvalid | HintConflicts

  datatype PhaseState = PhaseState(
    ledgerFeatureId: string, phase: Label, lastEvent: Option<RawName>, eventCount: nat,
    approvedPlan: bool, approvedSolution: bool, drift: set<Drift>)

  function LabelText(l: Label): string {
    match l
    case Text(t) => t
    case Known(Specify) => "specify"
    case Known(Research) => "research"
    case Known(Plan) => "plan"
    case Known(Solution) => "solution"
    case Known(Implement) => "implement"
    case Known(Closed) => "closed"
  }

  /** The label that a text spells. */
  function LabelOf(text: string): Label {
    match text
    case "specify" => Known(Specify)
    case "research" => Known(Research)
    case "plan" => Known(Plan)
    case "solution" => Known(Solution)
    case "implement" => Known(Implement)
    case "closed" => Known(Closed)
    case _ => Label.Text(text)
  }

  /** Texts and labels stand for each other: no phase has a second spelling as a label. */
  lemma SpellingsAgree(text: string, p: Phase)
    ensures LabelText(LabelOf(text)) == text && LabelOf(LabelText(Known(p))) == Known(p)
  {
  }

  /** Whether a is ahead of b; labels that are not phases are ahead of whatever differs from them. */
  predicate Exceeds(a: Label, b: Label) {
    if a.Known? && b.Known? then PhaseIndex(a.phase) > PhaseIndex(b.phase) else a != b
  }

  predicate IsDigit(c: char) {
    '0' <= c <= '9'
  }

  function Digits(s: string): (n: nat)
    ensures n <= |s| && (forall i :: 0 <= i < n ==> IsDigit(s[i])) && (n < |s| ==> !IsDigit(s[n]))
  {
    if s == "" || !IsDigit(s[0]) then 0 else 1 + Digits(s[1..])
  }

  /** The digits in front of a dash or underscore and some further text on the same line. */
  function NumericPrefix(featureId: string): Option<string> {
    var s := Strip(featureId);
    var n := Digits(s);
    if 0 < n && n + 1 < |s| && s[n] in {'-', '_'} && '\n' !in s[n + 1..] then Some(s[..n]) else None
  }

  /** The events taken for the feature, and the id they are found under. */
  function ViewOf(events: seq<Event>, featureId: string): (string, seq<Event>) {
    var own := OfFeature(events, featureId);
    var prefix := NumericPrefix(featureId);
    if own == [] && prefix.Some? && OfFeature(events, prefix.value) != [] then
      (prefix.value, OfFeature(events, prefix.value))
    else (featureId, own)
  }

  function View(events: seq<Event>, featureId: string): seq<Event> {
    ViewOf(events, featureId).1
  }

  function LastEvent(v: seq<Event>): Option<RawName> {
    if v == [] then None else Some(v[|v| - 1].event)
  }

  function Derived(v: seq<Event>): Option<Phase> {
    if v == [] then None else PhaseOfEvent(v[|v| - 1].event)
  }

  /** `resolve_phase_state`; `events` is None when the ledger cannot be read, `hint` when the caller gives none. */
  function Resolve(m: Manifest, events: Option<seq<Event>>, featureId: string, hint: Option<Label>): PhaseState {
    var (id, v) := if events.Some? then ViewOf(events.value, featureId) else (featureId, []);
    var replay := Scan(m, v);
    var flags := StateOf(replay.states, id);
    var derived := if Derived(v).Some? then Known(Derived(v).value) else UNKNOWN;
    var phase :=
      if v == [] then Known(Specify)
      else if derived == UNKNOWN && hint.Some? then hint.value
      else derived;
    var drift :=
      (if events.None? then {LedgerReadFailed} else {}) +
      (if replay.errors != [] then {LedgerSequenceInvalid} else {}) +
      (if derived != UNKNOWN && hint.Some? && hint.value != derived && Exceeds(hint.value, derived)
       then {HintConflicts} else {});
    PhaseState(id, phase, LastEvent(v), |v|, flags.approvedPlan, flags.approvedSolution, drift)
  }

  method ResolvePhaseState(m: Manifest, events: Option<seq<Event>>, featureId: string, hint: Option<Label>)
    returns (s: PhaseState)
    ensures s == Resolve(m, events, featureId, hint)
  {
    hide Scan, OfFeature, NumericPrefix, PhaseOfEvent;
    var drift := {};
    var id := featureId;
    var featureEvents := [];
    if events.None? {
      drift := {LedgerReadFailed};
    } else {
      featureEvents := OfFeature(events.value, featureId);
      if featureEvents == [] {
        var candidate := NumericPrefix(featureId);
        if candidate.Some? {
          var candidateEvents := OfFeature(events.value, candidate.value);
          if candidateEvents != [] {
            id := candidate.value;
            featureEvents := candidateEvents;
          }
        }
      }
    }
    var lastEvent := None;
    var derived := UNKNOWN;
    var errors, states := ValidateSequence(m, featureEvents);
    assert featureEvents == [] ==> errors == [] && states == map[] by {
      EmptyReplay(m);
    }
    var flags := StateOf(states, id);
    if featureEvents != [] {
      if errors != [] {
        drift := drift + {LedgerSequenceInvalid};
      }
      var raw := featureEvents[|featureEvents| - 1].event;
      lastEvent := Some(raw);
      if PhaseOfEvent(raw).Some? {
        derived := Known(PhaseOfEvent(raw).value);
      }
    }
    var phase := derived;
    if derived == UNKNOWN && hint.Some? {
      phase := hint.value;
    } else if hint.Some? && hint.value != derived && lastEvent.Some? && Exceeds(hint.value, derived) {
      drift := drift + {HintConflicts};
    }
    if featureEvents == [] {
      phase := Known(Specify);
    }
    s := PhaseState(id, phase, lastEvent, |featureEvents|, flags.approvedPlan, flags.approvedSolution, drift);
  }

  lemma EmptyReplay(m: Manifest)
    ensures Scan(m, []) == Replay([], map[])
  {
  }

  lemma ViewIsOfFeature(events: seq<Event>, featureId: string)
    ensures View(events, featureId) == OfFeature(events, ViewOf(events, featureId).0)
    ensures ViewOf(events, featureId).0 == featureId || NumericPrefix(featureId) == Some(ViewOf(events, featureId).0)
  {
    hide OfFeature, NumericPrefix;
  }

  /** A numeric prefix is a feature id of its own and has no prefix in turn, so resolving it again stays there. */
  lemma PrefixIsStable(events: seq<Event>, featureId: string)
    requires ViewOf(events, featureId).0 != featureId
    ensures var id := ViewOf(events, featureId).0;
      NumericPrefix(id) == None && ViewOf(events, id) == ViewOf(events, featureId)
  {
    hide OfFeature;
    var id := ViewOf(events, featureId).0;
    var s := Strip(featureId);
    assert NumericPrefix(featureId) == Some(id) && id == s[..Digits(s)];
    DigitsAreText(id);
  }

  lemma {:induction false} DigitsAreText(s: string)
    requires s != "" && forall i :: 0 <= i < |s| ==> IsDigit(s[i])
    ensures Digits(s) == |s| && Strip(s) == s
  {
    TrimmedStrip(s);
    if |s| > 1 {
      DigitsAreText(s[1..]);
    }
  }

  /** In a valid ledger nothing is ever reported as out of sequence, and where the feature's events store its id
      without padding, the reported approvals are those that the last event implies. */
  lemma ResolvedFromValidLedger(m: Manifest, events: seq<Event>, featureId: string, hint: Option<Label>)
    requires ValidLedger(m, events)
    ensures var s := Resolve(m, Some(events), featureId, hint);
      && LedgerSequenceInvalid !in s.drift && LedgerReadFailed !in s.drift
      && (SingleFeature(View(events, featureId), s.ledgerFeatureId) && s.lastEvent.Some? ==>
            var name := s.lastEvent.value.name;
            && s.approvedPlan == Reached(name, Stage(PlanApproved))
            && s.approvedSolution == Reached(name, Stage(SolutionApproved)))
  {
    hide Scan, OfFeature, NumericPrefix, PhaseOfEvent, Chain;
    ValidIffEachFeatureValid(m, events);
    ViewIsOfFeature(events, featureId);
    var (id, v) := ViewOf(events, featureId);
    assert ValidLedger(m, v);
    FlagsFollowLastEvent(m, v, id);
    if SingleFeature(v, id) {
      ValidIffChain(m, v, id);
    }
  }

  // ---------------------------------------------------------------- what the resolver goes by

  lemma {:induction false} DigitsBefore(d: string, rest: string)
    requires (forall i :: 0 <= i < |d| ==> IsDigit(d[i])) && (rest == "" || !IsDigit(rest[0]))
    ensures Digits(d + rest) == |d|
  {
    if d == "" {
      assert d + rest == rest;
    } else {
      assert (d + rest)[1..] == d[1..] + rest;
      DigitsBefore(d[1..], rest);
    }
  }

  /** Digits, a separator, and more text on the same line. */
  predicate Separates(s: string, d: string, separator: char, rest: string) {
    && s == d + [separator] + rest && separator in {'-', '_'}
    && d != "" && (forall i :: 0 <= i < |d| ==> IsDigit(d[i]))
    && rest != "" && '\n' !in rest
  }

  /** The numeric prefix of an id: the digits it begins with, if a dash or underscore and more text follow. */
  lemma PrefixIff(featureId: string, d: string)
    ensures NumericPrefix(featureId) == Some(d) <==>
      exists separator, rest :: Separates(Strip(featureId), d, separator, rest)
  {
    hide Strip;
    var s := Strip(featureId);
    var n := Digits(s);
    if NumericPrefix(featureId) == Some(d) {
      assert Separates(s, d, s[n], s[n + 1..]);
    }
    if separator, rest :| Separates(s, d, separator, rest) {
      assert s == d + ([separator] + rest);
      DigitsBefore(d, [separator] + rest);
      assert s[..n] == d && s[n + 1..] == rest;
    }
  }

  /** A feature's own events come first; only without any does the resolver turn to those of its numeric prefix. */
  lemma OwnEventsFirst(events: seq<Event>, featureId: string)
    ensures var own, prefix := OfFeature(events, featureId), NumericPrefix(featureId);
      && (own != [] ==> ViewOf(events, featureId) == (featureId, own))
      && (own == [] && prefix.Some? && OfFeature(events, prefix.value) != [] ==>
            ViewOf(events, featureId) == (prefix.value, OfFeature(events, prefix.value)))
      && (own == [] && (prefix.None? || OfFeature(events, prefix.value) == []) ==>
            ViewOf(events, featureId) == (featureId, []))
  {
    hide OfFeature, NumericPrefix;
  }

  /** Each drift reason exactly for its cause. A hint that is no phase conflicts with every derived phase. */
  lemma DriftIff(m: Manifest, events: Option<seq<Event>>, featureId: string, hint: Option<Label>)
    ensures var s := Resolve(m, events, featureId, hint);
      var v := if events.Some? then View(events.value, featureId) else [];
      && (LedgerReadFailed in s.drift <==> events.None?)
      && (LedgerSequenceInvalid in s.drift <==> !ValidLedger(m, v))
      && (HintConflicts in s.drift <==>
            hint.Some? && Derived(v).Some? &&
            (hint.value.Text? || PhaseIndex(hint.value.phase) > PhaseIndex(Derived(v).value)))
      && s.eventCount == |v| && s.lastEvent == (if v == [] then None else Some(v[|v| - 1].event))
  {
    hide Scan, OfFeature, NumericPrefix, PhaseOfEvent;
    EmptyReplay(m);
  }
}
