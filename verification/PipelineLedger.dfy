/** The append-only, feature-level pipeline ledger: the shape rules of one event, the transition table with
    its time-limited legacy table, the validator that replays a whole ledger, and the validated append. */
module PipelineLedger {
  import opened Options
  import opened Text

  datatype Name =
    | BacklogRegistered | DuplicateMarked | SpecClarified | ResearchCompleted
    | PlanStarted | PlanreviewCompleted | FeasibilitySpikeCompleted | FeasibilitySpikeFailed | PlanApproved
    | SketchCompleted | SolutionreviewCompleted | EstimationCompleted | TaskingCompleted | SolutionApproved
    | AnalysisCompleted | E2eGenerated | ImplementationCompleted | FeatureClosed
    | Other(text: string)

  /** The event field as stored. Shape rules read it with surrounding whitespace removed; the transition
      table and the replayed state read it as it stands, so a padded name is a different name there. */
  datatype RawName = Exact(name: Name) | Padded(name: Name)

  /** One ledger record. `instant` is the parsed timestamp in seconds (absent when it does not parse),
      `criticalCount` the parsed count (-1 when absent or not a number), `line` the number a reader of the
      file attached to the record. */
  datatype Event = Event(
    line: Option<int>, event: RawName, featureId: string, phase: string, timestamp: string,
    instant: Option<int>, hasTaskId: bool, fields: map<string, string>, criticalCount: int)

  /** The events and required fields that the command manifest declares. */
  datatype Manifest = Manifest(valid: set<Name>, required: map<Name, set<string>>)

  datatype Fault =
    | InvalidName | InvalidFeatureId | MissingTimestamp | CarriesTaskId
    | MissingField(field: string) | CriticalCountNotZero

  datatype Issue =
    | Malformed(line: int, featureId: string, faults: set<Fault>)
    | BadTransition(line: int, featureId: string, previous: Option<RawName>, event: RawName)

  datatype PipelineState = PipelineState(
    lastEvent: Option<RawName>, approvedPlan: bool, approvedSolution: bool, analysisClean: bool)

  const FRESH := PipelineState(None, false, false, false)

  /** 2026-04-10T00:00:00Z. */
  const LEGACY_CUTOFF := 1775779200

  function Predecessors(name: Name): set<Option<Name>> {
    match name
    case BacklogRegistered => {None}
    case DuplicateMarked => {Some(BacklogRegistered), Some(SpecClarified)}
    case SpecClarified => {Some(BacklogRegistered), Some(SpecClarified)}
    case ResearchCompleted => {Some(BacklogRegistered), Some(SpecClarified)}
    case PlanStarted => {Some(ResearchCompleted)}
    case PlanreviewCompleted => {Some(ResearchCompleted), Some(PlanStarted), Some(PlanreviewCompleted)}
    case FeasibilitySpikeCompleted => {Some(PlanreviewCompleted)}
    case FeasibilitySpikeFailed => {Some(PlanreviewCompleted), Some(FeasibilitySpikeFailed)}
    case PlanApproved =>
      {Some(BacklogRegistered), Some(SpecClarified), Some(ResearchCompleted),
       Some(PlanreviewCompleted), Some(FeasibilitySpikeCompleted)}
    case SketchCompleted => {Some(PlanApproved), Some(SketchCompleted), Some(SolutionreviewCompleted)}
    case SolutionreviewCompleted => {Some(SketchCompleted), Some(SolutionreviewCompleted)}
    case EstimationCompleted =>
      {Some(SolutionreviewCompleted), Some(EstimationCompleted), Some(TaskingCompleted)}
    case TaskingCompleted =>
      {Some(PlanApproved), Some(SketchCompleted), Some(EstimationCompleted), Some(TaskingCompleted)}
    case SolutionApproved => {Some(PlanApproved), Some(TaskingCompleted)}
    case AnalysisCompleted => {Some(SolutionApproved)}
    case E2eGenerated => {Some(AnalysisCompleted)}
    case ImplementationCompleted => {Some(AnalysisCompleted), Some(E2eGenerated)}
    case FeatureClosed => {Some(E2eGenerated), Some(ImplementationCompleted)}
    case Other(_) => {}
  }

  function LegacyPredecessors(name: Name): set<Name> {
    match name
    case TaskingCompleted => {PlanApproved}
    case SketchCompleted => {TaskingCompleted}
    case EstimationCompleted => {SketchCompleted}
    case SolutionreviewCompleted => {EstimationCompleted}
    case SolutionApproved => {SolutionreviewCompleted}
    case _ => {}
  }

  /** The last event as the tables know it: absent, or a name written exactly. */
  predicate InTable(previous: Option<RawName>, predecessors: set<Option<Name>>) {
    match previous
    case None => None in predecessors
    case Some(Exact(name)) => Some(name) in predecessors
    case Some(Padded(_)) => false
  }

  predicate LegacyAllowed(previous: Option<RawName>, e: Event) {
    && e.event.Exact? && previous.Some? && previous.value.Exact?
    && previous.value.name in LegacyPredecessors(e.event.name)
    && e.instant.Some? && e.instant.value < LEGACY_CUTOFF
  }

  predicate TransitionAllowed(previous: Option<RawName>, e: Event) {
    || (e.event.Exact? && InTable(previous, Predecessors(e.event.name)))
    || LegacyAllowed(previous, e)
  }

  predicate IsFeatureId(s: string) {
    |s| == 3 && forall c :: c in s ==> '0' <= c <= '9'
  }

  predicate FieldMissing(e: Event, field: string) {
    field !in e.fields || AllSpace(e.fields[field])
  }

  function RequiredFields(m: Manifest, name: Name): set<string> {
    if name in m.required then m.required[name] else {}
  }

  function ShapeFaults(m: Manifest, e: Event): set<Fault> {
    var name := e.event.name;
    (if name in m.valid then {} else {InvalidName}) +
    (if IsFeatureId(Strip(e.featureId)) then {} else {InvalidFeatureId}) +
    (if AllSpace(e.timestamp) then {MissingTimestamp} else {}) +
    (if e.hasTaskId then {CarriesTaskId} else {}) +
    (set f | f in RequiredFields(m, name) && FieldMissing(e, f) :: MissingField(f)) +
    (if name == AnalysisCompleted && e.criticalCount != 0 then {CriticalCountNotZero} else {})
  }

  // ---------------------------------------------------------------- replay

  datatype Replay = Replay(errors: seq<Issue>, states: map<string, PipelineState>)

  function StateOf(states: map<string, PipelineState>, featureId: string): PipelineState {
    if featureId in states then states[featureId] else FRESH
  }

  function Advance(s: PipelineState, event: RawName): PipelineState {
    s.(lastEvent := Some(event),
       approvedPlan := s.approvedPlan || event == Exact(PlanApproved),
       approvedSolution := s.approvedSolution || event == Exact(SolutionApproved),
       analysisClean := s.analysisClean || event == Exact(AnalysisCompleted))
  }

  function LineOf(e: Event, position: int): int {
    if e.line.Some? then e.line.value else position
  }

  /** The complaint about one event, if any, given the last event of its feature. */
  function Complaints(m: Manifest, previous: Option<RawName>, e: Event, line: int): (issues: seq<Issue>)
    ensures |issues| <= 1
    ensures issues != [] ==> issues[0].featureId == e.featureId && issues[0].line == line
  {
    var faults := ShapeFaults(m, e);
    if faults != {} then [Malformed(line, e.featureId, faults)]
    else if TransitionAllowed(previous, e) then []
    else [BadTransition(line, e.featureId, previous, e.event)]
  }

  /** A misplaced event still becomes the feature's last event; a malformed one leaves no trace. */
  function NextStates(m: Manifest, states: map<string, PipelineState>, e: Event): map<string, PipelineState> {
    if ShapeFaults(m, e) != {} then states
    else states[e.featureId := Advance(StateOf(states, e.featureId), e.event)]
  }

  function Step(m: Manifest, r: Replay, e: Event, position: int): Replay {
    Replay(r.errors + Complaints(m, StateOf(r.states, e.featureId).lastEvent, e, LineOf(e, position)),
           NextStates(m, r.states, e))
  }

  function Scan(m: Manifest, events: seq<Event>): Replay {
    if events == [] then Replay([], map[])
    else
      var n := |events| - 1;
      Step(m, Scan(m, events[..n]), events[n], n + 1)
  }

  predicate ValidLedger(m: Manifest, events: seq<Event>) {
    Scan(m, events).errors == []
  }

  /** The validator: one pass that grows the error list and updates the state of the event's feature. */
  method ValidateSequence(m: Manifest, events: seq<Event>)
    returns (errors: seq<Issue>, states: map<string, PipelineState>)
    ensures Replay(errors, states) == Scan(m, events)
  {
    hide ShapeFaults, LegacyAllowed, Predecessors, InTable;
    errors, states := [], map[];
    for i := 0 to |events|
      invariant Replay(errors, states) == Scan(m, events[..i])
    {
      assert events[..i + 1][..i] == events[..i];
      var e := events[i];
      var lineNo := LineOf(e, i + 1);
      var faults := ShapeFaults(m, e);
      if faults != {} {
        errors := errors + [Malformed(lineNo, e.featureId, faults)];
      } else {
        var state := StateOf(states, e.featureId);
        if !(e.event.Exact? && InTable(state.lastEvent, Predecessors(e.event.name))) {
          if !LegacyAllowed(state.lastEvent, e) {
            errors := errors + [BadTransition(lineNo, e.featureId, state.lastEvent, e.event)];
          }
        }
        if e.event == Exact(PlanApproved) {
          state := state.(approvedPlan := true);
        } else if e.event == Exact(SolutionApproved) {
          state := state.(approvedSolution := true);
        } else if e.event == Exact(AnalysisCompleted) {
          state := state.(analysisClean := true);
        }
        states := states[e.featureId := state.(lastEvent := Some(e.event))];
      }
    }
    assert events[..|events|] == events;
  }

  // ---------------------------------------------------------------- projection onto features

  /** The events whose stored feature id satisfies `keep`, in ledger order. */
  function Kept(events: seq<Event>, keep: string -> bool): seq<Event> {
    if events == [] then []
    else
      var n := |events| - 1;
      Kept(events[..n], keep) + (if keep(events[n].featureId) then [events[n]] else [])
  }

  function KeptIssues(issues: seq<Issue>, keep: string -> bool): seq<Issue> {
    if issues == [] then []
    else
      var n := |issues| - 1;
      KeptIssues(issues[..n], keep) + (if keep(issues[n].featureId) then [issues[n]] else [])
  }

  function Unnumbered(issues: seq<Issue>): seq<Issue> {
    seq(|issues|, i requires 0 <= i < |issues| => issues[i].(line := 0))
  }

  ghost predicate Numbered(events: seq<Event>) {
    forall i :: 0 <= i < |events| ==> events[i].line.Some?
  }

  /** The feature filter of the phase resolver: feature ids are compared with whitespace removed. */
  function OfFeature(events: seq<Event>, featureId: string): seq<Event> {
    Kept(events, id => Strip(id) == featureId)
  }

  lemma KeptIssuesAppend(a: seq<Issue>, b: seq<Issue>, keep: string -> bool)
    requires |b| <= 1
    ensures KeptIssues(a + b, keep) == KeptIssues(a, keep) + KeptIssues(b, keep)
  {
    if b == [] {
      assert a + b == a;
    } else {
      assert (a + b)[..|a|] == a;
    }
  }

  /** Two replays hold the same state, or none, for every feature that satisfies `keep`. */
  ghost predicate Agree(a: map<string, PipelineState>, b: map<string, PipelineState>, keep: string -> bool) {
    forall id :: keep(id) ==> (id in a <==> id in b) && (id in a ==> a[id] == b[id])
  }

  lemma ComplaintLine(m: Manifest, previous: Option<RawName>, e: Event, i: int, j: int)
    ensures Unnumbered(Complaints(m, previous, e, i)) == Unnumbered(Complaints(m, previous, e, j))
  {
    hide ShapeFaults, TransitionAllowed;
  }

  lemma StatesProjection(m: Manifest, part: map<string, PipelineState>, whole: map<string, PipelineState>, e: Event,
                         keep: string -> bool)
    requires Agree(part, whole, keep)
    ensures Agree(if keep(e.featureId) then NextStates(m, part, e) else part, NextStates(m, whole, e), keep)
    ensures keep(e.featureId) ==> StateOf(part, e.featureId) == StateOf(whole, e.featureId)
  {
    hide ShapeFaults, Advance;
  }

  lemma ErrorsProjection(m: Manifest, part: seq<Issue>, whole: seq<Issue>, previous: Option<RawName>, e: Event,
                         i: int, j: int, keep: string -> bool)
    requires Unnumbered(part) == Unnumbered(KeptIssues(whole, keep))
    ensures var errors := whole + Complaints(m, previous, e, j);
      if keep(e.featureId) then
        && Unnumbered(part + Complaints(m, previous, e, i)) == Unnumbered(KeptIssues(errors, keep))
        && (i == j && part == KeptIssues(whole, keep) ==>
              part + Complaints(m, previous, e, i) == KeptIssues(errors, keep))
      else
        KeptIssues(errors, keep) == KeptIssues(whole, keep)
  {
    hide Complaints, Unnumbered;
    var added := Complaints(m, previous, e, j);
    KeptIssuesAppend(whole, added, keep);
    assert KeptIssues(added, keep) == if keep(e.featureId) then added else [] by {
      if added != [] {
        assert added[..0] == [] && added == [added[0]];
      }
    }
    ComplaintLine(m, previous, e, i, j);
    UnnumberedAppend(part, Complaints(m, previous, e, i));
    UnnumberedAppend(KeptIssues(whole, keep), added);
  }

  lemma UnnumberedAppend(a: seq<Issue>, b: seq<Issue>)
    ensures Unnumbered(a + b) == Unnumbered(a) + Unnumbered(b)
  {
  }

  /** Replaying only some features' events gives exactly the states and the complaints that the whole
      ledger, with the other features interleaved in any way and valid or not, gives for those features. */
  lemma {:induction false} Projection(m: Manifest, events: seq<Event>, keep: string -> bool)
    ensures Agree(Scan(m, Kept(events, keep)).states, Scan(m, events).states, keep)
    ensures Unnumbered(Scan(m, Kept(events, keep)).errors) == Unnumbered(KeptIssues(Scan(m, events).errors, keep))
    ensures Numbered(events) ==> Scan(m, Kept(events, keep)).errors == KeptIssues(Scan(m, events).errors, keep)
    decreases |events|
  {
    hide ShapeFaults, Complaints, NextStates;
    if events != [] {
      var n := |events| - 1;
      var e, front := events[n], events[..n];
      Projection(m, front, keep);
      var rest := Kept(front, keep);
      var whole, part := Scan(m, front), Scan(m, rest);
      StatesProjection(m, part.states, whole.states, e, keep);
      ErrorsProjection(m, part.errors, whole.errors, StateOf(whole.states, e.featureId).lastEvent, e,
                       LineOf(e, |rest| + 1), LineOf(e, n + 1), keep);
      if keep(e.featureId) {
        assert Kept(events, keep)[..|rest|] == rest;
      } else {
        assert Kept(events, keep) == rest;
      }
    }
  }

  lemma {:induction false} IssueSurvives(issues: seq<Issue>, keep: string -> bool, i: nat)
    requires i < |issues| && keep(issues[i].featureId)
    ensures KeptIssues(issues, keep) != []
    decreases |issues|
  {
    if i < |issues| - 1 {
      IssueSurvives(issues[..|issues| - 1], keep, i);
    }
  }

  /** A ledger is valid exactly when what the resolver sees of each feature is valid. */
  lemma ValidIffEachFeatureValid(m: Manifest, events: seq<Event>)
    ensures ValidLedger(m, events) <==> forall f :: ValidLedger(m, OfFeature(events, f))
  {
    forall f
      ensures ValidLedger(m, OfFeature(events, f)) <==>
              KeptIssues(Scan(m, events).errors, id => Strip(id) == f) == []
    {
      var keep := (id: string) => Strip(id) == f;
      Projection(m, events, keep);
      var a, b := Scan(m, Kept(events, keep)).errors, KeptIssues(Scan(m, events).errors, keep);
      assert |Unnumbered(a)| == |a| && |Unnumbered(b)| == |b|;
    }
    if !ValidLedger(m, events) {
      var issues := Scan(m, events).errors;
      var f := Strip(issues[0].featureId);
      IssueSurvives(issues, id => Strip(id) == f, 0);
      assert !ValidLedger(m, OfFeature(events, f));
    }
  }

  // ---------------------------------------------------------------- append

  ghost predicate SameButLines(a: seq<Event>, b: seq<Event>) {
    |a| == |b| && forall i :: 0 <= i < |a| ==> a[i].(line := None) == b[i].(line := None)
  }

  lemma JudgementIgnoresLine(m: Manifest, previous: Option<RawName>, e: Event)
    ensures ShapeFaults(m, e) == ShapeFaults(m, e.(line := None))
    ensures TransitionAllowed(previous, e) == TransitionAllowed(previous, e.(line := None))
  {
    hide Predecessors, LegacyPredecessors, Strip;
    var f := e.(line := None);
    assert forall x :: FieldMissing(e, x) == FieldMissing(f, x);
    assert (set x | x in RequiredFields(m, e.event.name) && FieldMissing(e, x) :: MissingField(x)) ==
           (set x | x in RequiredFields(m, f.event.name) && FieldMissing(f, x) :: MissingField(x));
  }

  lemma StepIgnoresLine(m: Manifest, r: Replay, q: Replay, e: Event, f: Event, i: int)
    requires e.(line := None) == f.(line := None)
    requires r.states == q.states && Unnumbered(r.errors) == Unnumbered(q.errors)
    ensures Step(m, r, e, i).states == Step(m, q, f, i).states
    ensures Unnumbered(Step(m, r, e, i).errors) == Unnumbered(Step(m, q, f, i).errors)
  {
    hide ShapeFaults, TransitionAllowed, Advance;
    var previous := StateOf(r.states, e.featureId).lastEvent;
    JudgementIgnoresLine(m, previous, e);
    JudgementIgnoresLine(m, previous, f);
    var x, y := Complaints(m, previous, e, LineOf(e, i)), Complaints(m, previous, f, LineOf(f, i));
    assert Unnumbered(x) == Unnumbered(y);
    UnnumberedAppend(r.errors, x);
    UnnumberedAppend(q.errors, y);
  }

  /** Line numbers only label complaints. */
  lemma {:induction false} LinesDoNotMatter(m: Manifest, a: seq<Event>, b: seq<Event>)
    requires SameButLines(a, b)
    ensures Scan(m, a).states == Scan(m, b).states
    ensures Unnumbered(Scan(m, a).errors) == Unnumbered(Scan(m, b).errors)
    ensures ValidLedger(m, a) <==> ValidLedger(m, b)
    decreases |a|
  {
    hide Step;
    if a != [] {
      var n := |a| - 1;
      LinesDoNotMatter(m, a[..n], b[..n]);
      StepIgnoresLine(m, Scan(m, a[..n]), Scan(m, b[..n]), a[n], b[n], n + 1);
    }
    var x, y := Scan(m, a).errors, Scan(m, b).errors;
    assert |Unnumbered(x)| == |x| && |Unnumbered(y)| == |y|;
  }

  lemma StepKeepsErrors(m: Manifest, r: Replay, e: Event, i: int)
    ensures r.errors <= Step(m, r, e, i).errors
  {
    hide ShapeFaults, TransitionAllowed;
  }

  lemma ValidPrefix(m: Manifest, events: seq<Event>, k: nat)
    requires ValidLedger(m, events) && k <= |events|
    ensures ValidLedger(m, events[..k])
    decreases |events|
  {
    hide Step;
    if k < |events| {
      var n := |events| - 1;
      StepKeepsErrors(m, Scan(m, events[..n]), events[n], n + 1);
      ValidPrefix(m, events[..n], k);
      assert events[..n][..k] == events[..k];
    } else {
      assert events[..k] == events;
    }
  }

  /** `ensure_feature_id`: three digits, and as `$` does, tolerating one final newline. */
  predicate AcceptedFeatureArgument(s: string) {
    IsFeatureId(s) || (|s| == 4 && IsFeatureId(s[..3]) && s[3] == '\n')
  }

  predicate AppendAccepted(m: Manifest, ledger: seq<Event>, e: Event) {
    && AcceptedFeatureArgument(e.featureId)
    && e.event.Exact? && e.event.name in m.valid
    && ValidLedger(m, ledger + [e])
  }

  function AppendRecord(ledger: seq<Event>, e: Event): seq<Event> {
    ledger + [e.(line := Some(|ledger| + 1))]
  }

  /** What one append attempt leaves in the file. */
  function Appended(m: Manifest, ledger: seq<Event>, e: Event): seq<Event> {
    if AppendAccepted(m, ledger, e) then AppendRecord(ledger, e) else ledger
  }

  /** The ledger file. The records carry the line numbers its reader attaches. */
  class LedgerFile {
    var records: seq<Event>

    ghost predicate Valid()
      reads this
    {
      Numbered(records)
    }

    constructor ()
      ensures Valid() && records == []
    {
      records := [];
    }

    /** `cmd_append`: replay the whole ledger with the new event at its end, and write only if no complaint
        is left. The event carries no line number yet. */
    method Append(m: Manifest, e: Event) returns (ok: bool)
      requires Valid() && e.line == None
      modifies this
      ensures Valid()
      ensures ok <==> AppendAccepted(m, old(records), e)
      ensures records == Appended(m, old(records), e)
      ensures ok ==> ValidLedger(m, records)
    {
      hide Scan, AcceptedFeatureArgument;
      if !AcceptedFeatureArgument(e.featureId) || !(e.event.Exact? && e.event.name in m.valid) {
        return false;
      }
      var errors, _ := ValidateSequence(m, records + [e]);
      if errors != [] {
        return false;
      }
      LinesDoNotMatter(m, records + [e], AppendRecord(records, e));
      records := AppendRecord(records, e);
      return true;
    }
  }

  function RunAppends(m: Manifest, ledger: seq<Event>, attempts: seq<Event>): seq<Event> {
    if attempts == [] then ledger
    else
      var n := |attempts| - 1;
      Appended(m, RunAppends(m, ledger, attempts[..n]), attempts[n])
  }

  /** A ledger built by appends alone, whatever was attempted and refused on the way, is valid, grows only
      at its end, and is never reported invalid by a reader that looks at one feature's events. */
  lemma {:induction false} AppendsKeepEveryFeatureValid(m: Manifest, ledger: seq<Event>, attempts: seq<Event>)
    requires ValidLedger(m, ledger)
    ensures ledger <= RunAppends(m, ledger, attempts)
    ensures ValidLedger(m, RunAppends(m, ledger, attempts))
    ensures forall f :: ValidLedger(m, OfFeature(RunAppends(m, ledger, attempts), f))
    decreases |attempts|
  {
    hide Scan, AcceptedFeatureArgument;
    if attempts != [] {
      var n := |attempts| - 1;
      AppendsKeepEveryFeatureValid(m, ledger, attempts[..n]);
      var before := RunAppends(m, ledger, attempts[..n]);
      LinesDoNotMatter(m, before + [attempts[n]], AppendRecord(before, attempts[n]));
    }
    ValidIffEachFeatureValid(m, RunAppends(m, ledger, attempts));
  }
}
