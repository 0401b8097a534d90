/** The pipeline driver: appends that are no-ops when repeated, and the sequence of gates between a request and the
    dispatch of a phase's step. What a step, the command manifest and the append subprocess do is input. */
module PipelineDriver {
  import opened Options
  import opened Text
  import opened PipelineLedger
  import opened PipelineHistory
  import opened PipelinePhases
  import opened PhaseResolver

  // ---------------------------------------------------------------- appends

  datatype Clock = Clock(text: string, instant: Option<int>)

  datatype AppendResult = AppendResult(ok: bool, appended: bool)

  /** The event a step asks for; no name when it is blank. `readable` is false when a field that should hold JSON
      does not parse. */
  datatype EventRequest = EventRequest(
    name: Option<Name>, fields: map<string, string>, criticalCount: int, readable: bool)

  /** How the append subprocess ends. If it does not complete it may have written all the same. */
  datatype Execution = Completed | TimedOut(wrote: bool) | Killed(wrote: bool)

  function NewEvent(
    featureId: string, phase: string, name: Name, fields: map<string, string>, count: int, clock: Clock): Event
  {
    Event(None, Exact(name), featureId, phase, clock.text, clock.instant, false, fields, count)
  }

  predicate IsRecord(e: Event, featureId: string, phase: string, name: Name) {
    Strip(e.featureId) == featureId && Strip(e.phase) == phase && e.event.name == name
  }

  predicate Recorded(ledger: seq<Event>, featureId: string, phase: string, name: Name) {
    exists i :: 0 <= i < |ledger| && IsRecord(ledger[i], featureId, phase, name)
  }

  function AfterRequested(
    m: Manifest, ledger: seq<Event>, featureId: string, phase: string, r: EventRequest, clock: Clock)
    : (seq<Event>, AppendResult)
  {
    if r.name.None? then (ledger, AppendResult(false, false))
    else if Recorded(ledger, featureId, phase, r.name.value) then (ledger, AppendResult(true, false))
    else
      var e := NewEvent(featureId, phase, r.name.value, r.fields, r.criticalCount, clock);
      if r.readable && AppendAccepted(m, ledger, e) then (AppendRecord(ledger, e), AppendResult(true, true))
      else (ledger, AppendResult(false, false))
  }

  function AfterSuccess(
    m: Manifest, ledger: seq<Event>, featureId: string, phase: string, selected: Option<Name>, clock: Clock,
    execution: Execution): (seq<Event>, AppendResult)
  {
    if selected.None? then (ledger, AppendResult(true, false))
    else if Recorded(ledger, featureId, phase, selected.value) then (ledger, AppendResult(true, false))
    else
      var e := NewEvent(featureId, phase, selected.value, map[], -1, clock);
      if !AppendAccepted(m, ledger, e) then (ledger, AppendResult(false, false))
      else if execution.Completed? then (AppendRecord(ledger, e), AppendResult(true, true))
      else (if execution.wrote then AppendRecord(ledger, e) else ledger, AppendResult(false, false))
  }

  /** A declared event, without a name when it is blank. */
  datatype Contract = Contract(event: Option<Name>, requiresFields: bool)

  /** The event a route declares for success: the first that needs no fields, or the first one listed. */
  function SelectedEvent(contracts: seq<Contract>, emits: seq<Option<Name>>): Option<Name> {
    if contracts == [] then if emits == [] then None else emits[0]
    else if contracts[0].event.Some? && !contracts[0].requiresFields then contracts[0].event
    else SelectedEvent(contracts[1..], emits)
  }

  method SelectEvent(contracts: seq<Contract>, emits: seq<Option<Name>>) returns (selected: Option<Name>)
    ensures selected == SelectedEvent(contracts, emits)
    ensures (forall i :: 0 <= i < |contracts| ==> contracts[i].requiresFields || contracts[i].event.None?) ==>
      selected == if emits == [] then None else emits[0]
  {
    var n := 0;
    while n < |contracts|
      invariant 0 <= n <= |contracts| && SelectedEvent(contracts, emits) == SelectedEvent(contracts[n..], emits)
      invariant forall i :: 0 <= i < n ==> contracts[i].requiresFields || contracts[i].event.None?
    {
      assert contracts[n..][1..] == contracts[n + 1..];
      if contracts[n].event.Some? && !contracts[n].requiresFields {
        return contracts[n].event;
      }
      n := n + 1;
    }
    return if emits == [] then None else emits[0];
  }

  method AppendRequested(
    ledger: LedgerFile, m: Manifest, featureId: string, phase: string, r: EventRequest, clock: Clock)
    returns (result: AppendResult)
    requires ledger.Valid()
    modifies ledger
    ensures ledger.Valid()
    ensures (ledger.records, result) == AfterRequested(m, old(ledger.records), featureId, phase, r, clock)
  {
    hide AppendAccepted, Recorded;
    if r.name.None? {
      return AppendResult(false, false);
    }
    if Recorded(ledger.records, featureId, phase, r.name.value) {
      return AppendResult(true, false);
    }
    if !r.readable {
      return AppendResult(false, false);
    }
    var ok := ledger.Append(m, NewEvent(featureId, phase, r.name.value, r.fields, r.criticalCount, clock));
    return AppendResult(ok, ok);
  }

  method AppendSuccess(
    ledger: LedgerFile, m: Manifest, featureId: string, phase: string, selected: Option<Name>, clock: Clock,
    execution: Execution) returns (result: AppendResult)
    requires ledger.Valid()
    modifies ledger
    ensures ledger.Valid()
    ensures (ledger.records, result) ==
            AfterSuccess(m, old(ledger.records), featureId, phase, selected, clock, execution)
  {
    hide AppendAccepted, Recorded;
    if selected.None? {
      return AppendResult(true, false);
    }
    if Recorded(ledger.records, featureId, phase, selected.value) {
      return AppendResult(true, false);
    }
    if !execution.Completed? && !execution.wrote {
      return AppendResult(false, false);
    }
    var ok := ledger.Append(m, NewEvent(featureId, phase, selected.value, map[], -1, clock));
    if !execution.Completed? {
      return AppendResult(false, false);
    }
    return AppendResult(ok, ok);
  }

  // ---------------------------------------------------------------- one call

  /** What a dispatched step hands back: its exit code, and the event it asks for. */
  datatype StepResult = StepResult(exitCode: int, ok: bool, request: Option<EventRequest>)

  /** How a phase is routed. A deterministic route may lack its script; a generative one may be reserved for the
      command agent. `artifactOk` and `final` are the artifact check and the result after it. */
  datatype Route =
    | Unmanaged
    | Deterministic(script: Option<StepResult>)
    | Generative(agentOwned: bool, handoffExit: int, artifactOk: bool, final: StepResult, selected: Option<Name>,
                 execution: Execution)

  datatype Request = Request(
    featureId: string, phase: Option<string>, dryRun: bool, token: Option<string>)

  /** `meanwhile` are the events that others try to append while the step runs. */
  datatype Surroundings = Surroundings(
    readable: bool, route: Label -> Route, meanwhile: seq<Event>, clock: Clock)

  datatype Gate =
    | NoGate | InvalidFeature | InvalidPhase | RequestedPhaseMismatch | SequenceInvalid | ApprovalRequired | NotManaged
    | RouteRejected | DirectCommandRequired | StepFailed | ArtifactInvalid | EventRequestMissing | AppendFailed

  /** `dispatched` is the phase whose step was started, if any; `appended` whether this call appended an event. */
  datatype Report = Report(dispatched: Option<Label>, exitCode: int, gate: Gate, appended: bool)

  const MIGRATION_SCOPE := "security_sensitive_migration"

  /** The text before the first colon. */
  function ScopeOf(token: string): string {
    if token == "" || token[0] == ':' then "" else [token[0]] + ScopeOf(token[1..])
  }

  /** `enforce_approval_breakpoint`, for the scope configured for the step, if one is. */
  predicate Approved(requiredScope: Option<string>, token: Option<string>) {
    requiredScope.None? || (token.Some? && token.value != "" && ScopeOf(token.value) == requiredScope.value)
  }

  function RequiredScope(phase: Label, r: Route): Option<string> {
    if phase == Known(Implement) && !r.Unmanaged? then Some(MIGRATION_SCOPE) else None
  }

  /** The phase asked for; none when it is left out or blank. */
  function Wanted(phase: Option<string>): Option<Label> {
    if phase.None? || Strip(phase.value) == "" then None else Some(LabelOf(Strip(phase.value)))
  }

  predicate Refuses(s: PhaseState, requested: Option<Label>) {
    requested.Some? && s.phase != UNKNOWN && requested.value != s.phase && Exceeds(requested.value, s.phase)
  }

  /** What follows the gates: the ledger and the report, for a step of the given phase. */
  function Dispatch(m: Manifest, ledger: seq<Event>, featureId: string, phase: Label, env: Surroundings)
    : (seq<Event>, Report)
  {
    var r := env.route(phase);
    match r
    case Unmanaged => (ledger, Report(None, 1, NotManaged, false))
    case Deterministic(script) =>
      if script.None? then (ledger, Report(None, 1, RouteRejected, false))
      else
        var step := script.value;
        var after := RunAppends(m, ledger, env.meanwhile);
        if step.exitCode == 0 && step.request.Some? then
          var (l, a) := AfterRequested(m, after, featureId, LabelText(phase), step.request.value, env.clock);
          (l, if a.ok then Report(Some(phase), 0, NoGate, a.appended) else Report(Some(phase), 2, AppendFailed, false))
        else (after, Report(Some(phase), step.exitCode, if step.exitCode == 0 then NoGate else StepFailed, false))
    case Generative(agentOwned, handoffExit, artifactOk, final, selected, execution) =>
      if agentOwned then (ledger, Report(None, 1, DirectCommandRequired, false))
      else
        var after := RunAppends(m, ledger, env.meanwhile);
        if handoffExit != 0 then (after, Report(Some(phase), handoffExit, StepFailed, false))
        else if !artifactOk then (after, Report(Some(phase), 1, ArtifactInvalid, false))
        else if final.exitCode != 0 || !final.ok then (after, Report(Some(phase), final.exitCode, StepFailed, false))
        else if final.request.Some? then
          var (l, a) := AfterRequested(m, after, featureId, LabelText(phase), final.request.value, env.clock);
          (l, if a.ok then Report(Some(phase), 0, NoGate, a.appended) else Report(Some(phase), 2, AppendFailed, false))
        else if phase in {Known(Plan), Known(Solution)} then (after, Report(Some(phase), 2, EventRequestMissing, false))
        else
          var (l, a) := AfterSuccess(m, after, featureId, LabelText(phase), selected, env.clock, execution);
          (l, if a.ok then Report(Some(phase), 0, NoGate, a.appended) else Report(Some(phase), 2, AppendFailed, false))
  }

  /** One call of the driver for an existing feature. */
  function Call(m: Manifest, ledger: seq<Event>, q: Request, env: Surroundings): (seq<Event>, Report) {
    var wanted := Wanted(q.phase);
    var s := Resolve(m, if env.readable then Some(ledger) else None, Strip(q.featureId), wanted);
    var phase := if wanted.Some? then wanted.value else s.phase;
    if Strip(q.featureId) == "" then (ledger, Report(None, 1, InvalidFeature, false))
    else if wanted.Some? && wanted.value.Text? then (ledger, Report(None, 1, InvalidPhase, false))
    else if Refuses(s, wanted) then (ledger, Report(None, 1, RequestedPhaseMismatch, false))
    else if s.drift != {} && !q.dryRun then (ledger, Report(None, 1, SequenceInvalid, false))
    else if q.dryRun then (ledger, Report(None, 0, NoGate, false))
    else if !Approved(RequiredScope(phase, env.route(phase)), q.token) then
      (ledger, Report(None, 1, ApprovalRequired, false))
    else Dispatch(m, ledger, s.ledgerFeatureId, phase, env)
  }

  method EnforceApproval(requiredScope: Option<string>, token: Option<string>) returns (ok: bool)
    ensures ok == Approved(requiredScope, token)
  {
    if requiredScope.None? {
      return true;
    }
    if token.None? || token.value == "" {
      return false;
    }
    hide ScopeOf;
    var scope := "";
    var n := 0;
    assert token.value[0..] == token.value;
    while n < |token.value| && token.value[n] != ':'
      invariant 0 <= n <= |token.value|
      invariant ScopeOf(token.value) == scope + ScopeOf(token.value[n..])
    {
      ScopeStep(token.value, n);
      scope := scope + [token.value[n]];
      n := n + 1;
    }
    ScopeStep(token.value, n);
    assert scope + "" == scope;
    return scope == requiredScope.value;
  }

  lemma ScopeStep(token: string, n: nat)
    requires n <= |token|
    ensures ScopeOf(token[n..]) ==
            if n == |token| || token[n] == ':' then "" else [token[n]] + ScopeOf(token[n + 1..])
  {
    assert n < |token| ==> token[n..][0] == token[n] && token[n..][1..] == token[n + 1..];
  }

  /** The events others append, one after the other. */
  method RunOthers(ledger: LedgerFile, m: Manifest, attempts: seq<Event>)
    requires ledger.Valid() && forall i :: 0 <= i < |attempts| ==> attempts[i].line == None
    modifies ledger
    ensures ledger.Valid() && ledger.records == RunAppends(m, old(ledger.records), attempts)
  {
    hide Appended;
    assert attempts[..0] == [];
    for i := 0 to |attempts|
      invariant ledger.Valid() && ledger.records == RunAppends(m, old(ledger.records), attempts[..i])
    {
      assert attempts[..i + 1][..i] == attempts[..i];
      var _ := ledger.Append(m, attempts[i]);
    }
    assert attempts[..|attempts|] == attempts;
  }

  /** `main`, for an existing feature: the gates in order, the step, and the append that follows it. */
  method RunDriver(ledger: LedgerFile, m: Manifest, q: Request, env: Surroundings) returns (report: Report)
    requires ledger.Valid() && forall i :: 0 <= i < |env.meanwhile| ==> env.meanwhile[i].line == None
    modifies ledger
    ensures ledger.Valid()
    ensures (ledger.records, report) == Call(m, old(ledger.records), q, env)
  {
    hide Resolve, RunAppends, AfterRequested, AfterSuccess, ScopeOf, Strip, Wanted;
    var featureId := Strip(q.featureId);
    if featureId == "" {
      return Report(None, 1, InvalidFeature, false);
    }
    var wanted := Wanted(q.phase);
    var s := ResolvePhaseState(m, if env.readable then Some(ledger.records) else None, featureId, wanted);
    if wanted.Some? && wanted.value.Text? {
      return Report(None, 1, InvalidPhase, false);
    }
    var phase := if wanted.Some? then wanted.value else s.phase;
    if wanted.Some? && s.phase != UNKNOWN && wanted.value != s.phase && Exceeds(wanted.value, s.phase) {
      return Report(None, 1, RequestedPhaseMismatch, false);
    }
    if s.drift != {} && !q.dryRun {
      return Report(None, 1, SequenceInvalid, false);
    }
    if q.dryRun {
      return Report(None, 0, NoGate, false);
    }
    var r := env.route(phase);
    var approved := EnforceApproval(RequiredScope(phase, r), q.token);
    if !approved {
      return Report(None, 1, ApprovalRequired, false);
    }
    var id, text := s.ledgerFeatureId, LabelText(phase);
    match r
    case Unmanaged =>
      return Report(None, 1, NotManaged, false);
    case Deterministic(script) =>
      if script.None? {
        return Report(None, 1, RouteRejected, false);
      }
      var step := script.value;
      RunOthers(ledger, m, env.meanwhile);
      if step.exitCode != 0 || step.request.None? {
        return Report(Some(phase), step.exitCode, if step.exitCode == 0 then NoGate else StepFailed, false);
      }
      var a := AppendRequested(ledger, m, id, text, step.request.value, env.clock);
      return if a.ok then Report(Some(phase), 0, NoGate, a.appended) else Report(Some(phase), 2, AppendFailed, false);
    case Generative(agentOwned, handoffExit, artifactOk, final, selected, execution) =>
      if agentOwned {
        return Report(None, 1, DirectCommandRequired, false);
      }
      RunOthers(ledger, m, env.meanwhile);
      if handoffExit != 0 {
        return Report(Some(phase), handoffExit, StepFailed, false);
      }
      if !artifactOk {
        return Report(Some(phase), 1, ArtifactInvalid, false);
      }
      if final.exitCode != 0 || !final.ok {
        return Report(Some(phase), final.exitCode, StepFailed, false);
      }
      var a;
      if final.request.Some? {
        a := AppendRequested(ledger, m, id, text, final.request.value, env.clock);
      } else if phase in {Known(Plan), Known(Solution)} {
        return Report(Some(phase), 2, EventRequestMissing, false);
      } else {
        a := AppendSuccess(ledger, m, id, text, selected, env.clock, execution);
      }
      return if a.ok then Report(Some(phase), 0, NoGate, a.appended) else Report(Some(phase), 2, AppendFailed, false);
  }

  /** The phase asked for, and what the bootstrap step reports: the feature it created, if it says, and its exit
      code. */
  datatype Created = Created(requested: Option<string>, featureId: string, exitCode: int, selected: Option<Name>,
                             clock: Clock, execution: Execution)

  /** A request that is a description, for no other phase than specify, creates a feature and records that step,
      whatever its exit code. */
  function Bootstrap(m: Manifest, ledger: seq<Event>, c: Created): (seq<Event>, Report) {
    var id := Strip(c.featureId);
    if Wanted(c.requested) !in {None, Some(Known(Specify))} then (ledger, Report(None, 1, InvalidPhase, false))
    else if id == "" then (ledger, Report(Some(Known(Specify)), 2, InvalidFeature, false))
    else
      var (l, a) := AfterSuccess(m, ledger, id, "specify", c.selected, c.clock, c.execution);
      (l, if a.ok then Report(Some(Known(Specify)), c.exitCode, NoGate, a.appended)
          else Report(Some(Known(Specify)), 2, AppendFailed, false))
  }

  method RunBootstrap(ledger: LedgerFile, m: Manifest, c: Created) returns (report: Report)
    requires ledger.Valid()
    modifies ledger
    ensures ledger.Valid()
    ensures (ledger.records, report) == Bootstrap(m, old(ledger.records), c)
  {
    hide AfterSuccess, Strip, Wanted;
    var wanted := Wanted(c.requested);
    if wanted.Some? && wanted.value != Known(Specify) {
      return Report(None, 1, InvalidPhase, false);
    }
    var id := Strip(c.featureId);
    if id == "" {
      return Report(Some(Known(Specify)), 2, InvalidFeature, false);
    }
    var a := AppendSuccess(ledger, m, id, "specify", c.selected, c.clock, c.execution);
    if !a.ok {
      return Report(Some(Known(Specify)), 2, AppendFailed, false);
    }
    return Report(Some(Known(Specify)), c.exitCode, NoGate, a.appended);
  }

  // ---------------------------------------------------------------- what one append does

  /** One accepted append of an event that the ledger does not hold yet under its feature, phase and name. */
  ghost predicate AddsOne(m: Manifest, before: seq<Event>, after: seq<Event>, featureId: string, phase: string) {
    exists e ::
      && after == AppendRecord(before, e) && AppendAccepted(m, before, e)
      && e.event.Exact? && e.featureId == featureId && e.phase == phase && e.line == None
      && !Recorded(before, featureId, phase, e.event.name)
  }

  lemma RequestedAdds(
    m: Manifest, ledger: seq<Event>, featureId: string, phase: string, r: EventRequest, clock: Clock)
    ensures var (l, a) := AfterRequested(m, ledger, featureId, phase, r, clock);
      && (l == ledger || AddsOne(m, ledger, l, featureId, phase))
      && (a.appended <==> l != ledger) && (a.appended ==> a.ok)
      && (a.ok ==> r.name.Some? &&
                   (Recorded(ledger, featureId, phase, r.name.value) || a.appended))
  {
    hide AppendAccepted, Recorded;
    var (l, a) := AfterRequested(m, ledger, featureId, phase, r, clock);
    if l != ledger {
      var e := NewEvent(featureId, phase, r.name.value, r.fields, r.criticalCount, clock);
      assert l == AppendRecord(ledger, e) && e.event.name == r.name.value;
    }
  }

  lemma SuccessAdds(
    m: Manifest, ledger: seq<Event>, featureId: string, phase: string, selected: Option<Name>, clock: Clock,
    execution: Execution)
    ensures var (l, a) := AfterSuccess(m, ledger, featureId, phase, selected, clock, execution);
      && (l == ledger || AddsOne(m, ledger, l, featureId, phase))
      && (a.appended ==> a.ok && l != ledger) && (execution.Completed? && l != ledger ==> a.appended)
      && (a.ok && selected.Some? ==> Recorded(ledger, featureId, phase, selected.value) || a.appended)
  {
    hide AppendAccepted, Recorded;
    var (l, a) := AfterSuccess(m, ledger, featureId, phase, selected, clock, execution);
    if l != ledger {
      var e := NewEvent(featureId, phase, selected.value, map[], -1, clock);
      assert l == AppendRecord(ledger, e) && e.event.name == selected.value;
    }
  }

  lemma RecordedAfter(before: seq<Event>, e: Event)
    requires Strip(e.featureId) == e.featureId && Strip(e.phase) == e.phase
    ensures Recorded(AppendRecord(before, e), e.featureId, e.phase, e.event.name)
  {
    hide Strip;
    var after := AppendRecord(before, e);
    assert IsRecord(after[|before|], e.featureId, e.phase, e.event.name);
  }

  /** What is recorded stays recorded as the ledger grows. */
  lemma RecordedGrows(ledger: seq<Event>, later: seq<Event>, featureId: string, phase: string, name: Name)
    requires Recorded(ledger, featureId, phase, name) && ledger <= later
    ensures Recorded(later, featureId, phase, name)
  {
    hide IsRecord;
    var i :| 0 <= i < |ledger| && IsRecord(ledger[i], featureId, phase, name);
    assert later[i] == ledger[i];
  }

  /** Once a request succeeded, asking again for its event changes nothing and succeeds, on the ledger it left and
      on every later one, whatever the new request's other fields and clock. */
  lemma RepeatedRequestIsNoOp(
    m: Manifest, ledger: seq<Event>, featureId: string, phase: string, r: EventRequest, clock: Clock,
    later: seq<Event>, r': EventRequest, clock': Clock)
    requires Strip(featureId) == featureId && Strip(phase) == phase && r'.name == r.name
    requires AfterRequested(m, ledger, featureId, phase, r, clock).1.ok
    requires AfterRequested(m, ledger, featureId, phase, r, clock).0 <= later
    ensures AfterRequested(m, later, featureId, phase, r', clock') == (later, AppendResult(true, false))
  {
    hide AppendAccepted, Recorded, Strip;
    if !Recorded(ledger, featureId, phase, r.name.value) {
      RecordedAfter(ledger, NewEvent(featureId, phase, r.name.value, r.fields, r.criticalCount, clock));
    }
    RecordedGrows(AfterRequested(m, ledger, featureId, phase, r, clock).0, later, featureId, phase, r.name.value);
  }

  /** A retry after a success append that timed out or was killed: if the first one wrote, every later retry is a
      no-op. */
  lemma RetryAfterCrashIsNoOp(
    m: Manifest, ledger: seq<Event>, featureId: string, phase: string, selected: Option<Name>, clock: Clock,
    execution: Execution, later: seq<Event>, clock': Clock, execution': Execution)
    requires Strip(featureId) == featureId && Strip(phase) == phase && selected.Some?
    requires var (l, a) := AfterSuccess(m, ledger, featureId, phase, selected, clock, execution);
      (l != ledger || a.ok) && l <= later
    ensures AfterSuccess(m, later, featureId, phase, selected, clock', execution') == (later, AppendResult(true, false))
  {
    hide AppendAccepted, Recorded, Strip;
    if !Recorded(ledger, featureId, phase, selected.value) {
      RecordedAfter(ledger, NewEvent(featureId, phase, selected.value, map[], -1, clock));
    }
    var l := AfterSuccess(m, ledger, featureId, phase, selected, clock, execution).0;
    RecordedGrows(l, later, featureId, phase, selected.value);
  }

  /** Where an id or phase is padded the check never finds what was appended, so a retry is not a no-op. */
  lemma PaddedRequestIsNotRecorded(ledger: seq<Event>, featureId: string, phase: string, name: Name)
    requires Strip(featureId) != featureId || Strip(phase) != phase
    ensures !Recorded(ledger, featureId, phase, name)
  {
    hide Strip;
    forall i | 0 <= i < |ledger|
      ensures Strip(Strip(ledger[i].featureId)) == Strip(ledger[i].featureId)
      ensures Strip(Strip(ledger[i].phase)) == Strip(ledger[i].phase)
    {
      StripTwice(ledger[i].featureId);
      StripTwice(ledger[i].phase);
    }
  }

  lemma StripTwice(s: string)
    ensures Strip(Strip(s)) == Strip(s)
  {
    hide Strip;
    StripFacts(s);
    TrimmedStrip(Strip(s));
  }

  // ---------------------------------------------------------------- what one call does

  lemma WantedByName(p: Phase)
    ensures Wanted(Some(LabelText(Known(p)))) == Some(Known(p))
  {
    hide Strip;
    LabelTextIsPlain(Known(p));
    SpellingsAgree(LabelText(Known(p)), p);
  }

  lemma LabelTextIsPlain(l: Label)
    requires l.Known? || l == UNKNOWN
    ensures Strip(LabelText(l)) == LabelText(l) && LabelText(l) != ""
  {
    hide Strip, Lstrip, Rstrip;
    TrimmedStrip(LabelText(l));
  }

  lemma ResolvedIdIsPlain(events: seq<Event>, featureId: string)
    requires Strip(featureId) == featureId && featureId != ""
    ensures Strip(ViewOf(events, featureId).0) == ViewOf(events, featureId).0
  {
    hide OfFeature, Strip;
    ViewIsOfFeature(events, featureId);
    var n := Digits(Strip(featureId));
    if ViewOf(events, featureId).0 != featureId {
      DigitsAreText(Strip(featureId)[..n]);
    }
  }

  /** The ledger as a call's own append finds it: with what others appended while the step ran. */
  function Met(m: Manifest, ledger: seq<Event>, env: Surroundings, r: Report): seq<Event> {
    if r.dispatched.Some? then RunAppends(m, ledger, env.meanwhile) else ledger
  }

  lemma DispatchAdds(m: Manifest, ledger: seq<Event>, featureId: string, phase: Label, env: Surroundings)
    ensures var (l, r) := Dispatch(m, ledger, featureId, phase, env);
      var met := Met(m, ledger, env, r);
      && (l == met || AddsOne(m, met, l, featureId, LabelText(phase)))
      && (r.appended ==> l != met)
      && r.dispatched in {None, Some(phase)}
      && (r.dispatched.None? ==> r.gate in {NotManaged, RouteRejected, DirectCommandRequired})
  {
    hide AfterRequested, AfterSuccess, AddsOne, RunAppends, LabelText;
    var after, text := RunAppends(m, ledger, env.meanwhile), LabelText(phase);
    match env.route(phase)
    case Unmanaged =>
    case Deterministic(script) =>
      if script.Some? && script.value.request.Some? {
        RequestedAdds(m, after, featureId, text, script.value.request.value, env.clock);
      }
    case Generative(agentOwned, handoffExit, artifactOk, final, selected, execution) =>
      if final.request.Some? {
        RequestedAdds(m, after, featureId, text, final.request.value, env.clock);
      }
      SuccessAdds(m, after, featureId, text, selected, env.clock, execution);
  }

  /** A call's own append adds at most one event: for the call's own feature, as the ledger knows it, and the phase
      it started, and one that the ledger did not hold yet under that feature, phase and name. A call that starts
      nothing writes nothing. */
  lemma CallAdds(m: Manifest, ledger: seq<Event>, q: Request, env: Surroundings)
    ensures var (l, r) := Call(m, ledger, q, env);
      var met := Met(m, ledger, env, r);
      && (l == met ||
          (r.dispatched.Some? &&
           AddsOne(m, met, l, ViewOf(ledger, Strip(q.featureId)).0, LabelText(r.dispatched.value))))
      && (r.appended ==> l != met)
      && (r.dispatched.None? ==> l == ledger)
  {
    hide Dispatch, AddsOne, Resolve, LabelText, RunAppends, Strip, ViewOf;
    if Gated(m, ledger, q, env).Some? {
      var (id, phase) := Gated(m, ledger, q, env).value;
      GatedFacts(m, ledger, q, env);
      DispatchAdds(m, ledger, id, phase, env);
      DispatchWritesOnlyIfDispatched(m, ledger, id, phase, env);
    } else {
      GatedFacts(m, ledger, q, env);
    }
  }

  /** The feature and phase of such an event are written without padding. */
  lemma CallWritesPlainly(m: Manifest, ledger: seq<Event>, q: Request, env: Surroundings)
    ensures var (l, r) := Call(m, ledger, q, env);
      l != Met(m, ledger, env, r) ==>
        r.dispatched.Some? &&
        Strip(ViewOf(ledger, Strip(q.featureId)).0) == ViewOf(ledger, Strip(q.featureId)).0 &&
        Strip(LabelText(r.dispatched.value)) == LabelText(r.dispatched.value)
  {
    hide Dispatch, AddsOne, Resolve, LabelText, RunAppends, Strip, ViewOf;
    CallAdds(m, ledger, q, env);
    GatedFacts(m, ledger, q, env);
    if Gated(m, ledger, q, env).Some? {
      var (id, phase) := Gated(m, ledger, q, env).value;
      DispatchAdds(m, ledger, id, phase, env);
      LabelTextIsPlain(phase);
    }
  }

  lemma DispatchWritesOnlyIfDispatched(
    m: Manifest, ledger: seq<Event>, featureId: string, phase: Label, env: Surroundings)
    ensures var (l, r) := Dispatch(m, ledger, featureId, phase, env); r.dispatched.None? ==> l == ledger
  {
    hide AfterRequested, AfterSuccess, RunAppends, LabelText;
  }

  /** The feature id and phase that reach the dispatch, if the gates let the call through. */
  function Gated(m: Manifest, ledger: seq<Event>, q: Request, env: Surroundings): Option<(string, Label)> {
    var wanted := Wanted(q.phase);
    var s := Resolve(m, if env.readable then Some(ledger) else None, Strip(q.featureId), wanted);
    var phase := if wanted.Some? then wanted.value else s.phase;
    if Strip(q.featureId) == "" || (wanted.Some? && wanted.value.Text?) || Refuses(s, wanted) || s.drift != {} ||
       q.dryRun || !Approved(RequiredScope(phase, env.route(phase)), q.token)
    then None
    else Some((s.ledgerFeatureId, phase))
  }

  lemma GatedFacts(m: Manifest, ledger: seq<Event>, q: Request, env: Surroundings)
    ensures var g := Gated(m, ledger, q, env);
      && (g.None? ==> Call(m, ledger, q, env).0 == ledger && Call(m, ledger, q, env).1.dispatched == None)
      && (g.Some? ==> Call(m, ledger, q, env) == Dispatch(m, ledger, g.value.0, g.value.1, env))
      && (g.Some? ==> g.value.0 == ViewOf(ledger, Strip(q.featureId)).0 && Strip(g.value.0) == g.value.0)
      && (g.Some? ==> g.value.1.Known? || g.value.1 == UNKNOWN)
  {
    hide Dispatch, LabelText, RunAppends, Strip, OfFeature, Scan, NumericPrefix, PhaseOfEvent, ScopeOf;
    var id := Strip(q.featureId);
    if id != "" && env.readable {
      StripTwice(q.featureId);
      ResolvedIdIsPlain(ledger, id);
    }
  }

  // ---------------------------------------------------------------- dispatch

  /** The phase asked for, or derived, as the ledger allows it: nothing but specify for a new feature, no phase past
      the last event's, and, when the last event has no phase of its own, whatever is asked for. */
  predicate Allowed(v: seq<Event>, requested: Option<Label>, p: Label) {
    if v == [] then p == Known(Specify) && requested in {None, Some(p)}
    else if Derived(v).Some? then
      p.Known? && PhaseIndex(p.phase) <= PhaseIndex(Derived(v).value) &&
      (if requested.Some? then requested == Some(p) else p.phase == Derived(v).value)
    else if requested.Some? then p.Known? && requested == Some(p)
    else p == UNKNOWN
  }

  predicate Startable(r: Route) {
    (r.Deterministic? && r.script.Some?) || (r.Generative? && !r.agentOwned)
  }

  lemma DispatchedIffStartable(m: Manifest, ledger: seq<Event>, featureId: string, phase: Label, env: Surroundings)
    ensures Dispatch(m, ledger, featureId, phase, env).1.dispatched ==
            if Startable(env.route(phase)) then Some(phase) else None
  {
    hide AfterRequested, AfterSuccess, RunAppends, LabelText;
  }

  /** Exactly when a step is started: the ledger can be read and the feature's events in it are valid, the phase is
      allowed by them, the route can be started, and implementing carries a token of the migration scope. */
  lemma DispatchIff(m: Manifest, ledger: seq<Event>, q: Request, env: Surroundings, p: Label)
    ensures Call(m, ledger, q, env).1.dispatched == Some(p) <==>
      var v := View(ledger, Strip(q.featureId));
      && Strip(q.featureId) != "" && env.readable && !q.dryRun
      && ValidLedger(m, v) && Allowed(v, Wanted(q.phase), p)
      && Startable(env.route(p))
      && (p == Known(Implement) ==>
            q.token.Some? && q.token.value != "" && ScopeOf(q.token.value) == MIGRATION_SCOPE)
  {
    hide Dispatch, RunAppends, Strip, OfFeature, Scan, NumericPrefix, PhaseOfEvent, ScopeOf;
    GatedFacts(m, ledger, q, env);
    var s := Resolve(m, if env.readable then Some(ledger) else None, Strip(q.featureId), Wanted(q.phase));
    var phase := if Wanted(q.phase).Some? then Wanted(q.phase).value else s.phase;
    DispatchedIffStartable(m, ledger, s.ledgerFeatureId, phase, env);
    EmptyReplay(m);
  }

  /** The phase that the driver itself names as the next one is never started while the ledger's last event still
      derives the present one. */
  lemma NextPhaseIsRefused(m: Manifest, ledger: seq<Event>, q: Request, env: Surroundings)
    requires var v := View(ledger, Strip(q.featureId));
      Derived(v).Some? && Derived(v).value != Phase.Closed &&
      Wanted(q.phase) == Some(Known(NextPhase(Derived(v).value)))
    requires env.readable && Strip(q.featureId) != ""
    ensures Call(m, ledger, q, env) == (ledger, Report(None, 1, RequestedPhaseMismatch, false))
  {
    hide Dispatch, Strip, OfFeature, Scan, NumericPrefix, PhaseOfEvent, ScopeOf;
  }

  // ---------------------------------------------------------------- runs

  datatype Turn = Drive(request: Request, env: Surroundings) | Create(created: Created)

  function Take(m: Manifest, ledger: seq<Event>, t: Turn): (seq<Event>, Report) {
    match t
    case Drive(q, env) => Call(m, ledger, q, env)
    case Create(c) => Bootstrap(m, ledger, c)
  }

  function TakeAll(m: Manifest, ledger: seq<Event>, turns: seq<Turn>): seq<Event>
    decreases |turns|
  {
    if turns == [] then ledger
    else Take(m, TakeAll(m, ledger, turns[..|turns| - 1]), turns[|turns| - 1]).0
  }

  lemma AcceptedStaysValid(m: Manifest, before: seq<Event>, e: Event)
    requires AppendAccepted(m, before, e)
    ensures ValidLedger(m, AppendRecord(before, e))
  {
    hide Scan, AcceptedFeatureArgument;
    LinesDoNotMatter(m, before + [e], AppendRecord(before, e));
  }

  lemma BootstrapAdds(m: Manifest, ledger: seq<Event>, c: Created)
    ensures var (l, r) := Bootstrap(m, ledger, c);
      l == ledger || exists id, text :: AddsOne(m, ledger, l, id, text) && Strip(id) == id && Strip(text) == text
  {
    hide AfterSuccess, AddsOne, Strip;
    var id := Strip(c.featureId);
    StripTwice(c.featureId);
    LabelTextIsPlain(Known(Specify));
    SuccessAdds(m, ledger, id, "specify", c.selected, c.clock, c.execution);
  }

  /** What a turn writes itself is one accepted event of a plainly written feature and phase. */
  ghost predicate AddsPlainly(m: Manifest, before: seq<Event>, after: seq<Event>) {
    exists id, text :: AddsOne(m, before, after, id, text) && Strip(id) == id && Strip(text) == text
  }

  /** The ledger as a turn's own append finds it. */
  function MetByTurn(m: Manifest, ledger: seq<Event>, t: Turn): seq<Event> {
    match t
    case Drive(q, env) => Met(m, ledger, env, Take(m, ledger, t).1)
    case Create(c) => ledger
  }

  lemma TurnAdds(m: Manifest, ledger: seq<Event>, t: Turn)
    ensures Take(m, ledger, t).0 == MetByTurn(m, ledger, t) ||
            AddsPlainly(m, MetByTurn(m, ledger, t), Take(m, ledger, t).0)
  {
    hide Call, Bootstrap, AddsOne, Strip, ViewOf, LabelText, Met;
    match t
    case Drive(q, env) =>
      CallAdds(m, ledger, q, env);
      CallWritesPlainly(m, ledger, q, env);
    case Create(c) =>
      BootstrapAdds(m, ledger, c);
  }

  lemma AddsOneRecord(m: Manifest, before: seq<Event>, after: seq<Event>)
    requires AddsPlainly(m, before, after)
    ensures before <= after && (ValidLedger(m, before) ==> ValidLedger(m, after))
  {
    hide Scan, AppendAccepted, Strip, Recorded;
    var id, text :| AddsOne(m, before, after, id, text);
    var e :| after == AppendRecord(before, e) && AppendAccepted(m, before, e);
    AcceptedStaysValid(m, before, e);
  }

  lemma {:induction false} AppendsGrow(m: Manifest, ledger: seq<Event>, attempts: seq<Event>)
    ensures ledger <= RunAppends(m, ledger, attempts)
    decreases |attempts|
  {
    hide AppendAccepted;
    if attempts != [] {
      AppendsGrow(m, ledger, attempts[..|attempts| - 1]);
    }
  }

  /** Others' appends included, a turn leaves a valid ledger valid and only ever adds at its end. */
  lemma TurnKeepsValid(m: Manifest, ledger: seq<Event>, t: Turn)
    ensures ledger <= Take(m, ledger, t).0
    ensures ValidLedger(m, ledger) ==> ValidLedger(m, Take(m, ledger, t).0)
  {
    hide Take, ValidLedger, RunAppends, AddsPlainly;
    TurnAdds(m, ledger, t);
    var met := MetByTurn(m, ledger, t);
    if t.Drive? {
      AppendsGrow(m, ledger, t.env.meanwhile);
      if ValidLedger(m, ledger) {
        AppendsKeepEveryFeatureValid(m, ledger, t.env.meanwhile);
      }
    }
    if Take(m, ledger, t).0 != met {
      AddsOneRecord(m, met, Take(m, ledger, t).0);
    }
  }

  /** Over any run the ledger only grows at its end, and a valid one stays valid. */
  lemma {:induction false} RunKeepsValid(m: Manifest, ledger: seq<Event>, turns: seq<Turn>)
    ensures ledger <= TakeAll(m, ledger, turns)
    ensures ValidLedger(m, ledger) ==> ValidLedger(m, TakeAll(m, ledger, turns))
    decreases |turns|
  {
    hide Take, Scan;
    if turns != [] {
      RunKeepsValid(m, ledger, turns[..|turns| - 1]);
      TurnKeepsValid(m, TakeAll(m, ledger, turns[..|turns| - 1]), turns[|turns| - 1]);
    }
  }

  /** After a request succeeded, and any turns of the driver and appends of others since, repeating it is still a
      no-op. */
  lemma RepetitionAfterRunIsNoOp(
    m: Manifest, ledger: seq<Event>, featureId: string, phase: string, r: EventRequest, clock: Clock,
    turns: seq<Turn>, r': EventRequest, clock': Clock)
    requires Strip(featureId) == featureId && Strip(phase) == phase && r'.name == r.name
    requires AfterRequested(m, ledger, featureId, phase, r, clock).1.ok
    ensures var later := TakeAll(m, AfterRequested(m, ledger, featureId, phase, r, clock).0, turns);
      AfterRequested(m, later, featureId, phase, r', clock') == (later, AppendResult(true, false))
  {
    hide AfterRequested, TakeAll, Strip;
    var l := AfterRequested(m, ledger, featureId, phase, r, clock).0;
    RunKeepsValid(m, l, turns);
    RepeatedRequestIsNoOp(m, ledger, featureId, phase, r, clock, TakeAll(m, l, turns), r', clock');
  }

  /** The same for the retry of a success append, crashed or not, that wrote. */
  lemma RetryAfterRunIsNoOp(
    m: Manifest, ledger: seq<Event>, featureId: string, phase: string, selected: Option<Name>, clock: Clock,
    execution: Execution, turns: seq<Turn>, clock': Clock, execution': Execution)
    requires Strip(featureId) == featureId && Strip(phase) == phase && selected.Some?
    requires var (l, a) := AfterSuccess(m, ledger, featureId, phase, selected, clock, execution); l != ledger || a.ok
    ensures var later := TakeAll(m, AfterSuccess(m, ledger, featureId, phase, selected, clock, execution).0, turns);
      AfterSuccess(m, later, featureId, phase, selected, clock', execution') == (later, AppendResult(true, false))
  {
    hide AfterSuccess, TakeAll, Strip;
    var l := AfterSuccess(m, ledger, featureId, phase, selected, clock, execution).0;
    RunKeepsValid(m, l, turns);
    RetryAfterCrashIsNoOp(
      m, ledger, featureId, phase, selected, clock, execution, TakeAll(m, l, turns), clock', execution');
  }

  /** Safety of every run: a call after any turns finds a ledger whose sequence it does not complain about, and
      starts a step only for a phase that the feature's events allow, implementing only under its token. */
  lemma RunIsSafe(m: Manifest, ledger: seq<Event>, turns: seq<Turn>, q: Request, env: Surroundings)
    requires ValidLedger(m, ledger)
    ensures var l := TakeAll(m, ledger, turns);
      var r := Call(m, l, q, env).1;
      && (env.readable ==> r.gate != SequenceInvalid)
      && (r.dispatched.Some? ==>
            && ValidLedger(m, l) && Allowed(View(l, Strip(q.featureId)), Wanted(q.phase), r.dispatched.value)
            && (r.dispatched == Some(Known(Implement)) ==>
                  q.token.Some? && ScopeOf(q.token.value) == MIGRATION_SCOPE))
  {
    hide Call, Scan, Allowed, ScopeOf, Strip, View;
    RunKeepsValid(m, ledger, turns);
    var l := TakeAll(m, ledger, turns);
    var r := Call(m, l, q, env).1;
    if r.dispatched.Some? {
      DispatchIff(m, l, q, env, r.dispatched.value);
    }
    if env.readable {
      NoComplaintOnValid(m, l, q, env);
    }
  }

  lemma NoComplaintOnValid(m: Manifest, ledger: seq<Event>, q: Request, env: Surroundings)
    requires ValidLedger(m, ledger) && env.readable
    ensures Call(m, ledger, q, env).1.gate != SequenceInvalid
  {
    hide Scan, OfFeature, NumericPrefix, PhaseOfEvent, Strip, ScopeOf, RunAppends, AfterRequested, AfterSuccess;
    ResolvedFromValidLedger(m, ledger, Strip(q.featureId), Wanted(q.phase));
  }

  /** No two events of one feature, phase and name. */
  ghost predicate NoDuplicates(ledger: seq<Event>) {
    forall i, j :: 0 <= i < j < |ledger| ==>
      !IsRecord(ledger[i], Strip(ledger[j].featureId), Strip(ledger[j].phase), ledger[j].event.name)
  }

  lemma NotRecorded(ledger: seq<Event>, featureId: string, phase: string, name: Name, i: nat)
    requires !Recorded(ledger, featureId, phase, name) && i < |ledger|
    ensures !IsRecord(ledger[i], featureId, phase, name)
  {
  }

  lemma AddedIsNoDuplicate(m: Manifest, before: seq<Event>, after: seq<Event>, featureId: string, phase: string)
    requires NoDuplicates(before) && AddsOne(m, before, after, featureId, phase)
    requires Strip(featureId) == featureId && Strip(phase) == phase
    ensures NoDuplicates(after)
  {
    hide Strip, AppendAccepted;
    var e :| after == AppendRecord(before, e) && e.featureId == featureId && e.phase == phase &&
      !Recorded(before, featureId, phase, e.event.name);
    forall i, j | 0 <= i < j < |after|
      ensures !IsRecord(after[i], Strip(after[j].featureId), Strip(after[j].phase), after[j].event.name)
    {
      if j == |before| {
        NotRecorded(before, featureId, phase, e.event.name, i);
      }
    }
  }

  /** The driver alone never records the same event of a phase twice, over any run of calls, retries and crashed
      appends. */
  lemma {:induction false} RunRecordsNothingTwice(m: Manifest, ledger: seq<Event>, turns: seq<Turn>)
    requires NoDuplicates(ledger)
    requires forall i :: 0 <= i < |turns| && turns[i].Drive? ==> turns[i].env.meanwhile == []
    ensures NoDuplicates(TakeAll(m, ledger, turns))
    decreases |turns|
  {
    hide Take, AddsOne, NoDuplicates, Strip;
    if turns != [] {
      var n := |turns| - 1;
      RunRecordsNothingTwice(m, ledger, turns[..n]);
      var before := TakeAll(m, ledger, turns[..n]);
      var after := Take(m, before, turns[n]).0;
      TurnAdds(m, before, turns[n]);
      assert MetByTurn(m, before, turns[n]) == before;
      if after != before {
        var id, text :| AddsOne(m, before, after, id, text) && Strip(id) == id && Strip(text) == text;
        AddedIsNoDuplicate(m, before, after, id, text);
      }
    }
  }

  /** Exactly when a bootstrap leaves its success event in the ledger. The step's exit code plays no part; the
      feature id must be three bare digits, so a branch name such as 018-login is always refused. */
  lemma BootstrapRecordsIff(m: Manifest, ledger: seq<Event>, c: Created)
    requires Strip(c.featureId) != "" && c.selected.Some?
    ensures var id := Strip(c.featureId);
      var e := NewEvent(id, "specify", c.selected.value, map[], -1, c.clock);
      Recorded(Bootstrap(m, ledger, c).0, id, "specify", c.selected.value) <==>
        || Recorded(ledger, id, "specify", c.selected.value)
        || (Wanted(c.requested) in {None, Some(Known(Specify))} && IsFeatureId(id) && c.selected.value in m.valid &&
            ValidLedger(m, ledger + [e]) && (c.execution.Completed? || c.execution.wrote))
  {
    hide Strip, Scan, IsFeatureId, Recorded, ValidLedger;
    var id := Strip(c.featureId);
    StripTwice(c.featureId);
    LabelTextIsPlain(Known(Specify));
    var e := NewEvent(id, "specify", c.selected.value, map[], -1, c.clock);
    StrippedArgument(id);
    RecordedAfter(ledger, e);
  }

  lemma StrippedArgument(id: string)
    requires Strip(id) == id
    ensures AcceptedFeatureArgument(id) <==> IsFeatureId(id)
  {
    hide Strip, IsFeatureId;
    StripFacts(id);
  }

  /** So a feature reported by its branch name, three digits, a dash and words, is never recorded as specified: the
      bootstrap changes no ledger, and fails unless the event stood there already. */
  lemma BranchNameIsNotRecorded(m: Manifest, ledger: seq<Event>, c: Created)
    requires '-' in Strip(c.featureId) && c.selected.Some?
    ensures var (l, r) := Bootstrap(m, ledger, c);
      && l == ledger && !r.appended
      && (Recorded(ledger, Strip(c.featureId), "specify", c.selected.value) || r.exitCode != 0)
  {
    StripTwice(c.featureId);
    StrippedArgument(Strip(c.featureId));
    hide Strip, ValidLedger, Wanted, Recorded, AcceptedFeatureArgument;
  }

  /** After an event without a phase of its own, such as the completion of the implementation, any phase asked for
      is started, early ones and later ones alike. */
  lemma UnphasedEventStartsAnyPhase(m: Manifest, ledger: seq<Event>, q: Request, env: Surroundings, p: Phase)
    requires ValidLedger(m, ledger) && env.readable && !q.dryRun && Strip(q.featureId) != ""
    requires var v := View(ledger, Strip(q.featureId)); v != [] && Derived(v).None?
    requires Wanted(q.phase) == Some(Known(p)) && q.token == Some(MIGRATION_SCOPE) && Startable(env.route(Known(p)))
    ensures Call(m, ledger, q, env).1.dispatched == Some(Known(p))
  {
    hide Call, Scan, OfFeature, NumericPrefix, PhaseOfEvent, Strip, ScopeOf, Startable;
    ValidIffEachFeatureValid(m, ledger);
    ViewIsOfFeature(ledger, Strip(q.featureId));
    NoColon(MIGRATION_SCOPE);
    DispatchIff(m, ledger, q, env, Known(p));
  }

  lemma {:induction false} NoColon(token: string)
    requires ':' !in token
    ensures ScopeOf(token) == token
  {
    if token != "" {
      assert token == [token[0]] + token[1..];
      NoColon(token[1..]);
    }
  }

  /** A ledger that meets the case: five accepted appends take feature 018 to the end of its implementation, and
      then a request for any phase starts that phase. */
  lemma ImplementedFeatureStartsAnyPhase(m: Manifest, env: Surroundings, p: Phase)
    requires forall name :: name in IMPLEMENTED_NAMES ==> name in m.valid
    requires env.readable && Startable(env.route(Known(p)))
    ensures var ledger := RunAppends(m, [], Implemented(m));
      var q := Request("018", Some(LabelText(Known(p))), false, Some(MIGRATION_SCOPE));
      && |ledger| == 5 && ValidLedger(m, ledger) && ledger[4].event == Exact(ImplementationCompleted)
      && Call(m, ledger, q, env).1.dispatched == Some(Known(p))
  {
    hide *;
    ImplementedLedger(m);
    ImplementedView(RunAppends(m, [], Implemented(m)));
    WantedByName(p);
    var q := Request("018", Some(LabelText(Known(p))), false, Some(MIGRATION_SCOPE));
    UnphasedEventStartsAnyPhase(m, RunAppends(m, [], Implemented(m)), q, env, p);
  }

  lemma ImplementedLedger(m: Manifest)
    requires forall name :: name in IMPLEMENTED_NAMES ==> name in m.valid
    ensures var ledger := RunAppends(m, [], Implemented(m));
      && |ledger| == 5 && ValidLedger(m, ledger) && ledger[4].event == Exact(ImplementationCompleted)
      && forall i :: 0 <= i < 5 ==> ledger[i].featureId == "018"
  {
    hide Strip, IsFeatureId, Chain, WellShaped, RunAppends, AcceptedFeatureArgument, Scan;
    ImplementedIsAChain(m);
    Digits018();
    EveryChainCanBeAppended(m, Implemented(m), "018");
    var ledger := RunAppends(m, [], Implemented(m));
    forall i | 0 <= i < 5 ensures ledger[i].featureId == "018" && ledger[i].event == Implemented(m)[i].event {
      assert ledger[i].(line := None) == Implemented(m)[i].(line := None);
    }
  }

  lemma ImplementedView(ledger: seq<Event>)
    requires |ledger| == 5 && ledger[4].event == Exact(ImplementationCompleted)
    requires forall i :: 0 <= i < 5 ==> ledger[i].featureId == "018"
    ensures Strip("018") == "018" != "" && View(ledger, "018") == ledger && Derived(ledger) == None
  {
    Digits018();
    hide Strip, OfFeature, NumericPrefix;
    SeenTogether(ledger);
  }
}
