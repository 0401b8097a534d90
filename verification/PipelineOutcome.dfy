/** What a call of the driver leaves in the ledger, and what its report says about that: the event a step asked for is
    recorded or the exit code tells that it is not. */
module PipelineOutcome {
  import opened Options
  import opened Text
  import opened PipelineLedger
  import opened PipelinePhases
  import opened PhaseResolver
  import opened PipelineDriver

  /** The step ran to its end without a failure. */
  predicate Succeeded(r: Route) {
    match r
    case Unmanaged => false
    case Deterministic(script) => script.Some? && script.value.exitCode == 0
    case Generative(agentOwned, handoffExit, artifactOk, final, _, _) =>
      !agentOwned && handoffExit == 0 && artifactOk && final.exitCode == 0 && final.ok
  }

  /** The event that the step asks for, if it does. */
  function Asked(r: Route): Option<EventRequest> {
    match r
    case Unmanaged => None
    case Deterministic(script) => if script.Some? then script.value.request else None
    case Generative(_, _, _, final, _, _) => final.request
  }

  /** What a step that did not succeed makes of the exit code: that of the handoff, then 1 for a bad artifact, then that
      of the final result. */
  function FailureCode(r: Route): int {
    match r
    case Unmanaged => 1
    case Deterministic(script) => if script.Some? then script.value.exitCode else 1
    case Generative(_, handoffExit, artifactOk, final, _, _) =>
      if handoffExit != 0 then handoffExit else if !artifactOk then 1 else final.exitCode
  }

  /** The ledger takes the event next. */
  predicate Acceptable(m: Manifest, ledger: seq<Event>, e: Event) {
    IsFeatureId(e.featureId) && e.event.name in m.valid && ValidLedger(m, ledger + [e])
  }

  /** The new ledger is the old one or that and the event, which is numbered. */
  predicate AtMost(before: seq<Event>, after: seq<Event>, e: Event) {
    after == before || after == before + [e.(line := Some(|before| + 1))]
  }

  /** After a step that succeeded and asked for an event, the event is recorded exactly if it was before or the ledger
      can take it as it was asked for, with its fields and its count; the exit code is 0 exactly if it is recorded,
      and nothing else is added. */
  lemma RequestIsRecordedIff(m: Manifest, ledger: seq<Event>, q: Request, env: Surroundings, p: Label, r: EventRequest)
    requires Call(m, ledger, q, env).1.dispatched == Some(p)
    requires Succeeded(env.route(p)) && Asked(env.route(p)) == Some(r) && r.name.Some?
    ensures var (l, report) := Call(m, ledger, q, env);
      var met := RunAppends(m, ledger, env.meanwhile);
      var id, text, name := ViewOf(ledger, Strip(q.featureId)).0, LabelText(p), r.name.value;
      var e := Event(None, Exact(name), id, text, env.clock.text, env.clock.instant, false, r.fields, r.criticalCount);
      && (Recorded(l, id, text, name) <==> Recorded(met, id, text, name) || (r.readable && Acceptable(m, met, e)))
      && AtMost(met, l, e) && (Recorded(met, id, text, name) ==> l == met)
      && report == (if Recorded(l, id, text, name) then Report(Some(p), 0, NoGate, l != met)
                    else Report(Some(p), 2, AppendFailed, false))
  {
    hide Recorded, Strip, ViewOf, LabelText, RunAppends, ValidLedger, AcceptedFeatureArgument, IsFeatureId;
    var id := StartedAs(m, ledger, q, env, p);
    DispatchRequest(m, ledger, id, p, env, r);
    RequestedIs(m, RunAppends(m, ledger, env.meanwhile), id, LabelText(p), r, env.clock);
  }

  /** Where the event asked for has no name, nothing is added and the call fails. */
  lemma NamelessRequestFails(m: Manifest, ledger: seq<Event>, q: Request, env: Surroundings, p: Label, r: EventRequest)
    requires Call(m, ledger, q, env).1.dispatched == Some(p)
    requires Succeeded(env.route(p)) && Asked(env.route(p)) == Some(r) && r.name.None?
    ensures Call(m, ledger, q, env) ==
            (RunAppends(m, ledger, env.meanwhile), Report(Some(p), 2, AppendFailed, false))
  {
    hide Recorded, Strip, ViewOf, LabelText, RunAppends, AppendAccepted;
    var id := StartedAs(m, ledger, q, env, p);
    DispatchRequest(m, ledger, id, p, env, r);
  }

  /** A generative step that asks for nothing has its route's success event recorded, unless the ledger cannot take it
      or the append did not come to write; the exit code is 0 only if the append was seen to succeed. For plan and
      solution that does not do: they must ask. */
  lemma SuccessIsRecordedIff(m: Manifest, ledger: seq<Event>, q: Request, env: Surroundings, p: Label, name: Name)
    requires Call(m, ledger, q, env).1.dispatched == Some(p)
    requires var r := env.route(p); Succeeded(r) && r.Generative? && r.final.request.None? && r.selected == Some(name)
    ensures var (l, report) := Call(m, ledger, q, env);
      var met := RunAppends(m, ledger, env.meanwhile);
      var id, text, execution := ViewOf(ledger, Strip(q.featureId)).0, LabelText(p), env.route(p).execution;
      var e := Event(None, Exact(name), id, text, env.clock.text, env.clock.instant, false, map[], -1);
      var before := Recorded(met, id, text, name);
      if p in {Known(Plan), Known(Solution)} then l == met && report == Report(Some(p), 2, EventRequestMissing, false)
      else
        && (Recorded(l, id, text, name) <==>
              before || (Acceptable(m, met, e) && (execution.Completed? || execution.wrote)))
        && AtMost(met, l, e) && (before ==> l == met)
        && report == (if before || (Acceptable(m, met, e) && execution.Completed?)
                      then Report(Some(p), 0, NoGate, l != met)
                      else Report(Some(p), 2, AppendFailed, false))
  {
    hide Recorded, Strip, ViewOf, LabelText, RunAppends, ValidLedger, AcceptedFeatureArgument, IsFeatureId;
    var id := StartedAs(m, ledger, q, env, p);
    var r := env.route(p);
    DispatchSuccess(m, ledger, id, p, env);
    SuccessIs(m, RunAppends(m, ledger, env.meanwhile), id, LabelText(p), name, env.clock, r.execution);
  }

  /** In every other case a started call adds nothing: a deterministic step that asks for nothing, or a generative one
      whose route declares no success event, succeeds; a step that fails passes its exit code on. */
  lemma OtherwiseNothingIsAdded(m: Manifest, ledger: seq<Event>, q: Request, env: Surroundings, p: Label)
    requires Call(m, ledger, q, env).1.dispatched == Some(p)
    ensures var (l, report) := Call(m, ledger, q, env);
      var met, r := RunAppends(m, ledger, env.meanwhile), env.route(p);
      && (Succeeded(r) && Asked(r).None? &&
          (r.Deterministic? || (r.Generative? && r.selected.None? && p !in {Known(Plan), Known(Solution)})) ==>
            l == met && report == Report(Some(p), 0, NoGate, false))
      && (!Succeeded(r) ==>
            l == met && !report.appended && report.gate in {StepFailed, ArtifactInvalid} &&
            report.exitCode == FailureCode(r))
  {
    hide Call, Dispatch, Strip, ViewOf, LabelText, RunAppends, Succeeded, Asked, FailureCode;
    var id := StartedAs(m, ledger, q, env, p);
    DispatchedIffStartable(m, ledger, id, p, env);
    DispatchOtherwise(m, ledger, id, p, env);
  }

  // ---------------------------------------------------------------- why a call starts nothing

  /** The events the call goes by: the feature's, or none if the ledger cannot be read. */
  function Seen(ledger: seq<Event>, q: Request, env: Surroundings): seq<Event> {
    if env.readable then View(ledger, Strip(q.featureId)) else []
  }

  /** The phase asked for lies past what the events derive. */
  predicate Past(v: seq<Event>, wanted: Option<Label>) {
    && wanted.Some? && wanted.value.Known?
    && (v == [] || Derived(v).Some?)
    && PhaseIndex(wanted.value.phase) > if v == [] then 0 else PhaseIndex(Derived(v).value)
  }

  function Target(v: seq<Event>, wanted: Option<Label>): Label {
    if wanted.Some? then wanted.value
    else if v == [] then Known(Specify)
    else if Derived(v).Some? then Known(Derived(v).value)
    else UNKNOWN
  }

  predicate Named(q: Request) {
    Strip(q.featureId) != "" && (Wanted(q.phase).Some? ==> Wanted(q.phase).value.Known?)
  }

  /** The call gets as far as looking at its route. */
  predicate Sound(m: Manifest, ledger: seq<Event>, q: Request, env: Surroundings) {
    var v := Seen(ledger, q, env);
    Named(q) && !Past(v, Wanted(q.phase)) && !q.dryRun && env.readable && ValidLedger(m, v)
  }

  predicate HasToken(q: Request) {
    q.token.Some? && q.token.value != "" && ScopeOf(q.token.value) == "security_sensitive_migration"
  }

  /** Which gate turns a call away: the first in order that its id, phase, ledger, token and route do not pass. A call
      that starts nothing fails with 1, except a dry run that passes the gates before it. */
  lemma RefusedBecause(m: Manifest, ledger: seq<Event>, q: Request, env: Surroundings)
    ensures var r := Call(m, ledger, q, env).1;
      var v, wanted := Seen(ledger, q, env), Wanted(q.phase);
      var route := env.route(Target(v, wanted));
      var needsToken := Target(v, wanted) == Known(Implement) && !route.Unmanaged?;
      && (r.gate == InvalidFeature <==> Strip(q.featureId) == "")
      && (r.gate == InvalidPhase <==> Strip(q.featureId) != "" && !Named(q))
      && (r.gate == RequestedPhaseMismatch <==> Named(q) && Past(v, wanted))
      && (r.gate == SequenceInvalid <==>
            Named(q) && !Past(v, wanted) && !q.dryRun && (!env.readable || !ValidLedger(m, v)))
      && (r.gate == ApprovalRequired <==> Sound(m, ledger, q, env) && needsToken && !HasToken(q))
      && (r.dispatched.None? && r.gate in {NotManaged, RouteRejected, DirectCommandRequired} <==>
            Sound(m, ledger, q, env) && (needsToken ==> HasToken(q)) && !Startable(route))
      && (r.dispatched.None? ==> r.exitCode == (if Named(q) && !Past(v, wanted) && q.dryRun then 0 else 1))
  {
    hide RunAppends, Strip, OfFeature, Scan, NumericPrefix, PhaseOfEvent, ScopeOf, Dispatch, Startable;
    EmptyReplay(m);
    var s := Resolve(m, if env.readable then Some(ledger) else None, Strip(q.featureId), Wanted(q.phase));
    var phase := if Wanted(q.phase).Some? then Wanted(q.phase).value else s.phase;
    DispatchGates(m, ledger, s.ledgerFeatureId, phase, env);
  }

  lemma DispatchGates(m: Manifest, ledger: seq<Event>, id: string, p: Label, env: Surroundings)
    ensures var r := Dispatch(m, ledger, id, p, env).1;
      && r.dispatched == (if Startable(env.route(p)) then Some(p) else None)
      && (r.dispatched.None? ==> r.exitCode == 1 && r.gate in {NotManaged, RouteRejected, DirectCommandRequired})
      && (r.dispatched.Some? ==> r.gate in {NoGate, StepFailed, ArtifactInvalid, EventRequestMissing, AppendFailed})
  {
    hide AfterRequested, AfterSuccess, RunAppends, LabelText;
  }

  // ---------------------------------------------------------------- how these follow

  /** The id under which the call was started. */
  lemma StartedAs(m: Manifest, ledger: seq<Event>, q: Request, env: Surroundings, p: Label) returns (id: string)
    requires Call(m, ledger, q, env).1.dispatched == Some(p)
    ensures id == ViewOf(ledger, Strip(q.featureId)).0 && Strip(id) == id
    ensures Strip(LabelText(p)) == LabelText(p)
    ensures Call(m, ledger, q, env) == Dispatch(m, ledger, id, p, env)
  {
    hide Call, Dispatch, Strip, ViewOf, LabelText, RunAppends, AddsOne, Gated;
    GatedFacts(m, ledger, q, env);
    var phase := Gated(m, ledger, q, env).value.1;
    id := Gated(m, ledger, q, env).value.0;
    DispatchAdds(m, ledger, id, phase, env);
    LabelTextIsPlain(p);
  }

  lemma DispatchRequest(m: Manifest, ledger: seq<Event>, id: string, p: Label, env: Surroundings, r: EventRequest)
    requires Succeeded(env.route(p)) && Asked(env.route(p)) == Some(r)
    ensures var (l, a) := AfterRequested(m, RunAppends(m, ledger, env.meanwhile), id, LabelText(p), r, env.clock);
      Dispatch(m, ledger, id, p, env) ==
        (l, if a.ok then Report(Some(p), 0, NoGate, a.appended) else Report(Some(p), 2, AppendFailed, false))
  {
    hide AfterRequested, AfterSuccess, RunAppends, LabelText;
  }

  lemma DispatchSuccess(m: Manifest, ledger: seq<Event>, id: string, p: Label, env: Surroundings)
    requires var r := env.route(p); Succeeded(r) && r.Generative? && r.final.request.None?
    ensures var r, met := env.route(p), RunAppends(m, ledger, env.meanwhile);
      var (l, a) := AfterSuccess(m, met, id, LabelText(p), r.selected, env.clock, r.execution);
      Dispatch(m, ledger, id, p, env) ==
        if p in {Known(Plan), Known(Solution)} then (met, Report(Some(p), 2, EventRequestMissing, false))
        else (l, if a.ok then Report(Some(p), 0, NoGate, a.appended) else Report(Some(p), 2, AppendFailed, false))
  {
    hide AfterRequested, AfterSuccess, RunAppends, LabelText;
  }

  lemma DispatchOtherwise(m: Manifest, ledger: seq<Event>, id: string, p: Label, env: Surroundings)
    requires Startable(env.route(p))
    ensures var (l, report) := Dispatch(m, ledger, id, p, env);
      var met, r := RunAppends(m, ledger, env.meanwhile), env.route(p);
      && (Succeeded(r) && Asked(r).None? &&
          (r.Deterministic? || (r.Generative? && r.selected.None? && p !in {Known(Plan), Known(Solution)})) ==>
            l == met && report == Report(Some(p), 0, NoGate, false))
      && (!Succeeded(r) ==>
            l == met && !report.appended && report.gate in {StepFailed, ArtifactInvalid} &&
            report.exitCode == FailureCode(r))
  {
    hide AfterRequested, RunAppends, LabelText, Recorded, AppendAccepted;
  }

  lemma RequestedIs(m: Manifest, met: seq<Event>, id: string, text: string, r: EventRequest, clock: Clock)
    requires Strip(id) == id && Strip(text) == text && r.name.Some?
    ensures var (l, a) := AfterRequested(m, met, id, text, r, clock);
      var name := r.name.value;
      var e := Event(None, Exact(name), id, text, clock.text, clock.instant, false, r.fields, r.criticalCount);
      && (Recorded(l, id, text, name) <==> Recorded(met, id, text, name) || (r.readable && Acceptable(m, met, e)))
      && AtMost(met, l, e) && (Recorded(met, id, text, name) ==> l == met)
      && a == AppendResult(Recorded(l, id, text, name), l != met)
  {
    hide Recorded, Strip, ValidLedger, AcceptedFeatureArgument, IsFeatureId;
    StrippedArgument(id);
    var e := NewEvent(id, text, r.name.value, r.fields, r.criticalCount, clock);
    RecordedAfter(met, e);
    assert |AppendRecord(met, e)| > |met|;
  }

  lemma SuccessIs(m: Manifest, met: seq<Event>, id: string, text: string, name: Name, clock: Clock, x: Execution)
    requires Strip(id) == id && Strip(text) == text
    ensures var (l, a) := AfterSuccess(m, met, id, text, Some(name), clock, x);
      var e := Event(None, Exact(name), id, text, clock.text, clock.instant, false, map[], -1);
      var before := Recorded(met, id, text, name);
      && (Recorded(l, id, text, name) <==> before || (Acceptable(m, met, e) && (x.Completed? || x.wrote)))
      && AtMost(met, l, e) && (before ==> l == met)
      && a == (if before || (Acceptable(m, met, e) && x.Completed?) then AppendResult(true, l != met)
               else AppendResult(false, false))
  {
    hide Recorded, Strip, ValidLedger, AcceptedFeatureArgument, IsFeatureId;
    StrippedArgument(id);
    var e := NewEvent(id, text, name, map[], -1, clock);
    RecordedAfter(met, e);
    assert |AppendRecord(met, e)| > |met|;
  }

  // ---------------------------------------------------------------- tokens, success events, bootstraps

  lemma {:induction false} ScopeBeforeColon(a: string, b: string)
    requires ':' !in a
    ensures ScopeOf(a + ":" + b) == a
  {
    if a == "" {
      assert a + ":" + b == ":" + b;
    } else {
      assert a == [a[0]] + a[1..] && a[0] in a;
      assert (a + ":" + b)[1..] == a[1..] + ":" + b;
      ScopeBeforeColon(a[1..], b);
    }
  }

  lemma {:induction false} ScopeIsPrefix(token: string)
    ensures ':' !in ScopeOf(token)
    ensures token == ScopeOf(token) || exists rest :: token == ScopeOf(token) + ":" + rest
  {
    if token != "" && token[0] != ':' {
      ScopeIsPrefix(token[1..]);
      assert token == [token[0]] + token[1..];
      if token[1..] != ScopeOf(token[1..]) {
        var rest :| token[1..] == ScopeOf(token[1..]) + ":" + rest;
        assert token == ScopeOf(token) + ":" + rest;
      }
    } else if token != "" {
      assert token == "" + ":" + token[1..];
    }
  }

  /** A token approves the scope it names, alone or in front of a colon, and no other. */
  lemma ApprovedIff(scope: string, token: string)
    requires scope != "" && ':' !in scope
    ensures Approved(Some(scope), Some(token)) <==> token == scope || exists rest :: token == scope + ":" + rest
    ensures !Approved(Some(scope), None)
  {
    ScopeIsPrefix(token);
    if token == scope {
      NoColon(scope);
    }
    if rest :| token == scope + ":" + rest {
      ScopeBeforeColon(scope, rest);
    }
  }

  /** The event of the first declared contract that has a name and needs no fields. */
  lemma {:induction false} SelectedIsFirst(contracts: seq<Contract>, emits: seq<Option<Name>>, i: nat)
    requires i < |contracts| && contracts[i].event.Some? && !contracts[i].requiresFields
    requires forall j :: 0 <= j < i ==> contracts[j].event.None? || contracts[j].requiresFields
    ensures SelectedEvent(contracts, emits) == contracts[i].event
  {
    if i > 0 {
      SelectedIsFirst(contracts[1..], emits, i - 1);
    }
  }

  /** What a bootstrap reports: the step's exit code once its success event is known to be recorded, or there is none
      to record; 2 where the feature or the append is missing; 1 for another phase. */
  lemma BootstrapTells(m: Manifest, ledger: seq<Event>, c: Created)
    ensures var (l, report) := Bootstrap(m, ledger, c);
      var id, wanted := Strip(c.featureId), Wanted(c.requested);
      if wanted.Some? && wanted != Some(Known(Specify)) then
        l == ledger && report == Report(None, 1, InvalidPhase, false)
      else if id == "" then l == ledger && report == Report(Some(Known(Specify)), 2, InvalidFeature, false)
      else if c.selected.None? then l == ledger && report == Report(Some(Known(Specify)), c.exitCode, NoGate, false)
      else
        var name := c.selected.value;
        var e := Event(None, Exact(name), id, "specify", c.clock.text, c.clock.instant, false, map[], -1);
        var before := Recorded(ledger, id, "specify", name);
        && AtMost(ledger, l, e)
        && report == (if before || (Acceptable(m, ledger, e) && c.execution.Completed?)
                      then Report(Some(Known(Specify)), c.exitCode, NoGate, l != ledger)
                      else Report(Some(Known(Specify)), 2, AppendFailed, false))
  {
    hide Strip, Recorded, Acceptable, AtMost, AppendAccepted, Wanted;
    StripTwice(c.featureId);
    LabelTextIsPlain(Known(Specify));
    if c.selected.Some? {
      SuccessIs(m, ledger, Strip(c.featureId), "specify", c.selected.value, c.clock, c.execution);
    }
  }

  /** A blank phase asks for none, and any other text for the phase of that name, without the whitespace around it. */
  lemma PhaseAskedFor(text: string)
    ensures Wanted(None) == None && (Wanted(Some(text)) == None <==> AllSpace(text))
    ensures Wanted(Some(text)).Some? ==> LabelText(Wanted(Some(text)).value) == Strip(text)
  {
    hide Strip, AllSpace;
    StripFacts(text);
    SpellingsAgree(Strip(text), Specify);
  }
}
