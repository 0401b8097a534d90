/** The whole validation without a replay: what each event of a valid ledger must look like and follow, read forwards
    from the event before it, and until when the legacy order was taken. */
module PipelineRules {
  import opened Options
  import opened Text
  import opened PipelineLedger
  import opened PipelineHistory

  /** What may come next, and with nothing before, what comes first. */
  function Successors(previous: Option<Name>): set<Name> {
    match previous
    case None => {BacklogRegistered}
    case Some(BacklogRegistered) => {DuplicateMarked, SpecClarified, ResearchCompleted, PlanApproved}
    case Some(SpecClarified) => {DuplicateMarked, SpecClarified, ResearchCompleted, PlanApproved}
    case Some(ResearchCompleted) => {PlanStarted, PlanreviewCompleted, PlanApproved}
    case Some(PlanStarted) => {PlanreviewCompleted}
    case Some(PlanreviewCompleted) =>
      {PlanreviewCompleted, FeasibilitySpikeCompleted, FeasibilitySpikeFailed, PlanApproved}
    case Some(FeasibilitySpikeCompleted) => {PlanApproved}
    case Some(FeasibilitySpikeFailed) => {FeasibilitySpikeFailed}
    case Some(PlanApproved) => {SketchCompleted, TaskingCompleted, SolutionApproved}
    case Some(SketchCompleted) => {SketchCompleted, SolutionreviewCompleted, TaskingCompleted}
    case Some(SolutionreviewCompleted) => {SketchCompleted, SolutionreviewCompleted, EstimationCompleted}
    case Some(EstimationCompleted) => {EstimationCompleted, TaskingCompleted}
    case Some(TaskingCompleted) => {EstimationCompleted, TaskingCompleted, SolutionApproved}
    case Some(SolutionApproved) => {AnalysisCompleted}
    case Some(AnalysisCompleted) => {E2eGenerated, ImplementationCompleted}
    case Some(E2eGenerated) => {ImplementationCompleted, FeatureClosed}
    case Some(ImplementationCompleted) => {FeatureClosed}
    case _ => {}
  }

  /** What came next in the order in which solution work was once recorded. */
  function LegacySuccessor(previous: Name): Option<Name> {
    match previous
    case PlanApproved => Some(TaskingCompleted)
    case TaskingCompleted => Some(SketchCompleted)
    case SketchCompleted => Some(EstimationCompleted)
    case EstimationCompleted => Some(SolutionreviewCompleted)
    case SolutionreviewCompleted => Some(SolutionApproved)
    case _ => None
  }

  /** Midnight of 10 April 2026, UTC. */
  const CUTOFF := 1775779200

  /** The event may follow: as things stand, or in the legacy order with a timestamp that parses and is early. */
  predicate MayFollow(previous: Option<RawName>, e: Event) {
    && e.event.Exact? && (previous.Some? ==> previous.value.Exact?)
    && var before := if previous.Some? then Some(previous.value.name) else None;
       || e.event.name in Successors(before)
       || (before.Some? && LegacySuccessor(before.value) == Some(e.event.name) &&
          e.instant.Some? && e.instant.value < CUTOFF)
  }

  /** A known name, three digits for the feature, a timestamp, no task, all required fields, and no critical finding
      in a completed analysis. */
  predicate WellFormed(m: Manifest, e: Event) {
    && e.event.name in m.valid
    && IsFeatureId(Strip(e.featureId))
    && !AllSpace(e.timestamp) && !e.hasTaskId
    && (e.event.name in m.required ==>
          forall f :: f in m.required[e.event.name] ==> f in e.fields && !AllSpace(e.fields[f]))
    && (e.event.name == AnalysisCompleted ==> e.criticalCount == 0)
  }

  /** The last event stored under the very id. */
  function LastOf(events: seq<Event>, id: string): Option<RawName> {
    if events == [] then None
    else
      var n := |events| - 1;
      if events[n].featureId == id then Some(events[n].event) else LastOf(events[..n], id)
  }

  lemma TransitionIff(previous: Option<RawName>, e: Event)
    ensures TransitionAllowed(previous, e) <==> MayFollow(previous, e)
  {
    if previous.Some? {
      SameTables(previous.value.name, e.event.name);
      SameLegacyTables(previous.value.name, e.event.name);
    }
    assert None in Predecessors(e.event.name) <==> e.event.name in Successors(None);
    hide LegacyPredecessors, LegacySuccessor, Predecessors, Successors;
  }

  /** The tables of the validator, read forwards. */
  lemma SameTables(a: Name, b: Name)
    ensures Some(a) in Predecessors(b) <==> b in Successors(Some(a))
  {
    hide Predecessors, Successors;
    if Stage(b) <= 4 {
      SameEarlyTables(a, b);
    } else {
      SameLateTables(a, b);
    }
  }

  lemma SameEarlyTables(a: Name, b: Name)
    requires Stage(b) <= 4
    ensures Some(a) in Predecessors(b) <==> b in Successors(Some(a))
  {
  }

  lemma SameLateTables(a: Name, b: Name)
    requires Stage(b) > 4
    ensures Some(a) in Predecessors(b) <==> b in Successors(Some(a))
  {
  }

  lemma SameLegacyTables(a: Name, b: Name)
    ensures a in LegacyPredecessors(b) <==> LegacySuccessor(a) == Some(b)
  {
  }

  /** Which faults an event is reported with, each for its own reason. */
  lemma ShapeIff(m: Manifest, e: Event)
    ensures ShapeFaults(m, e) == {} <==> WellFormed(m, e)
    ensures var s := ShapeFaults(m, e);
      && (InvalidName in s <==> e.event.name !in m.valid)
      && (InvalidFeatureId in s <==> !IsFeatureId(Strip(e.featureId)))
      && (MissingTimestamp in s <==> AllSpace(e.timestamp))
      && (CarriesTaskId in s <==> e.hasTaskId)
      && (CriticalCountNotZero in s <==> e.event.name == AnalysisCompleted && e.criticalCount != 0)
      && forall f :: MissingField(f) in s <==>
           e.event.name in m.required && f in m.required[e.event.name] &&
           (f !in e.fields || AllSpace(e.fields[f]))
  {
    hide Strip, IsFeatureId, AllSpace;
    var s := ShapeFaults(m, e);
    assert InvalidName in s <==> e.event.name !in m.valid;
    assert InvalidFeatureId in s <==> !IsFeatureId(Strip(e.featureId));
    assert MissingTimestamp in s <==> AllSpace(e.timestamp);
    assert CarriesTaskId in s <==> e.hasTaskId;
    assert CriticalCountNotZero in s <==> e.event.name == AnalysisCompleted && e.criticalCount != 0;
    assert forall f :: MissingField(f) in s <==> f in RequiredFields(m, e.event.name) && FieldMissing(e, f);
    if s != {} {
      var x :| x in s;
    } else if e.event.name in m.required {
      forall f | f in m.required[e.event.name] ensures f in e.fields && !AllSpace(e.fields[f]) {
        assert f in RequiredFields(m, e.event.name) && MissingField(f) !in s;
      }
    }
  }

  /** In a valid ledger the replay remembers the last event of each id. */
  lemma {:induction false} LastIsRemembered(m: Manifest, events: seq<Event>, id: string)
    requires ValidLedger(m, events)
    ensures StateOf(Scan(m, events).states, id).lastEvent == LastOf(events, id)
    decreases |events|
  {
    hide ShapeFaults, TransitionAllowed;
    if events != [] {
      LastIsRemembered(m, events[..|events| - 1], id);
    }
  }

  /** Exactly which event a ledger takes next. */
  lemma NextIff(m: Manifest, ledger: seq<Event>, e: Event)
    ensures ValidLedger(m, ledger + [e]) <==>
            ValidLedger(m, ledger) && WellFormed(m, e) && MayFollow(LastOf(ledger, e.featureId), e)
  {
    hide ShapeFaults, TransitionAllowed, WellFormed, MayFollow, LastOf;
    assert (ledger + [e])[..|ledger|] == ledger;
    ShapeIff(m, e);
    TransitionIff(LastOf(ledger, e.featureId), e);
    if ValidLedger(m, ledger) {
      LastIsRemembered(m, ledger, e.featureId);
    }
  }

  /** A ledger is valid exactly if each event is well formed and may follow the one before it under its id. */
  lemma {:induction false} ValidIffEachFollows(m: Manifest, ledger: seq<Event>)
    ensures ValidLedger(m, ledger) <==>
            forall i :: 0 <= i < |ledger| ==>
              WellFormed(m, ledger[i]) && MayFollow(LastOf(ledger[..i], ledger[i].featureId), ledger[i])
    decreases |ledger|
  {
    hide WellFormed, MayFollow, LastOf, Step;
    if ledger != [] {
      var n := |ledger| - 1;
      ValidIffEachFollows(m, ledger[..n]);
      NextIff(m, ledger[..n], ledger[n]);
      assert ledger == ledger[..n] + [ledger[n]];
      assert forall i :: 0 <= i < n ==> ledger[..n][i] == ledger[i] && ledger[..n][..i] == ledger[..i];
    }
  }

  /** The legacy order is limited in time: in a valid ledger an event from the cutoff on, or without a timestamp that
      parses, follows its predecessor by the current table. */
  lemma LateEventsFollowTheTable(m: Manifest, ledger: seq<Event>, i: nat)
    requires ValidLedger(m, ledger) && i < |ledger|
    requires ledger[i].instant.Some? ==> ledger[i].instant.value >= 1775779200
    ensures var before := LastOf(ledger[..i], ledger[i].featureId);
      ledger[i].event.name in Successors(if before.Some? then Some(before.value.name) else None)
  {
    hide LastOf, Scan, Successors, LegacySuccessor;
    ValidIffEachFollows(m, ledger);
    assert MayFollow(LastOf(ledger[..i], ledger[i].featureId), ledger[i]);
  }

  /** Until then it was taken: after any valid ledger, each step of it. */
  lemma EarlyLegacyIsTaken(m: Manifest, ledger: seq<Event>, previous: Name, e: Event)
    requires ValidLedger(m, ledger) && WellFormed(m, e)
    requires LastOf(ledger, e.featureId) == Some(Exact(previous))
    requires e.event.Exact? && LegacySuccessor(previous) == Some(e.event.name)
    requires e.instant.Some? && e.instant.value < 1775779200
    ensures ValidLedger(m, ledger + [e])
  {
    hide LastOf, Scan, WellFormed, Successors, LegacySuccessor;
    NextIff(m, ledger, e);
  }

  const TASKED := [BacklogRegistered, PlanApproved, TaskingCompleted]

  function Tasked(m: Manifest): seq<Event> {
    seq(|TASKED|, i requires 0 <= i < |TASKED| => Filled(m, TASKED[i], "018"))
  }

  /** A ledger for each side: a sketch recorded after the tasking is taken or not by its timestamp alone. */
  lemma CutoffDecides(m: Manifest, at: Option<int>)
    requires SketchCompleted in m.valid && forall name :: name in TASKED ==> name in m.valid
    ensures ValidLedger(m, Tasked(m))
    ensures ValidLedger(m, Tasked(m) + [Filled(m, SketchCompleted, "018").(instant := at)]) <==>
            at.Some? && at.value < 1775779200
  {
    var ledger, e := Tasked(m), Filled(m, SketchCompleted, "018").(instant := at);
    Digits018();
    TaskedFollows(m);
    FilledIsWellFormed(m, SketchCompleted);
    hide Strip, Scan, WellFormed, IsFeatureId, LastOf, Tasked, MayFollow;
    forall i | 0 <= i < |ledger| ensures WellFormed(m, ledger[i]) {
      TaskedIsFilled(m, i);
      FilledIsWellFormed(m, TASKED[i]);
    }
    ValidIffEachFollows(m, ledger);
    assert WellFormed(m, e) by { WellFormedAnytime(m, Filled(m, SketchCompleted, "018"), at); }
    NextIff(m, ledger, e);
    SketchMayFollow(e);
  }

  lemma TaskedIsFilled(m: Manifest, i: nat)
    requires i < 3
    ensures Tasked(m)[i] == Filled(m, TASKED[i], "018") && TASKED[i] in TASKED
  {
  }

  lemma SketchMayFollow(e: Event)
    requires e.event == Exact(SketchCompleted)
    ensures MayFollow(Some(Exact(TaskingCompleted)), e) <==> e.instant.Some? && e.instant.value < 1775779200
  {
  }

  lemma WellFormedAnytime(m: Manifest, e: Event, at: Option<int>)
    requires WellFormed(m, e)
    ensures WellFormed(m, e.(instant := at))
  {
  }

  lemma FilledIsWellFormed(m: Manifest, name: Name)
    requires name in m.valid
    ensures WellFormed(m, Filled(m, name, "018"))
  {
    hide ShapeFaults;
    Digits018();
    FilledIsWellShaped(m, name, "018");
    ShapeIff(m, Filled(m, name, "018"));
  }

  lemma TaskedFollows(m: Manifest)
    ensures var l := Tasked(m);
      && |l| == 3 && LastOf(l, "018") == Some(Exact(TaskingCompleted))
      && forall i :: 0 <= i < 3 ==> l[i].featureId == "018" && MayFollow(LastOf(l[..i], "018"), l[i])
  {
    var l := Tasked(m);
    assert l[..1][0] == l[0] && l[..2][1] == l[1] && l[..3][2] == l[2] && l[..3] == l;
    LastIsLast(l[..1], "018");
    LastIsLast(l[..2], "018");
    LastIsLast(l[..3], "018");
    assert LastOf(l[..0], "018") == None;
    hide LastOf;
  }

  lemma LastIsLast(events: seq<Event>, id: string)
    requires events != [] && events[|events| - 1].featureId == id
    ensures LastOf(events, id) == Some(events[|events| - 1].event)
  {
  }

  // ---------------------------------------------------------------- ledgers with faults

  /** The last event stored under the very id that is well formed, however misplaced. */
  function LastShaped(m: Manifest, events: seq<Event>, id: string): Option<RawName> {
    if events == [] then None
    else
      var n := |events| - 1;
      if events[n].featureId == id && WellFormed(m, events[n]) then Some(events[n].event)
      else LastShaped(m, events[..n], id)
  }

  /** A well-formed event of the id bears the name. */
  ghost predicate Recorded(m: Manifest, events: seq<Event>, id: string, name: Name) {
    exists i :: 0 <= i < |events| && IsNamed(m, events[i], id, name)
  }

  predicate IsNamed(m: Manifest, e: Event, id: string, name: Name) {
    e.featureId == id && e.event == Exact(name) && WellFormed(m, e)
  }

  lemma RecordedStep(m: Manifest, events: seq<Event>, e: Event, id: string, name: Name)
    ensures Recorded(m, events + [e], id, name) <==> Recorded(m, events, id, name) || IsNamed(m, e, id, name)
  {
    hide IsNamed;
    var all := events + [e];
    if Recorded(m, events, id, name) {
      var i :| 0 <= i < |events| && IsNamed(m, events[i], id, name);
      assert all[i] == events[i];
    }
    assert all[|events|] == e;
  }

  /** What the replay of any ledger, valid or not, knows of a feature: malformed events leave no trace, misplaced ones
      count like any other. */
  lemma {:induction false} ReplayKnows(m: Manifest, events: seq<Event>, id: string)
    ensures var s := StateOf(Scan(m, events).states, id);
      && s.lastEvent == LastShaped(m, events, id)
      && (s.approvedPlan <==> Recorded(m, events, id, PlanApproved))
      && (s.approvedSolution <==> Recorded(m, events, id, SolutionApproved))
      && (s.analysisClean <==> Recorded(m, events, id, AnalysisCompleted))
    decreases |events|
  {
    hide ShapeFaults, WellFormed, Recorded, Complaints;
    if events == [] {
      NothingRecorded(m, id);
    } else {
      var n := |events| - 1;
      var e := events[n];
      ReplayKnows(m, events[..n], id);
      ShapeIff(m, e);
      assert events == events[..n] + [e];
      RecordedStep(m, events[..n], e, id, PlanApproved);
      RecordedStep(m, events[..n], e, id, SolutionApproved);
      RecordedStep(m, events[..n], e, id, AnalysisCompleted);
    }
  }

  lemma NothingRecorded(m: Manifest, id: string)
    ensures forall name :: !Recorded(m, [], id, name)
  {
  }

  /** What each event adds to the complaints, by its number or its place: one that is malformed or misplaced exactly
      one, any other none. */
  lemma ComplaintIff(m: Manifest, events: seq<Event>, i: nat)
    requires i < |events|
    ensures var e, before := events[i], LastShaped(m, events[..i], events[i].featureId);
      var line := if e.line.Some? then e.line.value else i + 1;
      Scan(m, events[..i + 1]).errors == Scan(m, events[..i]).errors +
        (if !WellFormed(m, e) then [Malformed(line, e.featureId, ShapeFaults(m, e))]
         else if !MayFollow(before, e) then [BadTransition(line, e.featureId, before, e.event)]
         else [])
  {
    var e := events[i];
    assert events[..i + 1][..i] == events[..i];
    ReplayKnows(m, events[..i], e.featureId);
    ShapeIff(m, e);
    TransitionIff(LastShaped(m, events[..i], e.featureId), e);
    hide ShapeFaults, TransitionAllowed, WellFormed, MayFollow, LastShaped, NextStates;
  }
}
