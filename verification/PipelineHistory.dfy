/** What every valid feature history looks like, however long it is and whichever of the current and the
    time-limited legacy transitions it takes. */
module PipelineHistory {
  import opened Options
  import opened Text
  import opened PipelineLedger
  import opened PipelinePhases

  /** All events carry the stored feature id `f`. */
  ghost predicate SingleFeature(h: seq<Event>, f: string) {
    forall i :: 0 <= i < |h| ==> h[i].featureId == f
  }

  function Previous(h: seq<Event>, i: nat): Option<RawName>
    requires i <= |h|
  {
    if i == 0 then None else Some(h[i - 1].event)
  }

  /** Every event may follow the one before it. */
  ghost predicate Chain(h: seq<Event>) {
    forall i :: 0 <= i < |h| ==> TransitionAllowed(Previous(h, i), h[i])
  }

  ghost predicate WellShaped(m: Manifest, h: seq<Event>) {
    forall i :: 0 <= i < |h| ==> ShapeFaults(m, h[i]) == {}
  }

  lemma ChainExtends(m: Manifest, front: seq<Event>, e: Event)
    ensures Chain(front + [e]) <==> Chain(front) && TransitionAllowed(Previous(front, |front|), e)
    ensures WellShaped(m, front + [e]) <==> WellShaped(m, front) && ShapeFaults(m, e) == {}
  {
    hide ShapeFaults, TransitionAllowed;
    var h := front + [e];
    assert forall i :: 0 <= i <= |front| ==> Previous(h, i) == Previous(front, i);
    assert h[|front|] == e && forall i :: 0 <= i < |front| ==> h[i] == front[i];
  }

  /** For one feature the validator accepts exactly the well-shaped chains, and then remembers the last event. */
  lemma {:induction false} ValidIffChain(m: Manifest, h: seq<Event>, f: string)
    requires SingleFeature(h, f)
    ensures ValidLedger(m, h) <==> WellShaped(m, h) && Chain(h)
    ensures ValidLedger(m, h) ==> StateOf(Scan(m, h).states, f).lastEvent == Previous(h, |h|)
    decreases |h|
  {
    hide ShapeFaults, TransitionAllowed, WellShaped, Chain;
    if h == [] {
      EmptyChain(m);
    } else {
      var n := |h| - 1;
      var front, e := h[..n], h[n];
      assert h == front + [e];
      ValidIffChain(m, front, f);
      ChainExtends(m, front, e);
      assert e.featureId == f;
    }
  }

  lemma EmptyChain(m: Manifest)
    ensures WellShaped(m, []) && Chain([])
  {
  }

  /** A ledger-wide order of the stages an event can belong to. */
  function Stage(name: Name): nat {
    match name
    case BacklogRegistered => 0
    case SpecClarified => 1
    case ResearchCompleted => 2
    case PlanStarted => 3
    case PlanreviewCompleted => 3
    case FeasibilitySpikeCompleted => 3
    case FeasibilitySpikeFailed => 3
    case PlanApproved => 4
    case SketchCompleted => 5
    case SolutionreviewCompleted => 5
    case EstimationCompleted => 5
    case TaskingCompleted => 5
    case SolutionApproved => 6
    case AnalysisCompleted => 7
    case E2eGenerated => 8
    case ImplementationCompleted => 9
    case FeatureClosed => 10
    case DuplicateMarked => 10
    case Other(_) => 11
  }

  /** Stages in which a feature may record several events: clarification, planning, solution work. */
  predicate Repeatable(stage: nat) {
    stage == 1 || stage == 3 || stage == 5
  }

  /** The event belongs to the main line at or after the given stage; a duplicate has left the main line. */
  predicate Reached(name: Name, stage: nat) {
    name != DuplicateMarked && stage <= Stage(name)
  }

  predicate IsMilestone(name: Name) {
    name == PlanApproved || name == SolutionApproved || name == AnalysisCompleted
  }

  lemma FirstTransition(e: Event)
    requires TransitionAllowed(None, e)
    ensures e.event == Exact(BacklogRegistered)
  {
  }

  lemma AllowedTransition(p: RawName, e: Event)
    requires TransitionAllowed(Some(p), e)
    ensures InOrder(p, e.event) && Stage(p.name) < 10
    ensures p.name == FeasibilitySpikeFailed ==> e.event.name == FeasibilitySpikeFailed
    ensures forall milestone | IsMilestone(milestone) ::
      Reached(e.event.name, Stage(milestone)) ==>
        e.event.name == milestone || Reached(p.name, Stage(milestone))
  {
  }

  lemma InOrderTransitive(a: RawName, b: RawName, c: RawName)
    requires InOrder(a, b) && InOrder(b, c)
    ensures InOrder(a, c)
  {
    hide Stage;
  }

  lemma {:induction false} ChainIsExact(h: seq<Event>, j: nat)
    requires Chain(h) && j < |h|
    ensures h[j].event.Exact?
  {
    assert TransitionAllowed(Previous(h, j), h[j]);
  }

  lemma ChainStep(h: seq<Event>, j: nat)
    requires Chain(h) && j < |h|
    ensures TransitionAllowed(if j == 0 then None else Some(h[j - 1].event), h[j])
  {
    hide TransitionAllowed;
    assert Previous(h, j) == if j == 0 then None else Some(h[j - 1].event);
  }

  lemma {:induction false} StagesAscend(h: seq<Event>, i: nat, j: nat)
    requires Chain(h) && i < j < |h|
    ensures InOrder(h[i].event, h[j].event)
    ensures h[i].event.name == FeasibilitySpikeFailed ==> h[j].event.name == FeasibilitySpikeFailed
    decreases j
  {
    hide TransitionAllowed, InOrder, Stage, Reached, IsMilestone, Chain;
    ChainStep(h, j);
    AllowedTransition(h[j - 1].event, h[j]);
    if i < j - 1 {
      StagesAscend(h, i, j - 1);
      InOrderTransitive(h[i].event, h[j - 1].event, h[j].event);
    }
  }

  /** Every event at or after a milestone's stage has the milestone at or before it. */
  lemma {:induction false} MilestonePrecedes(h: seq<Event>, j: nat, milestone: Name) returns (i: nat)
    requires Chain(h) && j < |h| && IsMilestone(milestone)
    requires h[j].event.Exact? && Reached(h[j].event.name, Stage(milestone))
    ensures i <= j && h[i].event == Exact(milestone)
    decreases j
  {
    hide TransitionAllowed, Chain;
    ChainStep(h, j);
    i := j;
    if j == 0 {
      FirstTransition(h[0]);
    } else if h[j].event.name != milestone {
      AllowedTransition(h[j - 1].event, h[j]);
      i := MilestonePrecedes(h, j - 1, milestone);
    }
  }

  /** The history of stored id `f` inside a ledger of any number of features. */
  function HistoryOf(events: seq<Event>, f: string): seq<Event> {
    Kept(events, id => id == f)
  }

  lemma KeptMembers(events: seq<Event>, keep: string -> bool)
    ensures forall i :: 0 <= i < |Kept(events, keep)| ==> keep(Kept(events, keep)[i].featureId)
  {
  }

  lemma HistoryIsChain(m: Manifest, events: seq<Event>, f: string)
    requires ValidLedger(m, events)
    ensures SingleFeature(HistoryOf(events, f), f)
    ensures ValidLedger(m, HistoryOf(events, f)) && Chain(HistoryOf(events, f))
    ensures StateOf(Scan(m, events).states, f) == StateOf(Scan(m, HistoryOf(events, f)).states, f)
  {
    hide ShapeFaults, TransitionAllowed, Step;
    var keep := (id: string) => id == f;
    Projection(m, events, keep);
    KeptMembers(events, keep);
    var h := Kept(events, keep);
    assert h == HistoryOf(events, f);
    var a, b := Scan(m, h).errors, KeptIssues(Scan(m, events).errors, keep);
    assert |Unnumbered(a)| == |a| && |Unnumbered(b)| == |b|;
    ValidIffChain(m, h, f);
  }

  /** The registration is the first event, and there is no other. */
  ghost predicate RegisteredFirst(h: seq<Event>) {
    forall i :: 0 <= i < |h| ==> (h[i].event == Exact(BacklogRegistered) <==> i == 0)
  }

  /** Stages never go back, and only a repeatable stage holds two events. */
  ghost predicate InOrder(a: RawName, b: RawName) {
    && a.Exact? && b.Exact?
    && (Stage(a.name) < Stage(b.name) <= 10 || (Stage(a.name) == Stage(b.name) && Repeatable(Stage(a.name))))
  }

  ghost predicate StagesInOrder(h: seq<Event>) {
    forall i, j :: 0 <= i < j < |h| ==> InOrder(h[i].event, h[j].event)
  }

  /** Every event at or after the stage of a plan, solution or analysis approval comes with that approval. */
  ghost predicate MilestonesFirst(h: seq<Event>) {
    forall j, milestone ::
      (0 <= j < |h| && IsMilestone(milestone) && Reached(h[j].event.name, Stage(milestone))) ==>
        exists i :: 0 <= i <= j && h[i].event == Exact(milestone)
  }

  ghost predicate NothingAfterEnd(h: seq<Event>) {
    forall i :: (0 <= i < |h| && h[i].event.name in {FeatureClosed, DuplicateMarked}) ==> i == |h| - 1
  }

  ghost predicate FailedSpikeIsFinal(h: seq<Event>) {
    forall i, j :: (0 <= i < j < |h| && h[i].event.name == FeasibilitySpikeFailed) ==>
      h[j].event.name == FeasibilitySpikeFailed
  }

  lemma ChainStartsRegistered(h: seq<Event>)
    requires Chain(h)
    ensures RegisteredFirst(h)
  {
    hide TransitionAllowed;
    if h != [] {
      assert TransitionAllowed(Previous(h, 0), h[0]);
      FirstTransition(h[0]);
      forall j | 0 < j < |h| ensures h[j].event != Exact(BacklogRegistered) {
        StagesAscend(h, 0, j);
      }
    }
  }

  lemma ChainAscends(h: seq<Event>)
    requires Chain(h)
    ensures StagesInOrder(h)
    ensures NothingAfterEnd(h)
    ensures FailedSpikeIsFinal(h)
  {
    hide TransitionAllowed, Chain;
    forall i, j | 0 <= i < j < |h|
      ensures InOrder(h[i].event, h[j].event)
    {
      StagesAscend(h, i, j);
    }
    forall i, j | 0 <= i < j < |h| && h[i].event.name == FeasibilitySpikeFailed
      ensures h[j].event.name == FeasibilitySpikeFailed
    {
      StagesAscend(h, i, j);
    }
    forall i | 0 <= i < |h| && h[i].event.name in {FeatureClosed, DuplicateMarked} ensures i == |h| - 1 {
      if i < |h| - 1 {
        StagesAscend(h, i, |h| - 1);
      }
    }
  }

  lemma ChainHasMilestones(h: seq<Event>)
    requires Chain(h)
    ensures MilestonesFirst(h)
  {
    hide TransitionAllowed, Chain;
    forall j, milestone | 0 <= j < |h| && IsMilestone(milestone) && Reached(h[j].event.name, Stage(milestone))
      ensures exists i :: 0 <= i <= j && h[i].event == Exact(milestone)
    {
      ChainIsExact(h, j);
      var i := MilestonePrecedes(h, j, milestone);
    }
  }

  /** In a valid ledger every feature's history starts with its only registration, passes each approval at
      most once and in the order plan, solution, analysis, does solution work only after the plan approval,
      records nothing after it is closed or marked a duplicate, and cannot leave a failed feasibility spike. */
  lemma StageChain(m: Manifest, events: seq<Event>, f: string)
    requires ValidLedger(m, events)
    ensures RegisteredFirst(HistoryOf(events, f)) && StagesInOrder(HistoryOf(events, f))
    ensures MilestonesFirst(HistoryOf(events, f)) && NothingAfterEnd(HistoryOf(events, f))
    ensures FailedSpikeIsFinal(HistoryOf(events, f))
  {
    hide *;
    HistoryIsChain(m, events, f);
    var h := HistoryOf(events, f);
    ChainStartsRegistered(h);
    ChainAscends(h);
    ChainHasMilestones(h);
  }

  /** The flags a valid history leaves are a function of its last event. */
  predicate FlagsFit(s: PipelineState) {
    match s.lastEvent
    case None => s == FRESH
    case Some(Padded(_)) => false
    case Some(Exact(name)) =>
      && s.approvedPlan == Reached(name, Stage(PlanApproved))
      && s.approvedSolution == Reached(name, Stage(SolutionApproved))
      && s.analysisClean == Reached(name, Stage(AnalysisCompleted))
  }

  lemma AdvanceKeepsFit(s: PipelineState, e: Event)
    requires FlagsFit(s) && TransitionAllowed(s.lastEvent, e)
    ensures FlagsFit(Advance(s, e.event))
  {
    if s.lastEvent.None? {
      FirstTransition(e);
    } else {
      AllowedTransition(s.lastEvent.value, e);
    }
  }

  lemma {:induction false} FlagsFollowLastEvent(m: Manifest, events: seq<Event>, f: string)
    requires ValidLedger(m, events)
    ensures FlagsFit(StateOf(Scan(m, events).states, f))
    decreases |events|
  {
    hide ShapeFaults, TransitionAllowed, Advance, FlagsFit;
    if events == [] {
      EmptyFits();
    } else {
      var n := |events| - 1;
      assert ValidLedger(m, events[..n]);
      FlagsFollowLastEvent(m, events[..n], f);
      var s := StateOf(Scan(m, events[..n]).states, f);
      if events[n].featureId == f && ShapeFaults(m, events[n]) == {} {
        AdvanceKeepsFit(s, events[n]);
      }
    }
  }

  lemma EmptyFits()
    ensures FlagsFit(FRESH)
  {
  }

  lemma PhaseFollowsStage()
    ensures forall a, b | PhaseOfEvent(a).Some? && PhaseOfEvent(b).Some? && Stage(a.name) <= Stage(b.name) ::
      PhaseIndex(PhaseOfEvent(a).value) <= PhaseIndex(PhaseOfEvent(b).value)
  {
  }

  /** The phase derived after i events is never ahead of the one derived after j >= i events. */
  lemma PhaseNeverMovesBack(m: Manifest, events: seq<Event>, f: string, i: nat, j: nat)
    requires ValidLedger(m, events)
    requires var h := HistoryOf(events, f);
      0 < i <= j <= |h| && PhaseOfEvent(h[i - 1].event).Some? && PhaseOfEvent(h[j - 1].event).Some?
    ensures var h := HistoryOf(events, f);
      PhaseIndex(PhaseOfEvent(h[i - 1].event).value) <= PhaseIndex(PhaseOfEvent(h[j - 1].event).value)
  {
    hide TransitionAllowed, Scan, Kept, Chain;
    if i < j {
      HistoryIsChain(m, events, f);
      PhaseFollowsStage();
      StagesAscend(HistoryOf(events, f), i - 1, j - 1);
    }
  }

  // ---------------------------------------------------------------- stored ids and the resolver's filter

  lemma {:induction false} StatesCoverIds(m: Manifest, events: seq<Event>, f: string)
    requires forall i :: 0 <= i < |events| ==> events[i].featureId != f
    ensures f !in Scan(m, events).states
    decreases |events|
  {
    hide ShapeFaults, Complaints;
    if events != [] {
      StatesCoverIds(m, events[..|events| - 1], f);
    }
  }

  /** The first event of a valid view that stores another id than the view's first event breaks the chain. */
  lemma {:induction false} OneIdOrNoChain(m: Manifest, v: seq<Event>, k: nat)
    requires ValidLedger(m, v) && Chain(v) && k < |v|
    ensures v[k].featureId == v[0].featureId
  {
    hide ShapeFaults, TransitionAllowed, Scan;
    if k > 0 {
      forall i | 0 <= i < k ensures v[i].featureId == v[0].featureId {
        OneIdOrNoChain(m, v, i);
      }
      if v[k].featureId != v[0].featureId {
        SecondIdStartsAfresh(m, v, k);
        ChainStartsRegistered(v);
        assert false;
      }
    }
  }

  /** The resolver compares feature ids after trimming, the validator before. So the resolver's view of a
      feature in a valid ledger is one chain exactly when its events store one and the same id. */
  lemma ResolverViewIsOneChain(m: Manifest, events: seq<Event>, f: string)
    requires ValidLedger(m, events)
    ensures var v := OfFeature(events, f);
      Chain(v) <==> forall i :: 0 <= i < |v| ==> v[i].featureId == v[0].featureId
  {
    hide ShapeFaults, TransitionAllowed, Scan, Kept;
    ValidIffEachFeatureValid(m, events);
    var v := OfFeature(events, f);
    assert ValidLedger(m, v);
    if Chain(v) {
      forall i | 0 <= i < |v| ensures v[i].featureId == v[0].featureId {
        OneIdOrNoChain(m, v, i);
      }
    } else if forall i :: 0 <= i < |v| ==> v[i].featureId == v[0].featureId {
      ValidIffChain(m, v, if v == [] then f else v[0].featureId);
      assert false;
    }
  }

  lemma SecondIdStartsAfresh(m: Manifest, v: seq<Event>, k: nat)
    requires ValidLedger(m, v) && k < |v|
    requires forall i :: 0 <= i < k ==> v[i].featureId != v[k].featureId
    ensures v[k].event == Exact(BacklogRegistered)
  {
    hide ShapeFaults, TransitionAllowed, Advance;
    ValidPrefix(m, v, k + 1);
    assert v[..k + 1][..k] == v[..k];
    StatesCoverIds(m, v[..k], v[k].featureId);
    assert Scan(m, v[..k + 1]) == Step(m, Scan(m, v[..k]), v[k], k + 1);
    assert Complaints(m, None, v[k], LineOf(v[k], k + 1)) == [];
    assert ShapeFaults(m, v[k]) == {} ==> TransitionAllowed(None, v[k]);
    FirstTransition(v[k]);
  }

  // ---------------------------------------------------------------- two spellings of one id

  /** An event as an append would write it, with "0" in each field that the manifest asks for. */
  function Filled(m: Manifest, name: Name, featureId: string): Event {
    Event(None, Exact(name), featureId, "", "2026-05-01T00:00:00Z", None, false,
          map f | f in RequiredFields(m, name) :: "0", if name == AnalysisCompleted then 0 else -1)
  }

  lemma FilledIsWellShaped(m: Manifest, name: Name, featureId: string)
    requires name in m.valid && IsFeatureId(Strip(featureId))
    ensures ShapeFaults(m, Filled(m, name, featureId)) == {}
  {
    hide Strip, IsFeatureId;
    var e := Filled(m, name, featureId);
    assert e.timestamp[0] == '2' && "0"[0] == '0';
    assert e.timestamp[0] in e.timestamp && "0"[0] in "0";
  }

  lemma Digits018()
    ensures IsFeatureId("018") && Strip("018") == "018" && Strip("018\n") == "018" && "018" != "018\n"
    ensures AcceptedFeatureArgument("018") && AcceptedFeatureArgument("018\n")
  {
    TrimmedStrip("018");
    assert "018\n" == "018" + "\n";
    assert Lstrip("018\n") == "018\n";
    RstripAppend("018", "\n");
    assert |"018\n"| == 4 && "018\n"[..3] == "018";
    assert |"018"| != |"018\n"|;
  }

  /** The append accepts the id "018" with and without a final newline. A feature registered under both spellings
      makes a valid ledger in which the resolver sees one feature and no chain. */
  lemma TwoSpellingsAreAccepted(m: Manifest)
    requires BacklogRegistered in m.valid
    ensures var a, b := Filled(m, BacklogRegistered, "018"), Filled(m, BacklogRegistered, "018\n");
      var ledger := RunAppends(m, [], [a, b]);
      && |ledger| == 2 && ValidLedger(m, ledger)
      && OfFeature(ledger, "018") == ledger && !Chain(OfFeature(ledger, "018"))
  {
    var a, b := Filled(m, BacklogRegistered, "018"), Filled(m, BacklogRegistered, "018\n");
    Digits018();
    FilledIsWellShaped(m, BacklogRegistered, "018");
    FilledIsWellShaped(m, BacklogRegistered, "018\n");
    NothingIsValid(m);
    hide ShapeFaults, Strip, IsFeatureId, AcceptedFeatureArgument, AppendAccepted, ValidLedger, RunAppends, Chain;
    var one := AppendRecord([], a);
    FreshRegistration(m, [], a);
    FreshRegistration(m, one, b);
    var two := AppendRecord(one, b);
    TwoAppends(m, a, b);
    SeenTogether(two);
    NotAChain(two);
  }

  /** A well-shaped registration of an id that the ledger does not know is accepted. */
  lemma FreshRegistration(m: Manifest, ledger: seq<Event>, e: Event)
    requires ValidLedger(m, ledger) && AcceptedFeatureArgument(e.featureId)
    requires e.event == Exact(BacklogRegistered) && BacklogRegistered in m.valid && ShapeFaults(m, e) == {}
    requires forall i :: 0 <= i < |ledger| ==> ledger[i].featureId != e.featureId
    ensures AppendAccepted(m, ledger, e) && ValidLedger(m, AppendRecord(ledger, e))
  {
    hide ShapeFaults, AcceptedFeatureArgument;
    StatesCoverIds(m, ledger, e.featureId);
    assert (ledger + [e])[..|ledger|] == ledger;
    assert TransitionAllowed(None, e);
    LinesDoNotMatter(m, ledger + [e], AppendRecord(ledger, e));
  }

  lemma TwoAppends(m: Manifest, a: Event, b: Event)
    requires AppendAccepted(m, [], a) && AppendAccepted(m, AppendRecord([], a), b)
    ensures RunAppends(m, [], [a, b]) == AppendRecord(AppendRecord([], a), b)
  {
    hide AppendAccepted;
    assert [a, b][..1] == [a] && [a][..0] == [];
    assert RunAppends(m, [], [a]) == Appended(m, RunAppends(m, [], []), a);
  }

  lemma {:induction false} SeenTogether(events: seq<Event>)
    requires forall i :: 0 <= i < |events| ==> Strip(events[i].featureId) == "018"
    ensures OfFeature(events, "018") == events
    decreases |events|
  {
    hide Strip;
    if events != [] {
      SeenTogether(events[..|events| - 1]);
      assert events == events[..|events| - 1] + [events[|events| - 1]];
    }
  }

  lemma NotAChain(events: seq<Event>)
    requires |events| == 2 && events[0].event == events[1].event == Exact(BacklogRegistered)
    ensures !Chain(events)
  {
    assert Previous(events, 1) == Some(Exact(BacklogRegistered));
    assert !TransitionAllowed(Previous(events, 1), events[1]);
  }

  // ---------------------------------------------------------------- every chain can be written

  /** The append takes every well-shaped chain of one accepted id, event by event, to the end. */
  lemma {:induction false} EveryChainCanBeAppended(m: Manifest, h: seq<Event>, f: string)
    requires SingleFeature(h, f) && WellShaped(m, h) && Chain(h) && AcceptedFeatureArgument(f)
    requires forall i :: 0 <= i < |h| ==> h[i].event.Exact? && h[i].event.name in m.valid
    ensures SameButLines(RunAppends(m, [], h), h) && ValidLedger(m, RunAppends(m, [], h))
    decreases |h|
  {
    hide ShapeFaults, TransitionAllowed, AcceptedFeatureArgument, Scan, WellShaped, Chain;
    if h == [] {
      NothingIsValid(m);
    } else {
      var n := |h| - 1;
      var front, e := h[..n], h[n];
      assert h == front + [e];
      ChainExtends(m, front, e);
      EveryChainCanBeAppended(m, front, f);
      var before := RunAppends(m, [], front);
      ValidIffChain(m, h, f);
      assert SameButLines(before + [e], h);
      LinesDoNotMatter(m, before + [e], h);
      assert AppendAccepted(m, before, e);
      LinesDoNotMatter(m, before + [e], AppendRecord(before, e));
    }
  }

  lemma NothingIsValid(m: Manifest)
    ensures ValidLedger(m, []) && RunAppends(m, [], []) == []
  {
  }

  const IMPLEMENTED_NAMES := [
    BacklogRegistered, PlanApproved, SolutionApproved, AnalysisCompleted, ImplementationCompleted]

  /** The shortest history of an implemented feature. */
  function Implemented(m: Manifest): seq<Event> {
    seq(|IMPLEMENTED_NAMES|, i requires 0 <= i < |IMPLEMENTED_NAMES| => Filled(m, IMPLEMENTED_NAMES[i], "018"))
  }

  lemma ImplementedIsAChain(m: Manifest)
    requires forall name :: name in IMPLEMENTED_NAMES ==> name in m.valid
    ensures SingleFeature(Implemented(m), "018") && WellShaped(m, Implemented(m)) && Chain(Implemented(m))
    ensures |Implemented(m)| == 5 && Implemented(m)[4].event == Exact(ImplementationCompleted)
    ensures forall i :: 0 <= i < 5 ==> Implemented(m)[i].event.Exact? && Implemented(m)[i].event.name in m.valid
  {
    Digits018();
    ImplementedFollows(m);
    hide Strip, IsFeatureId, ShapeFaults, TransitionAllowed;
    var h := Implemented(m);
    forall i | 0 <= i < |h| ensures ShapeFaults(m, h[i]) == {} && h[i].event.name in m.valid {
      assert IMPLEMENTED_NAMES[i] in IMPLEMENTED_NAMES;
      FilledIsWellShaped(m, IMPLEMENTED_NAMES[i], "018");
    }
    assert Previous(h, 0) == None;
    forall i | 0 <= i < |h| ensures TransitionAllowed(Previous(h, i), h[i]) {
      assert i > 0 ==> Previous(h, i) == Some(h[i - 1].event);
    }
  }

  lemma ImplementedFollows(m: Manifest)
    ensures TransitionAllowed(None, Filled(m, BacklogRegistered, "018"))
    ensures TransitionAllowed(Some(Exact(BacklogRegistered)), Filled(m, PlanApproved, "018"))
    ensures TransitionAllowed(Some(Exact(PlanApproved)), Filled(m, SolutionApproved, "018"))
    ensures TransitionAllowed(Some(Exact(SolutionApproved)), Filled(m, AnalysisCompleted, "018"))
    ensures TransitionAllowed(Some(Exact(AnalysisCompleted)), Filled(m, ImplementationCompleted, "018"))
  {
  }

  // ---------------------------------------------------------------- phases

  /** A phase is a run of stages; implementing is over before the feature is closed, and then there is no phase. */
  lemma PhasesFollowStages(name: Name)
    ensures PhaseOfName(name) ==
            if Stage(name) <= 1 then Some(Specify)
            else if Stage(name) == 2 then Some(Research)
            else if Stage(name) <= 4 then Some(Plan)
            else if Stage(name) <= 7 then Some(Solution)
            else if Stage(name) == 8 then Some(Implement)
            else if Stage(name) == 10 then Some(Closed)
            else None
  {
  }

  /** The next phase is the nearest later one that is not research, which only a ledger event leads to. */
  lemma NextPhaseIsNearest(p: Phase, q: Phase)
    ensures NextPhase(p) != Research && (p != Closed ==> PhaseIndex(NextPhase(p)) > PhaseIndex(p))
    ensures q != Research && PhaseIndex(q) > PhaseIndex(p) ==> PhaseIndex(q) >= PhaseIndex(NextPhase(p))
  {
  }
}
