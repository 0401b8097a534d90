/** The coarse phases that the driver derives from a feature's last ledger event. */
module PipelinePhases {
  import opened Options
  import opened PipelineLedger

  datatype Phase = Specify | Research | Plan | Solution | Implement | Closed

  function PhaseIndex(p: Phase): nat {
    match p
    case Specify => 0
    case Research => 1
    case Plan => 2
    case Solution => 3
    case Implement => 4
    case Closed => 5
  }

  /** `EVENT_TO_PHASE`; events without an entry derive no phase. */
  function PhaseOfName(name: Name): Option<Phase> {
    match name
    case BacklogRegistered => Some(Specify)
    case DuplicateMarked => Some(Closed)
    case SpecClarified => Some(Specify)
    case ResearchCompleted => Some(Research)
    case PlanStarted => Some(Plan)
    case PlanreviewCompleted => Some(Plan)
    case FeasibilitySpikeCompleted => Some(Plan)
    case FeasibilitySpikeFailed => Some(Plan)
    case PlanApproved => Some(Plan)
    case SketchCompleted => Some(Solution)
    case SolutionreviewCompleted => Some(Solution)
    case EstimationCompleted => Some(Solution)
    case TaskingCompleted => Some(Solution)
    case SolutionApproved => Some(Solution)
    case AnalysisCompleted => Some(Solution)
    case E2eGenerated => Some(Implement)
    case FeatureClosed => Some(Closed)
    case ImplementationCompleted => None
    case Other(_) => None
  }

  function PhaseOfEvent(event: RawName): Option<Phase> {
    if event.Exact? then PhaseOfName(event.name) else None
  }

  /** `determine_next_phase`. */
  function NextPhase(p: Phase): Phase {
    match p
    case Specify => Plan
    case Research => Plan
    case Plan => Solution
    case Solution => Implement
    case Implement => Closed
    case Closed => Closed
  }
}
