/** The implement step: pick a task, hand it to the runner, have the result checked, retry a bounded number of
    times with the checker's report, close the task out, and go on to the next one. What the subprocesses answer
    is an arbitrary input; what other actors do to the task ledger meanwhile is an arbitrary list of operations. */
module ImplementLoop {
  import opened Options
  import opened Sequences
  import opened TaskQueue

  const MAX_QA_RETRIES: nat := 3

  datatype Exit = Success | Blocked(reason: string) | Error(code: string) | Aborted

  /** What the queue finds before one choice. `definitions` is None when tasks.md is missing. */
  datatype QueueReport = QueueReport(
    others: seq<Op>, ledgerValid: bool, definitions: Option<seq<Definition>>, startAccepted: bool)

  datatype Handoff = NotStarted(code: string) | TimedOut | NotJson | Failed | Delivered

  datatype Qa = Unavailable(reason: string) | NoResultFile | NoRunId | Verdict(passed: bool)

  datatype RoundReport = RoundReport(handoff: Handoff, qa: Qa)

  /** `NotDone` is any ending of the closeout other than ok, without a reason when it takes the process down; the
      closing event may be in the ledger all the same. */
  datatype Closeout = Done | NotDone(reason: Option<string>, recorded: bool)

  datatype Gate = GateTimeout | GateFailed | GatePassed(continuation: bool)

  datatype ClosingReport = ClosingReport(closeout: Closeout, docsError: Option<string>, gate: Gate)

  datatype Surroundings = Surroundings(
    queue: nat -> QueueReport, round: nat -> RoundReport, closing: nat -> ClosingReport)

  /** One handoff round. `feedback` is the number of the round whose checker report is passed along. */
  datatype Round = Round(task: string, retry: nat, resume: bool, feedback: Option<nat>)

  datatype Outcome = Outcome(state: FeatureState, rounds: seq<Round>, exit: Exit)

  datatype Attempts = Attempts(rounds: seq<Round>, stop: Option<Exit>)

  /** Why a round ends the run, if it does, before its verdict is looked at. */
  function Stops(report: RoundReport): Option<Exit> {
    match report.handoff
    case NotStarted(code) => Some(Error(code))
    case TimedOut => Some(Blocked("llm_handoff_failed"))
    case NotJson => Some(Error("handoff_invalid_json"))
    case Failed => Some(Blocked("llm_handoff_failed"))
    case Delivered =>
      match report.qa
      case Unavailable(reason) => Some(Blocked(reason))
      case NoResultFile => Some(Blocked("offline_qa_result_file_missing"))
      case NoRunId => Some(Blocked("offline_qa_run_id_missing"))
      case Verdict(_) => None
  }

  /** The rounds spent on one task, from retry number `retry` on, when `at` rounds have been made before. */
  function Attempt(env: Surroundings, task: string, at: nat, retry: nat, warm: bool, feedback: Option<nat>): Attempts
    requires retry < MAX_QA_RETRIES
    decreases MAX_QA_RETRIES - retry
  {
    var round := Round(task, retry, warm, feedback);
    var report := env.round(at);
    if Stops(report).Some? then Attempts([round], Stops(report))
    else if report.qa.passed then Attempts([round], None)
    else if retry == MAX_QA_RETRIES - 1 then Attempts([round], Some(Blocked("offline_qa_failed")))
    else
      var rest := Attempt(env, task, at + 1, retry + 1, true, Some(at));
      Attempts([round] + rest.rounds, rest.stop)
  }

  /** The registered tasks that are not closed. */
  function Open(s: FeatureState): set<string> {
    set t | t in s.tasks && s.tasks[t].registered && !s.tasks[t].closed
  }

  function Observed(s: FeatureState, q: QueueReport): FeatureState {
    ApplyAll(s, if q.definitions.Some? then q.definitions.value else [], q.others)
  }

  predicate AnyRegistered(s: FeatureState) {
    exists t :: t in s.tasks && s.tasks[t].registered
  }

  /** The task chosen, with the state once it is started, or why none is. */
  function Queued(s: FeatureState, q: QueueReport, actor: string): (r: (FeatureState, Option<string>, Exit))
    ensures r.1.Some? ==> r.1.value in r.0.tasks && r.1.value in Open(r.0) && Open(r.0) == Open(s)
  {
    if q.definitions.None? then (s, None, Blocked("missing_tasks_md"))
    else if !q.ledgerValid then (s, None, Blocked("task_queue_failed"))
    else if !AnyRegistered(s) then (s, None, Blocked("task_registration_required"))
    else if q.definitions.value == [] then (s, None, Blocked("task_queue_failed"))
    else
      var defs := q.definitions.value;
      var c := Choose(s, defs, actor);
      ChooseIsChoice(s, defs, actor);
      match c
      case NothingOpen => (s, None, Blocked("no_registered_open_tasks"))
      case OwnedByOther(owner) => (s, None, Blocked("task_owned_by_other_actor:" + owner))
      case Resume(task) => (s, Some(task), Success)
      case Start(task) =>
        if !q.startAccepted then (s, None, Blocked("task_queue_failed"))
        else (Started(s, task, actor), Some(task), Success)
  }

  /** What follows a passed check: the state, and the exit unless the run goes on to another task. */
  function Finished(s: FeatureState, task: string, actor: string, c: ClosingReport): (FeatureState, Option<Exit>)
    requires task in s.tasks
  {
    if c.closeout.NotDone? then
      (if c.closeout.recorded then Closed(s, task, actor) else s,
       Some(if c.closeout.reason.Some? then Blocked(c.closeout.reason.value) else Aborted))
    else
      (Closed(s, task, actor),
       if c.docsError.Some? then Some(Blocked(c.docsError.value))
       else match c.gate
         case GateTimeout => Some(Error("task_gate_timeout"))
         case GateFailed => Some(Blocked("task_gate_failed"))
         case GatePassed(continuation) => if continuation then None else Some(Success))
  }

  /** A whole run, from its `visit`-th task and `at`-th round on. */
  function Run(s: FeatureState, env: Surroundings, actor: string, visit: nat, at: nat, warm: bool): Outcome
    decreases |Open(s)|
  {
    var s0 := Observed(s, env.queue(visit));
    OthersOpenNothing(s, env.queue(visit));
    var (s1, chosen, exit) := Queued(s0, env.queue(visit), actor);
    if chosen.None? then Outcome(s1, [], exit)
    else
      var task := chosen.value;
      var a := Attempt(env, task, at, 0, warm, None);
      if a.stop.Some? then Outcome(s1, a.rounds, a.stop.value)
      else
        var (s2, end) := Finished(s1, task, actor, env.closing(visit));
        if end.Some? then Outcome(s2, a.rounds, end.value)
        else
          ClosingShrinks(s, s1, task, actor);
          var rest := Run(s2, env, actor, visit + 1, at + |a.rounds|, true);
          Outcome(rest.state, a.rounds + rest.rounds, rest.exit)
  }

  lemma {:induction false} OthersOpenNothing(s: FeatureState, q: QueueReport)
    ensures Open(Observed(s, q)) <= Open(s)
  {
    OperationsOpenNothing(s, if q.definitions.Some? then q.definitions.value else [], q.others);
  }

  lemma {:induction false} OperationsOpenNothing(s: FeatureState, defs: seq<Definition>, ops: seq<Op>)
    ensures Open(ApplyAll(s, defs, ops)) <= Open(s)
    decreases |ops|
  {
    hide CanStart;
    if ops != [] {
      OperationsOpenNothing(s, defs, ops[..|ops| - 1]);
    }
  }

  lemma ClosingShrinks(s: FeatureState, s1: FeatureState, task: string, actor: string)
    requires Open(s1) <= Open(s) && task in Open(s1)
    ensures Open(Closed(s1, task, actor)) == Open(s1) - {task}
    ensures |Open(Closed(s1, task, actor))| < |Open(s)|
  {
    SubsetSize(Open(s1) - {task}, Open(s) - {task});
  }

  lemma AttemptStep(env: Surroundings, task: string, at: nat, retry: nat, warm: bool, feedback: Option<nat>)
    requires retry < MAX_QA_RETRIES
    ensures var round := Round(task, retry, warm, feedback);
      var report := env.round(at);
      (Stops(report).None? ==> report.qa.Verdict?) &&
      Attempt(env, task, at, retry, warm, feedback) ==
        if Stops(report).Some? then Attempts([round], Stops(report))
        else if report.qa.passed then Attempts([round], None)
        else if retry == MAX_QA_RETRIES - 1 then Attempts([round], Some(Blocked("offline_qa_failed")))
        else
          var rest := Attempt(env, task, at + 1, retry + 1, true, Some(at));
          Attempts([round] + rest.rounds, rest.stop)
  {
  }

  lemma RunStep(s: FeatureState, env: Surroundings, actor: string, visit: nat, at: nat, warm: bool)
    ensures var (s1, chosen, exit) := Queued(Observed(s, env.queue(visit)), env.queue(visit), actor);
      if chosen.None? then Run(s, env, actor, visit, at, warm) == Outcome(s1, [], exit)
      else
        var a := Attempt(env, chosen.value, at, 0, warm, None);
        if a.stop.Some? then Run(s, env, actor, visit, at, warm) == Outcome(s1, a.rounds, a.stop.value)
        else
          var (s2, end) := Finished(s1, chosen.value, actor, env.closing(visit));
          if end.Some? then Run(s, env, actor, visit, at, warm) == Outcome(s2, a.rounds, end.value)
          else
            var rest := Run(s2, env, actor, visit + 1, at + |a.rounds|, true);
            |Open(s2)| < |Open(s)| &&
            Run(s, env, actor, visit, at, warm) == Outcome(rest.state, a.rounds + rest.rounds, rest.exit)
  {
    hide Queued, Observed, Open, Attempt;
    OthersOpenNothing(s, env.queue(visit));
    var (s1, chosen, exit) := Queued(Observed(s, env.queue(visit)), env.queue(visit), actor);
    if chosen.Some? {
      ClosingShrinks(s, s1, chosen.value, actor);
    }
  }

  lemma MaxRetries()
    ensures MAX_QA_RETRIES == 3
  {
  }

  class Ledger {
    var state: FeatureState

    method Advance(q: QueueReport, actor: string) returns (chosen: Option<string>, exit: Exit)
      modifies this
      ensures (state, chosen, exit) == Queued(Observed(old(state), q), q, actor)
    {
      hide CanStart, Choose, ApplyAll;
      state := Observed(state, q);
      if q.definitions.None? {
        return None, Blocked("missing_tasks_md");
      }
      if !q.ledgerValid {
        return None, Blocked("task_queue_failed");
      }
      if !AnyRegistered(state) {
        return None, Blocked("task_registration_required");
      }
      if q.definitions.value == [] {
        return None, Blocked("task_queue_failed");
      }
      var c := SelectNext(state, q.definitions.value, actor);
      match c
      case NothingOpen =>
        return None, Blocked("no_registered_open_tasks");
      case OwnedByOther(owner) =>
        return None, Blocked("task_owned_by_other_actor:" + owner);
      case Resume(task) =>
        return Some(task), Success;
      case Start(task) =>
        if !q.startAccepted {
          return None, Blocked("task_queue_failed");
        }
        state := Started(state, task, actor);
        return Some(task), Success;
    }

    /** The outer loop over tasks; the inner one is `WorkOnTask`. */
    method ImplementTasks(env: Surroundings, actor: string) returns (rounds: seq<Round>, exit: Exit)
      modifies this
      ensures Outcome(state, rounds, exit) == Run(old(state), env, actor, 0, 0, false)
    {
      hide *;
      var sessionWarm := false;
      var visit: nat := 0;
      rounds := [];
      while true
        invariant Run(old(state), env, actor, 0, 0, false) ==
                  (var r := Run(state, env, actor, visit, |rounds|, sessionWarm);
                   Outcome(r.state, rounds + r.rounds, r.exit))
        decreases |Open(state)|
      {
        RunStep(state, env, actor, visit, |rounds|, sessionWarm);
        var chosen, stop := Advance(env.queue(visit), actor);
        if chosen.None? {
          return rounds, stop;
        }
        var task := chosen.value;
        var ended;
        rounds, ended := WorkOnTask(env, task, rounds, sessionWarm);
        if ended.Some? {
          return rounds, ended.value;
        }
        sessionWarm := true;
        var (closed, end) := Finished(state, task, actor, env.closing(visit));
        state := closed;
        if end.Some? {
          return rounds, end.value;
        }
        visit := visit + 1;
      }
    }
  }

  /** The rounds on one task, added to the earlier ones, and the exit if one of them ends the run. */
  method WorkOnTask(env: Surroundings, task: string, earlier: seq<Round>, warm: bool)
    returns (rounds: seq<Round>, stop: Option<Exit>)
    ensures var a := Attempt(env, task, |earlier|, 0, warm, None); rounds == earlier + a.rounds && stop == a.stop
  {
    MaxRetries();
    hide *;
    var sessionWarm := warm;
    var retry: nat := 0;
    var feedback: Option<nat> := None;
    rounds := earlier;
    while true
      invariant retry < MAX_QA_RETRIES
      invariant (var all, rest := Attempt(env, task, |earlier|, 0, warm, None),
                                  Attempt(env, task, |rounds|, retry, sessionWarm, feedback);
                 earlier + all.rounds == rounds + rest.rounds && all.stop == rest.stop)
      decreases MAX_QA_RETRIES - retry
    {
      AttemptStep(env, task, |rounds|, retry, sessionWarm, feedback);
      var report := env.round(|rounds|);
      var number := |rounds|;
      rounds := rounds + [Round(task, retry, sessionWarm, feedback)];
      if Stops(report).Some? {
        return rounds, Stops(report);
      }
      sessionWarm := true;
      if report.qa.passed {
        return rounds, None;
      }
      if retry >= MAX_QA_RETRIES - 1 {
        return rounds, Some(Blocked("offline_qa_failed"));
      }
      feedback := Some(number);
      retry := retry + 1;
    }
  }

  // ---------------------------------------------------------------- what a run promises

  function Count(rounds: seq<Round>, task: string): nat {
    if rounds == [] then 0 else (if rounds[0].task == task then 1 else 0) + Count(rounds[1..], task)
  }

  lemma {:induction false} CountAppend(a: seq<Round>, b: seq<Round>, task: string)
    ensures Count(a + b, task) == Count(a, task) + Count(b, task)
    decreases |a|
  {
    if a == [] {
      assert a + b == b;
    } else {
      CountAppend(a[1..], b, task);
      assert (a + b)[1..] == a[1..] + b;
    }
  }

  lemma {:induction false} CountBounds(rounds: seq<Round>, task: string)
    ensures (forall k :: 0 <= k < |rounds| ==> rounds[k].task != task) ==> Count(rounds, task) == 0
    ensures Count(rounds, task) <= |rounds|
  {
    if rounds != [] {
      CountBounds(rounds[1..], task);
    }
  }

  function RoundBefore(rounds: seq<Round>, k: nat): Option<Round>
    requires k <= |rounds|
  {
    if k == 0 then None else Some(rounds[k - 1])
  }

  /** A round with one before it resumes the runner's session. A retry answers the report of the round before it,
      which was a round of the same task; a first round of a task answers none. */
  predicate Fits(before: Option<Round>, r: Round, numberBefore: int, warm: bool) {
    && (r.resume <==> warm || before.Some?)
    && r.retry < MAX_QA_RETRIES
    && (if r.retry == 0 then r.feedback == None
        else r.feedback.Some? && r.feedback.value == numberBefore && before.Some? && before.value.task == r.task &&
             before.value.retry + 1 == r.retry)
  }

  ghost predicate WellLinked(rounds: seq<Round>, at: nat, warm: bool) {
    forall k :: 0 <= k < |rounds| ==> Fits(RoundBefore(rounds, k), rounds[k], at + k - 1, warm)
  }

  lemma {:induction false} AttemptShape(
    env: Surroundings, task: string, at: nat, retry: nat, warm: bool, feedback: Option<nat>)
    requires retry < MAX_QA_RETRIES
    ensures var a := Attempt(env, task, at, retry, warm, feedback);
      && 1 <= |a.rounds| <= MAX_QA_RETRIES - retry
      && (forall k :: 0 <= k < |a.rounds| ==>
            a.rounds[k] == Round(task, retry + k, warm || k > 0, if k == 0 then feedback else Some(at + k - 1)))
      && (a.stop.None? <==> Stops(env.round(at + |a.rounds| - 1)).None? && env.round(at + |a.rounds| - 1).qa.passed)
    decreases MAX_QA_RETRIES - retry
  {
    hide Stops, Attempt;
    AttemptStep(env, task, at, retry, warm, feedback);
    var report := env.round(at);
    if Stops(report).None? && !report.qa.passed && retry < MAX_QA_RETRIES - 1 {
      AttemptShape(env, task, at + 1, retry + 1, true, Some(at));
    }
  }

  /** The tasks worked on were open when the run began; none gets more than three rounds, so the run has at most
      three rounds for each open task. */
  lemma {:induction false} RoundBound(
    s: FeatureState, env: Surroundings, actor: string, visit: nat, at: nat, warm: bool)
    ensures var rounds := Run(s, env, actor, visit, at, warm).rounds;
      && |rounds| <= MAX_QA_RETRIES * |Open(s)|
      && forall t :: Count(rounds, t) <= if t in Open(s) then MAX_QA_RETRIES else 0
    decreases |Open(s)|
  {
    hide Run, Queued, Observed, Attempt, Finished, Count;
    RunStep(s, env, actor, visit, at, warm);
    OthersOpenNothing(s, env.queue(visit));
    var (s1, chosen, exit) := Queued(Observed(s, env.queue(visit)), env.queue(visit), actor);
    CountBoundsAll([]);
    if chosen.Some? {
      var task := chosen.value;
      AttemptShape(env, task, at, 0, warm, None);
      var a := Attempt(env, task, at, 0, warm, None);
      CountBoundsAll(a.rounds);
      var (s2, end) := Finished(s1, task, actor, env.closing(visit));
      assert {task} <= Open(s);
      SubsetSize({task}, Open(s));
      if a.stop.None? && end.None? {
        GoesOnClosed(s1, task, actor, env.closing(visit));
        ClosingShrinks(s, s1, task, actor);
        RoundBound(s2, env, actor, visit + 1, at + |a.rounds|, true);
        var rest := Run(s2, env, actor, visit + 1, at + |a.rounds|, true);
        forall t
          ensures Count(a.rounds + rest.rounds, t) <= if t in Open(s) then MAX_QA_RETRIES else 0
        {
          CountAppend(a.rounds, rest.rounds, t);
        }
      }
    }
  }

  lemma CountBoundsAll(rounds: seq<Round>)
    ensures forall t :: Count(rounds, t) <= |rounds|
    ensures forall t :: (forall k :: 0 <= k < |rounds| ==> rounds[k].task != t) ==> Count(rounds, t) == 0
  {
    forall t
      ensures Count(rounds, t) <= |rounds|
      ensures (forall k :: 0 <= k < |rounds| ==> rounds[k].task != t) ==> Count(rounds, t) == 0
    {
      CountBounds(rounds, t);
    }
  }

  lemma GoesOnClosed(s: FeatureState, task: string, actor: string, c: ClosingReport)
    requires task in s.tasks
    ensures var (s2, end) := Finished(s, task, actor, c);
      (end.None? || end == Some(Success)) ==> s2 == Closed(s, task, actor) && IsClosed(s2, task)
  {
  }

  /** Every round but the run's first resumes the session, and every retry answers the failed check before it. */
  lemma {:induction false} RoundsAreLinked(
    s: FeatureState, env: Surroundings, actor: string, visit: nat, at: nat, warm: bool)
    ensures WellLinked(Run(s, env, actor, visit, at, warm).rounds, at, warm)
    decreases |Open(s)|
  {
    hide Run, Queued, Observed, Attempt, Finished, Open, WellLinked, Stops;
    NothingIsLinked(at, warm);
    RunStep(s, env, actor, visit, at, warm);
    var (s1, chosen, exit) := Queued(Observed(s, env.queue(visit)), env.queue(visit), actor);
    if chosen.Some? {
      AttemptShape(env, chosen.value, at, 0, warm, None);
      var a := Attempt(env, chosen.value, at, 0, warm, None);
      var (s2, end) := Finished(s1, chosen.value, actor, env.closing(visit));
      AttemptIsLinked(env, chosen.value, at, warm);
      if a.stop.None? && end.None? {
        RoundsAreLinked(s2, env, actor, visit + 1, at + |a.rounds|, true);
        LinkedOnward(a.rounds, Run(s2, env, actor, visit + 1, at + |a.rounds|, true).rounds, at, warm);
      }
    }
  }

  lemma NothingIsLinked(at: nat, warm: bool)
    ensures WellLinked([], at, warm)
  {
  }

  lemma AttemptIsLinked(env: Surroundings, task: string, at: nat, warm: bool)
    ensures WellLinked(Attempt(env, task, at, 0, warm, None).rounds, at, warm)
  {
    hide Attempt, Stops;
    AttemptShape(env, task, at, 0, warm, None);
    var rounds := Attempt(env, task, at, 0, warm, None).rounds;
    forall k | 0 <= k < |rounds| ensures Fits(RoundBefore(rounds, k), rounds[k], at + k - 1, warm) {
    }
  }

  lemma LinkedOnward(a: seq<Round>, b: seq<Round>, at: nat, warm: bool)
    requires a != [] && WellLinked(a, at, warm) && WellLinked(b, at + |a|, true)
    ensures WellLinked(a + b, at, warm)
  {
    var all := a + b;
    forall k | 0 <= k < |all| ensures Fits(RoundBefore(all, k), all[k], at + k - 1, warm) {
      if k < |a| {
        assert RoundBefore(all, k) == RoundBefore(a, k) && all[k] == a[k];
      } else {
        var i := k - |a|;
        assert Fits(RoundBefore(b, i), b[i], at + |a| + i - 1, true);
        assert all[k] == b[i] && (i > 0 ==> RoundBefore(all, k) == RoundBefore(b, i));
      }
    }
  }

  // ---------------------------------------------------------------- the ledger over a run

  /** Tasks stay registered or not; what is closed stays closed, and a started task keeps its owner. */
  ghost predicate Evolves(s: FeatureState, s': FeatureState) {
    forall t :: t in s.tasks ==>
      && t in s'.tasks
      && s'.tasks[t].registered == s.tasks[t].registered
      && (s.tasks[t].closed ==> s'.tasks[t].closed)
      && (s.tasks[t].started ==> s'.tasks[t].started && s'.tasks[t].owner == s.tasks[t].owner)
  }

  ghost predicate Sound(s: FeatureState, s': FeatureState) {
    Evolves(s, s') && (OneOpenEach(s) ==> OneOpenEach(s'))
  }

  lemma ApplySound(s: FeatureState, defs: seq<Definition>, op: Op)
    ensures Sound(s, Apply(s, defs, op))
  {
    hide Position, OneOpenEach;
    if OneOpenEach(s) {
      OneOpenKept(s, defs, op);
    }
  }

  lemma {:induction false} ApplyAllSound(s: FeatureState, defs: seq<Definition>, ops: seq<Op>)
    ensures Sound(s, ApplyAll(s, defs, ops))
    decreases |ops|
  {
    hide Apply, OneOpenEach;
    if ops != [] {
      ApplyAllSound(s, defs, ops[..|ops| - 1]);
      ApplySound(ApplyAll(s, defs, ops[..|ops| - 1]), defs, ops[|ops| - 1]);
    }
  }

  lemma QueuedSound(s: FeatureState, q: QueueReport, actor: string)
    ensures var (s1, chosen, exit) := Queued(s, q, actor);
      && Sound(s, s1)
      && (chosen.Some? ==> Running(s1, chosen.value) && WorkedOn(s1, chosen.value, actor))
  {
    hide Position, OneOpenEach, Choose, CanStart;
    if q.definitions.Some? {
      var defs := q.definitions.value;
      ChooseIsChoice(s, defs, actor);
      var c := Choose(s, defs, actor);
      if c.Start? {
        ApplySound(s, defs, StartTask(actor, c.task));
      }
    }
  }

  lemma FinishedSound(s: FeatureState, task: string, actor: string, c: ClosingReport)
    requires Running(s, task)
    ensures Sound(s, Finished(s, task, actor, c).0)
    ensures WorkedOn(s, task, actor) ==> WorkedOn(Finished(s, task, actor, c).0, task, actor)
  {
    hide OneOpenEach;
    ApplySound(s, [], CloseTask(actor, task));
  }

  predicate WorkedOn(s: FeatureState, task: string, actor: string) {
    task in s.tasks && s.tasks[task].registered && s.tasks[task].started && s.tasks[task].owner == actor
  }

  /** Every task of the rounds was the actor's to work on; all but the last are closed, and the last one too after
      a success. */
  ghost predicate Tidy(o: Outcome, actor: string) {
    && (forall k :: 0 <= k < |o.rounds| ==>
          && WorkedOn(o.state, o.rounds[k].task, actor)
          && (o.rounds[k].task != o.rounds[|o.rounds| - 1].task ==> IsClosed(o.state, o.rounds[k].task)))
    && (o.exit == Success ==> o.rounds != [] && IsClosed(o.state, o.rounds[|o.rounds| - 1].task))
  }

  lemma TidyOnward(s: FeatureState, task: string, rounds: seq<Round>, rest: Outcome, actor: string)
    requires WorkedOn(s, task, actor) && IsClosed(s, task) && Evolves(s, rest.state) && Tidy(rest, actor)
    requires forall k :: 0 <= k < |rounds| ==> rounds[k].task == task
    ensures Tidy(Outcome(rest.state, rounds + rest.rounds, rest.exit), actor)
  {
    assert WorkedOn(rest.state, task, actor) && IsClosed(rest.state, task);
    hide Evolves, WorkedOn, IsClosed;
  }

  lemma SoundOnward(a: FeatureState, b: FeatureState, c: FeatureState)
    requires Sound(a, b) && Sound(b, c)
    ensures Sound(a, c)
  {
    hide OneOpenEach;
  }

  /** What a run leaves behind. The ledger only moves forward and no actor ever has two tasks open; every task
      worked on is the actor's own; all of them but the last are closed, and the last one too if the run ends in
      success. */
  lemma {:induction false} RunLeavesOrder(
    s: FeatureState, env: Surroundings, actor: string, visit: nat, at: nat, warm: bool)
    ensures Sound(s, Run(s, env, actor, visit, at, warm).state)
    ensures Tidy(Run(s, env, actor, visit, at, warm), actor)
    decreases |Open(s)|
  {
    hide Run, Queued, Observed, Attempt, Open, Sound, Stops, Finished;
    RunStep(s, env, actor, visit, at, warm);
    var q := env.queue(visit);
    var s0 := Observed(s, q);
    ObservedSound(s, q);
    QueuedSound(s0, q, actor);
    QueuedExit(s0, q, actor);
    var (s1, chosen, exit) := Queued(s0, q, actor);
    SoundOnward(s, s0, s1);
    if chosen.Some? {
      var task := chosen.value;
      AttemptShape(env, task, at, 0, warm, None);
      AttemptExit(env, task, at, 0, warm, None);
      var a := Attempt(env, task, at, 0, warm, None);
      if a.stop.None? {
        FinishedSound(s1, task, actor, env.closing(visit));
        GoesOnClosed(s1, task, actor, env.closing(visit));
        var (s2, end) := Finished(s1, task, actor, env.closing(visit));
        SoundOnward(s, s1, s2);
        if end.None? {
          RunLeavesOrder(s2, env, actor, visit + 1, at + |a.rounds|, true);
          var rest := Run(s2, env, actor, visit + 1, at + |a.rounds|, true);
          SoundOnward(s, s2, rest.state);
          assert Evolves(s2, rest.state) by { SoundEvolves(s2, rest.state); }
          TidyOnward(s2, task, a.rounds, rest, actor);
        }
      }
    }
  }

  lemma SoundEvolves(s: FeatureState, s': FeatureState)
    requires Sound(s, s')
    ensures Evolves(s, s') && (OneOpenEach(s) ==> OneOpenEach(s'))
  {
  }

  lemma ObservedSound(s: FeatureState, q: QueueReport)
    ensures Sound(s, Observed(s, q))
  {
    hide Sound;
    ApplyAllSound(s, if q.definitions.Some? then q.definitions.value else [], q.others);
  }

  lemma QueuedExit(s: FeatureState, q: QueueReport, actor: string)
    ensures var (s1, chosen, exit) := Queued(s, q, actor); chosen.None? ==> exit.Blocked?
  {
    hide Choose, CanStart;
  }

  lemma {:induction false} AttemptExit(
    env: Surroundings, task: string, at: nat, retry: nat, warm: bool, feedback: Option<nat>)
    requires retry < MAX_QA_RETRIES
    ensures Attempt(env, task, at, retry, warm, feedback).stop != Some(Success)
    decreases MAX_QA_RETRIES - retry
  {
    if retry < MAX_QA_RETRIES - 1 {
      AttemptExit(env, task, at + 1, retry + 1, true, Some(at));
    }
  }

  /** A run that stops in the middle of a task is picked up where it stopped: whatever others do in between, short
      of closing that task, and as long as tasks.md lists it, the same actor's next run begins with it. */
  lemma StoppedTaskIsResumed(
    s: FeatureState, env: Surroundings, actor: string, meanwhile: seq<Definition>, others: seq<Op>,
    defs: seq<Definition>)
    requires OneOpenEach(s)
    requires var r := Run(s, env, actor, 0, 0, false);
      r.rounds != [] && !IsClosed(ApplyAll(r.state, meanwhile, others), r.rounds[|r.rounds| - 1].task) &&
      Listed(defs, r.rounds[|r.rounds| - 1].task)
    ensures var r := Run(s, env, actor, 0, 0, false);
      Choose(ApplyAll(r.state, meanwhile, others), defs, actor) == Resume(r.rounds[|r.rounds| - 1].task)
  {
    hide Run, Choose, OneOpenEach, Position, ApplyAll;
    RunLeavesOrder(s, env, actor, 0, 0, false);
    var r := Run(s, env, actor, 0, 0, false);
    var task := r.rounds[|r.rounds| - 1].task;
    assert WorkedOn(r.state, task, actor);
    var after := ApplyAll(r.state, meanwhile, others);
    ApplyAllSound(r.state, meanwhile, others);
    assert WorkedOn(after, task, actor) && Running(after, task);
    OwnTaskIsResumed(after, defs, actor, task);
  }

  /** A task that another actor has open when the run begins is never worked on. */
  lemma OthersTasksAreLeftAlone(s: FeatureState, env: Surroundings, actor: string, task: string)
    requires Running(s, task) && s.tasks[task].owner != actor
    ensures Count(Run(s, env, actor, 0, 0, false).rounds, task) == 0
  {
    hide Run, Count;
    RunLeavesOrder(s, env, actor, 0, 0, false);
    CountBoundsAll(Run(s, env, actor, 0, 0, false).rounds);
  }
}
