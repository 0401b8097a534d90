/** When a run of the implement step goes on to another task, and how it ends. A visit is the work on one task; its
    first round is the one with retry number 0. */
module ImplementEnding {
  import opened Options
  import opened TaskQueue
  import opened ImplementLoop

  /** The number of tasks that were worked on. */
  function Visits(rounds: seq<Round>): nat {
    if rounds == [] then 0 else (if rounds[0].retry == 0 then 1 else 0) + Visits(rounds[1..])
  }

  /** The runner delivered and the check passed. */
  predicate Passes(report: RoundReport) {
    report == RoundReport(Delivered, Verdict(true))
  }

  /** The task was closed, the docs were updated, and its gate named another task. */
  predicate NamesAnother(c: ClosingReport) {
    c == ClosingReport(Done, None, GatePassed(true))
  }

  /** The run asked the queue before the given visit and got no task. */
  predicate FoundNothing(o: Outcome, env: Surroundings, actor: string, visit: nat) {
    Queued(o.state, env.queue(visit), actor) == (o.state, None, o.exit)
  }

  /** How a run ends on a round that does not pass. */
  predicate EndsUnpassed(last: Round, report: RoundReport, exit: Exit) {
    match report
    case RoundReport(NotStarted(code), _) => exit == Error(code)
    case RoundReport(TimedOut, _) => exit == Blocked("llm_handoff_failed")
    case RoundReport(NotJson, _) => exit == Error("handoff_invalid_json")
    case RoundReport(Failed, _) => exit == Blocked("llm_handoff_failed")
    case RoundReport(Delivered, Unavailable(reason)) => exit == Blocked(reason)
    case RoundReport(Delivered, NoResultFile) => exit == Blocked("offline_qa_result_file_missing")
    case RoundReport(Delivered, NoRunId) => exit == Blocked("offline_qa_run_id_missing")
    case RoundReport(Delivered, Verdict(passed)) => !passed && exit == Blocked("offline_qa_failed") && last.retry == 2
  }

  /** How a run ends after a visit that passed, if it does: the outcome of closing the task, of its docs and of its
      gate, the first that is not in order. With another task named it ends only when the queue has none; otherwise
      the task is closed exactly if its closeout was done, or recorded the closing all the same. */
  predicate EndsPassed(o: Outcome, env: Surroundings, actor: string, task: string, visit: nat, next: nat) {
    var c := env.closing(visit);
    && (!NamesAnother(c) ==> (IsClosed(o.state, task) <==> c.closeout.Done? || c.closeout.recorded))
    && (if c.closeout.NotDone? then
          o.exit == (if c.closeout.reason.Some? then Blocked(c.closeout.reason.value) else Aborted)
        else if c.docsError.Some? then o.exit == Blocked(c.docsError.value)
        else if c.gate == GateTimeout then o.exit == Error("task_gate_timeout")
        else if c.gate == GateFailed then o.exit == Blocked("task_gate_failed")
        else if c.gate == GatePassed(false) then o.exit == Success
        else FoundNothing(o, env, actor, next))
  }

  /** The run moves to a new visit exactly after a round that passed, and only where the visit before named another
      task; its end is that of its last round, of its last closing, or of the queue. */
  ghost predicate EndsAsReported(o: Outcome, env: Surroundings, actor: string, visit: nat, at: nat) {
    var n, m := |o.rounds|, Visits(o.rounds);
    && (forall r: nat :: at <= r < at + n - 1 ==> (o.rounds[r - at + 1].retry == 0 <==> Passes(env.round(r))))
    && (forall v: nat :: visit <= v < visit + m - 1 ==> NamesAnother(env.closing(v)))
    && (n == 0 <==> m == 0)
    && (if n == 0 then FoundNothing(o, env, actor, visit)
        else if Passes(env.round(at + n - 1)) then
          EndsPassed(o, env, actor, o.rounds[n - 1].task, visit + m - 1, visit + m)
        else EndsUnpassed(o.rounds[n - 1], env.round(at + n - 1), o.exit))
  }

  lemma {:induction false} RunEndsAsReported(
    s: FeatureState, env: Surroundings, actor: string, visit: nat, at: nat, warm: bool)
    ensures EndsAsReported(Run(s, env, actor, visit, at, warm), env, actor, visit, at)
    decreases |Open(s)|
  {
    hide Run, Queued, Observed, Attempt, Finished, Open, EndsAsReported, Passes, FoundNothing;
    RunStep(s, env, actor, visit, at, warm);
    var q := env.queue(visit);
    var s0 := Observed(s, q);
    var (s1, chosen, exit) := Queued(s0, q, actor);
    var o := Run(s, env, actor, visit, at, warm);
    if chosen.None? {
      NothingQueued(s0, q, actor);
      EmptyRunEnds(o, env, actor, visit, at);
    } else {
      var task := chosen.value;
      ChosenIsOpen(s0, q, actor);
      VisitRounds(env, task, at, warm);
      var a := Attempt(env, task, at, 0, warm, None);
      if a.stop.Some? {
        UnpassedRunEnds(o, task, env, actor, visit, at);
      } else {
        FinishedIs(s1, task, actor, env.closing(visit));
        var (s2, end) := Finished(s1, task, actor, env.closing(visit));
        if end.Some? {
          PassedRunEnds(o, task, env, actor, visit, at);
        } else {
          RunEndsAsReported(s2, env, actor, visit + 1, at + |a.rounds|, true);
          var rest := Run(s2, env, actor, visit + 1, at + |a.rounds|, true);
          FirstRoundIsFirst(s2, env, actor, visit + 1, at + |a.rounds|, true);
          EndsOnward(a.rounds, task, rest, env, actor, visit, at);
        }
      }
    }
  }

  /** What the rounds of one visit are like, and what they mean for the run. */
  ghost predicate OneVisit(rounds: seq<Round>, task: string, env: Surroundings, at: nat) {
    && rounds != [] && rounds[0].retry == 0 && Visits(rounds) == 1
    && (forall i :: 0 < i < |rounds| ==> rounds[i].retry > 0)
    && (forall i :: 0 <= i < |rounds| ==> rounds[i].task == task)
    && (forall r: nat :: at <= r < at + |rounds| - 1 ==> !Passes(env.round(r)))
  }

  lemma {:induction false} NoFirsts(rounds: seq<Round>)
    requires forall i :: 0 <= i < |rounds| ==> rounds[i].retry > 0
    ensures Visits(rounds) == 0
  {
    if rounds != [] {
      NoFirsts(rounds[1..]);
    }
  }

  lemma {:induction false} VisitsAppend(a: seq<Round>, b: seq<Round>)
    ensures Visits(a + b) == Visits(a) + Visits(b)
  {
    if a == [] {
      assert a + b == b;
    } else {
      VisitsAppend(a[1..], b);
      assert (a + b)[1..] == a[1..] + b;
    }
  }

  lemma {:induction false} AttemptEnds(
    env: Surroundings, task: string, at: nat, retry: nat, warm: bool, feedback: Option<nat>)
    requires retry < MAX_QA_RETRIES
    ensures var a := Attempt(env, task, at, retry, warm, feedback);
      var n := |a.rounds|;
      && n > 0
      && (forall r: nat :: at <= r < at + n - 1 ==> !Passes(env.round(r)))
      && (a.stop.None? <==> Passes(env.round(at + n - 1)))
      && (a.stop.Some? ==> EndsUnpassed(a.rounds[n - 1], env.round(at + n - 1), a.stop.value))
    decreases MAX_QA_RETRIES - retry
  {
    MaxRetries();
    hide Attempt;
    AttemptStep(env, task, at, retry, warm, feedback);
    var report := env.round(at);
    if Stops(report).None? && !report.qa.passed && retry < MAX_QA_RETRIES - 1 {
      AttemptEnds(env, task, at + 1, retry + 1, true, Some(at));
      var rest := Attempt(env, task, at + 1, retry + 1, true, Some(at));
      assert at + |rest.rounds| == at + 1 + |rest.rounds| - 1;
    }
  }

  lemma VisitRounds(env: Surroundings, task: string, at: nat, warm: bool)
    ensures var a := Attempt(env, task, at, 0, warm, None);
      var n := |a.rounds|;
      && OneVisit(a.rounds, task, env, at)
      && (a.stop.None? <==> Passes(env.round(at + n - 1)))
      && (a.stop.Some? ==> EndsUnpassed(a.rounds[n - 1], env.round(at + n - 1), a.stop.value))
  {
    hide Attempt, Passes, EndsUnpassed, Stops;
    AttemptEnds(env, task, at, 0, warm, None);
    AttemptShape(env, task, at, 0, warm, None);
    var rounds := Attempt(env, task, at, 0, warm, None).rounds;
    NoFirsts(rounds[1..]);
  }

  lemma FinishedIs(s: FeatureState, task: string, actor: string, c: ClosingReport)
    requires task in s.tasks && !s.tasks[task].closed
    ensures var (s2, end) := Finished(s, task, actor, c);
      && (end.None? <==> NamesAnother(c))
      && (end.Some? ==> forall o: Outcome, env: Surroundings, visit: nat, next: nat ::
            o.state == s2 && o.exit == end.value && env.closing(visit) == c ==>
              EndsPassed(o, env, actor, task, visit, next))
  {
  }

  lemma ChosenIsOpen(s: FeatureState, q: QueueReport, actor: string)
    ensures var (s1, chosen, exit) := Queued(s, q, actor);
      chosen.Some? ==> chosen.value in s1.tasks && !s1.tasks[chosen.value].closed
  {
    hide Choose, CanStart;
  }

  lemma NothingQueued(s: FeatureState, q: QueueReport, actor: string)
    ensures var (s1, chosen, exit) := Queued(s, q, actor); chosen.None? ==> s1 == s
  {
    hide Choose, CanStart;
  }

  lemma EmptyRunEnds(o: Outcome, env: Surroundings, actor: string, visit: nat, at: nat)
    requires o.rounds == [] && FoundNothing(o, env, actor, visit)
    ensures EndsAsReported(o, env, actor, visit, at)
  {
  }

  lemma UnpassedRunEnds(o: Outcome, task: string, env: Surroundings, actor: string, visit: nat, at: nat)
    requires OneVisit(o.rounds, task, env, at) && !Passes(env.round(at + |o.rounds| - 1))
    requires EndsUnpassed(o.rounds[|o.rounds| - 1], env.round(at + |o.rounds| - 1), o.exit)
    ensures EndsAsReported(o, env, actor, visit, at)
  {
    hide Passes, EndsUnpassed, Visits;
  }

  lemma PassedRunEnds(o: Outcome, task: string, env: Surroundings, actor: string, visit: nat, at: nat)
    requires OneVisit(o.rounds, task, env, at) && Passes(env.round(at + |o.rounds| - 1))
    requires EndsPassed(o, env, actor, o.rounds[|o.rounds| - 1].task, visit, visit + 1)
    ensures EndsAsReported(o, env, actor, visit, at)
  {
    hide Passes, EndsPassed, Visits;
  }

  lemma FirstRoundIsFirst(s: FeatureState, env: Surroundings, actor: string, visit: nat, at: nat, warm: bool)
    ensures var rounds := Run(s, env, actor, visit, at, warm).rounds; rounds != [] ==> rounds[0].retry == 0
  {
    hide Run, Queued, Observed, Attempt, Finished, Open, Stops;
    RunStep(s, env, actor, visit, at, warm);
    var (s1, chosen, exit) := Queued(Observed(s, env.queue(visit)), env.queue(visit), actor);
    if chosen.Some? {
      AttemptShape(env, chosen.value, at, 0, warm, None);
    }
  }

  lemma EndsOnward(
    rounds: seq<Round>, task: string, rest: Outcome, env: Surroundings, actor: string, visit: nat, at: nat)
    requires OneVisit(rounds, task, env, at) && Passes(env.round(at + |rounds| - 1)) && NamesAnother(env.closing(visit))
    requires EndsAsReported(rest, env, actor, visit + 1, at + |rounds|)
    requires rest.rounds != [] ==> rest.rounds[0].retry == 0
    ensures EndsAsReported(Outcome(rest.state, rounds + rest.rounds, rest.exit), env, actor, visit, at)
  {
    hide Passes, Visits, EndsUnpassed, Queued;
    VisitsAppend(rounds, rest.rounds);
    var o := Outcome(rest.state, rounds + rest.rounds, rest.exit);
    var n, l := |rounds|, |rest.rounds|;
    assert at + n + l - 1 == at + |o.rounds| - 1;
  }

  /** Before each visit: a task is handed out only with tasks.md, a valid ledger, registrations and listed tasks at
      hand, and a new one only if the ledger takes its start; the first that is missing is the reason for none. */
  lemma QueueHandsOut(s: FeatureState, q: QueueReport, actor: string)
    ensures var (s1, chosen, exit) := Queued(s, q, actor);
      var defs := if q.definitions.Some? then q.definitions.value else [];
      var registered := exists t :: t in s.tasks && s.tasks[t].registered;
      if q.definitions.None? then (s1, chosen, exit) == (s, None, Blocked("missing_tasks_md"))
      else if q.ledgerValid && !registered then (s1, chosen, exit) == (s, None, Blocked("task_registration_required"))
      else if !q.ledgerValid || defs == [] then (s1, chosen, exit) == (s, None, Blocked("task_queue_failed"))
      else
        match Choose(s, defs, actor)
        case NothingOpen => (s1, chosen, exit) == (s, None, Blocked("no_registered_open_tasks"))
        case OwnedByOther(owner) => (s1, chosen, exit) == (s, None, Blocked("task_owned_by_other_actor:" + owner))
        case Resume(task) => s1 == s && chosen == Some(task)
        case Start(task) =>
          if q.startAccepted then
            chosen == Some(task) && Running(s1, task) && s1.tasks[task].owner == actor &&
            forall t :: t != task && t in s.tasks ==> t in s1.tasks && s1.tasks[t] == s.tasks[t]
          else (s1, chosen, exit) == (s, None, Blocked("task_queue_failed"))
  {
    hide Choose, CanStart;
    if q.definitions.Some? {
      ChooseIsChoice(s, q.definitions.value, actor);
    }
  }

  /** A run succeeds exactly if its last round passed, the task was closed, the docs were updated, and the task's gate
      passed without naming another one. */
  lemma SucceedsIff(s: FeatureState, env: Surroundings, actor: string, visit: nat, at: nat, warm: bool)
    ensures var o := Run(s, env, actor, visit, at, warm);
      var n, m := |o.rounds|, Visits(o.rounds);
      o.exit == Success <==>
        && n > 0 && m > 0 && Passes(env.round(at + n - 1))
        && env.closing(visit + m - 1) == ClosingReport(Done, None, GatePassed(false))
  {
    hide Run, Queued, Visits, IsClosed;
    RunEndsAsReported(s, env, actor, visit, at, warm);
    var o := Run(s, env, actor, visit, at, warm);
    var m := Visits(o.rounds);
    QueuedExit(o.state, env.queue(visit), actor);
    QueuedExit(o.state, env.queue(visit + m), actor);
  }

  /** A task that others close before a run comes to its first choice gets no round in it. */
  lemma ClosedMeanwhileIsSkipped(
    s: FeatureState, env: Surroundings, actor: string, visit: nat, at: nat, warm: bool, task: string)
    requires var q := env.queue(visit);
      IsClosed(ApplyAll(s, if q.definitions.Some? then q.definitions.value else [], q.others), task)
    ensures Count(Run(s, env, actor, visit, at, warm).rounds, task) == 0
  {
    hide Run, Queued, Attempt, Finished, Count, Stops, ApplyAll;
    RunStep(s, env, actor, visit, at, warm);
    var s0 := Observed(s, env.queue(visit));
    var (s1, chosen, exit) := Queued(s0, env.queue(visit), actor);
    CountBoundsAll([]);
    if chosen.Some? {
      ClosedStays(s0, env.queue(visit), actor, task);
      AttemptShape(env, chosen.value, at, 0, warm, None);
      var a := Attempt(env, chosen.value, at, 0, warm, None);
      CountBoundsAll(a.rounds);
      var (s2, end) := Finished(s1, chosen.value, actor, env.closing(visit));
      if a.stop.None? && end.None? {
        GoesOnClosed(s1, chosen.value, actor, env.closing(visit));
        RoundBound(s2, env, actor, visit + 1, at + |a.rounds|, true);
        CountAppend(a.rounds, Run(s2, env, actor, visit + 1, at + |a.rounds|, true).rounds, task);
      }
    }
  }

  lemma ClosedStays(s: FeatureState, q: QueueReport, actor: string, task: string)
    requires IsClosed(s, task)
    ensures var (s1, chosen, exit) := Queued(s, q, actor); IsClosed(s1, task) && chosen != Some(task)
  {
    hide Choose, CanStart;
    if q.definitions.Some? {
      ChooseIsChoice(s, q.definitions.value, actor);
    }
  }
}
