/** Closing a task under the rules of the task ledger: from task T050 on each event may follow only certain others,
    and the closeout's fixed order of appends does not always respect that. */
module CloseoutRules {
  import opened TaskCloseout

  /** From task T050 on, the task ledger lets `task_closed` follow only these events. */
  predicate MayPrecedeClose(e: TaskEvent) {
    e == OfflineQaPassed ||
    e in {OtherEvent("merged"), OtherEvent("human_action_verified"), OtherEvent("e2e_passed"),
          OtherEvent("functional_goal_achieved")}
  }

  ghost predicate Governed(accept: (seq<Record>, Record) -> bool) {
    forall ledger, record :: accept(ledger, record) && record.event == TaskClosed ==>
      var h := EventsFor(ledger, record.feature, record.task);
      h != [] && MayPrecedeClose(h[|h| - 1])
  }

  lemma {:induction false} ProgressNeedsAcceptance(r: Request, ledger: seq<Record>, todo: seq<TaskEvent>, budget: nat,
                                                   accept: (seq<Record>, Record) -> bool, i: nat)
    requires i < Progress(r, ledger, todo, budget, accept)
    ensures accept(ledger + Records(r, todo[..i]), Record(r.feature, r.task, todo[i]))
    decreases |todo|
  {
    if i == 0 {
      assert ledger + Records(r, todo[..0]) == ledger;
    } else {
      var record := Record(r.feature, r.task, todo[0]);
      ProgressNeedsAcceptance(r, ledger + [record], todo[1..], budget - 1, accept, i - 1);
      assert todo[..i] == [todo[0]] + todo[1..][..i - 1];
      assert Records(r, todo[..i]) == [record] + Records(r, todo[1..][..i - 1]);
      assert ledger + Records(r, todo[..i]) == ledger + [record] + Records(r, todo[1..][..i - 1]);
    }
  }

  /** Under that rule a closeout that brings a commit can never close the task unless the commit was already
      recorded before the first attempt: it appends `commit_created` right before `task_closed`. */
  lemma {:induction false} CommitBlocksClose(w: World, r: Request, attempts: seq<Attempt>)
    requires r.passed && r.hasCommit
    requires CommitCreated !in History(w, r) && TaskClosed !in History(w, r)
    requires forall i :: 0 <= i < |attempts| ==> Governed(attempts[i].accept)
    ensures TaskClosed !in History(AfterAttempts(w, r, attempts), r)
    ensures AfterAttempts(w, r, attempts).lines == w.lines
    ensures !SomeCompletes(w, r, attempts)
    decreases |attempts|
  {
    hide Completes, AfterAttempt, Governed;
    if attempts != [] {
      var n := |attempts| - 1;
      CommitBlocksClose(w, r, attempts[..n]);
      var before := AfterAttempts(w, r, attempts[..n]);
      var k := RerunsAddMissingOnce(w, r, attempts[..n]);
      OneAttemptCannotClose(w, r, before, k, attempts[n]);
      MarkedOnlyWhenClosed(before, r, attempts[n]);
      forall i | 0 <= i < |attempts| ensures !Completes(AfterAttempts(w, r, attempts[..i]), r, attempts[i]) {
        if i < n {
          assert attempts[..n][..i] == attempts[..i] && attempts[..n][i] == attempts[i];
        }
      }
    }
  }

  lemma CloseAfterCommitRefused(r: Request, ledger: seq<Record>, rest: seq<TaskEvent>, a: Attempt)
    requires Governed(a.accept) && rest != [] && rest[|rest| - 1] == TaskClosed
    requires var h := EventsFor(ledger, r.feature, r.task) + rest[..|rest| - 1];
      h != [] && h[|h| - 1] == CommitCreated
    ensures Progress(r, ledger, rest, a.appends, a.accept) < |rest|
  {
    hide Progress;
    var last := |rest| - 1;
    var records := Records(r, rest[..last]);
    EventsAppend(ledger, records, r.feature, r.task);
    EventsOfRecords(r, rest[..last], r.feature, r.task);
    if last < Progress(r, ledger, rest, a.appends, a.accept) {
      ProgressNeedsAcceptance(r, ledger, rest, a.appends, a.accept, last);
      assert false;
    }
  }

  lemma OneAttemptCannotClose(w: World, r: Request, before: World, k: nat, a: Attempt)
    requires r.passed && r.hasCommit && Governed(a.accept)
    requires CommitCreated !in History(w, r) && TaskClosed !in History(w, r)
    requires k <= |Todo(r, w.ledger)| && History(before, r) == History(w, r) + Todo(r, w.ledger)[..k]
    requires TaskClosed !in History(before, r)
    ensures TaskClosed !in History(AfterAttempt(before, r, a), r)
    ensures !Completes(before, r, a)
  {
    hide Progress, Completes, AfterAttempt, EventsFor, Governed, Todo;
    CloseComesLast(w, r);
    TodoAfter(w, r, before, k);
    CloseStillLast(History(w, r), Todo(r, w.ledger), k);
    CloseAfterCommitRefused(r, before.ledger, Todo(r, before.ledger), a);
    IncompleteDoesNotClose(before, r, a);
  }

  /** What the last events to come look like, k steps later. */
  lemma CloseStillLast(h: seq<TaskEvent>, todo: seq<TaskEvent>, k: nat)
    requires |todo| >= 2 && todo[|todo| - 1] == TaskClosed && todo[|todo| - 2] == CommitCreated
    requires TaskClosed !in todo[..|todo| - 1] && k <= |todo| && TaskClosed !in h + todo[..k]
    ensures var rest := todo[k..];
      && rest != [] && rest[|rest| - 1] == TaskClosed && TaskClosed !in rest[..|rest| - 1]
      && var before := h + todo[..k] + rest[..|rest| - 1];
         before != [] && before[|before| - 1] == CommitCreated
  {
    var n := |todo| - 1;
    assert forall e :: e in todo[..k] ==> e in h + todo[..k];
    var rest := todo[k..];
    assert rest[..|rest| - 1] == todo[..n][k..];
    assert h + todo[..k] + rest[..|rest| - 1] == h + todo[..n];
  }

  lemma IncompleteDoesNotClose(w: World, r: Request, a: Attempt)
    requires var todo := Todo(r, w.ledger);
      && Progress(r, w.ledger, todo, a.appends, a.accept) < |todo| && TaskClosed !in todo[..|todo| - 1]
    requires TaskClosed !in History(w, r)
    ensures TaskClosed !in History(AfterAttempt(w, r, a), r)
    ensures !Completes(w, r, a)
  {
    hide Todo, Progress, Listed, EventsFor, AfterAttempt;
    var more := AttemptHistory(w, r, a);
    var todo := Todo(r, w.ledger);
    assert todo[..more] == todo[..|todo| - 1][..more];
  }

  lemma CloseComesLast(w: World, r: Request)
    requires r.passed && r.hasCommit
    requires CommitCreated !in History(w, r) && TaskClosed !in History(w, r)
    ensures var todo := Todo(r, w.ledger);
      |todo| >= 2 && todo[|todo| - 1] == TaskClosed && todo[|todo| - 2] == CommitCreated &&
      TaskClosed !in todo[..|todo| - 1]
  {
    var known := ToSet(History(w, r));
    var evidence, final := [TestsPassed, OfflineQaStarted, OfflineQaPassed], [CommitCreated, TaskClosed];
    assert Planned(r) == evidence + final;
    MissingAppend(evidence, final, known);
    MissingMembers(evidence, known);
    assert final[1..] == [TaskClosed] && final[1..][1..] == [];
    assert Missing(final[1..], known) == [TaskClosed] + Missing([], known);
    assert Missing(final, known) == final;
    var todo := Missing(evidence, known) + final;
    assert todo[..|todo| - 1] == Missing(evidence, known) + [CommitCreated];
  }

  lemma {:induction false} MissingAppend(a: seq<TaskEvent>, b: seq<TaskEvent>, known: set<TaskEvent>)
    ensures Missing(a + b, known) == Missing(a, known) + Missing(b, known)
    decreases |a|
  {
    if a == [] {
      assert a + b == b;
    } else {
      assert (a + b)[1..] == a[1..] + b;
      MissingAppend(a[1..], b, known);
    }
  }

  // ---------------------------------------------------------------- exactly when an open task can be closed

  const STARTED := OtherEvent("task_started")
  const GUARDS_PASSED := OtherEvent("quality_guards_passed")
  const GOAL_ACHIEVED := OtherEvent("functional_goal_achieved")

  /** The rows of the transition table for the events a closeout appends. */
  predicate MayFollow(previous: TaskEvent, e: TaskEvent) {
    match e
    case TestsPassed => previous in {
      OtherEvent("discovery_completed"), OtherEvent("lld_recorded"), GUARDS_PASSED, GOAL_ACHIEVED,
      OtherEvent("tests_failed"), OtherEvent("fix_completed")}
    case OfflineQaStarted => previous in {TestsPassed, OtherEvent("fix_completed"), CommitCreated}
    case OfflineQaPassed => previous == OfflineQaStarted
    case OfflineQaFailed => previous == OfflineQaStarted
    case CommitCreated => previous in {TestsPassed, OfflineQaStarted, OfflineQaPassed, OtherEvent("fix_completed")}
    case TaskClosed => MayPrecedeClose(previous)
    case _ => false
  }

  /** Whether the task ledger takes one more of these events into a task's history. `governed` holds from T050 on. */
  predicate Takes(governed: bool, h: seq<TaskEvent>, e: TaskEvent) {
    && STARTED in h && TaskClosed !in h
    && (governed ==> MayFollow(h[|h| - 1], e))
    && (e == TaskClosed ==>
          && (OfflineQaPassed in h || OtherEvent("merged") in h || OtherEvent("human_action_verified") in h ||
              OtherEvent("e2e_passed") in h)
          && (governed ==> GUARDS_PASSED in h && GOAL_ACHIEVED in h))
  }

  /** The ledger's rules as a closeout meets them. An append replays the whole ledger, so one complaint about any
      earlier event, of this task or another, refuses it; `sound` says that there is none. */
  function Rules(governed: bool, sound: bool): (seq<Record>, Record) -> bool {
    (ledger: seq<Record>, x: Record) => sound && Takes(governed, EventsFor(ledger, x.feature, x.task), x.event)
  }

  /** An attempt that nothing disturbs: it lives to its end, and the ledger decides by its rules alone. */
  function Undisturbed(governed: bool, sound: bool, budget: nat): Attempt {
    Attempt(budget, Rules(governed, sound), sound, true)
  }

  predicate TakenAll(governed: bool, h: seq<TaskEvent>, todo: seq<TaskEvent>)
    decreases |todo|
  {
    todo == [] || (Takes(governed, h, todo[0]) && TakenAll(governed, h + [todo[0]], todo[1..]))
  }

  lemma {:induction false} ProgressIsTaking(governed: bool, sound: bool, r: Request, ledger: seq<Record>,
                                            todo: seq<TaskEvent>, budget: nat)
    requires |todo| <= budget
    ensures Progress(r, ledger, todo, budget, Rules(governed, sound)) == |todo| <==>
            todo == [] || (sound && TakenAll(governed, EventsFor(ledger, r.feature, r.task), todo))
    decreases |todo|
  {
    hide Takes;
    if todo != [] {
      var record := Record(r.feature, r.task, todo[0]);
      var h := EventsFor(ledger, r.feature, r.task);
      assert (ledger + [record])[..|ledger|] == ledger;
      assert EventsFor(ledger + [record], r.feature, r.task) == h + [todo[0]];
      ProgressIsTaking(governed, sound, r, ledger + [record], todo[1..], budget - 1);
    }
  }

  function Before(previous: TaskEvent, todo: seq<TaskEvent>, i: nat): TaskEvent
    requires i <= |todo|
  {
    if i == 0 then previous else todo[i - 1]
  }

  /** Each event may follow the one before it. */
  ghost predicate Linked(previous: TaskEvent, todo: seq<TaskEvent>) {
    forall i :: 0 <= i < |todo| ==> MayFollow(Before(previous, todo, i), todo[i])
  }

  lemma LinkedCons(previous: TaskEvent, e: TaskEvent, rest: seq<TaskEvent>)
    ensures Linked(previous, [e] + rest) <==> MayFollow(previous, e) && Linked(e, rest)
  {
    hide MayFollow;
    var todo := [e] + rest;
    assert Before(previous, todo, 0) == previous && todo[0] == e;
    forall i | 0 <= i < |rest| ensures Before(e, rest, i) == Before(previous, todo, i + 1) && rest[i] == todo[i + 1] {
    }
  }

  predicate IsEvidence(e: TaskEvent) {
    e in {TestsPassed, OfflineQaStarted, OfflineQaPassed, CommitCreated}
  }

  lemma {:induction false} TakenIsLinked(governed: bool, h: seq<TaskEvent>, evidence: seq<TaskEvent>)
    requires STARTED in h && TaskClosed !in h && (OfflineQaPassed in h || OfflineQaPassed in evidence)
    requires forall e :: e in evidence ==> IsEvidence(e)
    ensures TakenAll(governed, h, evidence + [TaskClosed]) <==>
            (governed ==>
              Linked(h[|h| - 1], evidence + [TaskClosed]) && GUARDS_PASSED in h && GOAL_ACHIEVED in h)
    decreases |evidence|
  {
    hide MayFollow;
    if evidence == [] {
      assert [TaskClosed][1..] == [] && evidence + [TaskClosed] == [TaskClosed] + [];
      LinkedCons(h[|h| - 1], TaskClosed, []);
    } else {
      var e, rest := evidence[0], evidence[1..];
      assert IsEvidence(e) && evidence == [e] + rest;
      assert (evidence + [TaskClosed])[1..] == rest + [TaskClosed];
      assert forall x :: x in h + [e] <==> x in h || x == e;
      TakenIsLinked(governed, h + [e], rest);
      LinkedCons(h[|h| - 1], e, rest + [TaskClosed]);
      assert evidence + [TaskClosed] == [e] + (rest + [TaskClosed]);
    }
  }

  /** What the history of an open task must look like for a closeout to go through. */
  predicate Closeable(h: seq<TaskEvent>, hasCommit: bool) {
    && h != [] && GUARDS_PASSED in h && GOAL_ACHIEVED in h
    && (hasCommit ==> CommitCreated in h)
    && var last := h[|h| - 1];
       if OfflineQaPassed in h then 
         OfflineQaStarted in h && TestsPassed in h &&
         last in {OfflineQaPassed, OtherEvent("merged"), OtherEvent("human_action_verified"), OtherEvent("e2e_passed"),
                  GOAL_ACHIEVED}
       else if OfflineQaStarted in h then TestsPassed in h && last == OfflineQaStarted
       else if TestsPassed in h then last in {TestsPassed, OtherEvent("fix_completed"), CommitCreated}
       else
         last in {OtherEvent("discovery_completed"), OtherEvent("lld_recorded"), GUARDS_PASSED, GOAL_ACHIEVED,
                  OtherEvent("tests_failed"), OtherEvent("fix_completed")}
  }

  lemma MissingOne(e: TaskEvent, known: set<TaskEvent>)
    ensures Missing([e], known) == if e in known then [] else [e]
    ensures Missing([], known) == []
  {
    assert [e][1..] == [];
  }

  function Lacking(h: seq<TaskEvent>, e: TaskEvent): seq<TaskEvent> {
    if e in h then [] else [e]
  }

  /** The evidence that a passing closeout still has to append. */
  function Evidence(r: Request, h: seq<TaskEvent>): seq<TaskEvent> {
    Lacking(h, TestsPassed) + Lacking(h, OfflineQaStarted) + Lacking(h, OfflineQaPassed) +
    (if r.hasCommit then Lacking(h, CommitCreated) else [])
  }

  lemma Regroup<T>(a: seq<T>, b: seq<T>, c: seq<T>, d: seq<T>, e: seq<T>)
    ensures a + (b + (c + (d + e))) == a + b + c + d + e
  {
  }

  lemma PlannedParts(r: Request)
    requires r.passed
    ensures Planned(r) == [TestsPassed] + ([OfflineQaStarted] + ([OfflineQaPassed] +
                          ((if r.hasCommit then [CommitCreated] else []) + [TaskClosed])))
  {
  }

  lemma TodoOf(r: Request, h: seq<TaskEvent>)
    requires r.passed && TaskClosed !in h
    ensures Missing(Planned(r), ToSet(h)) == Evidence(r, h) + [TaskClosed]
  {
    hide Missing, Planned;
    PlannedParts(r);
    var known := ToSet(h);
    var a, b, c := [TestsPassed], [OfflineQaStarted], [OfflineQaPassed];
    var d := if r.hasCommit then [CommitCreated] else [];
    MissingAppend(a, b + (c + (d + [TaskClosed])), known);
    MissingAppend(b, c + (d + [TaskClosed]), known);
    MissingAppend(c, d + [TaskClosed], known);
    MissingAppend(d, [TaskClosed], known);
    MissingOne(TestsPassed, known);
    MissingOne(OfflineQaStarted, known);
    MissingOne(OfflineQaPassed, known);
    MissingOne(CommitCreated, known);
    MissingOne(TaskClosed, known);
    Regroup(Missing(a, known), Missing(b, known), Missing(c, known), Missing(d, known), [TaskClosed]);
  }

  lemma LinkedIffCloseable(h: seq<TaskEvent>, r: Request, evidence: seq<TaskEvent>)
    requires h != [] && TaskClosed !in h && GUARDS_PASSED in h && GOAL_ACHIEVED in h
    requires evidence == Evidence(r, h)
    ensures Linked(h[|h| - 1], evidence + [TaskClosed]) <==> Closeable(h, r.hasCommit)
  {
    hide MayFollow;
    MayFollowFacts();
    var last, todo := h[|h| - 1], evidence + [TaskClosed];
    assert last in h;
    if Linked(last, todo) {
      assert MayFollow(Before(last, todo, |evidence|), TaskClosed);
      assert |todo| > 1 ==> MayFollow(Before(last, todo, 0), todo[0]) && MayFollow(Before(last, todo, 1), todo[1]);
    }
  }

  /** The table between the events that a closeout itself appends. */
  lemma MayFollowFacts()
    ensures forall p :: MayFollow(p, TestsPassed) <==>
      p in {OtherEvent("discovery_completed"), OtherEvent("lld_recorded"), GUARDS_PASSED, GOAL_ACHIEVED,
            OtherEvent("tests_failed"), OtherEvent("fix_completed")}
    ensures forall p :: MayFollow(p, OfflineQaStarted) <==>
      p in {TestsPassed, OtherEvent("fix_completed"), CommitCreated}
    ensures forall p :: MayFollow(p, OfflineQaPassed) <==> p == OfflineQaStarted
    ensures forall p :: MayFollow(p, TaskClosed) <==> MayPrecedeClose(p)
    ensures MayFollow(TestsPassed, CommitCreated) && MayFollow(OfflineQaPassed, CommitCreated)
  {
  }

  /** An undisturbed closeout of a started, open task goes through exactly if the ledger has no complaint already and
      the task is older than the rules or its history is closeable: the guards passed, the goal was achieved, the
      commit, if one is brought, is recorded already, and the missing evidence continues from the last event. */
  lemma ClosesIff(w: World, r: Request, governed: bool, sound: bool, budget: nat)
    requires r.passed && Listed(w.lines, r.task)
    requires STARTED in History(w, r) && TaskClosed !in History(w, r) && |Todo(r, w.ledger)| <= budget
    ensures Completes(w, r, Undisturbed(governed, sound, budget)) <==>
            sound && (governed ==> Closeable(History(w, r), r.hasCommit))
  {
    hide Takes, MayFollow, Listed, Progress, Missing, Planned, EventsFor, Linked;
    var h := History(w, r);
    var evidence := Evidence(r, h);
    TodoOf(r, h);
    ProgressIsTaking(governed, sound, r, w.ledger, Todo(r, w.ledger), budget);
    TakenIsLinked(governed, h, evidence);
    if GUARDS_PASSED in h && GOAL_ACHIEVED in h {
      LinkedIffCloseable(h, r, evidence);
    }
  }

  /** A task from T050 on that has everything its closing needs, and the phase that lists it. */
  const READY := [STARTED, OtherEvent("discovery_completed"), GUARDS_PASSED, GOAL_ACHIEVED]

  function ReadyWorld(feature: string, task: string): World {
    World(seq(|READY|, i requires 0 <= i < |READY| => Record(feature, task, READY[i])),
          [Heading("## Phase 1"), TaskLine("- ", ' ', " ", task, " work")])
  }

  /** An undisturbed closeout closes it without a commit, and cannot with one. */
  lemma CommitAloneDecides(feature: string, task: string, budget: nat)
    requires budget >= 5
    ensures Completes(ReadyWorld(feature, task), Request(feature, task, false, true), Undisturbed(true, true, budget))
    ensures !Completes(ReadyWorld(feature, task), Request(feature, task, true, true), Undisturbed(true, true, budget))
  {
    var w := ReadyWorld(feature, task);
    var without, with := Request(feature, task, false, true), Request(feature, task, true, true);
    ReadyHistory(without);
    ReadyHistory(with);
    ReadyIsListed(feature, task);
    ReadyCloseable();
    hide *;
    TodoLength(without, w);
    TodoLength(with, w);
    ClosesIff(w, without, true, true, budget);
    ClosesIff(w, with, true, true, budget);
  }

  lemma ReadyHistory(r: Request)
    ensures History(ReadyWorld(r.feature, r.task), r) == READY
    ensures STARTED in READY && TaskClosed !in READY
  {
    hide READY;
    EventsOfRecords(r, READY, r.feature, r.task);
    assert ReadyWorld(r.feature, r.task).ledger == Records(r, READY);
    ReadyMembers();
  }

  lemma ReadyMembers()
    ensures STARTED in READY && TaskClosed !in READY && |READY| == 4
  {
    assert READY[0] == STARTED;
  }

  lemma ReadyCloseable()
    ensures Closeable(READY, false) && !Closeable(READY, true)
  {
    assert READY[2] == GUARDS_PASSED && READY[3] == GOAL_ACHIEVED && |READY| == 4;
    MayFollowGoal();
  }

  lemma TodoLength(r: Request, w: World)
    requires r.passed && TaskClosed !in History(w, r)
    ensures |Todo(r, w.ledger)| <= 5
  {
    TodoOf(r, History(w, r));
    hide Missing, Planned;
  }

  lemma ReadyIsListed(feature: string, task: string)
    ensures Listed(ReadyWorld(feature, task).lines, task)
  {
    var lines := ReadyWorld(feature, task).lines;
    assert lines[1].TaskLine? && lines[1].task == task && lines[0].Heading?;
    assert FindTask(lines, task) == 1;
    assert lines[..1][0].Heading?;
  }

  lemma MayFollowGoal()
    ensures MayFollow(GOAL_ACHIEVED, TestsPassed)
  {
  }

  // ---------------------------------------------------------------- after a failed verdict

  /** From T050 on, the task ledger lets `offline_qa_passed` follow only the start of that check. */
  ghost predicate GovernsQa(accept: (seq<Record>, Record) -> bool) {
    forall ledger, record :: accept(ledger, record) && record.event == OfflineQaPassed ==>
      var h := EventsFor(ledger, record.feature, record.task);
      h != [] && h[|h| - 1] == OfflineQaStarted
  }

  lemma RulesGovern(sound: bool)
    ensures Governed(Rules(true, sound)) && GovernsQa(Rules(true, sound))
  {
    hide EventsFor;
  }

  /** The check was started once and has not passed, and something else came after its start. */
  predicate QaSpent(h: seq<TaskEvent>) {
    && OfflineQaStarted in h && OfflineQaPassed !in h && TaskClosed !in h
    && h[|h| - 1] != OfflineQaStarted
  }

  /** One closeout, of any task and with any verdict, or one event that somebody appends to the task ledger, such as
      the start and the completion of a fix. */
  datatype Step = Attempted(request: Request, attempt: Attempt) | Written(record: Record)

  function AfterStep(w: World, s: Step): World {
    match s
    case Attempted(r, a) => AfterAttempt(w, r, a)
    case Written(x) => w.(ledger := w.ledger + [x])
  }

  function AfterSteps(w: World, steps: seq<Step>): World {
    if steps == [] then w
    else
      var n := |steps| - 1;
      AfterStep(AfterSteps(w, steps[..n]), steps[n])
  }

  /** The ledger keeps its rule, and nobody starts or passes the task's check, or closes the task, by hand. */
  ghost predicate ByCloseout(s: Step, feature: string, task: string) {
    match s
    case Attempted(r, a) => GovernsQa(a.accept)
    case Written(x) =>
      x.feature == feature && x.task == task ==> x.event !in {OfflineQaStarted, OfflineQaPassed, TaskClosed}
  }

  ghost predicate NeverCompletes(w: World, steps: seq<Step>, feature: string, task: string) {
    forall i :: 0 <= i < |steps| && steps[i].Attempted? && steps[i].request.feature == feature &&
                steps[i].request.task == task ==>
      !Completes(AfterSteps(w, steps[..i]), steps[i].request, steps[i].attempt)
  }

  /** A closeout that meets a spent check can at most record that the tests passed, or a failed verdict. */
  lemma SpentStaysSpent(w: World, r: Request, a: Attempt)
    requires QaSpent(History(w, r)) && GovernsQa(a.accept)
    ensures QaSpent(History(AfterAttempt(w, r, a), r)) && !Completes(w, r, a)
  {
    var h, todo := History(w, r), Todo(r, w.ledger);
    hide EventsFor, Progress, Listed, AfterAttempt, Missing, GovernsQa, Planned;
    var k := AttemptHistory(w, r, a);
    assert forall i :: 0 <= i < k ==> todo[..k][i] == todo[i];
    if r.passed {
      var first := Lacking(h, TestsPassed);
      TodoOf(r, h);
      assert |first| < |todo| && todo[|first|] == OfflineQaPassed && todo[..|first|] == first;
      PassIsRefused(w, r, a, first);
      assert k <= |first|;
      assert todo[..k] == first[..k];
    } else {
      FailingTodo(r, w.ledger);
    }
  }

  lemma FailingTodo(r: Request, ledger: seq<Record>)
    requires !r.passed
    ensures var h := EventsFor(ledger, r.feature, r.task);
      Todo(r, ledger) == Lacking(h, OfflineQaStarted) + Lacking(h, OfflineQaFailed)
  {
    var known := ToSet(EventsFor(ledger, r.feature, r.task));
    hide EventsFor, Missing;
    assert Planned(r) == [OfflineQaStarted] + [OfflineQaFailed];
    MissingAppend([OfflineQaStarted], [OfflineQaFailed], known);
    MissingOne(OfflineQaStarted, known);
    MissingOne(OfflineQaFailed, known);
  }

  lemma PassIsRefused(w: World, r: Request, a: Attempt, first: seq<TaskEvent>)
    requires QaSpent(History(w, r)) && GovernsQa(a.accept)
    requires var todo := Todo(r, w.ledger);
      first == Lacking(History(w, r), TestsPassed) && |first| < |todo| && todo[..|first|] == first &&
      todo[|first|] == OfflineQaPassed
    ensures Progress(r, w.ledger, Todo(r, w.ledger), a.appends, a.accept) <= |first|
  {
    hide Progress, Todo, EventsFor, GovernsQa, Records;
    var todo := Todo(r, w.ledger);
    var ledger := w.ledger + Records(r, first);
    EventsAppend(w.ledger, Records(r, first), r.feature, r.task);
    EventsOfRecords(r, first, r.feature, r.task);
    if |first| < Progress(r, w.ledger, todo, a.appends, a.accept) {
      ProgressNeedsAcceptance(r, w.ledger, todo, a.appends, a.accept, |first|);
      PassNeedsStart(a.accept, ledger, r);
      assert false;
    }
  }

  lemma PassNeedsStart(accept: (seq<Record>, Record) -> bool, ledger: seq<Record>, r: Request)
    requires GovernsQa(accept) && accept(ledger, Record(r.feature, r.task, OfflineQaPassed))
    ensures var h := EventsFor(ledger, r.feature, r.task); h != [] && h[|h| - 1] == OfflineQaStarted
  {
    hide EventsFor;
  }

  lemma StepKeepsSpent(w: World, s: Step, feature: string, task: string)
    requires QaSpent(EventsFor(w.ledger, feature, task)) && ByCloseout(s, feature, task)
    ensures QaSpent(EventsFor(AfterStep(w, s).ledger, feature, task))
    ensures s.Attempted? && s.request.feature == feature && s.request.task == task ==>
      !Completes(w, s.request, s.attempt)
  {
    hide Completes, AfterAttempt, GovernsQa;
    match s
    case Attempted(r, a) =>
      if r.feature == feature && r.task == task {
        SpentStaysSpent(w, r, a);
      } else {
        var _ := AttemptHistory(w, r, a);
      }
    case Written(x) =>
      assert (w.ledger + [x])[..|w.ledger|] == w.ledger;
  }

  /** From then on no run of passing and failing closeouts, of this task and others, closes the task, whatever fixes
      are recorded in between. */
  lemma {:induction false} SpentOverSteps(w: World, steps: seq<Step>, feature: string, task: string)
    requires QaSpent(EventsFor(w.ledger, feature, task))
    requires forall i :: 0 <= i < |steps| ==> ByCloseout(steps[i], feature, task)
    ensures QaSpent(EventsFor(AfterSteps(w, steps).ledger, feature, task))
    ensures NeverCompletes(w, steps, feature, task)
    decreases |steps|
  {
    hide Completes, AfterStep, ByCloseout, QaSpent, EventsFor;
    if steps != [] {
      var n := |steps| - 1;
      SpentOverSteps(w, steps[..n], feature, task);
      StepKeepsSpent(AfterSteps(w, steps[..n]), steps[n], feature, task);
      forall i | 0 <= i < |steps| && steps[i].Attempted? && steps[i].request.feature == feature &&
                 steps[i].request.task == task
        ensures !Completes(AfterSteps(w, steps[..i]), steps[i].request, steps[i].attempt)
      {
        if i < n {
          assert steps[..n][..i] == steps[..i] && steps[..n][i] == steps[i];
        }
      }
    }
  }

  /** A failed verdict that a closeout has just recorded, for a check that never passed, spends that check. */
  lemma FailedVerdictSpends(w: World, r: Request, a: Attempt)
    requires !r.passed && OfflineQaFailed !in History(w, r)
    requires OfflineQaPassed !in History(w, r) && TaskClosed !in History(w, r)
    requires OfflineQaFailed in History(AfterAttempt(w, r, a), r)
    ensures QaSpent(History(AfterAttempt(w, r, a), r))
  {
    hide EventsFor, AfterAttempt, Todo;
    var h, todo := History(w, r), Todo(r, w.ledger);
    var k := AttemptHistory(w, r, a);
    FailingTodo(r, w.ledger);
    assert OfflineQaFailed in todo[..k];
    assert todo[..k] == todo && todo[|todo| - 1] == OfflineQaFailed;
    assert OfflineQaStarted in h + todo;
  }

  /** An undisturbed failing closeout where the check may start does record the verdict. */
  lemma FailedVerdictIsRecorded(w: World, r: Request, budget: nat)
    requires !r.passed && Listed(w.lines, r.task) && budget >= 2
    requires STARTED in History(w, r) && TaskClosed !in History(w, r)
    requires OfflineQaStarted !in History(w, r) && OfflineQaFailed !in History(w, r)
    requires var h := History(w, r); h[|h| - 1] in {TestsPassed, OtherEvent("fix_completed"), CommitCreated}
    ensures History(AfterAttempt(w, r, Undisturbed(true, true, budget)), r) ==
            History(w, r) + [OfflineQaStarted, OfflineQaFailed]
  {
    hide EventsFor, AfterAttempt, Todo, Progress, Listed;
    var h, todo := History(w, r), [OfflineQaStarted, OfflineQaFailed];
    var k := AttemptHistory(w, r, Undisturbed(true, true, budget));
    FailingTodo(r, w.ledger);
    assert Todo(r, w.ledger) == todo;
    assert todo[1..] == [OfflineQaFailed] && todo[1..][1..] == [];
    assert Takes(true, h, OfflineQaStarted) && Takes(true, h + [OfflineQaStarted], OfflineQaFailed);
    assert TakenAll(true, h + [OfflineQaStarted], todo[1..]);
    ProgressIsTaking(true, true, r, w.ledger, todo, budget);
    assert todo[..k] == todo;
  }

  /** So such a verdict is final: the start before it is never appended again, the pass may follow only that start,
      and no closeouts after it close the task, whatever fixes are recorded in between. */
  lemma FailedVerdictIsFinal(w: World, r: Request, a: Attempt, after: World, steps: seq<Step>)
    requires !r.passed && OfflineQaFailed !in History(w, r)
    requires OfflineQaPassed !in History(w, r) && TaskClosed !in History(w, r)
    requires after == AfterAttempt(w, r, a) && OfflineQaFailed in History(after, r)
    requires forall i :: 0 <= i < |steps| ==> ByCloseout(steps[i], r.feature, r.task)
    ensures TaskClosed !in History(AfterSteps(after, steps), r)
    ensures NeverCompletes(after, steps, r.feature, r.task)
  {
    hide EventsFor, AfterAttempt, ByCloseout, NeverCompletes, AfterSteps;
    FailedVerdictSpends(w, r, a);
    SpentOverSteps(after, steps, r.feature, r.task);
  }
}
