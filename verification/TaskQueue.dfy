/** Which task an actor may work on next. The task ledger's state of one feature, the gate that guards starting a
    task, and the scan of tasks.md that resumes the actor's own open task or starts the first task the gate lets
    through. */
module TaskQueue {
  datatype TaskState = TaskState(registered: bool, started: bool, closed: bool, owner: string)

  /** `active` holds the task each actor has open. */
  datatype FeatureState = FeatureState(tasks: map<string, TaskState>, active: map<string, string>)

  datatype Definition = Definition(task: string, parallel: bool)

  datatype Choice =
    | Resume(task: string)
    | Start(task: string)
    | OwnedByOther(owner: string)
    | NothingOpen

  predicate Running(s: FeatureState, task: string) {
    task in s.tasks && s.tasks[task].started && !s.tasks[task].closed
  }

  predicate IsClosed(s: FeatureState, task: string) {
    task in s.tasks && s.tasks[task].closed
  }

  function Position(defs: seq<Definition>, task: string): (i: nat)
    ensures i <= |defs|
    ensures i < |defs| ==> defs[i].task == task
    ensures forall j :: 0 <= j < i ==> defs[j].task != task
  {
    if defs == [] || defs[0].task == task then 0 else 1 + Position(defs[1..], task)
  }

  predicate Listed(defs: seq<Definition>, task: string) {
    Position(defs, task) < |defs|
  }

  /** The start gate: the actor has no other open task, the task is neither open nor closed, every earlier task it
      waits for is closed, and a task that is not parallel starts only while nothing else is open. */
  predicate CanStart(s: FeatureState, defs: seq<Definition>, task: string, actor: string) {
    var i := Position(defs, task);
    && i < |defs|
    && (actor in s.active ==> s.active[actor] == task)
    && !IsClosed(s, task) && !Running(s, task)
    && (forall j :: 0 <= j < i ==> (defs[i].parallel && defs[j].parallel) || IsClosed(s, defs[j].task))
    && (defs[i].parallel || forall t :: t in s.tasks && t != task ==> !Running(s, t))
  }

  function Started(s: FeatureState, task: string, actor: string): FeatureState
    requires task in s.tasks
  {
    FeatureState(s.tasks[task := s.tasks[task].(started := true, owner := actor)], s.active[actor := task])
  }

  function Closed(s: FeatureState, task: string, actor: string): FeatureState
    requires task in s.tasks
  {
    var owner := s.tasks[task].owner;
    FeatureState(
      s.tasks[task := s.tasks[task].(closed := true)],
      if owner in s.active && s.active[owner] == task then s.active - {owner}
      else if actor in s.active && s.active[actor] == task then s.active - {actor}
      else s.active)
  }

  /** One line of the scan: does it settle the choice, note an owner, or neither? */
  function Look(s: FeatureState, defs: seq<Definition>, actor: string, i: nat): Choice
    requires i < |defs|
  {
    var task := defs[i].task;
    if task !in s.tasks || !s.tasks[task].registered || s.tasks[task].closed then NothingOpen
    else if s.tasks[task].started then
      if s.tasks[task].owner == actor then Resume(task) else OwnedByOther(s.tasks[task].owner)
    else if CanStart(s, defs, task, actor) then Start(task)
    else NothingOpen
  }

  predicate Settles(c: Choice) {
    c.Resume? || c.Start?
  }

  /** The choice is made by the first line that settles it; failing that, the first owner met is reported. */
  ghost predicate IsChoice(s: FeatureState, defs: seq<Definition>, actor: string, c: Choice) {
    if Settles(c) then
      exists i :: 0 <= i < |defs| && Look(s, defs, actor, i) == c &&
        forall j :: 0 <= j < i ==> !Settles(Look(s, defs, actor, j))
    else
      && (forall j :: 0 <= j < |defs| ==> !Settles(Look(s, defs, actor, j)))
      && (c.NothingOpen? ==> forall j :: 0 <= j < |defs| ==> Look(s, defs, actor, j).NothingOpen?)
      && (c.OwnedByOther? ==>
        exists i :: 0 <= i < |defs| && Look(s, defs, actor, i) == c &&
          forall j :: 0 <= j < i ==> Look(s, defs, actor, j).NothingOpen?)
  }

  function ChoiceFrom(s: FeatureState, defs: seq<Definition>, actor: string, i: nat, blocked: Choice): Choice
    requires i <= |defs|
    decreases |defs| - i
  {
    if i == |defs| then blocked
    else
      var c := Look(s, defs, actor, i);
      if Settles(c) then c
      else ChoiceFrom(s, defs, actor, i + 1, if blocked.NothingOpen? then c else blocked)
  }

  function Choose(s: FeatureState, defs: seq<Definition>, actor: string): Choice {
    ChoiceFrom(s, defs, actor, 0, NothingOpen)
  }

  method SelectNext(s: FeatureState, defs: seq<Definition>, actor: string) returns (c: Choice)
    ensures c == Choose(s, defs, actor)
    ensures IsChoice(s, defs, actor, c)
  {
    hide CanStart, Position, Listed;
    var blockedOwner := NothingOpen;
    var i := 0;
    while i < |defs|
      invariant 0 <= i <= |defs|
      invariant Choose(s, defs, actor) == ChoiceFrom(s, defs, actor, i, blockedOwner)
      invariant forall j :: 0 <= j < i ==> !Settles(Look(s, defs, actor, j))
      invariant blockedOwner.NothingOpen? || blockedOwner.OwnedByOther?
      invariant blockedOwner.NothingOpen? ==> forall j :: 0 <= j < i ==> Look(s, defs, actor, j).NothingOpen?
      invariant blockedOwner.OwnedByOther? ==>
        exists k :: 0 <= k < i && Look(s, defs, actor, k) == blockedOwner &&
          forall j :: 0 <= j < k ==> Look(s, defs, actor, j).NothingOpen?
    {
      var task := defs[i].task;
      ghost var look := Look(s, defs, actor, i);
      if task in s.tasks && s.tasks[task].registered && !s.tasks[task].closed {
        if s.tasks[task].started {
          if s.tasks[task].owner == actor {
            return Resume(task);
          }
          if blockedOwner.NothingOpen? {
            blockedOwner := OwnedByOther(s.tasks[task].owner);
          }
        } else if CanStart(s, defs, task, actor) {
          return Start(task);
        }
      }
      i := i + 1;
    }
    return blockedOwner;
  }

  lemma ChooseIsChoice(s: FeatureState, defs: seq<Definition>, actor: string)
    ensures IsChoice(s, defs, actor, Choose(s, defs, actor))
  {
    hide Look, CanStart, Position;
    ChoiceFromIs(s, defs, actor, 0, NothingOpen);
  }

  lemma {:induction false} ChoiceFromIs(
    s: FeatureState, defs: seq<Definition>, actor: string, i: nat, blocked: Choice)
    requires i <= |defs| && !Settles(blocked)
    requires forall j :: 0 <= j < i ==> !Settles(Look(s, defs, actor, j))
    requires blocked.NothingOpen? ==> forall j :: 0 <= j < i ==> Look(s, defs, actor, j).NothingOpen?
    requires blocked.OwnedByOther? ==>
      exists k :: 0 <= k < i && Look(s, defs, actor, k) == blocked &&
        forall j :: 0 <= j < k ==> Look(s, defs, actor, j).NothingOpen?
    ensures IsChoice(s, defs, actor, ChoiceFrom(s, defs, actor, i, blocked))
    decreases |defs| - i
  {
    hide Look, CanStart, Position;
    if i < |defs| {
      var c := Look(s, defs, actor, i);
      if !Settles(c) {
        ChoiceFromIs(s, defs, actor, i + 1, if blocked.NothingOpen? then c else blocked);
      }
    }
  }

  // ---------------------------------------------------------------- what starts and closings keep

  /** Starting through the gate, appending a start to the ledger directly, and closing. */
  datatype Op =
    | StartTask(actor: string, task: string)
    | AppendStart(actor: string, task: string)
    | CloseTask(actor: string, task: string)

  /** What the ledger itself asks of a start that is appended directly: no other open task of the actor, and a task
      that is neither open nor closed. It knows neither the list nor the order of tasks. */
  predicate LedgerTakesStart(s: FeatureState, task: string, actor: string) {
    (actor in s.active ==> s.active[actor] == task) && !IsClosed(s, task) && !Running(s, task)
  }

  /** A start or a closing takes effect only where the rules that guard it allow it. */
  function Apply(s: FeatureState, defs: seq<Definition>, op: Op): FeatureState {
    match op
    case StartTask(actor, task) =>
      if task in s.tasks && s.tasks[task].registered && CanStart(s, defs, task, actor) then Started(s, task, actor)
      else s
    case AppendStart(actor, task) =>
      if LedgerTakesStart(s, task, actor) then Started(Entered(s, task), task, actor) else s
    case CloseTask(actor, task) =>
      if Running(s, task) then Closed(s, task, actor) else s
  }

  /** The state with an entry for the task; a start of a task that was never registered makes one. */
  function Entered(s: FeatureState, task: string): (r: FeatureState)
    ensures task in r.tasks
  {
    if task in s.tasks then s else s.(tasks := s.tasks[task := TaskState(false, false, false, "")])
  }

  function ApplyAll(s: FeatureState, defs: seq<Definition>, ops: seq<Op>): FeatureState
    decreases |ops|
  {
    if ops == [] then s
    else Apply(ApplyAll(s, defs, ops[..|ops| - 1]), defs, ops[|ops| - 1])
  }

  /** An actor is active on exactly the task it has open. */
  ghost predicate OneOpenEach(s: FeatureState) {
    && (forall a :: a in s.active ==> Running(s, s.active[a]) && s.tasks[s.active[a]].owner == a)
    && (forall t :: t in s.tasks && Running(s, t) ==>
          s.tasks[t].owner in s.active && s.active[s.tasks[t].owner] == t)
  }

  predicate Distinct(defs: seq<Definition>) {
    forall i, j :: 0 <= i < j < |defs| ==> defs[i].task != defs[j].task
  }

  /** While a task that is not parallel is open, everything listed before it is closed and nothing else is open. */
  ghost predicate Orderly(s: FeatureState, defs: seq<Definition>) {
    forall i :: 0 <= i < |defs| && !defs[i].parallel && Running(s, defs[i].task) ==>
      && (forall j :: 0 <= j < i ==> IsClosed(s, defs[j].task))
      && (forall t :: t in s.tasks && t != defs[i].task ==> !Running(s, t))
  }

  lemma StartKeepsOneOpen(s: FeatureState, task: string, actor: string)
    requires OneOpenEach(s) && LedgerTakesStart(s, task, actor)
    ensures OneOpenEach(Started(Entered(s, task), task, actor))
  {
    var s' := StartedState(s, task, actor);
    StartFindsNothingOpen(s, task, actor);
    assert forall t :: t in s.tasks && t != task ==> s'.tasks[t] == s.tasks[t];
    hide Running, IsClosed, LedgerTakesStart;
  }

  lemma ClosingKeepsOneOpen(s: FeatureState, task: string, actor: string)
    requires OneOpenEach(s) && Running(s, task)
    ensures OneOpenEach(Closed(s, task, actor))
  {
    var s' := Closed(s, task, actor);
    forall t | t != task ensures Running(s', t) == Running(s, t) {}
  }

  lemma OneOpenKept(s: FeatureState, defs: seq<Definition>, op: Op)
    requires OneOpenEach(s)
    ensures OneOpenEach(Apply(s, defs, op))
  {
    hide CanStart, Started, Closed, OneOpenEach, LedgerTakesStart;
    match op
    case StartTask(actor, task) =>
      if task in s.tasks && CanStart(s, defs, task, actor) {
        GateIsStricter(s, defs, task, actor);
        StartKeepsOneOpen(s, task, actor);
      }
    case AppendStart(actor, task) =>
      if LedgerTakesStart(s, task, actor) {
        StartKeepsOneOpen(s, task, actor);
      }
    case CloseTask(actor, task) =>
      if Running(s, task) {
        ClosingKeepsOneOpen(s, task, actor);
      }
  }

  lemma GateIsStricter(s: FeatureState, defs: seq<Definition>, task: string, actor: string)
    requires CanStart(s, defs, task, actor)
    ensures LedgerTakesStart(s, task, actor)
  {
    hide Position;
  }

  lemma StartFindsNothingOpen(s: FeatureState, task: string, actor: string)
    requires OneOpenEach(s) && LedgerTakesStart(s, task, actor)
    ensures actor !in s.active && !Running(s, task) && !IsClosed(s, task)
  {
  }

  /** A start that keeps the order: no listed task that needs to be alone is open, and a task that needs to be alone
      finds nothing else open and everything before it closed. */
  predicate KeepsOrder(s: FeatureState, defs: seq<Definition>, task: string) {
    var p := Position(defs, task);
    && (forall i :: 0 <= i < |defs| && !defs[i].parallel ==> !Running(s, defs[i].task))
    && (p < |defs| && !defs[p].parallel ==>
          && (forall j :: 0 <= j < p ==> IsClosed(s, defs[j].task))
          && (forall t :: t in s.tasks && t != task ==> !Running(s, t)))
  }

  /** Whether the step is an appended start that the ledger takes. */
  predicate TakenStart(s: FeatureState, op: Op) {
    op.AppendStart? && LedgerTakesStart(s, op.task, op.actor)
  }

  lemma GateKeepsOrder(s: FeatureState, defs: seq<Definition>, task: string, actor: string)
    requires Distinct(defs) && Orderly(s, defs) && CanStart(s, defs, task, actor)
    ensures KeepsOrder(s, defs, task)
  {
    hide Position;
    var p := Position(defs, task);
    forall i | 0 <= i < |defs| && !defs[i].parallel ensures !Running(s, defs[i].task) {
      assert i < p ==> IsClosed(s, defs[i].task);
    }
  }

  lemma StartedState(s: FeatureState, task: string, actor: string) returns (s': FeatureState)
    requires LedgerTakesStart(s, task, actor)
    ensures s' == Started(Entered(s, task), task, actor)
    ensures Running(s', task) && task in s'.tasks && !IsClosed(s', task)
    ensures forall t :: t != task ==>
      (t in s'.tasks <==> t in s.tasks) && Running(s', t) == Running(s, t) && IsClosed(s', t) == IsClosed(s, t)
  {
    s' := Started(Entered(s, task), task, actor);
  }

  lemma StartKeepsOrderIff(s: FeatureState, defs: seq<Definition>, task: string, actor: string)
    requires Distinct(defs) && Orderly(s, defs) && LedgerTakesStart(s, task, actor)
    ensures Orderly(Started(Entered(s, task), task, actor), defs) <==> KeepsOrder(s, defs, task)
  {
    var s' := StartedState(s, task, actor);
    hide Position, Started, Entered, LedgerTakesStart, Running, IsClosed;
    var p := Position(defs, task);
    assert !Running(s, task) && !IsClosed(s, task) by { TakenIsIdle(s, task, actor); }
    if Orderly(s', defs) {
      forall i | 0 <= i < |defs| && !defs[i].parallel ensures !Running(s, defs[i].task) {
        assert defs[i].task == task || !Running(s', defs[i].task);
      }
      if p < |defs| && !defs[p].parallel {
        assert Running(s', defs[p].task);
        forall j | 0 <= j < p ensures IsClosed(s, defs[j].task) {
          assert IsClosed(s', defs[j].task);
        }
      }
    }
    if KeepsOrder(s, defs, task) {
      forall i | 0 <= i < |defs| && !defs[i].parallel && Running(s', defs[i].task) ensures i == p {
        assert defs[i].task == task;
      }
    }
  }

  lemma TakenIsIdle(s: FeatureState, task: string, actor: string)
    requires LedgerTakesStart(s, task, actor)
    ensures !Running(s, task) && !IsClosed(s, task)
  {
  }

  lemma ClosingKeepsOrder(s: FeatureState, defs: seq<Definition>, task: string, actor: string)
    requires Orderly(s, defs) && Running(s, task)
    ensures Orderly(Closed(s, task, actor), defs)
  {
    var s' := Closed(s, task, actor);
    forall t ensures (Running(s', t) ==> Running(s, t)) && (IsClosed(s, t) ==> IsClosed(s', t)) {
    }
  }

  /** One step keeps the order exactly if it is not an appended start that breaks it. */
  lemma StepKeepsOrderIff(s: FeatureState, defs: seq<Definition>, op: Op)
    requires Distinct(defs) && Orderly(s, defs)
    ensures Orderly(Apply(s, defs, op), defs) <==> (TakenStart(s, op) ==> KeepsOrder(s, defs, op.task))
  {
    hide Position, CanStart, Started, Closed, Orderly, KeepsOrder, LedgerTakesStart, Distinct, Running;
    match op
    case StartTask(actor, task) =>
      if task in s.tasks && s.tasks[task].registered && CanStart(s, defs, task, actor) {
        GateIsStricter(s, defs, task, actor);
        GateKeepsOrder(s, defs, task, actor);
        StartKeepsOrderIff(s, defs, task, actor);
      }
    case AppendStart(actor, task) =>
      if LedgerTakesStart(s, task, actor) {
        StartKeepsOrderIff(s, defs, task, actor);
      }
    case CloseTask(actor, task) =>
      if Running(s, task) {
        ClosingKeepsOrder(s, defs, task, actor);
      }
  }

  /** Over any starts, through the gate or appended directly, and any closings, each actor has at most one open
      task. */
  lemma {:induction false} OneOpenOverRuns(s: FeatureState, defs: seq<Definition>, ops: seq<Op>)
    requires OneOpenEach(s)
    ensures OneOpenEach(ApplyAll(s, defs, ops))
    decreases |ops|
  {
    hide Apply, OneOpenEach;
    if ops != [] {
      var n := |ops| - 1;
      OneOpenOverRuns(s, defs, ops[..n]);
      OneOpenKept(ApplyAll(s, defs, ops[..n]), defs, ops[n]);
    }
  }

  /** The run is in order after each of its first n steps, the start included. */
  ghost predicate OrderlyThroughout(s: FeatureState, defs: seq<Definition>, ops: seq<Op>) {
    forall k :: 0 <= k <= |ops| ==> Orderly(ApplyAll(s, defs, ops[..k]), defs)
  }

  /** Every appended start that the ledger takes keeps the order at its time. */
  ghost predicate StartsKeepOrder(s: FeatureState, defs: seq<Definition>, ops: seq<Op>) {
    forall k :: 0 <= k < |ops| && TakenStart(ApplyAll(s, defs, ops[..k]), ops[k]) ==>
      KeepsOrder(ApplyAll(s, defs, ops[..k]), defs, ops[k].task)
  }

  lemma ApplyOneMore(s: FeatureState, defs: seq<Definition>, ops: seq<Op>, k: nat)
    requires k < |ops|
    ensures ApplyAll(s, defs, ops[..k + 1]) == Apply(ApplyAll(s, defs, ops[..k]), defs, ops[k])
  {
    hide Apply;
    assert ops[..k + 1][..k] == ops[..k];
  }

  /** While a task that is not parallel is open, everything listed before it is closed and nothing else is open:
      throughout a run of starts and closings by any actors this holds if and only if every start that is appended
      directly, past the gate, keeps the order at its time. Starts through the gate and closings always do. */
  lemma RunKeepsOrderIff(s: FeatureState, defs: seq<Definition>, ops: seq<Op>)
    requires Distinct(defs) && Orderly(s, defs)
    ensures OrderlyThroughout(s, defs, ops) <==> StartsKeepOrder(s, defs, ops)
  {
    hide Apply, Orderly, Distinct, ApplyAll, TakenStart, KeepsOrder;
    assert ApplyAll(s, defs, ops[..0]) == s by { ApplyNothing(s, defs, ops); }
    if OrderlyThroughout(s, defs, ops) {
      forall k | 0 <= k < |ops| && TakenStart(ApplyAll(s, defs, ops[..k]), ops[k])
        ensures KeepsOrder(ApplyAll(s, defs, ops[..k]), defs, ops[k].task)
      {
        assert Orderly(ApplyAll(s, defs, ops[..k + 1]), defs);
        ApplyOneMore(s, defs, ops, k);
        StepKeepsOrderIff(ApplyAll(s, defs, ops[..k]), defs, ops[k]);
      }
    }
    if StartsKeepOrder(s, defs, ops) {
      var k := 0;
      while k < |ops|
        invariant 0 <= k <= |ops|
        invariant forall j :: 0 <= j <= k ==> Orderly(ApplyAll(s, defs, ops[..j]), defs)
      {
        StepKeepsOrderIff(ApplyAll(s, defs, ops[..k]), defs, ops[k]);
        ApplyOneMore(s, defs, ops, k);
        k := k + 1;
      }
    }
  }

  lemma ApplyNothing(s: FeatureState, defs: seq<Definition>, ops: seq<Op>)
    ensures ApplyAll(s, defs, ops[..0]) == s
  {
  }

  /** Where all starts go through the gate, the order therefore holds throughout. */
  lemma GatedRunsKeepOrder(s: FeatureState, defs: seq<Definition>, ops: seq<Op>)
    requires Distinct(defs) && Orderly(s, defs) && forall k :: 0 <= k < |ops| ==> !ops[k].AppendStart?
    ensures OrderlyThroughout(s, defs, ops)
  {
    hide Orderly, Distinct, ApplyAll, KeepsOrder, OrderlyThroughout;
    RunKeepsOrderIff(s, defs, ops);
  }

  /** Two tasks that are not parallel, the first one open: the second can be appended as started by another actor,
      and two tasks that need to be alone are open at once. */
  lemma AppendedStartBreaksOrder()
    ensures var defs := [Definition("T050", false), Definition("T051", false)];
      var s := FeatureState(
        map["T050" := TaskState(true, true, false, "ann"), "T051" := TaskState(true, false, false, "")],
        map["ann" := "T050"]);
      var after := ApplyAll(s, defs, [AppendStart("bob", "T051")]);
      && Distinct(defs) && OneOpenEach(s) && Orderly(s, defs)
      && Running(after, "T050") && Running(after, "T051") && !Orderly(after, defs)
  {
    var defs := [Definition("T050", false), Definition("T051", false)];
    assert "T050"[3] != "T051"[3] && |"ann"| == 3 && "ann"[0] != "bob"[0];
    var s := FeatureState(
      map["T050" := TaskState(true, true, false, "ann"), "T051" := TaskState(true, false, false, "")],
      map["ann" := "T050"]);
    var op := AppendStart("bob", "T051");
    assert [op][..0] == [];
    assert ApplyAll(s, defs, [op]) == Apply(s, defs, op);
    assert LedgerTakesStart(s, "T051", "bob");
    var after := Apply(s, defs, op);
    assert Running(after, defs[0].task) && "T051" in after.tasks;
  }

  /** An actor with an open registered task that tasks.md still lists is always handed that task back: the gate
      lets it start nothing else, wherever in the list the scan begins. */
  lemma OwnTaskIsResumed(s: FeatureState, defs: seq<Definition>, actor: string, task: string)
    requires OneOpenEach(s)
    requires Listed(defs, task) && Running(s, task) && s.tasks[task].registered && s.tasks[task].owner == actor
    ensures Choose(s, defs, actor) == Resume(task)
  {
    ChooseIsChoice(s, defs, actor);
    hide Position, Choose;
    var p := Position(defs, task);
    assert Look(s, defs, actor, p) == Resume(task);
    forall i | 0 <= i < |defs| && Settles(Look(s, defs, actor, i))
      ensures Look(s, defs, actor, i) == Resume(task)
    {
    }
    assert Settles(Look(s, defs, actor, p));
  }

  /** A task is started only by an actor with nothing open, and only when every earlier task that is not parallel
      is closed. */
  lemma StartedTaskWasFree(s: FeatureState, defs: seq<Definition>, actor: string)
    requires OneOpenEach(s) && Choose(s, defs, actor).Start?
    ensures var task := Choose(s, defs, actor).task;
      && Listed(defs, task) && task in s.tasks && s.tasks[task].registered
      && !Running(s, task) && !IsClosed(s, task) && actor !in s.active
      && (forall j :: 0 <= j < Position(defs, task) && !defs[j].parallel ==> IsClosed(s, defs[j].task))
  {
    ChooseIsChoice(s, defs, actor);
    hide Position, Choose;
  }

  ghost predicate AllClosed(s: FeatureState, defs: seq<Definition>) {
    forall i :: 0 <= i < |defs| ==> IsClosed(s, defs[i].task)
  }

  /** The queue does not get stuck: with every listed task registered and nobody working, it reports that nothing
      is left exactly when every listed task is closed, and otherwise starts the first that is not. */
  lemma NothingLeftIffAllClosed(s: FeatureState, defs: seq<Definition>, actor: string)
    requires Distinct(defs) && OneOpenEach(s)
    requires forall i :: 0 <= i < |defs| ==> defs[i].task in s.tasks && s.tasks[defs[i].task].registered
    requires forall t :: t in s.tasks ==> !Running(s, t)
    ensures Choose(s, defs, actor) == NothingOpen <==> AllClosed(s, defs)
    ensures Choose(s, defs, actor) != NothingOpen ==>
      Choose(s, defs, actor).Start? && forall j :: 0 <= j < Position(defs, Choose(s, defs, actor).task) ==>
        IsClosed(s, defs[j].task)
  {
    ChooseIsChoice(s, defs, actor);
    hide Position, Choose;
    forall i | 0 <= i < |defs|
      ensures Position(defs, defs[i].task) == i
      ensures IsClosed(s, defs[i].task) || Running(s, defs[i].task) || !s.tasks[defs[i].task].started
    {
    }
    forall i | 0 <= i < |defs| && forall j :: 0 <= j < i ==> IsClosed(s, defs[j].task)
      ensures IsClosed(s, defs[i].task) || Look(s, defs, actor, i) == Start(defs[i].task)
    {
    }
    if i :| 0 <= i < |defs| && !IsClosed(s, defs[i].task) {
      var k := FirstOpen(s, defs, i);
      assert Settles(Look(s, defs, actor, k));
    }
  }

  lemma {:induction false} FirstOpen(s: FeatureState, defs: seq<Definition>, i: nat) returns (k: nat)
    requires i < |defs| && !IsClosed(s, defs[i].task)
    ensures k <= i && !IsClosed(s, defs[k].task) && forall j :: 0 <= j < k ==> IsClosed(s, defs[j].task)
  {
    if j :| 0 <= j < i && !IsClosed(s, defs[j].task) {
      k := FirstOpen(s, defs, j);
    } else {
      k := i;
    }
  }

  /** Exactly when a start through the gate takes effect: the task is registered, neither open nor closed, the actor
      has nothing else open, and what the task waits for is closed. A parallel task waits for the earlier tasks that
      are not; any other waits for all earlier ones and for nothing else to be open. */
  lemma StartTakesEffectIff(s: FeatureState, defs: seq<Definition>, i: nat, actor: string)
    requires Distinct(defs) && i < |defs| && !Running(s, defs[i].task)
    ensures var task := defs[i].task;
      Running(Apply(s, defs, StartTask(actor, task)), task) <==>
        && task in s.tasks && s.tasks[task].registered && !s.tasks[task].closed
        && (actor in s.active ==> s.active[actor] == task)
        && (if defs[i].parallel then forall j :: 0 <= j < i && !defs[j].parallel ==> IsClosed(s, defs[j].task)
            else
              && (forall j :: 0 <= j < i ==> IsClosed(s, defs[j].task))
              && (forall t :: t in s.tasks && t != task ==> !Running(s, t)))
  {
    assert Position(defs, defs[i].task) == i;
    hide Position;
  }

  /** Three parallel tasks in a row, the first two open: the third can be started as well. */
  lemma ParallelTasksRunTogether(s: FeatureState, a: string, b: string, c: string, actor: string)
    requires a != b && b != c && a != c && actor !in s.active
    requires Running(s, a) && Running(s, b)
    requires c in s.tasks && s.tasks[c].registered && !s.tasks[c].started && !s.tasks[c].closed
    ensures var after :=
        Apply(s, [Definition(a, true), Definition(b, true), Definition(c, true)], StartTask(actor, c));
      Running(after, a) && Running(after, b) && Running(after, c) && after.tasks[c].owner == actor
  {
    var defs := [Definition(a, true), Definition(b, true), Definition(c, true)];
    assert defs[2].task == c;
    StartTakesEffectIff(s, defs, 2, actor);
  }

  /** Closing an open task leaves the other tasks as they are and frees its owner, or, where the task is not the one
      that its owner has open, the actor that closes it if it has it open. */
  lemma ClosingFrees(s: FeatureState, defs: seq<Definition>, actor: string, task: string)
    requires Running(s, task)
    ensures var after := Apply(s, defs, CloseTask(actor, task));
      var owner := s.tasks[task].owner;
      var freed := if owner in s.active && s.active[owner] == task then owner else actor;
      && IsClosed(after, task) && after.tasks.Keys == s.tasks.Keys
      && (forall t :: t in s.tasks && t != task ==> after.tasks[t] == s.tasks[t])
      && (freed in s.active && s.active[freed] == task ==> freed !in after.active)
      && (forall a :: a in s.active && s.active[a] != task ==> a in after.active && after.active[a] == s.active[a])
  {
  }
}
