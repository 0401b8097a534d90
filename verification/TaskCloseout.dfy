/** Closing one task: append the missing evidence to the task ledger in canonical order, validate the ledger,
    then mark the task's line in tasks.md. Any append may be refused, and the process may die between steps. */
module TaskCloseout {

  datatype TaskEvent =
    | TestsPassed | OfflineQaStarted | OfflineQaPassed | OfflineQaFailed | CommitCreated | TaskClosed
    | OtherEvent(text: string)

  datatype Record = Record(feature: string, task: string, event: TaskEvent)

  /** A line of tasks.md as the task pattern reads it. */
  datatype Line =
    | TaskLine(bullet: string, mark: char, gap: string, task: string, rest: string)
    | Heading(text: string)
    | OtherLine(text: string)

  datatype Request = Request(feature: string, task: string, hasCommit: bool, passed: bool)

  /** What the surroundings do to one attempt: how many appends it survives, which appends the ledger accepts,
      whether the final validation passes, and whether it lives to write tasks.md. */
  datatype Attempt = Attempt(
    appends: nat, accept: (seq<Record>, Record) -> bool, validates: bool, writes: bool)

  datatype World = World(ledger: seq<Record>, lines: seq<Line>)

  function EventsFor(ledger: seq<Record>, feature: string, task: string): seq<TaskEvent> {
    if ledger == [] then []
    else
      var n := |ledger| - 1;
      EventsFor(ledger[..n], feature, task) +
      (if ledger[n].feature == feature && ledger[n].task == task then [ledger[n].event] else [])
  }

  function Canonical(hasCommit: bool): seq<TaskEvent> {
    [TestsPassed, OfflineQaStarted, OfflineQaPassed] + (if hasCommit then [CommitCreated] else []) + [TaskClosed]
  }

  /** The events an attempt works through, for either verdict. */
  function Planned(r: Request): seq<TaskEvent> {
    if r.passed then Canonical(r.hasCommit) else [OfflineQaStarted, OfflineQaFailed]
  }

  function Missing(plan: seq<TaskEvent>, known: set<TaskEvent>): seq<TaskEvent> {
    if plan == [] then []
    else (if plan[0] in known then [] else [plan[0]]) + Missing(plan[1..], known)
  }

  function ToSet(events: seq<TaskEvent>): set<TaskEvent> {
    set e | e in events
  }

  function Todo(r: Request, ledger: seq<Record>): seq<TaskEvent> {
    Missing(Planned(r), ToSet(EventsFor(ledger, r.feature, r.task)))
  }

  function Records(r: Request, events: seq<TaskEvent>): seq<Record> {
    seq(|events|, i requires 0 <= i < |events| => Record(r.feature, r.task, events[i]))
  }

  /** How many of the planned appends happen before one is refused or the process dies. */
  function Progress(r: Request, ledger: seq<Record>, todo: seq<TaskEvent>, budget: nat,
                    accept: (seq<Record>, Record) -> bool): (k: nat)
    ensures k <= |todo|
    decreases |todo|
  {
    if todo == [] || budget == 0 then 0
    else
      var record := Record(r.feature, r.task, todo[0]);
      if !accept(ledger, record) then 0
      else 1 + Progress(r, ledger + [record], todo[1..], budget - 1, accept)
  }

  function FindTask(lines: seq<Line>, task: string): (i: nat)
    ensures i <= |lines|
    ensures i < |lines| ==> lines[i].TaskLine? && lines[i].task == task
    ensures forall j :: 0 <= j < i ==> !(lines[j].TaskLine? && lines[j].task == task)
  {
    if lines == [] then 0
    else if lines[0].TaskLine? && lines[0].task == task then 0
    else 1 + FindTask(lines[1..], task)
  }

  predicate HasHeading(lines: seq<Line>) {
    exists i :: 0 <= i < |lines| && lines[i].Heading?
  }

  /** The task is listed, under some phase heading. */
  predicate Listed(lines: seq<Line>, task: string) {
    var i := FindTask(lines, task);
    i < |lines| && HasHeading(lines[..i])
  }

  function Marked(line: Line): Line {
    if line.TaskLine? then line.(mark := 'X', gap := " ") else line
  }

  function MarkTask(lines: seq<Line>, task: string): seq<Line> {
    var i := FindTask(lines, task);
    if i < |lines| then lines[i := Marked(lines[i])] else lines
  }

  predicate Completes(w: World, r: Request, a: Attempt) {
    && Listed(w.lines, r.task)
    && Progress(r, w.ledger, Todo(r, w.ledger), a.appends, a.accept) == |Todo(r, w.ledger)|
    && a.validates && a.writes && r.passed
  }

  /** What one attempt leaves behind. */
  function AfterAttempt(w: World, r: Request, a: Attempt): World {
    if !Listed(w.lines, r.task) then w
    else
      var todo := Todo(r, w.ledger);
      var k := Progress(r, w.ledger, todo, a.appends, a.accept);
      World(w.ledger + Records(r, todo[..k]),
            if Completes(w, r, a) then MarkTask(w.lines, r.task) else w.lines)
  }

  method EventsForTask(ledger: seq<Record>, feature: string, task: string) returns (events: seq<TaskEvent>)
    ensures events == EventsFor(ledger, feature, task)
  {
    events := [];
    for i := 0 to |ledger|
      invariant events == EventsFor(ledger[..i], feature, task)
    {
      assert ledger[..i + 1][..i] == ledger[..i];
      if ledger[i].feature == feature && ledger[i].task == task {
        events := events + [ledger[i].event];
      }
    }
    assert ledger[..|ledger|] == ledger;
  }

  method FindTaskLine(lines: seq<Line>, task: string) returns (i: nat)
    ensures i == FindTask(lines, task)
  {
    i := 0;
    while i < |lines| && !(lines[i].TaskLine? && lines[i].task == task)
      invariant 0 <= i <= |lines|
      invariant forall j :: 0 <= j < i ==> !(lines[j].TaskLine? && lines[j].task == task)
    {
      i := i + 1;
    }
  }

  /** Looks for the phase heading backwards from the task. */
  method FindPhase(lines: seq<Line>) returns (found: bool)
    ensures found == HasHeading(lines)
  {
    var i := |lines|;
    while i > 0 && !lines[i - 1].Heading?
      invariant 0 <= i <= |lines|
      invariant forall j :: i <= j < |lines| ==> !lines[j].Heading?
    {
      i := i - 1;
    }
    found := i > 0;
  }

  class Workspace {
    var ledger: seq<Record>
    var lines: seq<Line>

    ghost function State(): World
      reads this
    {
      World(ledger, lines)
    }

    /** Appends the missing events one by one, until the plan is done, an append is refused or the process dies. */
    method AppendMissing(r: Request, a: Attempt) returns (all: bool)
      modifies this`ledger
      ensures var todo := Todo(r, old(ledger));
        var k := Progress(r, old(ledger), todo, a.appends, a.accept);
        ledger == old(ledger) + Records(r, todo[..k]) && all == (k == |todo|)
    {
      hide Missing, Planned, EventsFor, ToSet, Progress, Records;
      var existing := EventsForTask(ledger, r.feature, r.task);
      var known := ToSet(existing);
      var plan := Planned(r);
      var budget := a.appends;
      ghost var start := ledger;
      ghost var todo := Todo(r, ledger);
      ghost var k := Progress(r, ledger, todo, a.appends, a.accept);
      ghost var initial := known;
      ghost var done := 0;
      PlanHasNoRepeats(r);
      RecordsOfNone(r);
      var n := 0;
      assert plan[0..] == plan && todo[0..] == todo && todo[..0] == [];
      while n < |plan|
        invariant 0 <= n <= |plan| && done <= k <= |todo|
        invariant ledger == start + Records(r, todo[..done])
        invariant todo[done..] == Missing(plan[n..], initial)
        invariant forall j :: n <= j < |plan| ==> (plan[j] in known <==> plan[j] in initial)
        invariant k - done == Progress(r, ledger, todo[done..], budget, a.accept)
      {
        var event := plan[n];
        MissingStep(plan, n, initial);
        if event !in known {
          var record := Record(r.feature, r.task, event);
          ProgressStep(r, ledger, todo[done..], budget, a.accept);
          if budget == 0 || !a.accept(ledger, record) {
            return false;
          }
          RecordsGrow(r, todo, done);
          ledger := ledger + [record];
          budget := budget - 1;
          done := done + 1;
          known := known + {event};
        }
        n := n + 1;
      }
      NothingMissing(plan[n..], initial);
      assert done == |todo|;
      return true;
    }

    method Closeout(r: Request, a: Attempt) returns (ok: bool)
      modifies this
      ensures State() == AfterAttempt(old(State()), r, a)
      ensures ok == Completes(old(State()), r, a)
    {
      hide Todo, FindTask, HasHeading, Marked, Progress, Records;
      var i := FindTaskLine(lines, r.task);
      if i == |lines| {
        return false;
      }
      var underPhase := FindPhase(lines[..i]);
      if !underPhase {
        return false;
      }
      var all := AppendMissing(r, a);
      if !all || !a.validates || !r.passed || !a.writes {
        return false;
      }
      lines := lines[i := Marked(lines[i])];
      return true;
    }
  }

  lemma RecordsOfNone(r: Request)
    ensures Records(r, []) == []
  {
  }

  lemma ProgressStep(r: Request, ledger: seq<Record>, todo: seq<TaskEvent>, budget: nat,
                     accept: (seq<Record>, Record) -> bool)
    requires todo != []
    ensures var record := Record(r.feature, r.task, todo[0]);
      Progress(r, ledger, todo, budget, accept) ==
        if budget == 0 || !accept(ledger, record) then 0
        else 1 + Progress(r, ledger + [record], todo[1..], budget - 1, accept)
  {
  }

  lemma MissingStep(plan: seq<TaskEvent>, n: nat, known: set<TaskEvent>)
    requires n < |plan|
    ensures Missing(plan[n..], known) ==
            (if plan[n] in known then [] else [plan[n]]) + Missing(plan[n + 1..], known)
    ensures plan[n] !in known ==> Missing(plan[n..], known)[1..] == Missing(plan[n + 1..], known)
    ensures plan[n] in known ==> Missing(plan[n..], known) == Missing(plan[n + 1..], known)
  {
    assert plan[n..][1..] == plan[n + 1..];
  }

  lemma NothingMissing(plan: seq<TaskEvent>, known: set<TaskEvent>)
    requires plan == []
    ensures Missing(plan, known) == []
  {
  }

  lemma RecordsGrow(r: Request, events: seq<TaskEvent>, n: nat)
    requires n < |events|
    ensures Records(r, events[..n + 1]) == Records(r, events[..n]) + [Record(r.feature, r.task, events[n])]
    ensures events[n..][0] == events[n] && events[n..][1..] == events[n + 1..]
  {
  }

  lemma PlanHasNoRepeats(r: Request)
    ensures var p := Planned(r); forall i, j :: 0 <= i < j < |p| ==> p[i] != p[j]
  {
  }

  // ---------------------------------------------------------------- histories

  lemma {:induction false} EventsAppend(a: seq<Record>, b: seq<Record>, feature: string, task: string)
    ensures EventsFor(a + b, feature, task) == EventsFor(a, feature, task) + EventsFor(b, feature, task)
    decreases |b|
  {
    if b == [] {
      assert a + b == a;
    } else {
      var n := |b| - 1;
      assert (a + b)[..|a + b| - 1] == a + b[..n];
      EventsAppend(a, b[..n], feature, task);
    }
  }

  lemma {:induction false} EventsOfRecords(r: Request, events: seq<TaskEvent>, feature: string, task: string)
    ensures EventsFor(Records(r, events), feature, task) ==
            if feature == r.feature && task == r.task then events else []
    decreases |events|
  {
    if events != [] {
      var n := |events| - 1;
      assert Records(r, events)[..n] == Records(r, events[..n]);
      EventsOfRecords(r, events[..n], feature, task);
      assert events == events[..n] + [events[n]];
    }
  }

  ghost predicate Distinct(events: seq<TaskEvent>) {
    forall i, j :: 0 <= i < j < |events| ==> events[i] != events[j]
  }

  lemma {:induction false} MissingMembers(plan: seq<TaskEvent>, known: set<TaskEvent>)
    ensures forall e :: e in Missing(plan, known) <==> e in plan && e !in known
    ensures Distinct(plan) ==> Distinct(Missing(plan, known))
    decreases |plan|
  {
    if plan != [] {
      MissingMembers(plan[1..], known);
      assert plan == [plan[0]] + plan[1..];
    }
  }

  /** Once the first k missing events are recorded, the others are what is missing. */
  lemma {:induction false} MissingAfterProgress(plan: seq<TaskEvent>, known: set<TaskEvent>, k: nat)
    requires Distinct(plan) && k <= |Missing(plan, known)|
    ensures Missing(plan, known + ToSet(Missing(plan, known)[..k])) == Missing(plan, known)[k..]
    decreases |plan|
  {
    hide Missing;
    MissingFirst(plan, known);
    var m := Missing(plan, known);
    if plan == [] || k == 0 {
      assert m[..k] == [] && m[k..] == m && known + ToSet([]) == known;
    } else {
      var rest := plan[1..];
      assert plan == [plan[0]] + rest && plan[0] !in rest;
      if plan[0] in known {
        assert m == Missing(rest, known);
        MissingAfterProgress(rest, known, k);
        MissingFirst(plan, known + ToSet(m[..k]));
      } else {
        MissingAfterProgress(rest, known, k - 1);
        var done := Missing(rest, known)[..k - 1];
        assert m[..k] == [plan[0]] + done && m[k..] == Missing(rest, known)[k - 1..];
        MissingIgnores(rest, known + ToSet(done), plan[0]);
        assert known + ToSet(m[..k]) == known + ToSet(done) + {plan[0]};
        MissingFirst(plan, known + ToSet(m[..k]));
      }
    }
  }

  lemma MissingFirst(plan: seq<TaskEvent>, known: set<TaskEvent>)
    ensures plan == [] ==> Missing(plan, known) == []
    ensures plan != [] ==>
      Missing(plan, known) == (if plan[0] in known then [] else [plan[0]]) + Missing(plan[1..], known)
  {
  }

  lemma {:induction false} MissingIgnores(plan: seq<TaskEvent>, known: set<TaskEvent>, e: TaskEvent)
    requires e !in plan
    ensures Missing(plan, known + {e}) == Missing(plan, known)
    decreases |plan|
  {
    if plan != [] {
      assert plan == [plan[0]] + plan[1..];
      MissingIgnores(plan[1..], known, e);
    }
  }

  function History(w: World, r: Request): seq<TaskEvent> {
    EventsFor(w.ledger, r.feature, r.task)
  }

  lemma AttemptHistory(w: World, r: Request, a: Attempt) returns (k: nat)
    ensures k == if Listed(w.lines, r.task) then Progress(r, w.ledger, Todo(r, w.ledger), a.appends, a.accept) else 0
    ensures History(AfterAttempt(w, r, a), r) == History(w, r) + Todo(r, w.ledger)[..k]
    ensures Completes(w, r, a) ==> k == |Todo(r, w.ledger)|
    ensures w.ledger <= AfterAttempt(w, r, a).ledger
    ensures forall f, t :: f != r.feature || t != r.task ==>
      EventsFor(AfterAttempt(w, r, a).ledger, f, t) == EventsFor(w.ledger, f, t)
  {
    var todo := Todo(r, w.ledger);
    if Listed(w.lines, r.task) {
      k := Progress(r, w.ledger, todo, a.appends, a.accept);
      var added := Records(r, todo[..k]);
      forall f, t
        ensures EventsFor(w.ledger + added, f, t) ==
          EventsFor(w.ledger, f, t) + (if f == r.feature && t == r.task then todo[..k] else [])
      {
        EventsAppend(w.ledger, added, f, t);
        EventsOfRecords(r, todo[..k], f, t);
      }
    } else {
      k := 0;
    }
  }

  function AfterAttempts(w: World, r: Request, attempts: seq<Attempt>): World {
    if attempts == [] then w
    else
      var n := |attempts| - 1;
      AfterAttempt(AfterAttempts(w, r, attempts[..n]), r, attempts[n])
  }

  ghost predicate SomeCompletes(w: World, r: Request, attempts: seq<Attempt>) {
    exists i :: 0 <= i < |attempts| && Completes(AfterAttempts(w, r, attempts[..i]), r, attempts[i])
  }

  /** Whatever the crashes and refusals, repeating one request leaves the initial history followed by the first
      k missing events of the plan, in order and once each; all of them once an attempt has completed. */
  lemma {:induction false} RerunsAddMissingOnce(w: World, r: Request, attempts: seq<Attempt>) returns (k: nat)
    ensures k <= |Todo(r, w.ledger)|
    ensures History(AfterAttempts(w, r, attempts), r) == History(w, r) + Todo(r, w.ledger)[..k]
    ensures Todo(r, AfterAttempts(w, r, attempts).ledger) == Todo(r, w.ledger)[k..]
    ensures SomeCompletes(w, r, attempts) ==> k == |Todo(r, w.ledger)|
    decreases |attempts|
  {
    hide Todo, History, Completes, AfterAttempt;
    if attempts == [] {
      k := 0;
      assert History(w, r) + Todo(r, w.ledger)[..0] == History(w, r);
      assert Todo(r, w.ledger)[0..] == Todo(r, w.ledger);
    } else {
      var n := |attempts| - 1;
      var before, after := AfterAttempts(w, r, attempts[..n]), AfterAttempts(w, r, attempts);
      assert after == AfterAttempt(before, r, attempts[n]);
      var j := RerunsAddMissingOnce(w, r, attempts[..n]);
      var more := AttemptHistory(before, r, attempts[n]);
      k := j + more;
      Onward(History(w, r), Todo(r, w.ledger), j, more);
      TodoAfter(w, r, after, k);
      if SomeCompletes(w, r, attempts) {
        LastOrEarlier(w, r, attempts);
      }
    }
  }

  /** Taking j items and then more of the rest. */
  lemma Onward<T>(h: seq<T>, todo: seq<T>, j: nat, more: nat)
    requires j <= |todo| && more <= |todo[j..]|
    ensures h + todo[..j] + todo[j..][..more] == h + todo[..j + more]
  {
    assert todo[..j] + todo[j..][..more] == todo[..j + more];
  }

  lemma LastOrEarlier(w: World, r: Request, attempts: seq<Attempt>)
    requires attempts != [] && SomeCompletes(w, r, attempts)
    ensures var n := |attempts| - 1;
      Completes(AfterAttempts(w, r, attempts[..n]), r, attempts[n]) || SomeCompletes(w, r, attempts[..n])
  {
    hide Completes, AfterAttempts;
    var n := |attempts| - 1;
    var i :| 0 <= i < |attempts| && Completes(AfterAttempts(w, r, attempts[..i]), r, attempts[i]);
    if i < n {
      assert attempts[..n][..i] == attempts[..i] && attempts[..n][i] == attempts[i];
    }
  }

  lemma TodoAfter(w: World, r: Request, after: World, k: nat)
    requires k <= |Todo(r, w.ledger)|
    requires History(after, r) == History(w, r) + Todo(r, w.ledger)[..k]
    ensures Todo(r, after.ledger) == Todo(r, w.ledger)[k..]
  {
    PlanHasNoRepeats(r);
    hide Planned;
    MissingAfterProgress(Planned(r), ToSet(History(w, r)), k);
    assert ToSet(History(after, r)) == ToSet(History(w, r)) + ToSet(Todo(r, w.ledger)[..k]);
  }

  /** A task line is marked only after `task_closed` is in the ledger, every planned event is there by then, and
      no other line changes; attempts that do not complete leave tasks.md alone. */
  lemma MarkedOnlyWhenClosed(w: World, r: Request, a: Attempt)
    ensures var after := AfterAttempt(w, r, a);
      && (!Completes(w, r, a) ==> after.lines == w.lines)
      && (Completes(w, r, a) ==>
            && TaskClosed in History(after, r)
            && (forall e :: e in Canonical(r.hasCommit) ==> e in History(after, r))
            && |after.lines| == |w.lines|
            && var i := FindTask(w.lines, r.task);
               i < |w.lines| && w.lines[i].TaskLine?
               && after.lines[i] == TaskLine(w.lines[i].bullet, 'X', " ", r.task, w.lines[i].rest)
               && forall j :: 0 <= j < |w.lines| && j != i ==> after.lines[j] == w.lines[j])
  {
    var k := AttemptHistory(w, r, a);
    if Completes(w, r, a) {
      var todo := Todo(r, w.ledger);
      MissingMembers(Planned(r), ToSet(History(w, r)));
      assert todo[..k] == todo;
      forall e | e in Canonical(r.hasCommit) ensures e in History(AfterAttempt(w, r, a), r) {
        assert e in ToSet(History(w, r)) || e in todo;
      }
    }
  }

  /** Completing again changes nothing more. */
  lemma CompletedIsStable(w: World, r: Request, a: Attempt, again: Attempt)
    requires Completes(w, r, a)
    ensures AfterAttempt(AfterAttempt(w, r, a), r, again) == AfterAttempt(w, r, a)
  {
    var after := AfterAttempt(w, r, a);
    var k := AttemptHistory(w, r, a);
    TodoAfter(w, r, after, k);
    assert Todo(r, after.ledger) == [];
    assert Records(r, []) == [];
    var i := FindTask(w.lines, r.task);
    assert after.lines == w.lines[i := Marked(w.lines[i])];
    FindAfterMark(w.lines, r.task);
    assert after.lines[i := Marked(after.lines[i])] == after.lines;
  }

  lemma FindAfterMark(lines: seq<Line>, task: string)
    requires FindTask(lines, task) < |lines|
    ensures FindTask(MarkTask(lines, task), task) == FindTask(lines, task)
  {
    var i, marked := FindTask(lines, task), MarkTask(lines, task);
    var j := FindTask(marked, task);
    assert marked[i].task == task && marked[i].TaskLine?;
    assert forall k :: 0 <= k < i ==> marked[k] == lines[k];
  }

  // ---------------------------------------------------------------- mixed verdicts

  datatype Try = Try(request: Request, attempt: Attempt)

  function AfterTries(w: World, tries: seq<Try>): World {
    if tries == [] then w
    else
      var n := |tries| - 1;
      AfterAttempt(AfterTries(w, tries[..n]), tries[n].request, tries[n].attempt)
  }

  /** Over any mix of passing and failing attempts, with or without commits and for any tasks, no attempt
      records an event a second time. */
  lemma {:induction false} NoEventTwice(w: World, tries: seq<Try>, feature: string, task: string, e: TaskEvent)
    ensures var before := EventsFor(w.ledger, feature, task);
      var after := EventsFor(AfterTries(w, tries).ledger, feature, task);
      && before <= after
      && (e in before ==> multiset(after)[e] == multiset(before)[e])
      && (e !in before ==> multiset(after)[e] <= 1)
    decreases |tries|
  {
    hide Planned, AfterAttempt;
    if tries != [] {
      var n := |tries| - 1;
      NoEventTwice(w, tries[..n], feature, task, e);
      var mid := AfterTries(w, tries[..n]);
      var r, a := tries[n].request, tries[n].attempt;
      var k := AttemptHistory(mid, r, a);
      if feature == r.feature && task == r.task {
        AddedOnce(mid, r, k, e);
      }
    }
  }

  lemma AddedOnce(w: World, r: Request, k: nat, e: TaskEvent)
    requires k <= |Todo(r, w.ledger)|
    ensures var prior := History(w, r);
      var after := prior + Todo(r, w.ledger)[..k];
      && prior <= after
      && (e in prior ==> multiset(after)[e] == multiset(prior)[e])
      && (e !in prior ==> multiset(after)[e] <= 1)
  {
    var prior, added := History(w, r), Todo(r, w.ledger)[..k];
    PlanHasNoRepeats(r);
    hide Planned;
    MissingMembers(Planned(r), ToSet(prior));
    assert multiset(prior + added) == multiset(prior) + multiset(added);
    assert forall x :: x in added ==> x in Todo(r, w.ledger);
    assert e in prior ==> e !in added && e !in multiset(added);
    assert e !in prior ==> multiset(prior)[e] == 0;
    DistinctOnce(added, e);
  }

  lemma DistinctOnce(events: seq<TaskEvent>, e: TaskEvent)
    requires Distinct(events)
    ensures multiset(events)[e] <= 1
  {
    if events != [] {
      DistinctOnce(events[1..], e);
      assert events == [events[0]] + events[1..];
      assert multiset(events)[e] == multiset{events[0]}[e] + multiset(events[1..])[e];
      assert events[0] !in events[1..];
    }
  }

  // ---------------------------------------------------------------- when an attempt completes

  /** tasks.md has a line of the task, and the first one stands below a heading. */
  ghost predicate StandsBelowHeading(lines: seq<Line>, task: string) {
    exists i, h :: IsFirstLine(lines, task, i) && 0 <= h < i && lines[h].Heading?
  }

  ghost predicate IsFirstLine(lines: seq<Line>, task: string, i: nat) {
    && i < |lines| && lines[i].TaskLine? && lines[i].task == task
    && forall j :: 0 <= j < i ==> !(lines[j].TaskLine? && lines[j].task == task)
  }

  lemma ListedIff(lines: seq<Line>, task: string)
    ensures Listed(lines, task) <==> StandsBelowHeading(lines, task)
  {
    var k := FindTask(lines, task);
    if Listed(lines, task) {
      var h :| 0 <= h < |lines[..k]| && lines[..k][h].Heading?;
      assert IsFirstLine(lines, task, k) && lines[h].Heading?;
    }
    if i, h :| IsFirstLine(lines, task, i) && 0 <= h < i && lines[h].Heading? {
      assert k == i && lines[..k][h].Heading?;
    }
  }

  /** An attempt that nothing disturbs completes exactly if the check passed and the task stands below a heading; one
      that fails its validation or dies before it writes never does, and without such a line nothing happens. */
  lemma CompletesWhen(w: World, r: Request, a: Attempt)
    ensures Completes(w, r, a) ==> a.validates && a.writes && r.passed && StandsBelowHeading(w.lines, r.task)
    ensures (forall l, x :: a.accept(l, x)) && a.appends >= |Todo(r, w.ledger)| && a.validates && a.writes ==>
      (Completes(w, r, a) <==> r.passed && StandsBelowHeading(w.lines, r.task))
    ensures !StandsBelowHeading(w.lines, r.task) ==> AfterAttempt(w, r, a) == w
  {
    ListedIff(w.lines, r.task);
    hide Listed, StandsBelowHeading, Todo;
    if forall l, x :: a.accept(l, x) {
      AllAppended(r, w.ledger, Todo(r, w.ledger), a.appends, a.accept);
    }
  }

  lemma {:induction false} AllAppended(r: Request, ledger: seq<Record>, todo: seq<TaskEvent>, budget: nat,
                                       accept: (seq<Record>, Record) -> bool)
    requires forall l, x :: accept(l, x)
    ensures budget >= |todo| ==> Progress(r, ledger, todo, budget, accept) == |todo|
    decreases |todo|
  {
    if todo != [] && budget > 0 {
      AllAppended(r, ledger + [Record(r.feature, r.task, todo[0])], todo[1..], budget - 1, accept);
    }
  }
}
