/** What every run of the scheduler keeps: conservation and stable priority order, no lost wake-up,
    the two stop modes and the thread count.  */
module SchedulerSafety {
  import opened Wrappers
  import opened Scheduler

  // ----- the invariant -----

  /** Earlier point first; among equal points the function scheduled first. */
  predicate Before(a: Task, b: Task) {
    a.point < b.point || (a.point == b.point && a.id < b.id)
  }

  predicate Ordered(queue: seq<Task>) {
    forall i, j :: 0 <= i < j < |queue| ==> Before(queue[i], queue[j])
  }

  predicate Executes(pc: Pc, task: Task) {
    pc == Running(task)
  }

  /** How many threads are executing a function. */
  function Executing(threads: seq<Pc>, task: Task): nat {
    if threads == [] then 0
    else (if Executes(threads[0], task) then 1 else 0) + Executing(threads[1..], task)
  }

  function Unexited(threads: seq<Pc>): nat {
    if threads == [] then 0 else (if threads[0].Exited? then 0 else 1) + Unexited(threads[1..])
  }

  /** Everything scheduled is queued, running or finished, and nothing else is. */
  ghost predicate Conserved(s: State) {
    forall x: Task :: Balanced(s, x)
  }

  ghost predicate Balanced(s: State, x: Task) {
    multiset(s.scheduled)[x] == multiset(s.queue)[x] + Executing(s.threads, x) + s.finished[x]
  }

  predicate Numbered(s: State) {
    && (forall i :: 0 <= i < |s.scheduled| ==> s.scheduled[i].id == i)
    && (forall i :: 0 <= i < |s.queue| ==> s.queue[i].id < |s.scheduled|)
  }

  /** Some thread will look at the queue again, without a further notification, no later than the
      point of the first function. */
  ghost predicate Attended(s: State)
    requires s.queue != []
  {
    exists t :: 0 <= t < |s.threads| && Attends(s.threads[t], s.queue[0])
  }

  predicate Attends(pc: Pc, head: Task) {
    Active(pc) || (pc.TimedParked? && pc.deadline <= head.point)
  }

  predicate AllExited(s: State) {
    forall t :: 0 <= t < |s.threads| ==> s.threads[t].Exited?
  }

  ghost predicate NoLostWakeup(s: State) {
    s.queue != [] && !s.stopRequested && s.owedOne == 0 ==> Attended(s) || AllExited(s)
  }

  predicate NoneParkedAfterStop(s: State) {
    (s.stopRequested || s.stopWhenEmpty) && s.owedAll == 0 ==>
      forall t :: 0 <= t < |s.threads| ==> !s.threads[t].Parked?
  }

  predicate ExitNeedsStop(s: State) {
    forall t :: 0 <= t < |s.threads| ==> s.threads[t].Exited? ==> s.stopRequested || s.stopWhenEmpty
  }

  ghost predicate Shape(s: State) {
    && Ordered(s.queue)
    && Numbered(s)
    && s.threadCount == Unexited(s.threads)
    && ExitNeedsStop(s)
    && NoneParkedAfterStop(s)
  }

  ghost predicate Inv(s: State) {
    Shape(s) && NoLostWakeup(s) && Conserved(s)
  }

  // ----- thread tables -----

  lemma {:induction false} UnexitedUpdate(threads: seq<Pc>, t: nat, pc: Pc)
    requires t < |threads|
    ensures Unexited(threads[t := pc]) + (if threads[t].Exited? then 0 else 1)
         == Unexited(threads) + (if pc.Exited? then 0 else 1)
  {
    if t == 0 {
      assert threads[t := pc][1..] == threads[1..];
    } else {
      assert threads[t := pc][1..] == threads[1..][t - 1 := pc];
      UnexitedUpdate(threads[1..], t - 1, pc);
    }
  }

  lemma {:induction false} ExecutingUpdate(threads: seq<Pc>, t: nat, pc: Pc, x: Task)
    requires t < |threads|
    ensures Executing(threads[t := pc], x) + (if Executes(threads[t], x) then 1 else 0)
         == Executing(threads, x) + (if Executes(pc, x) then 1 else 0)
  {
    if t == 0 {
      assert threads[t := pc][1..] == threads[1..];
    } else {
      assert threads[t := pc][1..] == threads[1..][t - 1 := pc];
      ExecutingUpdate(threads[1..], t - 1, pc, x);
    }
  }

  lemma {:induction false} WokenAllTable(threads: seq<Pc>, x: Task)
    ensures Executing(WokenAll(threads), x) == Executing(threads, x)
    ensures Unexited(WokenAll(threads)) == Unexited(threads)
  {
    if threads != [] {
      assert WokenAll(threads)[1..] == WokenAll(threads[1..]);
      WokenAllTable(threads[1..], x);
    }
  }

  /** A table in which nobody executes anything and everybody agrees on being gone. */
  lemma {:induction false} UniformTable(threads: seq<Pc>, gone: bool, x: Task)
    requires forall t :: 0 <= t < |threads| ==> !threads[t].Running? && threads[t].Exited? == gone
    ensures Executing(threads, x) == 0
    ensures Unexited(threads) == if gone then 0 else |threads|
  {
    if threads != [] { UniformTable(threads[1..], gone, x); }
  }

  // ----- the queue -----

  lemma {:induction false} InsertMembers(queue: seq<Task>, task: Task)
    ensures forall x :: x in Insert(queue, task) <==> x == task || x in queue
  {
    if queue != [] && queue[0].point <= task.point {
      InsertMembers(queue[1..], task);
      assert queue == [queue[0]] + queue[1..];
    }
  }

  lemma {:induction false} InsertKeepsOrder(queue: seq<Task>, task: Task)
    requires Ordered(queue)
    requires forall i :: 0 <= i < |queue| ==> queue[i].id < task.id
    ensures Ordered(Insert(queue, task))
  {
    if queue != [] && queue[0].point <= task.point {
      var rest := Insert(queue[1..], task);
      InsertKeepsOrder(queue[1..], task);
      InsertMembers(queue[1..], task);
      forall j | 0 <= j < |rest| ensures Before(queue[0], rest[j]) {
        assert rest[j] in rest;
      }
    }
  }

  // ----- one step -----

  lemma ScheduleShape(s: State, point: int)
    requires Shape(s)
    ensures Shape(Apply(s, Schedule(point)))
  {
    var s' := Apply(s, Schedule(point));
    InsertKeepsOrder(s.queue, Task(point, |s.scheduled|));
    InsertMembers(s.queue, Task(point, |s.scheduled|));
    forall i | 0 <= i < |s'.queue| ensures s'.queue[i].id < |s'.scheduled| {
      assert s'.queue[i] in s'.queue;
    }
  }

  lemma ShapeStep(s: State, e: Event)
    requires Shape(s) && Enabled(s, e)
    ensures Shape(Apply(s, e))
  {
    var s' := Apply(s, e);
    match e
    case Schedule(point) => ScheduleShape(s, point);
    case NotifyAll => WokenAllTable(s.threads, Task(0, 0));
    case NotifyOne(t) => UnexitedUpdate(s.threads, t, s'.threads[t]);
    case Wake(t) => UnexitedUpdate(s.threads, t, s'.threads[t]);
    case Acquire(t, expired) => AcquireShape(s, t, expired);
    case Return(t) => UnexitedUpdate(s.threads, t, s'.threads[t]);
    case _ =>
  }

  lemma AcquireShape(s: State, t: nat, expired: bool)
    requires Shape(s) && Enabled(s, Acquire(t, expired))
    ensures Shape(Apply(s, Acquire(t, expired)))
  {
    UnexitedUpdate(s.threads, t, ResumeThread(s, expired));
  }

  lemma WakeupStep(s: State, e: Event)
    requires NoLostWakeup(s) && Enabled(s, e)
    ensures NoLostWakeup(Apply(s, e))
  {
    var s' := Apply(s, e);
    if s'.queue != [] && !s'.stopRequested && s'.owedOne == 0 {
      match e
      case Schedule(_) =>
      case NotifyOne(t) => assert Attends(s'.threads[t], s'.queue[0]);
      case NotifyNobody =>
        if !AllExited(s) {
          var t :| 0 <= t < |s.threads| && !s.threads[t].Exited?;
          assert Attends(s'.threads[t], s'.queue[0]);
        }
      case Wake(t) => assert Attends(s'.threads[t], s'.queue[0]);
      case Acquire(t, _) => assert Attends(s'.threads[t], s'.queue[0]);
      case Return(t) => assert Attends(s'.threads[t], s'.queue[0]);
      case _ =>
        if Attended(s) {
          var t :| 0 <= t < |s.threads| && Attends(s.threads[t], s.queue[0]);
          assert Attends(s'.threads[t], s'.queue[0]);
        }
    }
  }

  lemma BalancedStep(s: State, e: Event, x: Task)
    requires Balanced(s, x) && Enabled(s, e)
    ensures Balanced(Apply(s, e), x)
  {
    var s' := Apply(s, e);
    match e
    case Schedule(point) => InsertContents(s.queue, Task(point, |s.scheduled|));
    case NotifyAll => WokenAllTable(s.threads, x);
    case NotifyOne(t) => ExecutingUpdate(s.threads, t, s'.threads[t], x);
    case Wake(t) => ExecutingUpdate(s.threads, t, s'.threads[t], x);
    case Acquire(t, _) =>
      ExecutingUpdate(s.threads, t, s'.threads[t], x);
      if s.queue != [] { HeadTail(s.queue, x); }
    case Return(t) => ExecutingUpdate(s.threads, t, s'.threads[t], x);
    case _ =>
  }

  lemma ConservedStep(s: State, e: Event)
    requires Conserved(s) && Enabled(s, e)
    ensures Conserved(Apply(s, e))
  {
    forall x: Task ensures Balanced(Apply(s, e), x) { BalancedStep(s, e, x); }
  }

  lemma HeadTail(queue: seq<Task>, x: Task)
    requires queue != []
    ensures multiset(queue)[x] == multiset(queue[1..])[x] + (if queue[0] == x then 1 else 0)
  {
    assert queue == [queue[0]] + queue[1..];
  }

  lemma StepKeepsInv(s: State, e: Event)
    requires Inv(s) && Enabled(s, e)
    ensures Inv(Apply(s, e))
  {
    ShapeStep(s, e);
    WakeupStep(s, e);
    ConservedStep(s, e);
  }

  lemma {:induction false} RunsKeepInv(n: nat, now: int, run: seq<Event>)
    requires Exec(Init(n, now), run).Some?
    ensures Inv(Exec(Init(n, now), run).value)
  {
    if run == [] {
      forall x: Task { UniformTable(Init(n, now).threads, false, x); }
      UniformTable(Init(n, now).threads, false, Task(0, 0));
    } else {
      RunsKeepInv(n, now, run[..|run| - 1]);
      StepKeepsInv(Exec(Init(n, now), run[..|run| - 1]).value, run[|run| - 1]);
    }
  }

  // ----- the theorems -----

  /** No lost wake-up, for any number of threads and every run.  Once Stop's notify_all is delivered
      no thread stays in the untimed wait. */
  lemma NoWakeupIsLost(n: nat, now: int, run: seq<Event>)
    requires n > 0 && Exec(Init(n, now), run).Some?
    ensures var s := Exec(Init(n, now), run).value;
      && (s.queue != [] && s.owedOne == 0 && !s.stopRequested && !s.stopWhenEmpty ==> Attended(s))
      && (s.queue != [] && s.owedOne == 0 && !s.stopRequested && s.stopWhenEmpty ==> Attended(s) || AllExited(s))
      && ((s.stopRequested || s.stopWhenEmpty) && s.owedAll == 0 ==>
            forall t :: 0 <= t < |s.threads| ==> !s.threads[t].Parked?)
  {
    RunsKeepInv(n, now, run);
    TableSize(n, now, run);
    var s := Exec(Init(n, now), run).value;
    if AllExited(s) {
      assert s.threads[0].Exited?;
    }
  }

  lemma {:induction false} TableSize(n: nat, now: int, run: seq<Event>)
    requires Exec(Init(n, now), run).Some?
    ensures |Exec(Init(n, now), run).value.threads| == n
  {
    if run != [] {
      TableSize(n, now, run[..|run| - 1]);
      StepTableSize(Exec(Init(n, now), run[..|run| - 1]).value, run[|run| - 1]);
    }
  }

  lemma StepTableSize(s: State, e: Event)
    requires Enabled(s, e)
    ensures |Apply(s, e).threads| == |s.threads|
  {
  }

  /** Conservation over every interleaving: each function is scheduled once, and at any time it is
      queued, being executed by one thread, or finished, and only one of these. */
  lemma NothingLostOrDuplicated(n: nat, now: int, run: seq<Event>, i: nat)
    requires Exec(Init(n, now), run).Some? && i < |Exec(Init(n, now), run).value.scheduled|
    ensures var s := Exec(Init(n, now), run).value; var x := s.scheduled[i];
      multiset(s.queue)[x] + Executing(s.threads, x) + s.finished[x] == 1
  {
    RunsKeepInv(n, now, run);
    var s := Exec(Init(n, now), run).value;
    OccursOnce(s.scheduled, i);
    assert Balanced(s, s.scheduled[i]);
  }

  /** An extraction takes the minimum by time point, first in first out among equal points:
      `scheduled` lists the functions in the order of the Schedule calls. */
  lemma ExtractsStableMinimum(n: nat, now: int, run: seq<Event>, t: nat, expired: bool)
    requires Exec(Init(n, now), run).Some?
    requires Enabled(Exec(Init(n, now), run).value, Acquire(t, expired))
    requires ResumeThread(Exec(Init(n, now), run).value, expired).Running?
    ensures var s := Exec(Init(n, now), run).value;
      var s' := Apply(s, Acquire(t, expired));
      var taken := s'.threads[t].task;
      && s.queue == [taken] + s'.queue
      && (forall other :: other in s'.queue ==>
            taken.point < other.point || (taken.point == other.point && taken.id < other.id))
      && taken.id < |s.scheduled| && s.scheduled[taken.id] == taken
  {
    RunsKeepInv(n, now, run);
    var s := Exec(Init(n, now), run).value;
    WasScheduled(s, s.queue[0]);
    forall other | other in s.queue[1..] ensures Before(s.queue[0], other) {
      var j :| 0 <= j < |s.queue[1..]| && s.queue[1..][j] == other;
      assert other == s.queue[j + 1];
    }
  }

  lemma WasScheduled(s: State, task: Task)
    requires Conserved(s) && Numbered(s) && task in s.queue
    ensures task.id < |s.scheduled| && s.scheduled[task.id] == task
  {
    assert Balanced(s, task);
    assert multiset(s.scheduled)[task] > 0;
    assert task in s.scheduled;
  }

  /** The count that `~Scheduler` asserts to be 0 after the joins. */
  lemma ThreadCountIsUnexited(n: nat, now: int, run: seq<Event>)
    requires Exec(Init(n, now), run).Some?
    ensures var s := Exec(Init(n, now), run).value;
      && s.threadCount == Unexited(s.threads)
      && (AllExited(s) ==> s.threadCount == 0)
  {
    RunsKeepInv(n, now, run);
    var s := Exec(Init(n, now), run).value;
    if AllExited(s) { UniformTable(s.threads, true, Task(0, 0)); }
  }

  ghost predicate OnlyDraining(run: seq<Event>) {
    forall i :: 0 <= i < |run| ==> run[i] != RequestStop(false)
  }

  lemma {:induction false} DrainingNeverRequestsStop(n: nat, now: int, run: seq<Event>)
    requires Exec(Init(n, now), run).Some? && OnlyDraining(run)
    ensures !Exec(Init(n, now), run).value.stopRequested
  {
    if run != [] { DrainingNeverRequestsStop(n, now, run[..|run| - 1]); }
  }

  /** Draining loses nothing.  A thread exits only on an empty queue, and when the last one exits
      every function scheduled so far has finished, exactly once. */
  lemma DrainLosesNothing(n: nat, now: int, run: seq<Event>, t: nat, expired: bool)
    requires OnlyDraining(run)
    requires var before := Exec(Init(n, now), run);
      && before.Some?
      && Enabled(before.value, Acquire(t, expired))
      && ResumeThread(before.value, expired).Exited?
    ensures var s := Apply(Exec(Init(n, now), run).value, Acquire(t, expired));
      && s.queue == []
      && s.stopWhenEmpty
      && (AllExited(s) ==>
            forall x: Task :: s.finished[x] == if x in s.scheduled then 1 else 0)
  {
    var before := Exec(Init(n, now), run).value;
    var s := Apply(before, Acquire(t, expired));
    DrainingNeverRequestsStop(n, now, run);
    RunsKeepInv(n, now, run);
    ConservedStep(before, Acquire(t, expired));
    if AllExited(s) {
      forall x: Task ensures s.finished[x] == if x in s.scheduled then 1 else 0 {
        UniformTable(s.threads, true, x);
        assert Balanced(s, x);
        if x in s.scheduled {
          var i :| 0 <= i < |s.scheduled| && s.scheduled[i] == x;
          OccursOnce(s.scheduled, i);
        }
      }
    }
  }

  lemma OccursOnce(tasks: seq<Task>, i: nat)
    requires i < |tasks| && forall k :: 0 <= k < |tasks| ==> tasks[k].id == k
    ensures multiset(tasks)[tasks[i]] == 1
  {
    assert tasks == tasks[..i] + [tasks[i]] + tasks[i + 1..];
    assert tasks[i] !in tasks[..i] && tasks[i] !in tasks[i + 1..];
  }

  /** After Stop(false) has set its flag no function is ever taken from the queue again. */
  lemma {:induction false} StopRequestedStartsNothing(s: State, more: seq<Event>)
    requires s.stopRequested && Exec(s, more).Some?
    ensures var s' := Exec(s, more).value;
      s'.stopRequested && s'.started == s.started && multiset(s.queue) <= multiset(s'.queue)
  {
    if more != [] {
      StopRequestedStartsNothing(s, more[..|more| - 1]);
      StoppedStep(Exec(s, more[..|more| - 1]).value, more[|more| - 1]);
    }
  }

  lemma StoppedStep(s: State, e: Event)
    requires s.stopRequested && Enabled(s, e)
    ensures var s' := Apply(s, e);
      s'.stopRequested && s'.started == s.started && multiset(s.queue) <= multiset(s'.queue)
  {
    if e.Schedule? { InsertContents(s.queue, Task(e.point, |s.scheduled|)); }
  }

  lemma {:induction false} InsertContents(queue: seq<Task>, task: Task)
    ensures multiset(Insert(queue, task)) == multiset(queue) + multiset{task}
  {
    if queue != [] && queue[0].point <= task.point {
      InsertContents(queue[1..], task);
      assert queue == [queue[0]] + queue[1..];
    }
  }
}
