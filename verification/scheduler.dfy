/** The timed scheduler of thread/scheduler.cc as a step system.

    The mutex makes everything a service thread does between two releases of the lock atomic, so
    one `Acquire` step takes a thread from obtaining the lock to its next release: one of the two
    condition-variable waits, the call of a function, or the exit.  Between steps any other thread,
    the clock, `Schedule`, `Stop` and the condition variable may act, in any order.  */
module Scheduler {
  import opened Wrappers

  /** `id` is the position of the function in the order of the `Schedule` calls. */
  datatype Task = Task(point: int, id: nat)

  datatype Pc =
    | Entering                     // before the first lock
    | Parked                       // blocked in wait
    | Unparked                     // left wait, wants the lock
    | TimedParked(deadline: int)   // blocked in wait_until
    | Unblocked(deadline: int)     // left wait_until, wants the lock
    | Running(task: Task)          // inside a function, without the lock
    | Returned                     // the function returned, wants the lock
    | Exited

  datatype Start = Start(task: Task, time: int)

  /** The shared state, the program counters and the history.  `owedOne` and `owedAll` count the
      notify_one and notify_all calls that follow an already released lock.  */
  datatype State = State(
    threads: seq<Pc>,
    threadCount: int,
    queue: seq<Task>,
    stopRequested: bool,
    stopWhenEmpty: bool,
    owedOne: nat,
    owedAll: nat,
    now: int,
    scheduled: seq<Task>,
    started: seq<Start>,
    finished: multiset<Task>)

  datatype Event =
    | Schedule(point: int)
    | RequestStop(drain: bool)
    | NotifyOne(thread: nat)                // a waiter is woken
    | NotifyNobody                          // notify_one without a waiter
    | NotifyAll
    | Wake(thread: nat)                     // a wait ends by timeout or spuriously
    | Acquire(thread: nat, expired: bool)   // `expired`: wait_until reports a timeout
    | Return(thread: nat)
    | Tick(to: int)

  predicate Waiting(pc: Pc) {
    pc.Parked? || pc.TimedParked?
  }

  predicate WantsLock(pc: Pc) {
    pc.Entering? || pc.Unparked? || pc.Unblocked? || pc.Returned?
  }

  /** Neither blocked on the condition variable nor gone. */
  predicate Active(pc: Pc) {
    WantsLock(pc) || pc.Running?
  }

  function Woken(pc: Pc): Pc {
    match pc
    case Parked => Unparked
    case TimedParked(d) => Unblocked(d)
    case _ => pc
  }

  function WokenAll(threads: seq<Pc>): (r: seq<Pc>) {
    seq(|threads|, i requires 0 <= i < |threads| => Woken(threads[i]))
  }

  /** A multimap puts a new entry behind the entries with an equal key. */
  function Insert(queue: seq<Task>, task: Task): seq<Task> {
    if queue == [] || task.point < queue[0].point then [task] + queue
    else [queue[0]] + Insert(queue[1..], task)
  }

  function Init(threadCount: nat, now: int): State {
    State(seq(threadCount, _ => Entering), threadCount, [], false, false, 0, 0, now, [], [], multiset{})
  }

  predicate Enabled(s: State, e: Event) {
    match e
    case Schedule(_) => true
    case RequestStop(_) => true
    case NotifyOne(t) => s.owedOne > 0 && t < |s.threads| && Waiting(s.threads[t])
    case NotifyNobody => s.owedOne > 0 && forall t :: 0 <= t < |s.threads| ==> !Waiting(s.threads[t])
    case NotifyAll => s.owedAll > 0
    case Wake(t) => t < |s.threads| && Waiting(s.threads[t])
    case Acquire(t, expired) =>
      && t < |s.threads|
      && WantsLock(s.threads[t])
      && (expired ==> s.threads[t].Unblocked? && s.threads[t].deadline <= s.now)
    case Return(t) => t < |s.threads| && s.threads[t].Running?
    case Tick(to) => s.now <= to
  }

  /** What a thread that holds the lock does next: the loop of `ProcessFunctionQueue` seen from
      lock to release. */
  function Resume(queue: seq<Task>, stopRequested: bool, stopWhenEmpty: bool, expired: bool): (next: Pc) {
    if stopRequested then Exited
    else if queue == [] then (if stopWhenEmpty then Exited else Parked)
    else if expired then Running(queue[0])
    else TimedParked(queue[0].point)
  }

  function ResumeThread(s: State, expired: bool): Pc {
    Resume(s.queue, s.stopRequested, s.stopWhenEmpty, expired)
  }

  function Apply(s: State, e: Event): State
    requires Enabled(s, e)
  {
    match e
    case Schedule(point) =>
      var task := Task(point, |s.scheduled|);
      s.(queue := Insert(s.queue, task), owedOne := s.owedOne + 1, scheduled := s.scheduled + [task])
    case RequestStop(drain) =>
      var flagged := if drain then s.(stopWhenEmpty := true) else s.(stopRequested := true);
      flagged.(owedAll := s.owedAll + 1)
    case NotifyOne(t) =>
      s.(threads := s.threads[t := Woken(s.threads[t])], owedOne := s.owedOne - 1)
    case NotifyNobody => s.(owedOne := s.owedOne - 1)
    case NotifyAll => s.(threads := WokenAll(s.threads), owedAll := s.owedAll - 1)
    case Wake(t) => s.(threads := s.threads[t := Woken(s.threads[t])])
    case Acquire(t, expired) =>
      var next := ResumeThread(s, expired);
      var moved := s.(threads := s.threads[t := next]);
      if next.Running? then
        moved.(queue := s.queue[1..], started := s.started + [Start(next.task, s.now)])
      else if next.Exited? then moved.(threadCount := s.threadCount - 1)
      else moved
    case Return(t) =>
      s.(threads := s.threads[t := Returned], finished := s.finished + multiset{s.threads[t].task})
    case Tick(to) => s.(now := to)
  }

  /** The state after a run, if every event of it was enabled. */
  function Exec(s: State, run: seq<Event>): Option<State> {
    if run == [] then Some(s)
    else
      var before := Exec(s, run[..|run| - 1]);
      var e := run[|run| - 1];
      if before.Some? && Enabled(before.value, e) then Some(Apply(before.value, e)) else None
  }
}
