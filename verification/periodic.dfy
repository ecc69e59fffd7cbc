/** `Worker::ScheduleEvery` of thread/worker.cc: a periodic task that re-arms itself and corrects its
    next delay by how late it was.  Times are in nanoseconds, the resolution of the steady clock.

    A chain lives in up to three places: as a function in the scheduler, as a task posted to the
    worker, and as a running task.  Each event carries the clock readings it makes.  */
module Periodic {
  import opened Wrappers

  const NANOS_PER_MILLI := 1_000_000

  datatype Phase = Scheduled | Posted | Running

  /** The captured `start` and `nextDelay`, the clock reading of the scheduler, and the time point it
      computed from it. */
  datatype Instance = Instance(phase: Phase, start: int, nextDelay: int, armed: int, point: int)

  /** `instances` holds every live instance of the chain.  `targets` is history: for each arming the
      intended time T = start + nextDelay.  `gaps` is history: for each re-arming the time between
      the reading that computed the delay and the reading taken as the new start. */
  datatype Chain = Chain(period: int, now: int, instances: seq<Instance>, targets: seq<int>, gaps: seq<int>, ended: bool)

  datatype Event =
    | Tick(to: int)
    | Fire(i: nat)                      // the scheduler runs the function: it posts to the worker
    | StartTask(i: nat)                 // the worker thread takes the posted task
    | ReturnTrue(i: nat, delayRead: int, startRead: int, armRead: int)
    | ReturnFalse(i: nat)               // or the task throws
    | WorkerGone(i: nat)                // the weak pointer to the worker or scheduler has expired

  /** duration_cast to milliseconds truncates towards zero. */
  function Truncated(d: int): int {
    if d >= 0 then d - d % NANOS_PER_MILLI else -((-d) - (-d) % NANOS_PER_MILLI)
  }

  function Max(a: int, b: int): int {
    if a >= b then a else b
  }

  /** `ScheduleEvery(task, period, nextDelay)` reading the clock as `start`; the scheduler reads it
      again as `armRead` when it computes the point. */
  function Arm(start: int, nextDelay: int, armRead: int): Instance {
    Instance(Scheduled, start, nextDelay, armRead, armRead + Truncated(Max(nextDelay, 0)))
  }

  function Init(period: int, start: int, armRead: int): Chain {
    Chain(period, armRead, [Arm(start, period, armRead)], [start + period], [], false)
  }

  predicate Enabled(c: Chain, e: Event) {
    match e
    case Tick(to) => c.now <= to
    case Fire(i) => i < |c.instances| && c.instances[i].phase == Scheduled
    case StartTask(i) => i < |c.instances| && c.instances[i].phase == Posted
    case ReturnTrue(i, delayRead, startRead, armRead) =>
      && i < |c.instances| && c.instances[i].phase == Running
      && c.now <= delayRead <= startRead <= armRead
    case ReturnFalse(i) => i < |c.instances| && c.instances[i].phase == Running
    case WorkerGone(i) => i < |c.instances| && c.instances[i].phase != Running
  }

  function Gone(c: Chain, i: nat): seq<Instance>
    requires i < |c.instances|
  {
    c.instances[..i] + c.instances[i + 1..]
  }

  function Apply(c: Chain, e: Event): Chain
    requires Enabled(c, e)
  {
    match e
    case Tick(to) => c.(now := to)
    case Fire(i) => c.(instances := c.instances[i := c.instances[i].(phase := Posted)])
    case StartTask(i) => c.(instances := c.instances[i := c.instances[i].(phase := Running)])
    case ReturnTrue(i, delayRead, startRead, armRead) =>
      var x := c.instances[i];
      var delay := c.period - (delayRead - x.start - x.nextDelay);
      c.(instances := Gone(c, i) + [Arm(startRead, delay, armRead)], now := armRead,
         targets := c.targets + [startRead + delay], gaps := c.gaps + [startRead - delayRead])
    case ReturnFalse(i) => c.(instances := Gone(c, i), ended := true)
    case WorkerGone(i) => c.(instances := Gone(c, i), ended := true)
  }

  function Exec(c: Chain, run: seq<Event>): Option<Chain> {
    if run == [] then Some(c)
    else
      var before := Exec(c, run[..|run| - 1]);
      var e := run[|run| - 1];
      if before.Some? && Enabled(before.value, e) then Some(Apply(before.value, e)) else None
  }

  function Sum(xs: seq<int>): int {
    if xs == [] then 0 else Sum(xs[..|xs| - 1]) + xs[|xs| - 1]
  }

  /** The point is the arming time if the delay is over already; otherwise the delay later, short by less
      than a millisecond, and exactly for whole milliseconds. */
  predicate OnTime(x: Instance) {
    if x.nextDelay <= 0 then x.point == x.armed
    else x.armed + x.nextDelay - NANOS_PER_MILLI < x.point <= x.armed + x.nextDelay
         && (x.nextDelay % NANOS_PER_MILLI == 0 ==> x.point == x.armed + x.nextDelay)
  }

  /** At most one instance, none once the chain has ended, and its target is the last one. */
  predicate Single(c: Chain) {
    && |c.instances| == (if c.ended then 0 else 1)
    && |c.targets| == |c.gaps| + 1
    && (forall i :: 0 <= i < |c.instances| ==>
          && c.instances[i].start + c.instances[i].nextDelay == c.targets[|c.targets| - 1]
          && c.instances[i].point > c.targets[|c.targets| - 1] - NANOS_PER_MILLI
          && OnTime(c.instances[i]))
    && (forall k :: 0 <= k < |c.gaps| ==> c.gaps[k] >= 0)
  }

  predicate OnGrid(c: Chain) {
    && |c.targets| == |c.gaps| + 1
    && (forall k :: 0 <= k < |c.targets| ==> c.targets[k] == c.targets[0] + k * c.period + Sum(c.gaps[..k]))
  }

  lemma ArmedPoint(start: int, nextDelay: int, armRead: int)
    requires start <= armRead
    ensures Arm(start, nextDelay, armRead).point > start + nextDelay - NANOS_PER_MILLI
    ensures OnTime(Arm(start, nextDelay, armRead))
  {
    assert Max(nextDelay, 0) % NANOS_PER_MILLI < NANOS_PER_MILLI;
  }

  lemma StepKeeps(c: Chain, e: Event)
    requires Single(c) && OnGrid(c) && Enabled(c, e)
    ensures Single(Apply(c, e)) && OnGrid(Apply(c, e))
    ensures Apply(c, e).period == c.period && c.targets <= Apply(c, e).targets
    ensures c.ended ==> Apply(c, e).ended && Apply(c, e).targets == c.targets
  {
    if e.ReturnTrue? {
      var x, c' := c.instances[0], Apply(c, e);
      var delay := c.period - (e.delayRead - x.start - x.nextDelay);
      ArmedPoint(e.startRead, delay, e.armRead);
      GridGrows(c, c', e.startRead - e.delayRead);
    }
  }

  lemma GridGrows(c: Chain, c': Chain, gap: int)
    requires OnGrid(c) && c'.gaps == c.gaps + [gap] && c'.period == c.period
    requires c'.targets == c.targets + [c.targets[|c.targets| - 1] + c.period + gap]
    ensures OnGrid(c')
  {
    var n := |c.gaps|;
    forall k | 0 <= k < |c'.targets|
      ensures c'.targets[k] == c'.targets[0] + k * c'.period + Sum(c'.gaps[..k])
    {
      if k <= n {
        assert c'.gaps[..k] == c.gaps[..k];
      } else {
        assert c'.gaps[..k] == c.gaps + [gap] && c.gaps[..n] == c.gaps;
        assert (c.gaps + [gap])[..n] == c.gaps;
        assert (n + 1) * c.period == n * c.period + c.period;
      }
    }
  }

  lemma {:induction false} RunsKeep(period: int, start: int, armRead: int, run: seq<Event>)
    requires start <= armRead && Exec(Init(period, start, armRead), run).Some?
    ensures var c := Exec(Init(period, start, armRead), run).value;
      Single(c) && OnGrid(c) && c.period == period && c.targets[0] == start + period
  {
    if run == [] {
      ArmedPoint(start, period, armRead);
    } else {
      RunsKeep(period, start, armRead, run[..|run| - 1]);
      StepKeeps(Exec(Init(period, start, armRead), run[..|run| - 1]).value, run[|run| - 1]);
    }
  }

  /** Lateness does not accumulate.  However late the task runs and however long it takes, and even
      when the corrected delay is negative, the k-th target is T_0 + k * period plus the time that
      passed between the two clock readings of each re-arming. */
  lemma NoDrift(period: int, start: int, armRead: int, run: seq<Event>, k: nat)
    requires start <= armRead && Exec(Init(period, start, armRead), run).Some?
    requires k < |Exec(Init(period, start, armRead), run).value.targets|
    ensures var c := Exec(Init(period, start, armRead), run).value;
      && k <= |c.gaps|
      && c.targets[k] == (start + period) + k * period + Sum(c.gaps[..k])
      && Sum(c.gaps[..k]) >= 0
  {
    RunsKeep(period, start, armRead, run);
    var c := Exec(Init(period, start, armRead), run).value;
    SumNonNegative(c.gaps[..k]);
  }

  lemma {:induction false} SumNonNegative(xs: seq<int>)
    requires forall i :: 0 <= i < |xs| ==> xs[i] >= 0
    ensures Sum(xs) >= 0
  {
    if xs != [] { SumNonNegative(xs[..|xs| - 1]); }
  }

  /** A chain never has more than one instance scheduled, posted or running; its point is the arming time
      plus the non-negative delay, short by less than a millisecond, and so later than the target minus
      one millisecond; and there is none once the task returned false. */
  lemma OneInstance(period: int, start: int, armRead: int, run: seq<Event>)
    requires start <= armRead && Exec(Init(period, start, armRead), run).Some?
    ensures var c := Exec(Init(period, start, armRead), run).value;
      && |c.instances| <= 1
      && (c.ended <==> c.instances == [])
      && (forall x :: x in c.instances ==> x.point > x.start + x.nextDelay - NANOS_PER_MILLI && OnTime(x))
  {
    RunsKeep(period, start, armRead, run);
  }

  /** The life of an instance: the scheduler posts it, the worker starts it, and a task that returns true is
      armed again, one period and one gap after the last target; one that returns false ends the chain. */
  lemma ChainGoesOn(c: Chain, delayRead: int, startRead: int, armRead: int)
    requires Single(c) && !c.ended
    ensures c.instances[0].phase == Scheduled ==>
      Enabled(c, Fire(0)) && Apply(c, Fire(0)).instances == [c.instances[0].(phase := Posted)]
    ensures c.instances[0].phase == Posted ==>
      Enabled(c, StartTask(0)) && Apply(c, StartTask(0)).instances == [c.instances[0].(phase := Running)]
    ensures c.instances[0].phase == Running && c.now <= delayRead <= startRead <= armRead ==>
      var c' := Apply(c, ReturnTrue(0, delayRead, startRead, armRead));
      && |c'.instances| == 1 && !c'.ended && c'.instances[0].phase == Scheduled && c'.instances[0].armed == armRead
      && c'.targets == c.targets + [c.targets[|c.targets| - 1] + c.period + (startRead - delayRead)]
    ensures c.instances[0].phase == Running ==> Apply(c, ReturnFalse(0)).ended
  {
  }

  /** Once a chain has ended it never arms again. */
  lemma {:induction false} EndedStaysEnded(c: Chain, more: seq<Event>)
    requires Single(c) && OnGrid(c) && c.ended && Exec(c, more).Some?
    ensures var c' := Exec(c, more).value;
      Single(c') && OnGrid(c') && c'.ended && c'.instances == [] && c'.targets == c.targets
  {
    if more != [] {
      EndedStaysEnded(c, more[..|more| - 1]);
      StepKeeps(Exec(c, more[..|more| - 1]).value, more[|more| - 1]);
    }
  }
}
