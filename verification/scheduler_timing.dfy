/** Start times.  A function never starts before its time point if and only if there is a single
    service thread: with several, a thread that timed out for a function another thread has already
    taken runs the next one without looking at the clock again.  */
module SchedulerTiming {
  import opened Wrappers
  import opened Scheduler

  predicate NoEarlyStart(s: State) {
    forall k :: 0 <= k < |s.started| ==> s.started[k].task.point <= s.started[k].time
  }

  /** While the only thread waits with a deadline, the head can only be replaced by an earlier one. */
  predicate DeadlineCoversHead(s: State) {
    && |s.threads| == 1
    && (s.threads[0].TimedParked? || s.threads[0].Unblocked? ==>
          s.queue != [] && s.queue[0].point <= s.threads[0].deadline)
  }

  lemma SingleThreadStep(s: State, e: Event)
    requires DeadlineCoversHead(s) && NoEarlyStart(s) && Enabled(s, e)
    ensures DeadlineCoversHead(Apply(s, e)) && NoEarlyStart(Apply(s, e))
  {
  }

  lemma {:induction false} SingleThreadNeverEarly(now: int, run: seq<Event>)
    requires Exec(Init(1, now), run).Some?
    ensures DeadlineCoversHead(Exec(Init(1, now), run).value)
    ensures NoEarlyStart(Exec(Init(1, now), run).value)
  {
    if run != [] {
      SingleThreadNeverEarly(now, run[..|run| - 1]);
      SingleThreadStep(Exec(Init(1, now), run[..|run| - 1]).value, run[|run| - 1]);
    }
  }

  lemma ExecAppend(s: State, run: seq<Event>, e: Event)
    requires Exec(s, run).Some? && Enabled(Exec(s, run).value, e)
    ensures Exec(s, run + [e]) == Some(Apply(Exec(s, run).value, e))
  {
    assert (run + [e])[..|run + [e]| - 1] == run;
  }

  /** Two threads wait for the same function; the second one then takes a function that is not due. */
  lemma SeveralThreadsCanBeEarly(n: nat, now: int) returns (run: seq<Event>)
    requires n >= 2
    ensures Exec(Init(n, now), run).Some? && !NoEarlyStart(Exec(Init(n, now), run).value)
  {
    var init := Init(n, now);
    var soon, late := Task(now + 10, 0), Task(now + 100, 1);
    run := [];
    ExecAppend(init, run, Schedule(soon.point));  run := run + [Schedule(soon.point)];
    ExecAppend(init, run, Schedule(late.point));  run := run + [Schedule(late.point)];
    assert Insert([soon], late) == [soon] + Insert([soon][1..], late);
    assert Exec(init, run).value.queue == [soon, late];
    ExecAppend(init, run, Acquire(0, false));     run := run + [Acquire(0, false)];
    ExecAppend(init, run, Acquire(1, false));     run := run + [Acquire(1, false)];
    ExecAppend(init, run, Tick(now + 10));        run := run + [Tick(now + 10)];
    ExecAppend(init, run, Wake(0));               run := run + [Wake(0)];
    ExecAppend(init, run, Wake(1));               run := run + [Wake(1)];
    ExecAppend(init, run, Acquire(0, true));      run := run + [Acquire(0, true)];
    assert Exec(init, run).value.queue == [late];
    ExecAppend(init, run, Acquire(1, true));      run := run + [Acquire(1, true)];
    assert Exec(init, run).value.started[1] == Start(late, now + 10);
  }

  ghost predicate NeverEarly(n: nat, now: int) {
    forall run :: Exec(Init(n, now), run).Some? ==> NoEarlyStart(Exec(Init(n, now), run).value)
  }

  lemma NeverEarlyIffSingleThread(n: nat, now: int)
    requires n > 0
    ensures NeverEarly(n, now) <==> n == 1
  {
    if n == 1 {
      forall run | Exec(Init(n, now), run).Some?
        ensures NoEarlyStart(Exec(Init(n, now), run).value)
      {
        SingleThreadNeverEarly(now, run);
      }
    } else {
      var run := SeveralThreadsCanBeEarly(n, now);
    }
  }
}
