/** What the scheduler does do: a thread whose wait has expired takes the first function, a thread leaves
    exactly when it is told to, and a drain can always be completed by the threads that are left.  */
module SchedulerProgress {
  import opened Wrappers
  import opened Scheduler
  import opened SchedulerSafety

  // ----- one step -----

  /** A thread whose timed wait expired takes and starts the first function, in both stop modes, unless
      Stop(false) was called. */
  lemma ExpiredWaitStartsFirst(s: State, t: nat)
    requires Enabled(s, Acquire(t, true)) && s.queue != [] && !s.stopRequested
    ensures var s' := Apply(s, Acquire(t, true));
      && s'.started == s.started + [Start(s.queue[0], s.now)]
      && s'.threads == s.threads[t := Running(s.queue[0])]
      && s.queue == [s.queue[0]] + s'.queue
  {
  }

  /** A thread that gets the lock leaves if and only if Stop(false) was called, or Stop(true) and nothing is
      queued. */
  lemma ThreadLeavesIff(s: State, t: nat, expired: bool)
    requires Enabled(s, Acquire(t, expired))
    ensures Apply(s, Acquire(t, expired)).threads[t].Exited?
       <==> s.stopRequested || (s.stopWhenEmpty && s.queue == [])
  {
  }

  /** Otherwise it waits: without a deadline for a first function, with one until that function is due. */
  lemma ThreadWaitsIff(s: State, t: nat, expired: bool)
    requires Enabled(s, Acquire(t, expired)) && !s.stopRequested
    ensures var next := Apply(s, Acquire(t, expired)).threads[t];
      && (next.Parked? <==> s.queue == [] && !s.stopWhenEmpty)
      && (next.TimedParked? <==> s.queue != [] && !expired)
      && (next.TimedParked? ==> next.deadline == s.queue[0].point)
  {
  }

  /** A scheduled function is queued, under the next number, and a notification is owed. */
  lemma ScheduleQueues(s: State, point: int)
    ensures var s' := Apply(s, Schedule(point)); var task := Task(point, |s.scheduled|);
      && s'.scheduled == s.scheduled + [task] && multiset(s'.queue) == multiset(s.queue) + multiset{task}
      && task in s'.queue && s'.owedOne == s.owedOne + 1
      && s'.threads == s.threads && s'.finished == s.finished && s'.started == s.started
  {
    InsertContents(s.queue, Task(point, |s.scheduled|));
    InsertMembers(s.queue, Task(point, |s.scheduled|));
  }

  /** A notification takes waiting threads out of their wait: one of them, or all. */
  lemma NotificationsWake(s: State, t: nat, i: nat)
    requires i < |s.threads|
    ensures Enabled(s, NotifyOne(t)) ==>
      var s' := Apply(s, NotifyOne(t));
      WantsLock(s'.threads[t]) && s'.owedOne == s.owedOne - 1 && (i != t ==> s'.threads[i] == s.threads[i])
    ensures Enabled(s, NotifyAll) ==>
      var s' := Apply(s, NotifyAll);
      && s'.owedAll == s.owedAll - 1 && |s'.threads| == |s.threads|
      && (if Waiting(s.threads[i]) then WantsLock(s'.threads[i]) else s'.threads[i] == s.threads[i])
  {
  }

  /** Which flag a stop sets. */
  lemma StopSetsFlag(s: State, drain: bool)
    ensures var s' := Apply(s, RequestStop(drain));
      && s'.stopWhenEmpty == (s.stopWhenEmpty || drain) && s'.stopRequested == (s.stopRequested || !drain)
      && s'.queue == s.queue && s'.threads == s.threads && s'.owedAll == s.owedAll + 1
  {
  }

  /** From the call of Stop(false) on, no function is taken from the queue. */
  lemma AfterStopNothingStarts(s: State, more: seq<Event>)
    requires Exec(Apply(s, RequestStop(false)), more).Some?
    ensures var s' := Exec(Apply(s, RequestStop(false)), more).value;
      s'.stopRequested && s'.started == s.started && multiset(s.queue) <= multiset(s'.queue)
  {
    StopRequestedStartsNothing(Apply(s, RequestStop(false)), more);
  }

  // ----- completing a drain -----

  /** A continuation that schedules nothing and stops nothing, and what it leaves alone. */
  ghost predicate Leads(s: State, more: seq<Event>, s': State) {
    && Exec(s, more) == Some(s')
    && s'.scheduled == s.scheduled && s'.stopWhenEmpty == s.stopWhenEmpty && s'.stopRequested == s.stopRequested
    && |s'.threads| == |s.threads|
  }

  lemma {:induction false} ExecConcat(s: State, a: seq<Event>, b: seq<Event>)
    requires Exec(s, a).Some?
    ensures Exec(s, a + b) == Exec(Exec(s, a).value, b)
    decreases |b|
  {
    if b == [] {
      assert a + b == a;
    } else {
      ExecConcat(s, a, b[..|b| - 1]);
      assert (a + b)[..|a + b| - 1] == a + b[..|b| - 1];
    }
  }

  lemma Chain(s: State, a: seq<Event>, s1: State, b: seq<Event>, s2: State)
    requires Leads(s, a, s1) && Leads(s1, b, s2)
    ensures Leads(s, a + b, s2)
  {
    ExecConcat(s, a, b);
  }

  lemma One(s: State, e: Event)
    requires Enabled(s, e) && !e.Schedule? && !e.RequestStop?
    ensures Leads(s, [e], Apply(s, e))
  {
    assert [e][..0] == [];
  }

  lemma Then(s: State, a: seq<Event>, s1: State, e: Event) returns (more: seq<Event>, s2: State)
    requires Leads(s, a, s1) && Enabled(s1, e) && !e.Schedule? && !e.RequestStop?
    ensures Leads(s, more, s2) && s2 == Apply(s1, e)
  {
    One(s1, e);
    s2 := Apply(s1, e);
    Chain(s, a, s1, [e], s2);
    more := a + [e];
  }

  lemma Nothing(s: State)
    ensures Leads(s, [], s)
  {
  }

  /** Exactly one thread may differ. */
  predicate Others(s: State, s': State, t: nat) {
    && |s'.threads| == |s.threads|
    && (forall i :: 0 <= i < |s.threads| && i != t ==> s'.threads[i] == s.threads[i])
  }

  /** A thread that has not left can be brought to where it wants the lock. */
  lemma WantLock(s: State, t: nat) returns (more: seq<Event>, s': State)
    requires t < |s.threads| && !s.threads[t].Exited?
    ensures Leads(s, more, s') && Others(s, s', t) && s'.queue == s.queue && WantsLock(s'.threads[t])
  {
    Nothing(s);
    more, s' := [], s;
    if Waiting(s.threads[t]) {
      more, s' := Then(s, more, s', Wake(t));
    } else if s.threads[t].Running? {
      more, s' := Then(s, more, s', Return(t));
    }
  }

  /** One thread takes and finishes the first function. */
  lemma RunFirst(s: State, t: nat) returns (more: seq<Event>, s': State)
    requires t < |s.threads| && !s.threads[t].Exited? && s.queue != [] && !s.stopRequested
    ensures Leads(s, more, s') && Others(s, s', t) && s'.queue == s.queue[1..] && s'.threads[t].Returned?
  {
    more, s' := WantLock(s, t);
    more, s' := Then(s, more, s', Acquire(t, false));
    more, s' := Then(s, more, s', Wake(t));
    var point := s.queue[0].point;
    more, s' := Then(s, more, s', Tick(if s'.now < point then point else s'.now));
    more, s' := Then(s, more, s', Acquire(t, true));
    more, s' := Then(s, more, s', Return(t));
  }

  lemma EmptyQueue(s: State, t: nat) returns (more: seq<Event>, s': State)
    requires t < |s.threads| && !s.threads[t].Exited? && !s.stopRequested
    ensures Leads(s, more, s') && Others(s, s', t) && s'.queue == [] && !s'.threads[t].Exited?
    decreases |s.queue|
  {
    if s.queue == [] {
      Nothing(s);
      more, s' := [], s;
    } else {
      var first, s1 := RunFirst(s, t);
      var rest, s2 := EmptyQueue(s1, t);
      Chain(s, first, s1, rest, s2);
      more, s' := first + rest, s2;
    }
  }

  /** With nothing queued, the first k threads leave. */
  lemma LeaveUpTo(s: State, k: nat) returns (more: seq<Event>, s': State)
    requires s.queue == [] && s.stopWhenEmpty && k <= |s.threads|
    ensures Leads(s, more, s') && s'.queue == [] && forall i :: 0 <= i < k ==> s'.threads[i].Exited?
  {
    if k == 0 {
      Nothing(s);
      more, s' := [], s;
    } else {
      more, s' := LeaveUpTo(s, k - 1);
      if !s'.threads[k - 1].Exited? {
        var a, s1 := WantLock(s', k - 1);
        Chain(s, more, s', a, s1);
        more, s' := Then(s, more + a, s1, Acquire(k - 1, false));
      }
    }
  }

  /** Everything scheduled has finished, exactly once, and every thread has left. */
  ghost predicate Completed(s: State) {
    AllExited(s) && s.queue == [] && forall x: Task :: s.finished[x] == if x in s.scheduled then 1 else 0
  }

  ghost predicate CanComplete(s: State) {
    exists more, s' :: Leads(s, more, s') && Completed(s')
  }

  lemma AllLeftCompletes(s: State)
    requires Inv(s) && AllExited(s) && s.queue == []
    ensures Completed(s)
  {
    forall x: Task ensures s.finished[x] == if x in s.scheduled then 1 else 0 {
      UniformTable(s.threads, true, x);
      assert Balanced(s, x);
      if x in s.scheduled {
        var i :| 0 <= i < |s.scheduled| && s.scheduled[i] == x;
        OccursOnce(s.scheduled, i);
      }
    }
  }

  lemma {:induction false} InvAlong(s: State, more: seq<Event>)
    requires Inv(s) && Exec(s, more).Some?
    ensures Inv(Exec(s, more).value)
  {
    if more != [] {
      InvAlong(s, more[..|more| - 1]);
      StepKeepsInv(Exec(s, more[..|more| - 1]).value, more[|more| - 1]);
    }
  }

  /** Threads that have left do not come back, and then nothing is taken from the queue. */
  lemma {:induction false} LeftForGood(s: State, more: seq<Event>)
    requires AllExited(s) && Exec(s, more).Some?
    ensures AllExited(Exec(s, more).value) && |s.queue| <= |Exec(s, more).value.queue|
  {
    if more != [] {
      LeftForGood(s, more[..|more| - 1]);
      LeftStep(Exec(s, more[..|more| - 1]).value, more[|more| - 1]);
    }
  }

  lemma LeftStep(s: State, e: Event)
    requires AllExited(s) && Enabled(s, e)
    ensures AllExited(Apply(s, e)) && |s.queue| <= |Apply(s, e).queue|
  {
    if e.Schedule? { InsertLength(s.queue, Task(e.point, |s.scheduled|)); }
  }

  lemma {:induction false} InsertLength(queue: seq<Task>, task: Task)
    ensures |Insert(queue, task)| == |queue| + 1
  {
    if queue != [] && queue[0].point <= task.point { InsertLength(queue[1..], task); }
  }

  lemma CompleteDrain(s: State, t: nat) returns (more: seq<Event>, s': State)
    requires Inv(s) && s.stopWhenEmpty && !s.stopRequested
    requires s.queue == [] || (t < |s.threads| && !s.threads[t].Exited?)
    ensures Leads(s, more, s') && Completed(s')
  {
    Nothing(s);
    more, s' := [], s;
    if s.queue != [] { more, s' := EmptyQueue(s, t); }
    var rest, s2 := LeaveUpTo(s', |s'.threads|);
    Chain(s, more, s', rest, s2);
    more, s' := more + rest, s2;
    InvAlong(s, more);
    AllLeftCompletes(s');
  }

  /** A drain can be completed.  From every state reachable after Stop(true), and without Stop(false), some
      continuation runs everything scheduled and lets every thread leave, if and only if a thread is left or
      nothing is queued.  The exception is a function scheduled after the last thread has left. */
  lemma DrainCanCompleteIff(n: nat, now: int, run: seq<Event>)
    requires Exec(Init(n, now), run).Some?
    requires var s := Exec(Init(n, now), run).value; s.stopWhenEmpty && !s.stopRequested
    ensures var s := Exec(Init(n, now), run).value;
      CanComplete(s) <==> s.queue == [] || !AllExited(s)
  {
    var s := Exec(Init(n, now), run).value;
    RunsKeepInv(n, now, run);
    if s.queue == [] {
      var more, s' := CompleteDrain(s, 0);
    } else if !AllExited(s) {
      var t :| 0 <= t < |s.threads| && !s.threads[t].Exited?;
      var more, s' := CompleteDrain(s, t);
    } else if CanComplete(s) {
      var more, s' :| Leads(s, more, s') && Completed(s');
      LeftForGood(s, more);
      assert false;
    }
  }
}
