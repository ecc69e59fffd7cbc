/** The critical sections of thread/scheduler.cc as imperative code on the shared fields, each
    proved to do what the step system says. */
module SchedulerCode {
  import opened Scheduler

  class SharedQueue {
    var functionQueue: seq<Task>
    var stopRequested: bool
    var stopWhenEmpty: bool
    var threadCount: int

    constructor (threads: nat)
      ensures functionQueue == Init(threads, 0).queue && threadCount == Init(threads, 0).threadCount
      ensures !stopRequested && !stopWhenEmpty
    {
      functionQueue, threadCount := [], threads;
      stopRequested, stopWhenEmpty := false, false;
    }

    /** The locked part of `Stop`. */
    method RequestStop(drain: bool)
      modifies this
      ensures stopWhenEmpty == (old(stopWhenEmpty) || drain)
      ensures stopRequested == (old(stopRequested) || !drain)
      ensures functionQueue == old(functionQueue) && threadCount == old(threadCount)
    {
      if drain {
        stopWhenEmpty := true;
      } else {
        stopRequested := true;
      }
    }

    /** The locked part of `Schedule`: the upper bound of the equal keys is found by a scan. */
    method Emplace(task: Task)
      modifies this`functionQueue
      ensures functionQueue == Insert(old(functionQueue), task)
    {
      var i := 0;
      while i < |functionQueue| && functionQueue[i].point <= task.point
        invariant 0 <= i <= |functionQueue|
        invariant Insert(functionQueue, task) == functionQueue[..i] + Insert(functionQueue[i..], task)
      {
        assert functionQueue[i..][1..] == functionQueue[i + 1..];
        assert functionQueue[..i + 1] == functionQueue[..i] + [functionQueue[i]];
        i := i + 1;
      }
      functionQueue := functionQueue[..i] + [task] + functionQueue[i..];
    }

    /** `ProcessFunctionQueue` from the moment thread `at` holds the lock until it releases it.
        A wait or a function call releases the lock, so the method returns there. */
    method ProcessFunctionQueue(at: Pc, expired: bool) returns (next: Pc)
      requires WantsLock(at) && (expired ==> at.Unblocked?)
      modifies this
      ensures next == Resume(old(functionQueue), stopRequested, stopWhenEmpty, expired)
      ensures stopRequested == old(stopRequested) && stopWhenEmpty == old(stopWhenEmpty)
      ensures functionQueue == if next.Running? then old(functionQueue)[1..] else old(functionQueue)
      ensures threadCount == old(threadCount) - if next.Exited? then 1 else 0
    {
      var resuming := at.Unblocked?;
      var looping := at.Returned? ==> !stopRequested && !(stopWhenEmpty && functionQueue == []);
      while looping
        invariant functionQueue == old(functionQueue) && threadCount == old(threadCount)
        invariant stopRequested == old(stopRequested) && stopWhenEmpty == old(stopWhenEmpty)
        invariant resuming ==> at.Unblocked?
        invariant !resuming ==> !(expired && !stopRequested && functionQueue != [])
        invariant !looping ==> stopRequested || (stopWhenEmpty && functionQueue == [])
        decreases looping, resuming
      {
        var timedOut := resuming && expired;
        if !resuming && !stopRequested && !stopWhenEmpty && functionQueue == [] {
          return Parked;
        }
        if !timedOut && !stopRequested && functionQueue != [] {
          return TimedParked(functionQueue[0].point);
        }
        if stopRequested {
          break;
        }
        if functionQueue != [] {
          var f := functionQueue[0];
          functionQueue := functionQueue[1..];
          return Running(f);
        }
        resuming := false;
        looping := !stopRequested && !(stopWhenEmpty && functionQueue == []);
      }
      threadCount := threadCount - 1;
      return Exited;
    }
  }
}
