/** What a pass over the list does for its caller, in terms of events only: from `begin()` to the end, with a
    dereference before every increment, as a range-for loop does it.  */
module ObserverListPasses {
  import opened Wrappers
  import opened ObserverList
  import opened ObserverListSafety

  /** A new pass has visited nobody, stands at the first observer that is not removed, and is bounded by the
      present length under EXISTING_ONLY and not at all under ALL. */
  lemma BeginMeans(s: State, j: nat)
    requires s.observers != []
    ensures var s' := Apply(s, Begin);
      && s'.observers == s.observers && s.nextIter in s'.iters
      && (var it := s'.iters[s.nextIter];
          && it.visits == [] && it.unread == {} && !it.seen
          && it.maxIndex == (if s.existingOnly then Some(|s.observers|) else None)
          && it.index <= |s.observers| && (it.index < |s.observers| ==> s.observers[it.index].Live?)
          && (j < it.index ==> s.observers[j].Removed?))
  {
  }

  /** Visits are dereferences: nothing else adds one, and a dereference adds the observer at the index,
      once. */
  lemma VisitsAreReads(s: State, e: Event, k: nat)
    requires Enabled(s, e) && k in s.iters && k < s.nextIter && k in Apply(s, e).iters
    ensures var it, it' := s.iters[k], Apply(s, e).iters[k];
      && (e != Dereference(k) ==> it'.visits == it.visits)
      && (e == Dereference(k) ==>
            && it.index < |s.observers| && s.observers[it.index].Live? && it'.index == it.index
            && it'.visits == it.visits + if it.seen then [] else [Visit(it.index, s.observers[it.index].observer)])
  {
  }

  /** An increment goes to the next position that is not removed, or to the bound. */
  lemma IncrementMeans(s: State, k: nat, j: nat)
    requires Inv(s) && Enabled(s, Increment(k))
    ensures var it, it' := s.iters[k], Apply(s, Increment(k)).iters[k];
      && it.index < it'.index <= |s.observers| && !it'.seen && it'.maxIndex == it.maxIndex
      && (it.index < j < it'.index ==> s.observers[j].Removed?)
      && (!AtEnd(it', s.observers) ==> s.observers[it'.index].Live?)
  {
    assert IterOk(s.iters[k], s.observers);
  }

  /** A copy stands where the original stands, and moving one does not move the other. */
  lemma CopyMeans(s: State, k: nat, e: Event)
    requires Inv(s) && k in s.iters
    ensures var s' := Apply(s, Copy(k));
      && s.nextIter in s'.iters && s'.iters[s.nextIter] == s.iters[k] && s'.iters[k] == s.iters[k]
      && (Enabled(s', e) && (e == Increment(s.nextIter) || e == Dereference(s.nextIter)) ==>
            k in Apply(s', e).iters && Apply(s', e).iters[k] == s.iters[k])
  {
  }

  // ----- attentive runs -----

  /** Whether the last dereference or increment of an iterator was a dereference. */
  function LastTouch(run: seq<Event>, k: nat): Option<bool> {
    if run == [] then None
    else if run[|run| - 1] == Dereference(k) then Some(true)
    else if run[|run| - 1] == Increment(k) then Some(false)
    else LastTouch(run[..|run| - 1], k)
  }

  /** Every increment of an iterator follows a dereference of it. */
  predicate Attentive(run: seq<Event>) {
    run != [] ==>
      && Attentive(run[..|run| - 1])
      && (run[|run| - 1].Increment? ==> LastTouch(run[..|run| - 1], run[|run| - 1].it) == Some(true))
  }

  ghost predicate NothingUnread(s: State, run: seq<Event>) {
    && (forall k :: k in s.iters ==> k < s.nextIter && s.iters[k].unread == {})
    && (forall k :: k in s.iters && LastTouch(run, k) == Some(true) ==> s.iters[k].seen)
    && (forall k: nat :: LastTouch(run, k).Some? ==> k < s.nextIter)
  }

  lemma StepNothingUnread(s: State, before: seq<Event>, e: Event, run: seq<Event>)
    requires NothingUnread(s, before) && Enabled(s, e) && run == before + [e]
    requires e.Increment? ==> LastTouch(before, e.it) == Some(true)
    ensures NothingUnread(Apply(s, e), run)
  {
    assert run[..|run| - 1] == before;
    forall k ensures LastTouch(run, k)
      == if e == Dereference(k) then Some(true) else if e == Increment(k) then Some(false) else LastTouch(before, k)
    {
    }
  }

  lemma {:induction false} AttentiveRunsReadAll(existingOnly: bool, run: seq<Event>)
    requires Exec(Init(existingOnly), run).Some? && Attentive(run)
    ensures NothingUnread(Exec(Init(existingOnly), run).value, run)
  {
    if run != [] {
      var before, e := run[..|run| - 1], run[|run| - 1];
      AttentiveRunsReadAll(existingOnly, before);
      assert run == before + [e];
      StepNothingUnread(Exec(Init(existingOnly), before).value, before, e, run);
    }
  }

  lemma {:induction false} ExecConcat(s: State, a: seq<Event>, b: seq<Event>)
    requires Exec(s, a).Some?
    ensures Exec(s, a + b) == Exec(Exec(s, a).value, b)
    decreases |b|
  {
    if b == [] {
      assert a + b == a;
    } else {
      ExecConcat(s, a, b[..|b| - 1]);
      assert (a + b)[..|a + b| - 1] == a + b[..|b| - 1];
    }
  }

  lemma WholeRun(existingOnly: bool, run: seq<Event>, more: seq<Event>)
    requires Exec(Init(existingOnly), run).Some?
    ensures Exec(Init(existingOnly), run + [Begin] + more)
         == Exec(Apply(Exec(Init(existingOnly), run).value, Begin), more)
  {
    assert (run + [Begin])[..|run + [Begin]| - 1] == run;
    ExecConcat(Init(existingOnly), run + [Begin], more);
  }

  /** The pass theorem.  Begin a pass in any reachable state with observers, and let anything happen until it
      is at its end.  Of the observers in the list at that time it has visited exactly all of them under
      ALL, and under EXISTING_ONLY exactly those that were there when it began; in order, and each once. */
  lemma PassVisitsAll(existingOnly: bool, run: seq<Event>, more: seq<Event>, i: nat)
    requires Exec(Init(existingOnly), run).Some? && Exec(Init(existingOnly), run).value.observers != []
    requires Attentive(run + [Begin] + more)
    requires var s := Exec(Init(existingOnly), run).value; var start := Apply(s, Begin);
      && Exec(start, more).Some?
      && var s' := Exec(start, more).value;
         && s.nextIter in s'.iters && AtEnd(s'.iters[s.nextIter], s'.observers)
         && i < |s'.observers| && s'.observers[i].Live?
    ensures var s := Exec(Init(existingOnly), run).value; var s' := Exec(Apply(s, Begin), more).value;
      var visits := s'.iters[s.nextIter].visits;
      && (Visit(i, s'.observers[i].observer) in visits <==> !existingOnly || i < |s.observers|)
      && (forall a, b :: 0 <= a < b < |visits| ==> visits[a].position < visits[b].position)
  {
    var s := Exec(Init(existingOnly), run).value;
    var start, all := Apply(s, Begin), run + [Begin] + more;
    WholeRun(existingOnly, run, more);
    RunsKeepInv(existingOnly, run);
    PolicyFixed(existingOnly, run);
    BeginMeans(s, 0);
    StepKeepsInv(s, Begin);
    IteratorKeeps(start, more, s.nextIter);
    AttentiveRunsReadAll(existingOnly, all);
    FullPass(existingOnly, all, s.nextIter, i);
  }
}
