/** What a `Notify` does for its caller, in terms of events only: which callbacks have been run between its
    start and its end, whatever is added, cancelled and notified in between.  */
module CallbackListPasses {
  import opened Wrappers
  import opened CallbackList
  import opened CallbackListSafety

  predicate Registered(s: State, id: nat) {
    Node(id, true) in s.nodes
  }

  /** The callbacks run since an earlier state. */
  function Since(s: State, s': State): seq<nat>
    requires |s.runs| <= |s'.runs|
  {
    s'.runs[|s.runs|..]
  }

  /** A `Notify` starts a loop if and only if a callback is registered, and runs nothing by itself. */
  lemma NotifyStartsIff(s: State)
    ensures |Apply(s, Notify).frames| == |s.frames| + (if exists id :: Registered(s, id) then 1 else 0)
    ensures Apply(s, Notify).runs == s.runs && Apply(s, Notify).nodes == s.nodes
  {
    if Empty(s.nodes) {
      forall id ensures !Registered(s, id) {
        assert forall i :: 0 <= i < |s.nodes| ==> s.nodes[i] != Node(id, true);
      }
    } else {
      var i :| 0 <= i < |s.nodes| && s.nodes[i].live;
      assert Registered(s, s.nodes[i].id);
    }
  }

  /** Adding registers a new callback at the end and changes no other entry. */
  lemma AddRegisters(s: State)
    requires Inv(s)
    ensures var s' := Apply(s, Add);
      && s'.nodes == s.nodes + [Node(s.nextId, true)] && Registered(s', s.nextId) && !Registered(s, s.nextId)
      && s'.runs == s.runs && s'.iterating == s.iterating
  {
  }

  /** A cancelled callback is no longer registered, the others still are, and it is not run any more,
      whatever happens afterwards. */
  lemma CancelStops(run: seq<Event>, id: nat, more: seq<Event>, other: nat)
    requires Exec(Init(), run).Some? && Registered(Exec(Init(), run).value, id)
    requires Exec(Apply(Exec(Init(), run).value, Cancel(id)), more).Some?
    ensures var s := Exec(Init(), run).value; var s' := Apply(s, Cancel(id)); var s2 := Exec(s', more).value;
      && !Registered(s', id) && (other != id && Registered(s, other) ==> Registered(s', other))
      && |s.runs| <= |s2.runs| && id !in Since(s, s2)
  {
    var s := Exec(Init(), run).value;
    var s' := Apply(s, Cancel(id));
    RunsKeepInv(run);
    StepKeepsInv(s, Cancel(id));
    CancelledNeverRunsAgain(s', more, id);
    if other != id && Registered(s, other) { CancelKeepsOthers(s, other, id); }
  }

  // ----- from the start of a frame on -----

  /** The frame at depth d has not been left during the run. */
  ghost predicate Lasts(s: State, more: seq<Event>, d: nat) {
    && (Exec(s, more).Some? ==> |Exec(s, more).value.frames| > d)
    && (more != [] ==> Lasts(s, more[..|more| - 1], d))
  }

  /** What the frame at depth d has run was run after the start, and what it cannot reach any more was
      added after the start. */
  ghost predicate Follows(s: State, s': State, d: nat) {
    && s.nextId <= s'.nextId && s.runs <= s'.runs && d < |s'.frames|
    && (forall x :: x in s'.frames[d].ran ==> x in Since(s, s'))
    && (forall x :: x in s'.frames[d].late ==> x >= s.nextId)
  }

  lemma NotifyBegins(s: State)
    requires |Apply(s, Notify).frames| > |s.frames|
    ensures Follows(s, Apply(s, Notify), |s.frames|)
  {
  }

  lemma RunGrows(runs: seq<nat>, before: seq<nat>, x: nat, id: nat)
    requires before <= runs
    ensures before <= runs + [id] && (runs + [id])[|before|..] == runs[|before|..] + [id]
    ensures x in runs[|before|..] ==> x in (runs + [id])[|before|..]
    ensures id in (runs + [id])[|before|..]
  {
  }

  lemma IterateSince(s: State, s': State, d: nat)
    requires Follows(s, s', d) && s'.frames != [] && |Apply(s', Iterate).frames| > d
    ensures Follows(s, Apply(s', Iterate), d)
  {
    var next := NextValid(s'.nodes, Position(s'.nodes, Top(s').cursor));
    if next < |s'.nodes| {
      var id := s'.nodes[next].id;
      var s2 := RunNext(s', next);
      forall x | x in s2.frames[d].ran ensures x in Since(s, s2) {
        RunGrows(s'.runs, s.runs, x, id);
      }
    }
  }

  lemma StepSince(s: State, s': State, d: nat, e: Event)
    requires Follows(s, s', d) && Enabled(s', e) && |Apply(s', e).frames| > d
    ensures Follows(s, Apply(s', e), d)
  {
    match e
    case Iterate => IterateSince(s, s', d);
    case _ =>
  }

  lemma {:induction false} RunSince(s: State, more: seq<Event>)
    requires var start := Apply(s, Notify); Exec(start, more).Some? && Lasts(start, more, |s.frames|)
    ensures Follows(s, Exec(Apply(s, Notify), more).value, |s.frames|)
  {
    var start := Apply(s, Notify);
    if more == [] {
      NotifyBegins(s);
    } else {
      RunSince(s, more[..|more| - 1]);
      StepSince(s, Exec(start, more[..|more| - 1]).value, |s.frames|, more[|more| - 1]);
    }
  }

  // ----- a registered callback stays -----

  lemma {:induction false} PrunedKeeps(nodes: seq<Node>, n: Node)
    requires n in nodes && n.live
    ensures n in Pruned(nodes)
  {
    if nodes[0] != n { PrunedKeeps(nodes[1..], n); }
  }

  lemma CancelKeepsOthers(s: State, id: nat, other: nat)
    requires Registered(s, id) && Registered(s, other) && id != other
    ensures Registered(Apply(s, Cancel(other)), id)
  {
    var i :| 0 <= i < |s.nodes| && s.nodes[i] == Node(id, true);
    var j := IndexOf(s.nodes, other);
    var nodes' := Apply(s, Cancel(other)).nodes;
    if s.iterating {
      assert nodes'[i] == Node(id, true);
    } else {
      assert nodes'[if i < j then i else i - 1] == Node(id, true);
    }
  }

  /** Only its own cancellation takes a registered callback out. */
  lemma StaysRegistered(s: State, e: Event, id: nat)
    requires Enabled(s, e) && Registered(s, id) && e != Cancel(id)
    ensures Registered(Apply(s, e), id)
  {
    match e
    case Add => assert Apply(s, e).nodes == s.nodes + [Node(s.nextId, true)];
    case Cancel(other) => CancelKeepsOthers(s, id, other);
    case Notify =>
    case Iterate => PrunedKeeps(s.nodes, Node(id, true));
  }

  lemma {:induction false} RunStaysRegistered(s: State, more: seq<Event>, id: nat)
    requires Exec(s, more).Some? && Registered(s, id) && Cancel(id) !in more
    ensures Registered(Exec(s, more).value, id)
  {
    if more != [] {
      RunStaysRegistered(s, more[..|more| - 1], id);
      StaysRegistered(Exec(s, more[..|more| - 1]).value, more[|more| - 1], id);
    }
  }

  /** The top frame finds nothing more to run. */
  predicate Done(s: State) {
    s.frames != [] && NextValid(s.nodes, Position(s.nodes, Top(s).cursor)) == |s.nodes|
  }

  /** The pass theorem.  Start a `Notify` in any reachable state, and let anything happen until its loop is
      about to end, nested passes, additions and cancellations included.  Every callback that was registered
      at the start and has not been cancelled has been run since.  And whatever is registered at the end
      and was not run by this loop was added after its start. */
  lemma NotifyRunsAllRegistered(run: seq<Event>, more: seq<Event>, id: nat)
    requires Exec(Init(), run).Some?
    requires var start := Apply(Exec(Init(), run).value, Notify); var d := |Exec(Init(), run).value.frames|;
      && Exec(start, more).Some? && Lasts(start, more, d)
      && |Exec(start, more).value.frames| == d + 1 && Done(Exec(start, more).value)
    ensures var s := Exec(Init(), run).value; var s' := Exec(Apply(s, Notify), more).value;
      && |s.runs| <= |s'.runs|
      && (Registered(s, id) && Cancel(id) !in more ==> id in Since(s, s') && id in Top(s').ran)
      && (Registered(s', id) && id !in Top(s').ran ==> id >= s.nextId)
  {
    var s := Exec(Init(), run).value;
    var start := Apply(s, Notify);
    var s' := Exec(start, more).value;
    RunsKeepInv(run);
    StepKeepsInv(s, Notify);
    InvAlong(start, more);
    RunSince(s, more);
    if Registered(s, id) && Cancel(id) !in more { RunStaysRegistered(start, more, id); }
    if Registered(s', id) {
      var i :| 0 <= i < |s'.nodes| && s'.nodes[i] == Node(id, true);
      FinishedTop(s', i);
    }
    if Registered(s, id) {
      var j :| 0 <= j < |s.nodes| && s.nodes[j] == Node(id, true);
      assert s.nodes[j].id < s.nextId;
    }
  }

  lemma {:induction false} InvAlong(s: State, more: seq<Event>)
    requires Inv(s) && Exec(s, more).Some?
    ensures Inv(Exec(s, more).value)
  {
    if more != [] {
      InvAlong(s, more[..|more| - 1]);
      StepKeepsInv(Exec(s, more[..|more| - 1]).value, more[|more| - 1]);
    }
  }

  // ----- progress -----

  /** One round runs a registered callback of the list, or, if the frame is done, leaves its loop. */
  lemma RoundRunsOrLeaves(s: State)
    requires s.frames != []
    ensures var s' := Apply(s, Iterate);
      if Done(s) then s'.frames == s.frames[..|s.frames| - 1] && s'.runs == s.runs
      else |s'.frames| == |s.frames| && exists id :: Registered(s, id) && s'.runs == s.runs + [id]
  {
    if !Done(s) {
      var next := NextValid(s.nodes, Position(s.nodes, Top(s).cursor));
      assert s.nodes[next] == Node(s.nodes[next].id, true);
      assert Registered(s, s.nodes[next].id);
    }
  }

  /** Nothing but a round runs callbacks. */
  lemma OnlyRoundsRun(s: State, e: Event)
    requires Enabled(s, e) && e != Iterate
    ensures Apply(s, e).runs == s.runs
  {
  }

  function Rounds(n: nat): (run: seq<Event>)
    ensures |run| == n && forall i :: 0 <= i < n ==> run[i] == Iterate
  {
    seq(n, _ => Iterate)
  }

  lemma RoundMoves(s: State)
    requires Inv(s) && s.frames != [] && !Done(s)
    ensures var s' := Apply(s, Iterate);
      && s'.nodes == s.nodes && s'.frames != []
      && |s.nodes| - Position(s.nodes, Top(s').cursor) < |s.nodes| - Position(s.nodes, Top(s).cursor)
  {
    var next := NextValid(s.nodes, Position(s.nodes, Top(s).cursor));
    if next + 1 < |s.nodes| {
      assert IndexOf(s.nodes, s.nodes[next + 1].id) == next + 1;
    }
  }

  lemma ExecFirst(s: State, e: Event, more: seq<Event>)
    requires Enabled(s, e) && Exec(Apply(s, e), more).Some?
    ensures Exec(s, [e] + more) == Exec(Apply(s, e), more)
    decreases |more|
  {
    var all := [e] + more;
    if more == [] {
      assert all[..|all| - 1] == [];
    } else {
      ExecFirst(s, e, more[..|more| - 1]);
      assert all[..|all| - 1] == [e] + more[..|more| - 1];
    }
  }

  /** Left alone, every loop ends: after finitely many rounds the top frame is done. */
  lemma LoopEnds(s: State) returns (n: nat)
    requires Inv(s) && s.frames != []
    ensures Exec(s, Rounds(n)).Some? && Done(Exec(s, Rounds(n)).value)
    ensures |Exec(s, Rounds(n)).value.frames| == |s.frames|
    decreases |s.nodes| - Position(s.nodes, Top(s).cursor)
  {
    if Done(s) {
      n := 0;
      assert Rounds(0) == [];
    } else {
      RoundMoves(s);
      StepKeepsInv(s, Iterate);
      var m := LoopEnds(Apply(s, Iterate));
      n := m + 1;
      ExecFirst(s, Iterate, Rounds(m));
      assert Rounds(n) == [Iterate] + Rounds(m);
      RoundRunsOrLeaves(s);
    }
  }
}
