/** `RepeatingCallbackList` of base/callback_list.h under re-entrant use.

    Client code runs inside the callbacks, so between two iterations of a `Notify` loop anything may
    happen: additions, cancellations, and nested `Notify` calls that complete before the outer one
    goes on.  The step system keeps the stack of active `Notify` frames explicit; only the top frame
    can move.  A std::list iterator stays with its node, and the past-the-end iterator stays past the
    end even when nodes are appended.  */
module CallbackList {
  import opened Wrappers

  /** `live` is false once the callback has been reset. */
  datatype Node = Node(id: nat, live: bool)

  datatype Cursor = At(id: nat) | End

  /** `saved` is the value AutoReset restores.  The rest is history: the callbacks run so far, the
      entries passed because they were null, the number of entries passed, and the entries appended
      when the cursor was already past the end. */
  datatype Frame = Frame(saved: bool, cursor: Cursor, ran: seq<nat>, skipped: set<nat>, reach: nat, late: set<nat>)

  /** `runs`, `cancelled` and `removals` are history: all callbacks run, the subscriptions destroyed,
      and how often the removal callback was run. */
  datatype State = State(
    nodes: seq<Node>,
    iterating: bool,
    frames: seq<Frame>,
    nextId: nat,
    runs: seq<nat>,
    cancelled: set<nat>,
    removals: nat)

  datatype Event =
    | Add
    | Cancel(id: nat)
    | Notify
    | Iterate    // the top frame's loop: run the next callback, or leave the loop

  function Ids(nodes: seq<Node>): (ids: seq<nat>)
    ensures |ids| == |nodes|
    ensures forall i :: 0 <= i < |nodes| ==> ids[i] == nodes[i].id
  {
    if nodes == [] then [] else [nodes[0].id] + Ids(nodes[1..])
  }

  predicate Empty(nodes: seq<Node>) {
    forall i :: 0 <= i < |nodes| ==> !nodes[i].live
  }

  /** The position of a node, or the length if it is not in the list. */
  function IndexOf(nodes: seq<Node>, id: nat): (i: nat)
    ensures i <= |nodes|
    ensures i < |nodes| ==> nodes[i].id == id
    ensures forall j :: 0 <= j < i ==> nodes[j].id != id
  {
    if nodes == [] || nodes[0].id == id then 0 else 1 + IndexOf(nodes[1..], id)
  }

  /** std::find_if_not from a position. */
  function NextValid(nodes: seq<Node>, from: nat): (i: nat)
    requires from <= |nodes|
    ensures from <= i <= |nodes|
    ensures i < |nodes| ==> nodes[i].live
    ensures forall j :: from <= j < i ==> !nodes[j].live
    decreases |nodes| - from
  {
    if from == |nodes| || nodes[from].live then from else NextValid(nodes, from + 1)
  }

  function CursorAt(nodes: seq<Node>, i: nat): Cursor
    requires i <= |nodes|
  {
    if i < |nodes| then At(nodes[i].id) else End
  }

  function Position(nodes: seq<Node>, cursor: Cursor): nat {
    if cursor.End? then |nodes| else IndexOf(nodes, cursor.id)
  }

  function Pruned(nodes: seq<Node>): seq<Node> {
    if nodes == [] then []
    else if nodes[0].live then [nodes[0]] + Pruned(nodes[1..])
    else Pruned(nodes[1..])
  }

  function SetOf(ids: seq<nat>): set<nat> {
    set x | x in ids
  }

  function Top(s: State): Frame
    requires s.frames != []
  {
    s.frames[|s.frames| - 1]
  }

  function Init(): State {
    State([], false, [], 0, [], {}, 0)
  }

  predicate Enabled(s: State, e: Event) {
    match e
    case Add => true
    case Cancel(id) => Node(id, true) in s.nodes   // a subscription is destroyed once
    case Notify => true
    case Iterate => s.frames != []
  }

  function NoteLate(f: Frame, id: nat): Frame {
    if f.cursor.End? then f.(late := f.late + {id}) else f
  }

  function NoteLateAll(frames: seq<Frame>, id: nat): seq<Frame> {
    seq(|frames|, i requires 0 <= i < |frames| => NoteLate(frames[i], id))
  }

  function Apply(s: State, e: Event): State
    requires Enabled(s, e)
  {
    match e
    case Add =>
      s.(nodes := s.nodes + [Node(s.nextId, true)], nextId := s.nextId + 1,
         frames := NoteLateAll(s.frames, s.nextId))
    case Cancel(id) => Cancelled(s, id)
    case Notify =>
      if Empty(s.nodes) then s
      else s.(iterating := true,
              frames := s.frames + [Frame(s.iterating, CursorAt(s.nodes, 0), [], {}, 0, {})])
    case Iterate =>
      var next := NextValid(s.nodes, Position(s.nodes, Top(s).cursor));
      if next < |s.nodes| then RunNext(s, next) else Finish(s)
  }

  function Cancelled(s: State, id: nat): State
    requires Node(id, true) in s.nodes
  {
    var i := IndexOf(s.nodes, id);
    var marked := s.(cancelled := s.cancelled + {id});
    assert i < |s.nodes| by {
      var j :| 0 <= j < |s.nodes| && s.nodes[j] == Node(id, true);
    }
    if s.iterating then marked.(nodes := s.nodes[i := Node(id, false)])
    else marked.(nodes := s.nodes[..i] + s.nodes[i + 1..], removals := s.removals + 1)
  }

  /** `RunCallback(it++)`: the cursor is moved on before the callback runs. */
  function Advanced(f: Frame, nodes: seq<Node>, from: nat, next: nat): Frame
    requires from <= next < |nodes|
  {
    f.(cursor := CursorAt(nodes, next + 1),
       ran := f.ran + [nodes[next].id],
       skipped := f.skipped + SetOf(Ids(nodes[from..next])),
       reach := next + 1)
  }

  function RunNext(s: State, next: nat): State
    requires s.frames != [] && next < |s.nodes| && Position(s.nodes, Top(s).cursor) <= next
  {
    s.(frames := s.frames[|s.frames| - 1 := Advanced(Top(s), s.nodes, Position(s.nodes, Top(s).cursor), next)],
       runs := s.runs + [s.nodes[next].id])
  }

  /** Leaving the loop restores `iterating_`; only the outermost frame prunes. */
  function Finish(s: State): State
    requires s.frames != []
  {
    var left := s.(frames := s.frames[..|s.frames| - 1], iterating := Top(s).saved);
    if left.iterating then left
    else left.(nodes := Pruned(s.nodes),
               removals := if |Pruned(s.nodes)| < |s.nodes| then s.removals + 1 else s.removals)
  }

  function Exec(s: State, run: seq<Event>): Option<State> {
    if run == [] then Some(s)
    else
      var before := Exec(s, run[..|run| - 1]);
      var e := run[|run| - 1];
      if before.Some? && Enabled(before.value, e) then Some(Apply(before.value, e)) else None
  }
}

module CallbackListSafety {
  import opened Wrappers
  import opened CallbackList

  /** A sequence of ids without some of them, in order. */
  function Without(ids: seq<nat>, gone: set<nat>): seq<nat> {
    if ids == [] then []
    else if ids[0] in gone then Without(ids[1..], gone)
    else [ids[0]] + Without(ids[1..], gone)
  }

  ghost predicate Numbered(nodes: seq<Node>, nextId: nat) {
    && (forall i, j :: 0 <= i < j < |nodes| ==> nodes[i].id != nodes[j].id)
    && (forall i :: 0 <= i < |nodes| ==> nodes[i].id < nextId)
  }

  /** The cursor of a frame is in the list, and the frame has run, in list order, exactly the entries
      it has passed except those that were null when it passed them. */
  ghost predicate FrameOk(f: Frame, nodes: seq<Node>, nextId: nat) {
    && f.reach <= |nodes|
    && (f.cursor.At? ==> f.reach < |nodes| && nodes[f.reach].id == f.cursor.id && f.late == {})
    && (f.cursor.End? ==> f.late == SetOf(Ids(nodes[f.reach..])))
    && f.ran == Without(Ids(nodes[..f.reach]), f.skipped)
    && (forall i :: 0 <= i < |nodes| && nodes[i].id in f.skipped ==> !nodes[i].live && i < f.reach)
    && (forall id :: id in f.skipped ==> id < nextId)
  }

  ghost predicate FramesOk(s: State) {
    && (forall k :: 0 <= k < |s.frames| ==> FrameOk(s.frames[k], s.nodes, s.nextId))
    && (forall k :: 0 <= k < |s.frames| ==> s.frames[k].saved == (k > 0))
    && s.iterating == (s.frames != [])
  }

  ghost predicate Inv(s: State) {
    && Numbered(s.nodes, s.nextId)
    && FramesOk(s)
    && (s.frames == [] ==> forall i :: 0 <= i < |s.nodes| ==> s.nodes[i].live)
    && (forall i :: 0 <= i < |s.nodes| && s.nodes[i].id in s.cancelled ==> !s.nodes[i].live)
    && (forall id :: id in s.cancelled ==> id < s.nextId)
  }

  // ----- sequences of ids -----

  lemma {:induction false} WithoutConcat(a: seq<nat>, b: seq<nat>, gone: set<nat>)
    ensures Without(a + b, gone) == Without(a, gone) + Without(b, gone)
  {
    if a == [] {
      assert a + b == b;
    } else {
      assert (a + b)[1..] == a[1..] + b;
      WithoutConcat(a[1..], b, gone);
    }
  }

  lemma {:induction false} WithoutAll(a: seq<nat>, gone: set<nat>)
    requires forall x :: x in a ==> x in gone
    ensures Without(a, gone) == []
  {
    if a != [] { WithoutAll(a[1..], gone); }
  }

  lemma {:induction false} WithoutMore(a: seq<nat>, gone: set<nat>, more: set<nat>)
    requires forall x :: x in a ==> x !in more
    ensures Without(a, gone + more) == Without(a, gone)
  {
    if a != [] { WithoutMore(a[1..], gone, more); }
  }

  lemma {:induction false} WithoutContents(a: seq<nat>, gone: set<nat>, x: nat)
    ensures x in Without(a, gone) <==> x in a && x !in gone
  {
    if a != [] { WithoutContents(a[1..], gone, x); }
  }

  lemma IdsSplit(nodes: seq<Node>, i: nat, j: nat)
    requires i <= j < |nodes|
    ensures Ids(nodes[..j + 1]) == (Ids(nodes[..i]) + Ids(nodes[i..j])) + [nodes[j].id]
  {
    var a, b := Ids(nodes[..i]), Ids(nodes[i..j]);
    assert |a + b| == j;
    assert forall k :: 0 <= k < j ==> (a + b)[k] == nodes[k].id;
  }

  /** With distinct ids, the ids of a slice are those of its positions only. */
  lemma InSlice(nodes: seq<Node>, nextId: nat, lo: nat, hi: nat, i: nat)
    requires Numbered(nodes, nextId) && lo <= hi <= |nodes| && i < |nodes|
    ensures nodes[i].id in SetOf(Ids(nodes[lo..hi])) <==> lo <= i < hi
  {
    var ids := Ids(nodes[lo..hi]);
    if nodes[i].id in SetOf(ids) {
      var j :| 0 <= j < |ids| && ids[j] == nodes[i].id;
      assert nodes[lo + j].id == nodes[i].id;
    }
    if lo <= i < hi {
      assert ids[i - lo] == nodes[i].id;
    }
  }

  // ----- frames -----

  lemma FrameAppend(f: Frame, nodes: seq<Node>, nextId: nat)
    requires FrameOk(f, nodes, nextId)
    ensures FrameOk(NoteLate(f, nextId), nodes + [Node(nextId, true)], nextId + 1)
  {
    var nodes' := nodes + [Node(nextId, true)];
    assert nodes'[..f.reach] == nodes[..f.reach];
    assert Ids(nodes'[f.reach..]) == Ids(nodes[f.reach..]) + [nextId];
  }

  lemma IdsReset(nodes: seq<Node>, i: nat, n: nat)
    requires i < |nodes| && n <= |nodes|
    ensures var nodes' := nodes[i := Node(nodes[i].id, false)];
      Ids(nodes'[..n]) == Ids(nodes[..n]) && Ids(nodes'[n..]) == Ids(nodes[n..])
  {
  }

  lemma FrameReset(f: Frame, nodes: seq<Node>, nextId: nat, i: nat)
    requires FrameOk(f, nodes, nextId) && i < |nodes|
    ensures FrameOk(f, nodes[i := Node(nodes[i].id, false)], nextId)
  {
    IdsReset(nodes, i, f.reach);
  }

  lemma PositionIsReach(f: Frame, nodes: seq<Node>, nextId: nat)
    requires FrameOk(f, nodes, nextId) && Numbered(nodes, nextId) && f.cursor.At?
    ensures Position(nodes, f.cursor) == f.reach
  {
  }

  lemma AdvancedRan(f: Frame, nodes: seq<Node>, nextId: nat, next: nat)
    requires FrameOk(f, nodes, nextId) && Numbered(nodes, nextId)
    requires f.reach <= next < |nodes| && nodes[next].live
    requires forall j :: f.reach <= j < next ==> !nodes[j].live
    ensures var passed := SetOf(Ids(nodes[f.reach..next]));
      f.ran + [nodes[next].id] == Without(Ids(nodes[..next + 1]), f.skipped + passed)
  {
    var done, between, id := Ids(nodes[..f.reach]), Ids(nodes[f.reach..next]), nodes[next].id;
    var gone := f.skipped + SetOf(between);
    IdsSplit(nodes, f.reach, next);
    WithoutConcat(done + between, [id], gone);
    WithoutConcat(done, between, gone);
    assert forall x :: x in done ==> x !in SetOf(between);
    WithoutMore(done, f.skipped, SetOf(between));
    WithoutAll(between, gone);
    assert id !in gone;
    assert Without([id], gone) == [id] + Without([id][1..], gone);
    assert [id][1..] == [];
  }

  lemma FrameAdvance(f: Frame, nodes: seq<Node>, nextId: nat, next: nat)
    requires FrameOk(f, nodes, nextId) && Numbered(nodes, nextId)
    requires f.reach <= next < |nodes| && nodes[next].live
    requires forall j :: f.reach <= j < next ==> !nodes[j].live
    requires f.late == {}
    ensures FrameOk(Advanced(f, nodes, f.reach, next), nodes, nextId)
  {
    AdvancedRan(f, nodes, nextId, next);
    Passed(f, nodes, nextId, next);
    if next + 1 == |nodes| {
      assert nodes[next + 1..] == [];
    }
  }

  lemma Passed(f: Frame, nodes: seq<Node>, nextId: nat, next: nat)
    requires FrameOk(f, nodes, nextId) && Numbered(nodes, nextId)
    requires f.reach <= next < |nodes| && forall j :: f.reach <= j < next ==> !nodes[j].live
    ensures var skipped := f.skipped + SetOf(Ids(nodes[f.reach..next]));
      && (forall i :: 0 <= i < |nodes| && nodes[i].id in skipped ==> !nodes[i].live && i < next + 1)
      && (forall id :: id in skipped ==> id < nextId)
  {
    var passed := SetOf(Ids(nodes[f.reach..next]));
    forall i | 0 <= i < |nodes| && nodes[i].id in f.skipped + passed
      ensures !nodes[i].live && i < next + 1
    {
      InSlice(nodes, nextId, f.reach, next, i);
    }
    forall id | id in passed ensures id < nextId {
      var j :| 0 <= j < next - f.reach && Ids(nodes[f.reach..next])[j] == id;
      assert nodes[f.reach + j].id == id;
    }
  }

  // ----- steps -----

  lemma AddKeeps(s: State)
    requires Inv(s)
    ensures Inv(Apply(s, Add))
  {
    forall k | 0 <= k < |s.frames| { FrameAppend(s.frames[k], s.nodes, s.nextId); }
  }

  lemma CancelKeeps(s: State, id: nat)
    requires Inv(s) && Enabled(s, Cancel(id))
    ensures Inv(Apply(s, Cancel(id)))
  {
    if s.iterating {
      ResetKeeps(s, id);
    } else {
      EraseKeeps(s, id);
    }
  }

  lemma ResetKeeps(s: State, id: nat)
    requires Inv(s) && Enabled(s, Cancel(id)) && s.iterating
    ensures Inv(Apply(s, Cancel(id)))
  {
    var i := IndexOf(s.nodes, id);
    assert i < |s.nodes|;
    forall k | 0 <= k < |s.frames| { FrameReset(s.frames[k], s.nodes, s.nextId, i); }
  }

  lemma EraseKeeps(s: State, id: nat)
    requires Inv(s) && Enabled(s, Cancel(id)) && !s.iterating
    ensures Inv(Apply(s, Cancel(id)))
  {
    var i := IndexOf(s.nodes, id);
    assert i < |s.nodes|;
    ErasedNumbered(s.nodes, s.nextId, i);
  }

  lemma ErasedNumbered(nodes: seq<Node>, nextId: nat, i: nat)
    requires Numbered(nodes, nextId) && i < |nodes|
    ensures Numbered(nodes[..i] + nodes[i + 1..], nextId)
    ensures var rest := nodes[..i] + nodes[i + 1..];
      && nodes[i].id !in Ids(rest)
      && forall j :: 0 <= j < |rest| ==> rest[j] == nodes[if j < i then j else j + 1]
  {
    var rest := nodes[..i] + nodes[i + 1..];
    assert forall j :: 0 <= j < |rest| ==> rest[j] == nodes[if j < i then j else j + 1];
  }

  lemma NotifyKeeps(s: State)
    requires Inv(s)
    ensures Inv(Apply(s, Notify))
  {
    if !Empty(s.nodes) {
      assert Ids(s.nodes[..0]) == [];
    }
  }

  lemma RunNextKeeps(s: State, next: nat)
    requires Inv(s) && s.frames != []
    requires next < |s.nodes| && next == NextValid(s.nodes, Position(s.nodes, Top(s).cursor))
    ensures Inv(RunNext(s, next))
  {
    assert Top(s).cursor.At?;
    PositionIsReach(Top(s), s.nodes, s.nextId);
    FrameAdvance(Top(s), s.nodes, s.nextId, next);
  }

  lemma {:induction false} PrunedContents(nodes: seq<Node>)
    ensures forall n :: n in Pruned(nodes) <==> n in nodes && n.live
  {
    if nodes != [] {
      PrunedContents(nodes[1..]);
      assert nodes == [nodes[0]] + nodes[1..];
    }
  }

  lemma {:induction false} PrunedLength(nodes: seq<Node>)
    ensures |Pruned(nodes)| <= |nodes|
    ensures |Pruned(nodes)| == |nodes| <==> forall i :: 0 <= i < |nodes| ==> nodes[i].live
  {
    if nodes != [] {
      PrunedLength(nodes[1..]);
      assert nodes == [nodes[0]] + nodes[1..];
    }
  }

  lemma {:induction false} PrunedNumbered(nodes: seq<Node>, nextId: nat)
    requires Numbered(nodes, nextId)
    ensures Numbered(Pruned(nodes), nextId)
  {
    if nodes != [] {
      var rest := Pruned(nodes[1..]);
      PrunedNumbered(nodes[1..], nextId);
      PrunedContents(nodes[1..]);
      forall j | 0 <= j < |rest| ensures rest[j].id != nodes[0].id {
        assert rest[j] in nodes[1..];
      }
    }
  }

  lemma FinishKeeps(s: State)
    requires Inv(s) && s.frames != []
    ensures Inv(Finish(s))
  {
    if |s.frames| == 1 {
      PrunedContents(s.nodes);
      PrunedNumbered(s.nodes, s.nextId);
      var pruned := Pruned(s.nodes);
      forall i | 0 <= i < |pruned| ensures pruned[i].live && pruned[i].id !in s.cancelled {
        assert pruned[i] in pruned;
      }
    }
  }

  lemma StepKeepsInv(s: State, e: Event)
    requires Inv(s) && Enabled(s, e)
    ensures Inv(Apply(s, e))
  {
    match e
    case Add => AddKeeps(s);
    case Cancel(id) => CancelKeeps(s, id);
    case Notify => NotifyKeeps(s);
    case Iterate =>
      var next := NextValid(s.nodes, Position(s.nodes, Top(s).cursor));
      if next < |s.nodes| { RunNextKeeps(s, next); } else { FinishKeeps(s); }
  }

  lemma {:induction false} RunsKeepInv(run: seq<Event>)
    requires Exec(Init(), run).Some?
    ensures Inv(Exec(Init(), run).value)
  {
    if run != [] {
      RunsKeepInv(run[..|run| - 1]);
      StepKeepsInv(Exec(Init(), run[..|run| - 1]).value, run[|run| - 1]);
    }
  }

  // ----- the theorems -----

  /** Safety of every nesting.  `iterating_` is set exactly while a `Notify` is active; every active
      cursor designates a node of the list or its end; and without an active `Notify` the list holds
      no null entry, so the outermost frame leaves none behind. */
  lemma CursorsStayValid(run: seq<Event>, k: nat)
    requires Exec(Init(), run).Some? && k < |Exec(Init(), run).value.frames|
    ensures var s := Exec(Init(), run).value; var f := s.frames[k];
      && s.iterating
      && (f.cursor.At? ==> exists i :: 0 <= i < |s.nodes| && s.nodes[i].id == f.cursor.id)
  {
    RunsKeepInv(run);
    var s := Exec(Init(), run).value;
    assert FrameOk(s.frames[k], s.nodes, s.nextId);
  }

  lemma NoNullsOutsideNotify(run: seq<Event>)
    requires Exec(Init(), run).Some? && Exec(Init(), run).value.frames == []
    ensures var s := Exec(Init(), run).value;
      !s.iterating && forall i :: 0 <= i < |s.nodes| ==> s.nodes[i].live
  {
    RunsKeepInv(run);
  }

  /** No node is unlinked while a `Notify` is active. */
  lemma NoUnlinkWhileNotifying(s: State, e: Event)
    requires Inv(s) && Enabled(s, e) && s.frames != [] && Apply(s, e).frames != []
    ensures Ids(s.nodes) <= Ids(Apply(s, e).nodes)
  {
    var s' := Apply(s, e);
    if e.Cancel? {
      assert Ids(s'.nodes) == Ids(s.nodes);
    }
  }

  /** What an active frame has done at any time: it has run, once each and in list order, exactly the
      entries it has passed except those that were null when it passed them. */
  lemma FrameRunsLiveEntriesInOrder(run: seq<Event>, k: nat, i: nat)
    requires Exec(Init(), run).Some? && k < |Exec(Init(), run).value.frames|
    requires i < |Exec(Init(), run).value.nodes|
    ensures var s := Exec(Init(), run).value; var f := s.frames[k]; var n := s.nodes[i];
      && f.reach <= |s.nodes|
      && f.ran == Without(Ids(s.nodes[..f.reach]), f.skipped)
      && (n.id in f.ran <==> i < f.reach && n.id !in f.skipped)
      && (n.id in f.skipped ==> i < f.reach && !n.live)
  {
    RunsKeepInv(run);
    var s := Exec(Init(), run).value;
    FrameRuns(s.frames[k], s.nodes, s.nextId, i);
  }

  lemma FrameRuns(f: Frame, nodes: seq<Node>, nextId: nat, i: nat)
    requires FrameOk(f, nodes, nextId) && Numbered(nodes, nextId) && i < |nodes|
    ensures nodes[i].id in f.ran <==> i < f.reach && nodes[i].id !in f.skipped
  {
    WithoutContents(Ids(nodes[..f.reach]), f.skipped, nodes[i].id);
    InSlice(nodes, nextId, 0, f.reach, i);
    assert nodes[0..f.reach] == nodes[..f.reach];
  }

  /** When a frame leaves its loop, every callback still registered has been run by it, except those
      added after its cursor had passed the end, that is, while its last callback was running. */
  lemma FinishedFrameIsComplete(run: seq<Event>, i: nat)
    requires Exec(Init(), run).Some? && Exec(Init(), run).value.frames != []
    requires var s := Exec(Init(), run).value;
      NextValid(s.nodes, Position(s.nodes, Top(s).cursor)) == |s.nodes|
    requires i < |Exec(Init(), run).value.nodes| && Exec(Init(), run).value.nodes[i].live
    ensures var s := Exec(Init(), run).value;
      s.nodes[i].id in Top(s).ran <==> s.nodes[i].id !in Top(s).late
  {
    var s := Exec(Init(), run).value;
    RunsKeepInv(run);
    FinishedTop(s, i);
  }

  lemma FinishedTop(s: State, i: nat)
    requires Inv(s) && s.frames != [] && i < |s.nodes| && s.nodes[i].live
    requires NextValid(s.nodes, Position(s.nodes, Top(s).cursor)) == |s.nodes|
    ensures s.nodes[i].id in Top(s).ran <==> s.nodes[i].id !in Top(s).late
  {
    FrameRuns(Top(s), s.nodes, s.nextId, i);
    FinishedFrame(Top(s), s.nodes, s.nextId, i);
  }

  lemma FinishedFrame(f: Frame, nodes: seq<Node>, nextId: nat, i: nat)
    requires FrameOk(f, nodes, nextId) && Numbered(nodes, nextId)
    requires NextValid(nodes, Position(nodes, f.cursor)) == |nodes| && i < |nodes| && nodes[i].live
    ensures i < f.reach && nodes[i].id !in f.skipped <==> nodes[i].id !in f.late
  {
    if f.cursor.At? {
      PositionIsReach(f, nodes, nextId);
    } else {
      InSlice(nodes, nextId, f.reach, |nodes|, i);
      assert nodes[f.reach..|nodes|] == nodes[f.reach..];
    }
  }

  /** A cancelled callback never runs again, whatever happens afterwards. */
  lemma {:induction false} CancelledNeverRunsAgain(s: State, more: seq<Event>, id: nat)
    requires Inv(s) && id in s.cancelled && Exec(s, more).Some?
    ensures var s' := Exec(s, more).value;
      && Inv(s') && id in s'.cancelled
      && s.runs <= s'.runs && id !in s'.runs[|s.runs|..]
  {
    if more != [] {
      CancelledNeverRunsAgain(s, more[..|more| - 1], id);
      var before, e := Exec(s, more[..|more| - 1]).value, more[|more| - 1];
      StepKeepsInv(before, e);
      CancelledStep(before, e, id);
    }
  }

  lemma CancelledStep(s: State, e: Event, id: nat)
    requires Inv(s) && id in s.cancelled && Enabled(s, e)
    ensures id in Apply(s, e).cancelled
    ensures Apply(s, e).runs == s.runs || exists x :: x != id && Apply(s, e).runs == s.runs + [x]
  {
    if e.Iterate? {
      var next := NextValid(s.nodes, Position(s.nodes, Top(s).cursor));
      if next < |s.nodes| {
        assert s.nodes[next].id != id;
        assert Apply(s, e).runs == s.runs + [s.nodes[next].id];
      }
    }
  }

  /** The removal callback runs exactly when nodes are unlinked. */
  lemma RemovalCallbackIffUnlinked(s: State, e: Event)
    requires Inv(s) && Enabled(s, e)
    ensures Apply(s, e).removals == s.removals + if |Apply(s, e).nodes| < |s.nodes| then 1 else 0
  {
    PrunedLength(s.nodes);
  }
}

/** base/callback_list.h as code: the list, the flag, and the local variables of the active `Notify`
    calls.  `Iterate` is one round of the notification loop. */
module CallbackListCode {
  import opened Wrappers
  import opened CallbackList

  datatype Activation = Activation(saved: bool, cursor: Cursor)

  class RepeatingCallbackList {
    var callbacks: seq<Node>
    var iterating: bool
    var active: seq<Activation>
    ghost var model: State

    ghost predicate Valid()
      reads this
    {
      && callbacks == model.nodes && iterating == model.iterating
      && |active| == |model.frames|
      && (forall k :: 0 <= k < |active| ==>
            active[k].saved == model.frames[k].saved && active[k].cursor == model.frames[k].cursor)
    }

    constructor ()
      ensures Valid() && model == Init()
    {
      callbacks, iterating, active := [], false, [];
      model := Init();
    }

    method Add(id: nat)
      requires Valid() && id == model.nextId
      modifies this
      ensures Valid() && model == Apply(old(model), Event.Add)
    {
      model := Apply(model, Event.Add);
      callbacks := callbacks + [Node(id, true)];
    }

    method CancelCallback(id: nat) returns (runRemovalCallback: bool)
      requires Valid() && Node(id, true) in callbacks
      modifies this
      ensures Valid() && model == Apply(old(model), Cancel(id))
      ensures runRemovalCallback <==> model.removals > old(model).removals
    {
      model := Apply(model, Cancel(id));
      var i := 0;
      while callbacks[i].id != id
        invariant 0 <= i < |callbacks| && callbacks == old(callbacks) && iterating == old(iterating)
        invariant forall j :: 0 <= j < i ==> callbacks[j].id != id
        decreases |callbacks| - i
      {
        i := i + 1;
      }
      assert i == IndexOf(callbacks, id);
      if iterating {
        callbacks := callbacks[i := Node(id, false)];
        return false;
      }
      callbacks := callbacks[..i] + callbacks[i + 1..];
      return true;
    }

    method IsEmpty() returns (empty: bool)
      ensures empty == Empty(callbacks)
    {
      for i := 0 to |callbacks|
        invariant forall j :: 0 <= j < i ==> !callbacks[j].live
      {
        if callbacks[i].live {
          return false;
        }
      }
      return true;
    }

    method BeginNotify()
      requires Valid()
      modifies this
      ensures Valid() && model == Apply(old(model), Notify)
    {
      var empty := IsEmpty();
      model := Apply(model, Notify);
      if empty {
        return;
      }
      active := active + [Activation(iterating, CursorAt(callbacks, 0))];
      iterating := true;
    }

    static method FindValid(nodes: seq<Node>, cursor: Cursor) returns (i: nat)
      ensures i == NextValid(nodes, Position(nodes, cursor))
    {
      if cursor.End? {
        return |nodes|;
      }
      i := 0;
      while i < |nodes| && nodes[i].id != cursor.id
        invariant 0 <= i <= |nodes|
        invariant forall j :: 0 <= j < i ==> nodes[j].id != cursor.id
      {
        i := i + 1;
      }
      assert i == IndexOf(nodes, cursor.id);
      while i < |nodes| && !nodes[i].live
        invariant Position(nodes, cursor) <= i <= |nodes|
        invariant NextValid(nodes, Position(nodes, cursor)) == NextValid(nodes, i)
      {
        i := i + 1;
      }
    }

    static method EraseNulls(nodes: seq<Node>) returns (kept: seq<Node>)
      ensures kept == Pruned(nodes)
    {
      kept := [];
      for i := 0 to |nodes|
        invariant kept + Pruned(nodes[i..]) == Pruned(nodes)
      {
        assert nodes[i..][1..] == nodes[i + 1..];
        if nodes[i].live {
          kept := kept + [nodes[i]];
        }
      }
    }

    /** Runs the next callback and returns its id, or leaves the loop of the innermost `Notify`. */
    method Iterate() returns (toRun: Option<nat>)
      requires Valid() && active != []
      modifies this
      ensures Valid() && model == Apply(old(model), Event.Iterate)
      ensures model.runs == old(model).runs + if toRun.Some? then [toRun.value] else []
    {
      var top := active[|active| - 1];
      var next := FindValid(callbacks, top.cursor);
      assert next == NextValid(model.nodes, Position(model.nodes, Top(model).cursor));
      if next < |callbacks| {
        model := RunNext(model, next);
        active := active[|active| - 1 := top.(cursor := CursorAt(callbacks, next + 1))];
        return Some(callbacks[next].id);
      }
      LeaveLoop();
      return None;
    }

    method LeaveLoop()
      requires Valid() && active != []
      modifies this
      ensures Valid() && model == Finish(old(model))
    {
      model := Finish(model);
      iterating := active[|active| - 1].saved;
      active := active[..|active| - 1];
      if !iterating {
        callbacks := EraseNulls(callbacks);
      }
    }
  }
}
