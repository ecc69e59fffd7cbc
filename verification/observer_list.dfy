/** base/observer_list.h: a vector of observers with index-based iterators that stay usable while
    observers are added and removed.  Removal only marks an entry while iterators are live; the last
    iterator compacts the vector.  Between two steps of a pass over the list the client may add,
    remove, clear, and start, copy or finish other passes.  */
module ObserverList {
  import opened Wrappers

  datatype Entry = Live(observer: nat) | Removed

  datatype Visit = Visit(position: nat, observer: nat)

  /** `maxIndex` is None for the ALL policy (no limit).  The rest is history: the observers visited,
      whether the current position has been, and the positions left without having been read. */
  datatype Iter = Iter(index: nat, maxIndex: Option<nat>, visits: seq<Visit>, seen: bool, unread: set<nat>)

  datatype State = State(observers: seq<Entry>, existingOnly: bool, iters: map<nat, Iter>, nextIter: nat)

  datatype Event =
    | Add(observer: nat)
    | Remove(observer: nat)
    | Clear
    | Begin                // of a range-for loop: the new iterator gets number `nextIter`
    | Copy(it: nat)
    | Dereference(it: nat)
    | Increment(it: nat)
    | Destroy(it: nat)

  function Init(existingOnly: bool): State {
    State([], existingOnly, map[], 0)
  }

  predicate HasObserver(observers: seq<Entry>, o: nat) {
    Live(o) in observers
  }

  function Find(observers: seq<Entry>, o: nat): (i: nat)
    ensures i <= |observers|
    ensures i < |observers| ==> observers[i] == Live(o)
    ensures forall j :: 0 <= j < i ==> observers[j] != Live(o)
  {
    if observers == [] || observers[0] == Live(o) then 0 else 1 + Find(observers[1..], o)
  }

  function Compacted(observers: seq<Entry>): seq<Entry> {
    if observers == [] then []
    else if observers[0].Removed? then Compacted(observers[1..])
    else [observers[0]] + Compacted(observers[1..])
  }

  /** `clamped_max_index` */
  function Bound(it: Iter, observers: seq<Entry>): nat {
    if it.maxIndex.Some? && it.maxIndex.value < |observers| then it.maxIndex.value else |observers|
  }

  predicate AtEnd(it: Iter, observers: seq<Entry>) {
    it.index == Bound(it, observers)
  }

  /** `EnsureValidIndex` */
  function Settle(observers: seq<Entry>, index: nat, bound: nat): (i: nat)
    requires bound <= |observers|
    ensures index <= i
    ensures index <= bound ==> i <= bound
    ensures i < bound ==> observers[i].Live?
    ensures forall j :: index <= j < i ==> j < bound && observers[j].Removed?
    decreases bound - index
  {
    if index < bound && observers[index].Removed? then Settle(observers, index + 1, bound) else index
  }

  function NewIter(s: State): Iter {
    var start := Iter(0, if s.existingOnly then Some(|s.observers|) else None, [], false, {});
    start.(index := Settle(s.observers, 0, Bound(start, s.observers)))
  }

  function Visited(it: Iter, observers: seq<Entry>): Iter
    requires it.index < |observers| && observers[it.index].Live?
  {
    if it.seen then it
    else it.(visits := it.visits + [Visit(it.index, observers[it.index].observer)], seen := true)
  }

  function Incremented(it: Iter, observers: seq<Entry>): Iter {
    it.(index := Settle(observers, it.index + 1, Bound(it, observers)), seen := false,
        unread := if it.seen then it.unread else it.unread + {it.index})
  }

  predicate Enabled(s: State, e: Event) {
    match e
    case Add(_) => true
    case Remove(_) => true
    case Clear => true
    case Begin => true
    case Copy(it) => it in s.iters
    case Dereference(it) =>
      it in s.iters && !AtEnd(s.iters[it], s.observers) && s.iters[it].index < |s.observers|
      && s.observers[s.iters[it].index].Live?
    case Increment(it) => it in s.iters && !AtEnd(s.iters[it], s.observers)
    case Destroy(it) => it in s.iters
  }

  function Marked(observers: seq<Entry>): seq<Entry> {
    seq(|observers|, _ => Removed)
  }

  function Apply(s: State, e: Event): State
    requires Enabled(s, e)
  {
    match e
    case Add(o) => if HasObserver(s.observers, o) then s else s.(observers := s.observers + [Live(o)])
    case Remove(o) =>
      var i := Find(s.observers, o);
      if i == |s.observers| then s
      else if s.iters == map[] then s.(observers := s.observers[..i] + s.observers[i + 1..])
      else s.(observers := s.observers[i := Removed])
    case Clear => s.(observers := if s.iters == map[] then [] else Marked(s.observers))
    case Begin =>
      if s.observers == [] then s
      else s.(iters := s.iters[s.nextIter := NewIter(s)], nextIter := s.nextIter + 1)
    case Copy(it) => s.(iters := s.iters[s.nextIter := s.iters[it]], nextIter := s.nextIter + 1)
    case Dereference(it) => s.(iters := s.iters[it := Visited(s.iters[it], s.observers)])
    case Increment(it) => s.(iters := s.iters[it := Incremented(s.iters[it], s.observers)])
    case Destroy(it) =>
      s.(iters := s.iters - {it},
         observers := if s.iters.Keys == {it} then Compacted(s.observers) else s.observers)
  }

  function Exec(s: State, run: seq<Event>): Option<State> {
    if run == [] then Some(s)
    else
      var before := Exec(s, run[..|run| - 1]);
      var e := run[|run| - 1];
      if before.Some? && Enabled(before.value, e) then Some(Apply(before.value, e)) else None
  }
}

module ObserverListSafety {
  import opened Wrappers
  import opened ObserverList

  /** The list a client sees: the observers not removed, in insertion order. */
  function View(observers: seq<Entry>): seq<nat> {
    if observers == [] then []
    else if observers[0].Live? then [observers[0].observer] + View(observers[1..])
    else View(observers[1..])
  }

  ghost predicate Distinct(observers: seq<Entry>) {
    forall i, j :: 0 <= i < j < |observers| && observers[i].Live? ==> observers[i] != observers[j]
  }

  ghost predicate NoneRemoved(observers: seq<Entry>) {
    forall i :: 0 <= i < |observers| ==> observers[i].Live?
  }

  /** A pass has visited strictly increasing positions, nothing at or behind its index except possibly
      the index itself, and every live entry before its index except those it left unread. */
  ghost predicate IterOk(it: Iter, observers: seq<Entry>) {
    && (it.maxIndex.Some? ==> it.maxIndex.value <= |observers|)
    && it.index <= Bound(it, observers)
    && (forall a, b :: 0 <= a < b < |it.visits| ==> it.visits[a].position < it.visits[b].position)
    && (forall a :: 0 <= a < |it.visits| ==>
          it.visits[a].position < Bound(it, observers) && VisitOk(it.visits[a], it, observers))
    && (forall i :: 0 <= i < it.index && observers[i].Live? ==>
          i in it.unread || Visit(i, observers[i].observer) in it.visits)
    && (forall i :: i in it.unread ==> i < it.index)
    && (it.seen ==> it.visits != [] && it.visits[|it.visits| - 1].position == it.index)
  }

  predicate VisitOk(v: Visit, it: Iter, observers: seq<Entry>) {
    && (v.position < it.index || (v.position == it.index && it.seen))
    && v.position < |observers| && v.position !in it.unread
    && (observers[v.position].Live? ==> observers[v.position].observer == v.observer)
  }

  ghost predicate Inv(s: State) {
    && Distinct(s.observers)
    && (s.iters == map[] ==> NoneRemoved(s.observers))
    && (forall k :: k in s.iters ==> k < s.nextIter && IterOk(s.iters[k], s.observers))
    && (forall k :: k in s.iters ==> s.iters[k].maxIndex.Some? == s.existingOnly)
  }

  /** While iterators are live the vector only grows, and entries only change to removed. */
  ghost predicate Evolves(before: seq<Entry>, after: seq<Entry>) {
    && |before| <= |after|
    && (forall i :: 0 <= i < |before| ==> after[i] == before[i] || after[i].Removed?)
  }

  lemma IterEvolves(it: Iter, before: seq<Entry>, after: seq<Entry>)
    requires IterOk(it, before) && Evolves(before, after)
    ensures IterOk(it, after)
  {
  }

  lemma NewIterOk(s: State)
    ensures IterOk(NewIter(s), s.observers)
  {
  }

  lemma VisitedOk(it: Iter, observers: seq<Entry>)
    requires IterOk(it, observers) && it.index < Bound(it, observers) && observers[it.index].Live?
    ensures IterOk(Visited(it, observers), observers)
  {
    var it' := Visited(it, observers);
    forall i | 0 <= i < it'.index && observers[i].Live?
      ensures i in it'.unread || Visit(i, observers[i].observer) in it'.visits
    {
      assert i in it.unread || Visit(i, observers[i].observer) in it.visits;
    }
  }

  lemma IncrementedOk(it: Iter, observers: seq<Entry>)
    requires IterOk(it, observers) && it.index < Bound(it, observers)
    ensures IterOk(Incremented(it, observers), observers)
  {
    var it' := Incremented(it, observers);
    forall i | 0 <= i < it'.index && observers[i].Live?
      ensures i in it'.unread || Visit(i, observers[i].observer) in it'.visits
    {
      if i == it.index && it.seen {
        assert VisitOk(it.visits[|it.visits| - 1], it, observers);
      }
    }
  }

  lemma {:induction false} CompactedContents(observers: seq<Entry>)
    ensures NoneRemoved(Compacted(observers))
    ensures forall x :: x in Compacted(observers) <==> x in observers && x.Live?
    ensures View(Compacted(observers)) == View(observers)
  {
    if observers != [] {
      CompactedContents(observers[1..]);
      assert observers == [observers[0]] + observers[1..];
      if observers[0].Live? {
        assert ([observers[0]] + Compacted(observers[1..]))[1..] == Compacted(observers[1..]);
      }
    }
  }

  lemma {:induction false} CompactedDistinct(observers: seq<Entry>)
    requires Distinct(observers)
    ensures Distinct(Compacted(observers))
  {
    if observers != [] {
      CompactedDistinct(observers[1..]);
      CompactedContents(observers[1..]);
      var rest := Compacted(observers[1..]);
      forall j | 0 <= j < |rest| && observers[0].Live? ensures rest[j] != observers[0] {
        assert rest[j] in observers[1..];
      }
    }
  }

  lemma EvolvesKeeps(s: State, after: seq<Entry>)
    requires Inv(s) && s.iters != map[] && Evolves(s.observers, after) && Distinct(after)
    ensures Inv(s.(observers := after))
  {
    forall k | k in s.iters { IterEvolves(s.iters[k], s.observers, after); }
  }

  lemma AddKeeps(s: State, o: nat)
    requires Inv(s)
    ensures Inv(Apply(s, Add(o)))
  {
    if !HasObserver(s.observers, o) && s.iters != map[] {
      EvolvesKeeps(s, s.observers + [Live(o)]);
    }
  }

  lemma RemoveKeeps(s: State, o: nat)
    requires Inv(s)
    ensures Inv(Apply(s, Remove(o)))
  {
    var i := Find(s.observers, o);
    if i < |s.observers| {
      if s.iters == map[] {
        ErasedOk(s.observers, i);
      } else {
        EvolvesKeeps(s, s.observers[i := Removed]);
      }
    }
  }

  lemma ErasedOk(observers: seq<Entry>, i: nat)
    requires Distinct(observers) && NoneRemoved(observers) && i < |observers|
    ensures var rest := observers[..i] + observers[i + 1..];
      Distinct(rest) && NoneRemoved(rest)
  {
    var rest := observers[..i] + observers[i + 1..];
    assert forall j :: 0 <= j < |rest| ==> rest[j] == observers[if j < i then j else j + 1];
  }

  lemma ClearKeeps(s: State)
    requires Inv(s)
    ensures Inv(Apply(s, Clear))
  {
    if s.iters != map[] {
      EvolvesKeeps(s, Marked(s.observers));
    }
  }

  lemma IterKeeps(s: State, k: nat, it: Iter, nextIter: nat)
    requires Inv(s) && IterOk(it, s.observers) && it.maxIndex.Some? == s.existingOnly
    requires k < nextIter && s.nextIter <= nextIter
    ensures Inv(s.(iters := s.iters[k := it], nextIter := nextIter))
  {
  }

  lemma DestroyKeeps(s: State, k: nat)
    requires Inv(s) && Enabled(s, Destroy(k))
    ensures Inv(Apply(s, Destroy(k)))
  {
    if s.iters.Keys == {k} {
      CompactedContents(s.observers);
      CompactedDistinct(s.observers);
      assert (s.iters - {k}).Keys == {};
    } else {
      var j :| j in s.iters.Keys && j != k;
      assert j in Apply(s, Destroy(k)).iters;
    }
  }

  lemma StepKeepsInv(s: State, e: Event)
    requires Inv(s) && Enabled(s, e)
    ensures Inv(Apply(s, e))
  {
    match e
    case Add(o) => AddKeeps(s, o);
    case Remove(o) => RemoveKeeps(s, o);
    case Clear => ClearKeeps(s);
    case Begin =>
      NewIterOk(s);
      IterKeeps(s, s.nextIter, NewIter(s), s.nextIter + 1);
    case Copy(k) => IterKeeps(s, s.nextIter, s.iters[k], s.nextIter + 1);
    case Dereference(k) =>
      VisitedOk(s.iters[k], s.observers);
      IterKeeps(s, k, Visited(s.iters[k], s.observers), s.nextIter);
    case Increment(k) =>
      IncrementedOk(s.iters[k], s.observers);
      IterKeeps(s, k, Incremented(s.iters[k], s.observers), s.nextIter);
    case Destroy(k) => DestroyKeeps(s, k);
  }

  lemma {:induction false} RunsKeepInv(existingOnly: bool, run: seq<Event>)
    requires Exec(Init(existingOnly), run).Some?
    ensures Inv(Exec(Init(existingOnly), run).value)
  {
    if run != [] {
      RunsKeepInv(existingOnly, run[..|run| - 1]);
      StepKeepsInv(Exec(Init(existingOnly), run[..|run| - 1]).value, run[|run| - 1]);
    }
  }

  // ----- the theorems -----

  /** Some iterator is live at every point of the run, not necessarily the same one. */
  ghost predicate AlwaysIterating(s: State, more: seq<Event>) {
    && (Exec(s, more).Some? ==> Exec(s, more).value.iters != map[])
    && (more != [] ==> AlwaysIterating(s, more[..|more| - 1]))
  }

  lemma IteratingStepEvolves(s: State, e: Event)
    requires Enabled(s, e) && s.iters != map[] && Apply(s, e).iters != map[]
    ensures Evolves(s.observers, Apply(s, e).observers)
  {
    if e.Destroy? { assert (s.iters - {e.it}).Keys == s.iters.Keys - {e.it}; }
  }

  /** As long as some iterator is live at every point, passes overlapping as they may, the vector only
      grows and entries only change to removed. */
  lemma {:induction false} VectorOnlyGrows(s: State, more: seq<Event>)
    requires Exec(s, more).Some? && AlwaysIterating(s, more)
    ensures Evolves(s.observers, Exec(s, more).value.observers)
  {
    if more != [] {
      VectorOnlyGrows(s, more[..|more| - 1]);
      IteratingStepEvolves(Exec(s, more[..|more| - 1]).value, more[|more| - 1]);
    }
  }

  /** One iterator that stays live keeps its bound and its visits. */
  lemma {:induction false} IteratorKeeps(s: State, more: seq<Event>, k: nat)
    requires Inv(s) && k in s.iters && Exec(s, more).Some? && k in Exec(s, more).value.iters
    ensures Inv(Exec(s, more).value)
    ensures Evolves(s.observers, Exec(s, more).value.observers)
    ensures s.iters[k].visits <= Exec(s, more).value.iters[k].visits
    ensures s.iters[k].maxIndex == Exec(s, more).value.iters[k].maxIndex
  {
    if more != [] {
      var before, e := Exec(s, more[..|more| - 1]).value, more[|more| - 1];
      StaysLive(s, more[..|more| - 1], k, e);
      IteratorKeeps(s, more[..|more| - 1], k);
      StepKeepsInv(before, e);
      StepEvolves(before, e, k);
    }
  }

  lemma StepEvolves(s: State, e: Event, k: nat)
    requires Enabled(s, e) && k in s.iters && k < s.nextIter && k in Apply(s, e).iters
    ensures Evolves(s.observers, Apply(s, e).observers)
    ensures s.iters[k].visits <= Apply(s, e).iters[k].visits
    ensures s.iters[k].maxIndex == Apply(s, e).iters[k].maxIndex
    ensures forall a :: |s.iters[k].visits| <= a < |Apply(s, e).iters[k].visits| ==>
      var v := Apply(s, e).iters[k].visits[a];
      v.position < |s.observers| && s.observers[v.position] == Live(v.observer)
  {
  }

  /** Observers added during a pass come behind its bound and are never visited under EXISTING_ONLY. */
  lemma ExistingOnlyIgnoresAdditions(run: seq<Event>, more: seq<Event>)
    requires Exec(Init(true), run).Some? && Exec(Init(true), run).value.observers != []
    requires var s := Exec(Init(true), run).value; var started := Apply(s, Begin);
      Exec(started, more).Some? && s.nextIter in Exec(started, more).value.iters
    ensures var s := Exec(Init(true), run).value; var started := Apply(s, Begin);
      var visits := Exec(started, more).value.iters[s.nextIter].visits;
      forall a :: 0 <= a < |visits| ==> visits[a].position < |s.observers|
  {
    var s := Exec(Init(true), run).value;
    RunsKeepInv(true, run);
    PolicyFixed(true, run);
    StepKeepsInv(s, Begin);
    IteratorKeeps(Apply(s, Begin), more, s.nextIter);
  }

  /** Iterator numbers are not reused. */
  lemma {:induction false} StaysLive(s: State, more: seq<Event>, k: nat, e: Event)
    requires k < s.nextIter && Exec(s, more).Some? && Enabled(Exec(s, more).value, e)
    requires k in Apply(Exec(s, more).value, e).iters
    ensures k in Exec(s, more).value.iters && k < Exec(s, more).value.nextIter
  {
    if more != [] {
      NumbersGrow(s, more);
    }
  }

  lemma {:induction false} NumbersGrow(s: State, more: seq<Event>)
    requires Exec(s, more).Some?
    ensures s.nextIter <= Exec(s, more).value.nextIter
  {
    if more != [] { NumbersGrow(s, more[..|more| - 1]); }
  }

  /** Without a live iterator the vector holds no removed entry. */
  lemma CompactWithoutIterators(existingOnly: bool, run: seq<Event>)
    requires Exec(Init(existingOnly), run).Some? && Exec(Init(existingOnly), run).value.iters == map[]
    ensures NoneRemoved(Exec(Init(existingOnly), run).value.observers)
  {
    RunsKeepInv(existingOnly, run);
  }

  /** A pass that has reached its end has visited, once each and in insertion order, every observer
      that is still in the list and within its bound, unless the caller went on without reading it;
      under the ALL policy the bound is the whole list, additions included, under EXISTING_ONLY it is
      the length at the start of the pass. */
  lemma FullPass(existingOnly: bool, run: seq<Event>, k: nat, i: nat)
    requires Exec(Init(existingOnly), run).Some?
    requires var s := Exec(Init(existingOnly), run).value;
      k in s.iters && AtEnd(s.iters[k], s.observers) && i < |s.observers| && s.observers[i].Live?
    ensures var s := Exec(Init(existingOnly), run).value;
      var it := s.iters[k];
      && (existingOnly <==> it.maxIndex.Some?)
      && (it.maxIndex.Some? ==>
            (Visit(i, s.observers[i].observer) in it.visits <==> i < it.maxIndex.value && i !in it.unread))
      && (it.maxIndex.None? ==> (Visit(i, s.observers[i].observer) in it.visits <==> i !in it.unread))
      && (forall a, b :: 0 <= a < b < |it.visits| ==> it.visits[a].position < it.visits[b].position)
  {
    RunsKeepInv(existingOnly, run);
    PolicyFixed(existingOnly, run);
    var s := Exec(Init(existingOnly), run).value;
    assert IterOk(s.iters[k], s.observers);
  }

  lemma {:induction false} PolicyFixed(existingOnly: bool, run: seq<Event>)
    requires Exec(Init(existingOnly), run).Some?
    ensures Exec(Init(existingOnly), run).value.existingOnly == existingOnly
  {
    if run != [] { PolicyFixed(existingOnly, run[..|run| - 1]); }
  }

  /** An observer removed before its turn is not visited any more by a pass under way. */
  lemma {:induction false} RemovedNotVisited(s: State, more: seq<Event>, k: nat, i: nat)
    requires Inv(s) && k in s.iters && i < |s.observers| && s.observers[i].Removed?
    requires Exec(s, more).Some? && k in Exec(s, more).value.iters
    ensures var visits := Exec(s, more).value.iters[k].visits;
      && s.iters[k].visits <= visits
      && forall a :: |s.iters[k].visits| <= a < |visits| ==> visits[a].position != i
  {
    IteratorKeeps(s, more, k);
    if more != [] {
      var before, e := Exec(s, more[..|more| - 1]).value, more[|more| - 1];
      StaysLive(s, more[..|more| - 1], k, e);
      RemovedNotVisited(s, more[..|more| - 1], k, i);
      IteratorKeeps(s, more[..|more| - 1], k);
      StepEvolves(before, e, k);
    }
  }

  function WithoutObserver(view: seq<nat>, o: nat): seq<nat> {
    if view == [] then []
    else if view[0] == o then WithoutObserver(view[1..], o)
    else [view[0]] + WithoutObserver(view[1..], o)
  }

  /** What the client sees does not depend on iterators: adding appends once, removing takes the
      observer out, clearing empties, and nothing else changes the list. */
  lemma ViewIsAPlainList(s: State, e: Event)
    requires Inv(s) && Enabled(s, e)
    ensures var before, after := View(s.observers), View(Apply(s, e).observers);
      match e
      case Add(o) => after == if o in before then before else before + [o]
      case Remove(o) => after == WithoutObserver(before, o)
      case Clear => after == []
      case _ => after == before
  {
    match e
    case Add(o) =>
      ViewContents(s.observers, o);
      ViewConcat(s.observers, [Live(o)]);
      assert [Live(o)][1..] == [];
    case Remove(o) => ViewRemove(s, o);
    case Clear => ViewMarked(Marked(s.observers));
    case Destroy(_) => CompactedContents(s.observers);
    case _ =>
  }

  lemma {:induction false} ViewConcat(a: seq<Entry>, b: seq<Entry>)
    ensures View(a + b) == View(a) + View(b)
  {
    if a == [] {
      assert a + b == b;
    } else {
      assert (a + b)[1..] == a[1..] + b;
      ViewConcat(a[1..], b);
    }
  }

  lemma {:induction false} ViewContents(a: seq<Entry>, o: nat)
    ensures o in View(a) <==> Live(o) in a
  {
    if a != [] {
      ViewContents(a[1..], o);
      assert a == [a[0]] + a[1..];
    }
  }

  lemma {:induction false} ViewMarked(a: seq<Entry>)
    requires forall i :: 0 <= i < |a| ==> a[i].Removed?
    ensures View(a) == []
  {
    if a != [] { ViewMarked(a[1..]); }
  }

  lemma {:induction false} WithoutConcat(a: seq<nat>, b: seq<nat>, o: nat)
    ensures WithoutObserver(a + b, o) == WithoutObserver(a, o) + WithoutObserver(b, o)
  {
    if a == [] {
      assert a + b == b;
    } else {
      assert (a + b)[1..] == a[1..] + b;
      WithoutConcat(a[1..], b, o);
    }
  }

  lemma {:induction false} WithoutAbsent(a: seq<nat>, o: nat)
    requires o !in a
    ensures WithoutObserver(a, o) == a
  {
    if a != [] { WithoutAbsent(a[1..], o); }
  }

  lemma ViewRemove(s: State, o: nat)
    requires Distinct(s.observers)
    ensures View(Apply(s, Remove(o)).observers) == WithoutObserver(View(s.observers), o)
  {
    var i := Find(s.observers, o);
    if i == |s.observers| {
      ViewContents(s.observers, o);
      WithoutAbsent(View(s.observers), o);
    } else {
      ViewErased(s.observers, i, o);
    }
  }

  lemma ViewErased(observers: seq<Entry>, i: nat, o: nat)
    requires Distinct(observers) && i < |observers| && observers[i] == Live(o)
    ensures View(observers[..i] + observers[i + 1..]) == WithoutObserver(View(observers), o)
    ensures View(observers[i := Removed]) == WithoutObserver(View(observers), o)
  {
    Around(observers, i);
    ViewTakenOut(observers[..i], o, observers[i + 1..]);
  }

  lemma Around(observers: seq<Entry>, i: nat)
    requires Distinct(observers) && i < |observers| && observers[i].Live?
    ensures var a, b := observers[..i], observers[i + 1..];
      && observers[i] !in a && observers[i] !in b
      && observers == a + ([observers[i]] + b)
      && observers[i := Removed] == a + ([Removed] + b)
  {
  }

  lemma ViewTakenOut(a: seq<Entry>, o: nat, b: seq<Entry>)
    requires Live(o) !in a && Live(o) !in b
    ensures WithoutObserver(View(a + ([Live(o)] + b)), o) == View(a) + View(b)
    ensures View(a + ([Removed] + b)) == View(a) + View(b) == View(a + b)
  {
    SplitView(a, Live(o), b);
    SplitView(a, Removed, b);
    ViewConcat(a, b);
    ViewContents(a, o);
    ViewContents(b, o);
    TakenOut(View(a), o, View(b));
  }

  lemma TakenOut(a: seq<nat>, o: nat, b: seq<nat>)
    requires o !in a && o !in b
    ensures WithoutObserver(a + ([o] + b), o) == a + b
  {
    WithoutConcat(a, [o] + b, o);
    WithoutAbsent(a, o);
    WithoutAbsent(b, o);
    assert ([o] + b)[1..] == b;
    assert WithoutObserver([o] + b, o) == b;
  }

  lemma SplitView(a: seq<Entry>, x: Entry, b: seq<Entry>)
    ensures View(a + ([x] + b)) == View(a) + if x.Live? then [x.observer] + View(b) else View(b)
  {
    ViewConcat(a, [x] + b);
    assert ([x] + b)[1..] == b;
  }
}

/** base/observer_list.h as code, on the vector and the table of live iterators. */
module ObserverListCode {
  import opened Wrappers
  import opened ObserverList

  datatype Position = Position(index: nat, maxIndex: Option<nat>)

  class ObserverVector {
    const existingOnly: bool
    var observers: seq<Entry>
    var liveIterators: map<nat, Position>
    var nextIterator: nat
    ghost var model: State

    ghost predicate Valid()
      reads this
    {
      && observers == model.observers && existingOnly == model.existingOnly && nextIterator == model.nextIter
      && liveIterators.Keys == model.iters.Keys
      && (forall k :: k in liveIterators ==>
            liveIterators[k] == Position(model.iters[k].index, model.iters[k].maxIndex))
    }

    constructor (existingOnly: bool)
      ensures Valid() && model == Init(existingOnly)
    {
      this.existingOnly := existingOnly;
      observers, liveIterators, nextIterator, model := [], map[], 0, Init(existingOnly);
    }

    static method FindObserver(observers: seq<Entry>, obs: nat) returns (i: nat)
      ensures i == Find(observers, obs)
    {
      i := 0;
      while i < |observers| && observers[i] != Live(obs)
        invariant 0 <= i <= |observers|
        invariant forall j :: 0 <= j < i ==> observers[j] != Live(obs)
      {
        i := i + 1;
      }
    }

    method AddObserver(obs: nat)
      requires Valid()
      modifies this
      ensures Valid() && model == Apply(old(model), Add(obs))
    {
      model := Apply(model, Add(obs));
      var i := FindObserver(observers, obs);
      if i < |observers| {
        return;
      }
      observers := observers + [Live(obs)];
    }

    method RemoveObserver(obs: nat)
      requires Valid()
      modifies this
      ensures Valid() && model == Apply(old(model), Remove(obs))
    {
      model := Apply(model, Remove(obs));
      var it := FindObserver(observers, obs);
      if it == |observers| {
        return;
      }
      if liveIterators == map[] {
        observers := observers[..it] + observers[it + 1..];
      } else {
        observers := observers[it := Removed];
      }
    }

    method ClearAll()
      requires Valid()
      modifies this
      ensures Valid() && model == Apply(old(model), Clear)
    {
      model := Apply(model, Clear);
      if liveIterators == map[] {
        observers := [];
      } else {
        var i := 0;
        while i < |observers|
          invariant 0 <= i <= |observers| == |old(observers)|
          invariant forall j :: 0 <= j < i ==> observers[j] == Removed
          invariant liveIterators == old(liveIterators) && nextIterator == old(nextIterator)
          invariant model == Apply(old(model), Clear)
        {
          observers := observers[i := Removed];
          i := i + 1;
        }
        assert observers == Marked(old(observers));
      }
    }

    static method EnsureValidIndex(observers: seq<Entry>, index: nat, maxIndex: nat) returns (i: nat)
      requires maxIndex <= |observers|
      ensures i == Settle(observers, index, maxIndex)
    {
      i := index;
      while i < maxIndex && observers[i].Removed?
        invariant index <= i
        invariant Settle(observers, index, maxIndex) == Settle(observers, i, maxIndex)
      {
        i := i + 1;
      }
    }

    static method Compact(observers: seq<Entry>) returns (kept: seq<Entry>)
      ensures kept == Compacted(observers)
    {
      kept := [];
      for i := 0 to |observers|
        invariant kept + Compacted(observers[i..]) == Compacted(observers)
      {
        assert observers[i..][1..] == observers[i + 1..];
        if observers[i].Live? {
          kept := kept + [observers[i]];
        }
      }
    }

    method DestroyIterator(it: nat)
      requires Valid() && it in liveIterators
      modifies this
      ensures Valid() && model == Apply(old(model), Destroy(it))
    {
      model := Apply(model, Destroy(it));
      if liveIterators.Keys == {it} {
        observers := Compact(observers);
      }
      liveIterators := liveIterators - {it};
    }

    static function ClampedMaxIndex(at: Position, size: nat): nat {
      if at.maxIndex.Some? && at.maxIndex.value < size then at.maxIndex.value else size
    }

    /** `begin()`: an empty list hands out an iterator that is not attached to it. */
    method BeginIteration() returns (it: Option<nat>)
      requires Valid()
      modifies this
      ensures Valid() && model == Apply(old(model), Begin)
      ensures it == if old(observers) == [] then None else Some(old(nextIterator))
    {
      model := Apply(model, Begin);
      if observers == [] {
        return None;
      }
      var at := Position(0, if existingOnly then Some(|observers|) else None);
      var index := EnsureValidIndex(observers, 0, ClampedMaxIndex(at, |observers|));
      liveIterators := liveIterators[nextIterator := at.(index := index)];
      nextIterator := nextIterator + 1;
      return Some(nextIterator - 1);
    }

    method GetCurrent(it: nat) returns (obs: nat)
      requires Valid() && Enabled(model, Dereference(it))
      modifies this
      ensures Valid() && model == Apply(old(model), Dereference(it))
      ensures observers[liveIterators[it].index] == Live(obs)
    {
      model := Apply(model, Dereference(it));
      return observers[liveIterators[it].index].observer;
    }

    method IncrementIterator(it: nat)
      requires Valid() && Enabled(model, Increment(it))
      modifies this
      ensures Valid() && model == Apply(old(model), Increment(it))
    {
      var at := liveIterators[it];
      var index := EnsureValidIndex(observers, at.index + 1, ClampedMaxIndex(at, |observers|));
      model := Apply(model, Increment(it));
      liveIterators := liveIterators[it := at.(index := index)];
    }
  }
}
