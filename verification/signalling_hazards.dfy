/** Null streams.  The maps of core/licode_room.cc get null entries from `operator[]`, and most handlers
    dereference what they find.  Exactly when a task can fault, and exactly which tasks keep the room free
    of remote null entries and of pending streams that are gone.  */
module SignallingHazards {
  import opened Wrappers
  import opened Signalling
  import opened SignallingFifo
  import opened SignallingRouting

  /** The task that an event executes on the worker thread. */
  function Executed(s: State, e: Event): Option<Msg> {
    match e
    case CallInline(m) => Some(m)
    case RunTask(_, _) => if s.worker != [] then Some(s.worker[0]) else None
    case _ => None
  }

  predicate HeldBy(m: Streams, id: nat, conn: string) {
    Live(m, id) && m[id].value.connId == conn
  }

  ghost predicate Held(m: Streams, conn: string) {
    exists id :: HeldBy(m, id, conn)
  }

  /** The queue an acknowledgement pops is not empty; `NeverPopsEmpty` shows that it never is. */
  predicate Poppable(r: Room, m: Msg) {
    m.Ack? ==> Book(r, m.kind).pending != []
  }

  // ----- searching -----

  lemma {:induction false} ScanNotNull(m: Streams, order: seq<nat>, conn: string)
    requires forall x :: x in order ==> x in m
    requires NoNulls(m)
    ensures Scan(m, order, conn) != Null
    ensures forall x :: x in order && m[x].value.connId == conn ==> Scan(m, order, conn).Hit?
  {
    if order != [] { ScanNotNull(m, order[1..], conn); }
  }

  lemma {:induction false} ScanMissMeans(m: Streams, order: seq<nat>, conn: string)
    requires forall x :: x in order ==> x in m
    requires Scan(m, order, conn) == Miss
    ensures forall x :: x in order ==> m[x].Some? && m[x].value.connId != conn
  {
    if order != [] { ScanMissMeans(m, order[1..], conn); }
  }

  /** Some order of the entries of a map, starting with a given one. */
  lemma OrderFrom(m: Streams, first: nat) returns (order: seq<nat>)
    requires first in m
    ensures IsOrder(order, m) && order[0] == first
  {
    var rest := OrderOf(m - {first});
    order := [first] + rest;
  }

  lemma OrderOf(m: Streams) returns (order: seq<nat>)
    ensures IsOrder(order, m)
    decreases |m|
  {
    if m.Keys == {} {
      order := [];
    } else {
      var x :| x in m.Keys;
      assert (m - {x}).Keys == m.Keys - {x};
      var rest := OrderOf(m - {x});
      order := [x] + rest;
    }
  }

  /** An order under which the search stops at a null entry. */
  lemma NullFirst(m: Streams, conn: string) returns (order: seq<nat>)
    requires !NoNulls(m)
    ensures IsOrder(order, m) && Scan(m, order, conn) == Null
  {
    var id :| id in m && m[id].None?;
    order := OrderFrom(m, id);
  }

  /** Searching a stream map is safe under every hash order exactly when it has no null entry. */
  lemma SearchSafeIffNoNulls(m: Streams, conn: string)
    ensures (forall order :: IsOrder(order, m) ==> Scan(m, order, conn) != Null) <==> NoNulls(m)
  {
    if NoNulls(m) {
      forall order | IsOrder(order, m) ensures Scan(m, order, conn) != Null {
        ScanNotNull(m, order, conn);
      }
    } else {
      var order := NullFirst(m, conn);
    }
  }

  // ----- when a task can fault -----

  /** Some hash order makes the task dereference a null stream. */
  ghost predicate MayFault(r: Room, up: bool, m: Msg) {
    exists ro, lo :: IsOrder(ro, r.remote) && IsOrder(lo, View(r.local)) && Handle(r, up, m, ro, lo).room.fault.Some?
  }

  /** The acknowledged stream is gone; a search meets a null entry, in the local map only if no remote
      stream holds the connection; a description for a stream that is not remote; a candidate for a
      stream that is neither remote nor local. */
  ghost predicate Hazard(r: Room, m: Msg)
    requires Poppable(r, m)
  {
    match m
    case Ack(k, _, _, _) => k == Subscribe && !Live(r.remote, r.sub.pending[0])
    case Offer(_) => !NoNulls(r.remote)
    case Ready(conn) => !NoNulls(r.remote) || (!Held(r.remote, conn) && !NoNulls(View(r.local)))
    case Ice(id) => !Live(r.remote, id) && !Live(View(r.local), id)
    case Sdp(id) => !Live(r.remote, id)
    case _ => false
  }

  lemma OfferFaultIff(r: Room, up: bool, conn: string)
    requires r.fault.None?
    ensures MayFault(r, up, Offer(conn)) <==> !NoNulls(r.remote)
  {
    if NoNulls(r.remote) {
      forall ro | IsOrder(ro, r.remote) { ScanNotNull(r.remote, ro, conn); }
    } else {
      var ro := NullFirst(r.remote, conn);
      var lo := OrderOf(View(r.local));
      assert Handle(r, up, Offer(conn), ro, lo).room.fault.Some?;
    }
  }

  lemma ReadySafe(r: Room, up: bool, conn: string, ro: seq<nat>, lo: seq<nat>)
    requires r.fault.None? && IsOrder(ro, r.remote) && IsOrder(lo, View(r.local))
    requires NoNulls(r.remote) && (Held(r.remote, conn) || NoNulls(View(r.local)))
    ensures Handle(r, up, Ready(conn), ro, lo).room.fault.None?
  {
    ScanNotNull(r.remote, ro, conn);
    if NoNulls(View(r.local)) { ScanNotNull(View(r.local), lo, conn); }
  }

  lemma ReadyFaultIff(r: Room, up: bool, conn: string)
    requires r.fault.None?
    ensures MayFault(r, up, Ready(conn)) <==> Hazard(r, Ready(conn))
  {
    if !NoNulls(r.remote) {
      var ro := NullFirst(r.remote, conn);
      var lo := OrderOf(View(r.local));
      assert Handle(r, up, Ready(conn), ro, lo).room.fault.Some?;
    } else if !Held(r.remote, conn) && !NoNulls(View(r.local)) {
      var ro := OrderOf(r.remote);
      var lo := NullFirst(View(r.local), conn);
      NotHeldMisses(r.remote, ro, conn);
      assert Handle(r, up, Ready(conn), ro, lo).room.fault.Some?;
    } else {
      forall ro, lo | IsOrder(ro, r.remote) && IsOrder(lo, View(r.local)) { ReadySafe(r, up, conn, ro, lo); }
    }
  }

  lemma NotHeldMisses(m: Streams, order: seq<nat>, conn: string)
    requires IsOrder(order, m) && NoNulls(m) && !Held(m, conn)
    ensures Scan(m, order, conn) == Miss
  {
    forall x | x in m ensures m[x].value.connId != conn {
      assert !HeldBy(m, x, conn);
    }
    ScanMisses(m, order, conn);
  }

  /** For every room that has not faulted and every task: some hash order makes the task dereference a
      null stream if and only if the hazard is there. */
  lemma FaultIff(r: Room, up: bool, m: Msg)
    requires r.fault.None? && Poppable(r, m)
    ensures MayFault(r, up, m) <==> Hazard(r, m)
  {
    if m.Offer? {
      OfferFaultIff(r, up, m.conn);
    } else if m.Ready? {
      ReadyFaultIff(r, up, m.conn);
    } else if Hazard(r, m) {
      var ro := OrderOf(r.remote);
      var lo := OrderOf(View(r.local));
      assert Handle(r, up, m, ro, lo).room.fault.Some?;
    }
  }

  lemma FaultingOrders(r: Room, up: bool, m: Msg) returns (ro: seq<nat>, lo: seq<nat>)
    requires r.fault.None? && Poppable(r, m) && Hazard(r, m)
    ensures IsOrder(ro, r.remote) && IsOrder(lo, View(r.local))
    ensures Handle(r, up, m, ro, lo).room.fault == Some(NullStream)
  {
    FaultIff(r, up, m);
    ro, lo :| IsOrder(ro, r.remote) && IsOrder(lo, View(r.local)) && Handle(r, up, m, ro, lo).room.fault.Some?;
    HandleBooks(r, up, m, ro, lo, Subscribe);
  }

  /** The same over runs: in every reachable state the task at the head of the worker can fault if and
      only if it is hazardous. */
  lemma NextTaskFaultsIff(run: seq<Event>)
    requires Exec(Init(), run).Some?
    requires var s := Exec(Init(), run).value; s.room.fault.None? && s.worker != []
    ensures var s := Exec(Init(), run).value;
      && Poppable(s.room, s.worker[0])
      && ((exists ro, lo :: IsOrder(ro, s.room.remote) && IsOrder(lo, View(s.room.local))
             && Apply(s, RunTask(ro, lo)).room.fault.Some?) <==> Hazard(s.room, s.worker[0]))
  {
    var s := Exec(Init(), run).value;
    NeverPopsEmpty(run);
    FaultIff(s.room, s.connected, s.worker[0]);
    if MayFault(s.room, s.connected, s.worker[0]) {
      var ro, lo :| IsOrder(ro, s.room.remote) && IsOrder(lo, View(s.room.local))
        && Handle(s.room, s.connected, s.worker[0], ro, lo).room.fault.Some?;
      assert Apply(s, RunTask(ro, lo)).room.fault.Some?;
    }
  }

  // ----- staying sound -----

  ghost predicate Sound(r: Room) {
    && r.fault.None?
    && NoNulls(r.remote)
    && (forall id :: id in r.sub.pending ==> id in r.remote)
  }

  /** Subscribe only to known streams, do not remove a stream whose subscription is pending, send ICE
      candidates and descriptions only for remote streams, and let a readiness event for a connection
      that no remote stream holds only arrive while the local map has no null entry. */
  ghost predicate Guard(r: Room, m: Msg) {
    match m
    case Ask(k, id) => k == Subscribe ==> Live(r.remote, id)
    case RemoveStream(id) => id !in r.sub.pending
    case Ice(id) => Live(r.remote, id)
    case Sdp(id) => Live(r.remote, id)
    case Ready(conn) => NoNulls(View(r.local)) || Held(r.remote, conn)
    case _ => true
  }

  /** Under every hash order the task leaves a sound room. */
  ghost predicate KeepsSound(r: Room, up: bool, m: Msg) {
    forall ro, lo :: IsOrder(ro, r.remote) && IsOrder(lo, View(r.local)) ==> Sound(Handle(r, up, m, ro, lo).room)
  }

  lemma HandleSound(r: Room, up: bool, m: Msg, ro: seq<nat>, lo: seq<nat>)
    requires IsOrder(ro, r.remote) || !(m.Offer? || m.Ready?)
    requires forall x :: x in ro ==> x in r.remote
    requires forall x :: x in lo ==> x in View(r.local)
    requires Sound(r) && Guard(r, m) && Poppable(r, m)
    ensures Sound(Handle(r, up, m, ro, lo).room)
  {
    match m
    case Offer(conn) => ScanNotNull(r.remote, ro, conn);
    case Ready(conn) =>
      ScanNotNull(r.remote, ro, conn);
      if NoNulls(View(r.local)) { ScanNotNull(View(r.local), lo, conn); }
    case _ =>
  }

  lemma GuardNeeded(r: Room, up: bool, m: Msg, ro: seq<nat>, lo: seq<nat>)
    requires Sound(r) && !Guard(r, m) && !m.Ready? && IsOrder(ro, r.remote) && IsOrder(lo, View(r.local))
    ensures !Sound(Handle(r, up, m, ro, lo).room)
  {
    var r' := Handle(r, up, m, ro, lo).room;
    if m.Ask? {
      assert r'.sub.pending == r.sub.pending + [m.id];
      assert m.id in r'.sub.pending && m.id !in r'.remote;
    } else if m.RemoveStream? {
      assert m.id in r'.sub.pending && m.id !in r'.remote;
    } else {
      assert m.id in r'.remote && r'.remote[m.id].None?;
    }
  }

  /** The guard is exactly what keeps a sound room sound, task by task. */
  lemma GuardIff(r: Room, up: bool, m: Msg)
    requires Sound(r) && Poppable(r, m)
    ensures KeepsSound(r, up, m) <==> Guard(r, m)
  {
    if Guard(r, m) {
      forall ro, lo | IsOrder(ro, r.remote) && IsOrder(lo, View(r.local))
        ensures Sound(Handle(r, up, m, ro, lo).room)
      {
        HandleSound(r, up, m, ro, lo);
      }
    } else if m.Ready? {
      FaultIff(r, up, m);
    } else {
      var ro := OrderOf(r.remote);
      var lo := OrderOf(View(r.local));
      GuardNeeded(r, up, m, ro, lo);
    }
  }

  /** Every task executed in the run was guarded. */
  ghost predicate Guarded(run: seq<Event>) {
    run != [] ==>
      && Guarded(run[..|run| - 1])
      && var s := Exec(Init(), run[..|run| - 1]);
         s.Some? ==>
           var m := Executed(s.value, run[|run| - 1]);
           m.Some? ==> Guard(s.value.room, m.value)
  }

  /** At no point of the run could another hash order have left an unsound room. */
  ghost predicate StaysSound(run: seq<Event>) {
    run != [] ==>
      && StaysSound(run[..|run| - 1])
      && var s := Exec(Init(), run[..|run| - 1]);
         s.Some? ==>
           var m := Executed(s.value, run[|run| - 1]);
           m.Some? ==> KeepsSound(s.value.room, s.value.connected, m.value)
  }

  /** In a guarded run no handler dereferences a null stream, and the room stays sound. */
  lemma {:induction false} GuardedRunsNeverFault(run: seq<Event>)
    requires Exec(Init(), run).Some? && Guarded(run)
    ensures Sound(Exec(Init(), run).value.room)
  {
    if run != [] {
      var s, e := Exec(Init(), run[..|run| - 1]).value, run[|run| - 1];
      GuardedRunsNeverFault(run[..|run| - 1]);
      RunsKeepInv(run[..|run| - 1]);
      match e
      case CallInline(m) => HandleSound(s.room, s.connected, m, [], []);
      case RunTask(ro, lo) =>
        if s.worker[0].Ack? { HeadAck(s); }
        HandleSound(s.room, s.connected, s.worker[0], ro, lo);
      case _ => TransportFrame(s, e);
    }
  }

  lemma ExecutedPoppable(run: seq<Event>, e: Event)
    requires Exec(Init(), run).Some? && Enabled(Exec(Init(), run).value, e)
    ensures var s := Exec(Init(), run).value; var m := Executed(s, e);
      m.Some? ==> Poppable(s.room, m.value)
  {
    NeverPopsEmpty(run);
  }

  /** Over runs: the guard was respected all along if and only if the room stayed sound whatever the
      hash orders. */
  lemma {:induction false} GuardedIffStaysSound(run: seq<Event>)
    requires Exec(Init(), run).Some?
    ensures Guarded(run) <==> StaysSound(run)
  {
    if run != [] {
      var before, e := run[..|run| - 1], run[|run| - 1];
      GuardedIffStaysSound(before);
      if Guarded(before) {
        GuardedRunsNeverFault(before);
        ExecutedPoppable(before, e);
        var s := Exec(Init(), before).value;
        var m := Executed(s, e);
        if m.Some? { GuardIff(s.room, s.connected, m.value); }
      }
    }
  }
}
