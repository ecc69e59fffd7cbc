/** Where connection ids end up: every connection id stays with the stream it was allocated for, and a
    search for it does not depend on the hash order.  */
module SignallingRouting {
  import opened Wrappers
  import opened Signalling
  import opened SignallingFifo

  // ----- connection ids -----

  predicate Genuine(m: Msg, owner: map<string, Asker>) {
    match m
    case Ack(k, asked, conn, stream) => conn in owner && owner[conn] == Asker(k, asked, stream)
    case Offer(conn) => conn in owner && owner[conn].kind == Subscribe
    case Ready(conn) => conn in owner
    case _ => true
  }

  ghost predicate AllGenuine(s: State) {
    && "" !in s.owner
    && (forall m :: m in s.worker ==> Genuine(m, s.owner))
    && (forall m :: m in s.inWire ==> Genuine(m, s.owner))
  }

  /** Every acknowledgement of a subscription handled so far was credited to the stream it answered. */
  predicate Matched(r: Room) {
    r.sub.given == r.sub.handled
  }

  /** A remote stream that has a connection id has one the server allocated for it. */
  ghost predicate Routed(remote: Streams, owner: map<string, Asker>) {
    forall id :: Live(remote, id) && remote[id].value.connId != "" ==>
      && remote[id].value.connId in owner
      && owner[remote[id].value.connId].kind == Subscribe && owner[remote[id].value.connId].id == id
  }

  ghost predicate Placed(s: State) {
    AllGenuine(s) && (Matched(s.room) ==> Routed(s.room.remote, s.owner))
  }

  /** Handling keeps `Routed` as long as an acknowledgement is given to the stream that asked. */
  lemma HandleRouted(r: Room, up: bool, m: Msg, ro: seq<nat>, lo: seq<nat>, owner: map<string, Asker>)
    requires forall x :: x in ro ==> x in r.remote
    requires forall x :: x in lo ==> x in View(r.local)
    requires Routed(r.remote, owner) && Genuine(m, owner)
    requires m.Ack? && m.kind == Subscribe && r.sub.pending != [] ==> r.sub.pending[0] == m.asked
    ensures Routed(Handle(r, up, m, ro, lo).room.remote, owner)
  {
  }

  /** Matching is never regained: if it holds afterwards, it held before, and the acknowledgement just
      handled was credited to the stream that asked. */
  lemma MatchedBefore(r: Room, up: bool, m: Msg, ro: seq<nat>, lo: seq<nat>)
    requires forall x :: x in ro ==> x in r.remote
    requires forall x :: x in lo ==> x in View(r.local)
    requires Matched(Handle(r, up, m, ro, lo).room)
    ensures Matched(r)
    ensures m.Ack? && m.kind == Subscribe && r.sub.pending != [] ==> r.sub.pending[0] == m.asked
  {
    HandleBooks(r, up, m, ro, lo, Subscribe);
    var l := r.sub;
    if m.Ack? && m.kind == Subscribe && l.pending != [] {
      assert Popped(l, m.asked).given == l.given + [l.pending[0]];
      SameLast(l.given, l.pending[0], l.handled, m.asked);
    }
  }

  lemma SameLast(a: seq<nat>, x: nat, b: seq<nat>, y: nat)
    requires a + [x] == b + [y]
    ensures a == b && x == y
  {
    assert |a| == |b|;
    assert a == (a + [x])[..|a|] == (b + [y])[..|b|] == b;
    assert x == (a + [x])[|a|] == (b + [y])[|b|];
  }

  lemma PerformPlaced(s: State, m: Msg, ro: seq<nat>, lo: seq<nat>)
    requires forall x :: x in ro ==> x in s.room.remote
    requires forall x :: x in lo ==> x in View(s.room.local)
    requires Placed(s) && Genuine(m, s.owner)
    ensures Placed(Perform(s, m, ro, lo))
  {
    if Matched(Handle(s.room, s.connected, m, ro, lo).room) {
      MatchedBefore(s.room, s.connected, m, ro, lo);
      HandleRouted(s.room, s.connected, m, ro, lo, s.owner);
    }
  }

  lemma RunTaskPlaced(s: State, ro: seq<nat>, lo: seq<nat>)
    requires Placed(s) && Enabled(s, RunTask(ro, lo))
    ensures Placed(Apply(s, RunTask(ro, lo)))
  {
    assert s.worker[0] in s.worker;
    PerformPlaced(Taken(s), s.worker[0], ro, lo);
  }

  lemma InlinePlaced(s: State, m: Msg)
    requires Placed(s) && Enabled(s, CallInline(m))
    ensures Placed(Apply(s, CallInline(m)))
  {
    PerformPlaced(s, m, [], []);
  }

  lemma AnswerPlaced(s: State, i: nat, conn: string, stream: nat)
    requires Placed(s) && Enabled(s, ServerAnswer(i, conn, stream))
    ensures Placed(Answered(s, i, conn, stream))
  {
  }

  lemma TransportPlaced(s: State, e: Event)
    requires Placed(s) && Enabled(s, e) && !e.RunTask? && !e.CallInline? && !e.ServerAnswer?
    ensures Placed(Apply(s, e))
  {
    var s' := Apply(s, e);
    assert s'.owner == s.owner && s'.room == s.room;
  }

  lemma StepPlaced(s: State, e: Event)
    requires Placed(s) && Enabled(s, e)
    ensures Placed(Apply(s, e))
  {
    match e
    case RunTask(ro, lo) => RunTaskPlaced(s, ro, lo);
    case CallInline(m) => InlinePlaced(s, m);
    case ServerAnswer(i, conn, stream) => AnswerPlaced(s, i, conn, stream);
    case _ => TransportPlaced(s, e);
  }

  lemma {:induction false} RunsPlaced(run: seq<Event>)
    requires Exec(Init(), run).Some?
    ensures Placed(Exec(Init(), run).value)
  {
    if run != [] {
      RunsPlaced(run[..|run| - 1]);
      StepPlaced(Exec(Init(), run[..|run| - 1]).value, run[|run| - 1]);
    }
  }

  /** In every run: as long as every acknowledgement was credited to the stream it answered, in
      particular as long as no subscribe request was dropped, a remote stream that has a connection id
      has one that the server allocated for a subscription to that very stream. */
  lemma ConnectionLandsOnAsker(run: seq<Event>, id: nat)
    requires Exec(Init(), run).Some? && Live(Exec(Init(), run).value.room.remote, id)
    ensures var s := Exec(Init(), run).value; var conn := s.room.remote[id].value.connId;
      && (s.room.sub.dropped == 0 ==> Matched(s.room))
      && (Matched(s.room) && conn != "" ==>
            conn in s.owner && s.owner[conn].kind == Subscribe && s.owner[conn].id == id)
  {
    RunsPlaced(run);
    AcksFollowOrder(run, Subscribe);
  }

  // ----- searching -----

  ghost predicate NoNulls(m: Streams) {
    forall id :: id in m ==> m[id].Some?
  }

  lemma {:induction false} ScanFinds(m: Streams, order: seq<nat>, conn: string, id: nat)
    requires forall x :: x in order ==> x in m
    requires NoNulls(m) && id in order && m[id].value.connId == conn
    requires forall x :: x in m && m[x].value.connId == conn ==> x == id
    ensures Scan(m, order, conn) == Hit(id)
  {
    if order[0] != id { ScanFinds(m, order[1..], conn, id); }
  }

  lemma {:induction false} ScanMisses(m: Streams, order: seq<nat>, conn: string)
    requires forall x :: x in order ==> x in m
    requires NoNulls(m) && forall x :: x in m ==> m[x].value.connId != conn
    ensures Scan(m, order, conn) == Miss
  {
    if order != [] { ScanMisses(m, order[1..], conn); }
  }

  /** With distinct connection ids and no null entry the search does not depend on the hash order. */
  lemma HashOrderIrrelevant(m: Streams, order: seq<nat>, order': seq<nat>, conn: string)
    requires IsOrder(order, m) && IsOrder(order', m) && NoNulls(m)
    requires forall x, y :: x in m && y in m && m[x].value.connId == conn && m[y].value.connId == conn ==> x == y
    ensures Scan(m, order, conn) == Scan(m, order', conn)
    ensures Scan(m, order, conn) == Miss <==> forall x :: x in m ==> m[x].value.connId != conn
  {
    if id :| id in m && m[id].value.connId == conn {
      ScanFinds(m, order, conn, id);
      ScanFinds(m, order', conn, id);
    } else {
      ScanMisses(m, order, conn);
      ScanMisses(m, order', conn);
    }
  }
}
