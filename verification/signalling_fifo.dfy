/** Matching acknowledgements to requests by queue order: what every run keeps, and exactly when the
    pending queue mirrors the requests and acknowledgements under way.  */
module SignallingFifo {
  import opened Wrappers
  import opened Signalling
  import Websocket

  /** Requests, or acknowledgements, of one kind. */
  datatype Sort = Requests(kind: Kind) | Acks(kind: Kind)

  function Tag(m: Msg, w: Sort): seq<nat> {
    if w.Requests? then (if m.Request? && m.kind == w.kind then [m.id] else [])
    else if m.Ack? && m.kind == w.kind then [m.asked] else []
  }

  /** The stream ids of the messages of one sort, in order. */
  function Ids(ms: seq<Msg>, w: Sort): seq<nat> {
    if ms == [] then [] else Tag(ms[0], w) + Ids(ms[1..], w)
  }

  function Unsent(ws: Websocket.Session<Msg>): seq<Msg> {
    if ws.transmitted && ws.queue != [] then ws.queue[1..] else ws.queue
  }

  /** On the way to the room, oldest first: posted to the worker, then on the wire. */
  function Inbound(s: State): seq<Msg> {
    s.worker + s.inWire
  }

  /** Behind the server: on the wire, in the write queue, posted to it. */
  function OnTheWay(s: State): seq<Msg> {
    s.outWire + (Unsent(s.ws) + s.ws.posted)
  }

  /** Not yet answered, oldest first. */
  function Outbound(s: State): seq<Msg> {
    s.server + OnTheWay(s)
  }

  /** The ids under way, oldest first. */
  function Flight(s: State, k: Kind): seq<nat> {
    Ids(Inbound(s), Acks(k)) + Ids(Outbound(s), Requests(k))
  }

  predicate Agrees(l: Ledger, flight: seq<nat>) {
    && l.sent == l.handled + flight
    && |l.handled| <= |l.pushes|
    && l.given == l.pushes[..|l.handled|]
    && l.pending == l.pushes[|l.handled|..]
    && |l.pushes| == |l.sent| + l.dropped
    && (l.dropped == 0 ==> l.pushes == l.sent)
  }

  predicate Balanced(s: State, k: Kind) {
    Agrees(Book(s.room, k), Flight(s, k))
  }

  predicate Inv(s: State) {
    Websocket.Valid(s.ws) && Balanced(s, Subscribe) && Balanced(s, Publish) && s.room.fault != Some(EmptyQueue)
  }

  // ----- message sequences -----

  lemma {:induction false} IdsConcat(a: seq<Msg>, b: seq<Msg>, w: Sort)
    ensures Ids(a + b, w) == Ids(a, w) + Ids(b, w)
  {
    if a == [] {
      assert a + b == b;
    } else {
      assert (a + b)[1..] == a[1..] + b;
      IdsConcat(a[1..], b, w);
    }
  }

  lemma IdsLast(a: seq<Msg>, m: Msg, w: Sort)
    ensures Ids(a + [m], w) == Ids(a, w) + Tag(m, w)
  {
    IdsConcat(a, [m], w);
    assert [m][1..] == [];
  }

  lemma IdsInsert(a: seq<Msg>, m: Msg, b: seq<Msg>, w: Sort)
    ensures Ids(a + ([m] + b), w) == Ids(a, w) + (Tag(m, w) + Ids(b, w))
  {
    IdsConcat(a, [m] + b, w);
    assert ([m] + b)[1..] == b;
  }

  lemma {:induction false} NoneOfSort(ms: seq<Msg>, w: Sort)
    requires forall j :: 0 <= j < |ms| ==> Tag(ms[j], w) == []
    ensures Ids(ms, w) == []
  {
    if ms != [] { NoneOfSort(ms[1..], w); }
  }

  /** Taking out the oldest message of a sort, or one of another sort. */
  lemma IdsTake(a: seq<Msg>, i: nat, rest: seq<Msg>, w: Sort)
    requires i < |a| && (Tag(a[i], w) == [] || forall j :: 0 <= j < i ==> Tag(a[j], w) == [])
    ensures Ids(a + rest, w) == Tag(a[i], w) + Ids((a[..i] + a[i + 1..]) + rest, w)
  {
    assert a + rest == a[..i] + ([a[i]] + (a[i + 1..] + rest));
    assert (a[..i] + a[i + 1..]) + rest == a[..i] + (a[i + 1..] + rest);
    IdsInsert(a[..i], a[i], a[i + 1..] + rest, w);
    IdsConcat(a[..i], a[i + 1..] + rest, w);
    if Tag(a[i], w) != [] { NoneOfSort(a[..i], w); }
  }

  /** The first element of one stage moves behind the stage before it. */
  lemma Advance(a: seq<Msg>, b: seq<Msg>, rest: seq<Msg>)
    requires b != []
    ensures (a + [b[0]]) + (b[1..] + rest) == a + (b + rest)
  {
    assert b == [b[0]] + b[1..];
  }

  // ----- transport leaves the ids under way alone -----

  lemma SocketFlight(s: State, step: Websocket.Event<Msg>)
    requires Websocket.Valid(s.ws) && Enabled(s, Socket(step))
    ensures Outbound(Apply(s, Socket(step))) == Outbound(s)
  {
    var ws' := Websocket.Apply(s.ws, step);
    match step
    case OnSend =>
      Advance(Unsent(s.ws), s.ws.posted, []);
      assert s.ws.posted + [] == s.ws.posted && s.ws.posted[1..] + [] == s.ws.posted[1..];
      assert Unsent(ws') == Unsent(s.ws) + [s.ws.posted[0]];
    case Transmit => Advance(s.outWire, s.ws.queue, s.ws.posted);
    case OnWrite(_) => assert Unsent(ws') == Unsent(s.ws);
  }

  lemma AbsorbFlight(s: State, i: nat, k: Kind)
    requires Enabled(s, ServerAbsorb(i))
    ensures Flight(Apply(s, ServerAbsorb(i)), k) == Flight(s, k)
  {
    IdsTake(s.server, i, OnTheWay(s), Requests(k));
  }

  lemma Slide(a: seq<nat>, b: seq<nat>, c: seq<nat>)
    ensures (a + b) + c == a + (b + c)
  {
  }

  lemma AnswerFlight(s: State, i: nat, conn: string, stream: nat, k: Kind)
    requires Enabled(s, ServerAnswer(i, conn, stream))
    ensures Flight(Answered(s, i, conn, stream), k) == Flight(s, k)
  {
    var s', ack := Answered(s, i, conn, stream), Ack(s.server[i].kind, s.server[i].id, conn, stream);
    IdsTake(s.server, i, OnTheWay(s), Requests(k));
    assert Inbound(s') == Inbound(s) + [ack];
    IdsLast(Inbound(s), ack, Acks(k));
    assert Tag(ack, Acks(k)) == Tag(s.server[i], Requests(k));
    Slide(Ids(Inbound(s), Acks(k)), Tag(ack, Acks(k)), Ids(Outbound(s'), Requests(k)));
  }

  lemma SendFlight(s: State, m: Msg, k: Kind)
    requires Enabled(s, ServerSend(m))
    ensures Flight(Apply(s, ServerSend(m)), k) == Flight(s, k)
  {
    assert Inbound(Apply(s, ServerSend(m))) == Inbound(s) + [m];
    IdsLast(Inbound(s), m, Acks(k));
  }

  lemma CallFlight(s: State, m: Msg, k: Kind)
    requires Enabled(s, Call(m))
    ensures Flight(Apply(s, Call(m)), k) == Flight(s, k)
  {
    assert Inbound(Apply(s, Call(m))) == s.worker + ([m] + s.inWire);
    IdsInsert(s.worker, m, s.inWire, Acks(k));
    IdsConcat(s.worker, s.inWire, Acks(k));
  }

  lemma TransportFlight(s: State, e: Event, k: Kind)
    requires Websocket.Valid(s.ws) && Enabled(s, e) && !e.RunTask? && !e.CallInline?
    ensures Flight(Apply(s, e), k) == Flight(s, k)
  {
    match e
    case Connection(_) =>
    case Call(m) => CallFlight(s, m, k);
    case Socket(step) => SocketFlight(s, step);
    case ServerReceive => Advance(s.server, s.outWire, Unsent(s.ws) + s.ws.posted);
    case ServerAbsorb(i) => AbsorbFlight(s, i, k);
    case ServerAnswer(i, conn, stream) => AnswerFlight(s, i, conn, stream, k);
    case ServerSend(m) => SendFlight(s, m, k);
    case Read =>
      Advance(s.worker, s.inWire, []);
      assert Inbound(Apply(s, e)) == Inbound(s);
  }

  lemma TransportFrame(s: State, e: Event)
    requires Websocket.Valid(s.ws) && Enabled(s, e) && !e.RunTask? && !e.CallInline?
    ensures Apply(s, e).room == s.room && Websocket.Valid(Apply(s, e).ws)
  {
    if e.Socket? { Websocket.StepKeepsValid(s.ws, e.step); }
  }

  // ----- the worker -----

  lemma AgreesAsk(l: Ledger, flight: seq<nat>, id: nat)
    requires Agrees(l, flight)
    ensures var pushed := l.(pending := l.pending + [id], pushes := l.pushes + [id]);
      && Agrees(pushed.(sent := l.sent + [id]), flight + [id])
      && Agrees(pushed.(dropped := l.dropped + 1), flight)
  {
  }

  lemma AgreesAck(l: Ledger, asked: nat, flight: seq<nat>)
    requires Agrees(l, [asked] + flight)
    ensures l.pending != []
    ensures l.dropped == 0 ==> l.pending[0] == asked
    ensures Agrees(Popped(l, asked), flight)
  {
    assert l.sent[|l.handled|] == asked;
  }

  lemma PostFlight(s: State, m: Msg, k: Kind)
    ensures Flight(s.(ws := Websocket.Apply(s.ws, Websocket.Post(m))), k) == Flight(s, k) + Tag(m, Requests(k))
  {
    var s' := s.(ws := Websocket.Apply(s.ws, Websocket.Post(m)));
    var b, c, d := s.outWire, Unsent(s.ws), s.ws.posted;
    assert c + (d + [m]) == (c + d) + [m];
    assert b + ((c + d) + [m]) == (b + (c + d)) + [m];
    assert Outbound(s') == Outbound(s) + [m];
    IdsLast(Outbound(s), m, Requests(k));
  }

  /** What one task does to one ledger. */
  function BookAfter(r: Room, connected: bool, m: Msg, k: Kind): Ledger {
    var l := Book(r, k);
    if m.Ask? && m.kind == k then Book(HandleAsk(r, connected, k, m.id), k)
    else if m.Ack? && m.kind == k && l.pending != [] then Popped(l, m.asked)
    else l
  }

  lemma HandleBooks(r: Room, connected: bool, m: Msg, ro: seq<nat>, lo: seq<nat>, k: Kind)
    requires forall x :: x in ro ==> x in r.remote
    requires forall x :: x in lo ==> x in View(r.local)
    ensures var effect := Handle(r, connected, m, ro, lo);
      && Book(effect.room, k) == BookAfter(r, connected, m, k)
      && (effect.room.fault == Some(EmptyQueue) ==>
            r.fault == Some(EmptyQueue) || (m.Ack? && Book(r, m.kind).pending == []))
      && (effect.out == None || effect.out == Some(Notice) || (m.Ask? && effect.out == Some(Request(m.kind, m.id))))
      && (m.Ask? ==> effect.out == Some(Request(m.kind, m.id)))
  {
  }

  lemma PerformFlight(s: State, m: Msg, ro: seq<nat>, lo: seq<nat>, k: Kind)
    requires forall x :: x in ro ==> x in s.room.remote
    requires forall x :: x in lo ==> x in View(s.room.local)
    ensures Flight(Perform(s, m, ro, lo), k)
         == Flight(s, k) + if m.Ask? && m.kind == k && s.connected then [m.id] else []
  {
    HandleBooks(s.room, s.connected, m, ro, lo, k);
    var out := Handle(s.room, s.connected, m, ro, lo).out;
    if s.connected && out.Some? { PostFlight(s, out.value, k); }
    PerformPosts(s, m, ro, lo, k);
  }

  lemma PerformPosts(s: State, m: Msg, ro: seq<nat>, lo: seq<nat>, k: Kind)
    requires forall x :: x in ro ==> x in s.room.remote
    requires forall x :: x in lo ==> x in View(s.room.local)
    ensures var s' := Perform(s, m, ro, lo);
      Flight(s', k) == Flight(s.(ws := s'.ws), k)
  {
  }

  lemma AgreesAfter(r: Room, connected: bool, m: Msg, k: Kind, flight: seq<nat>)
    requires Agrees(Book(r, k), Tag(m, Acks(k)) + flight)
    ensures Agrees(BookAfter(r, connected, m, k),
                   flight + if m.Ask? && m.kind == k && connected then [m.id] else [])
    ensures m.Ack? && m.kind == k ==> Book(r, k).pending != []
  {
    assert flight + [] == flight;
    if m.Ack? && m.kind == k {
      AgreesAck(Book(r, k), m.asked, flight);
    } else {
      assert Tag(m, Acks(k)) + flight == flight;
      if m.Ask? && m.kind == k { AgreesAsk(Book(r, k), flight, m.id); }
    }
  }

  lemma PerformBalances(s: State, m: Msg, ro: seq<nat>, lo: seq<nat>, k: Kind)
    requires forall x :: x in ro ==> x in s.room.remote
    requires forall x :: x in lo ==> x in View(s.room.local)
    requires Agrees(Book(s.room, k), Tag(m, Acks(k)) + Flight(s, k))
    ensures Balanced(Perform(s, m, ro, lo), k)
    ensures m.Ack? && m.kind == k ==> Book(s.room, k).pending != []
  {
    HandleBooks(s.room, s.connected, m, ro, lo, k);
    PerformFlight(s, m, ro, lo, k);
    AgreesAfter(s.room, s.connected, m, k, Flight(s, k));
  }

  lemma PerformKeeps(s: State, m: Msg, ro: seq<nat>, lo: seq<nat>)
    requires forall x :: x in ro ==> x in s.room.remote
    requires forall x :: x in lo ==> x in View(s.room.local)
    requires Websocket.Valid(s.ws) && s.room.fault.None?
    requires forall k :: Agrees(Book(s.room, k), Tag(m, Acks(k)) + Flight(s, k))
    ensures Inv(Perform(s, m, ro, lo))
  {
    PerformBalances(s, m, ro, lo, Subscribe);
    PerformBalances(s, m, ro, lo, Publish);
    HandleBooks(s.room, s.connected, m, ro, lo, Subscribe);
    var out := Handle(s.room, s.connected, m, ro, lo).out;
    if out.Some? { Websocket.StepKeepsValid(s.ws, Websocket.Post(out.value)); }
  }

  lemma HeadLeaves(s: State, k: Kind)
    requires s.worker != []
    ensures Flight(s, k) == Tag(s.worker[0], Acks(k)) + Flight(Taken(s), k)
  {
    assert Inbound(s)[1..] == Inbound(Taken(s));
    assert Outbound(s) == Outbound(Taken(s));
  }

  lemma StepKeepsInv(s: State, e: Event)
    requires Inv(s) && Enabled(s, e)
    ensures Inv(Apply(s, e))
  {
    match e
    case CallInline(m) =>
      forall k ensures Agrees(Book(s.room, k), Tag(m, Acks(k)) + Flight(s, k)) {
        assert Balanced(s, k);
        assert Tag(m, Acks(k)) + Flight(s, k) == Flight(s, k);
      }
      PerformKeeps(s, m, [], []);
    case RunTask(ro, lo) =>
      forall k ensures Agrees(Book(s.room, k), Tag(s.worker[0], Acks(k)) + Flight(Taken(s), k)) {
        assert Balanced(s, k);
        HeadLeaves(s, k);
      }
      PerformKeeps(Taken(s), s.worker[0], ro, lo);
    case _ =>
      TransportFrame(s, e);
      TransportFlight(s, e, Subscribe);
      TransportFlight(s, e, Publish);
  }

  lemma {:induction false} RunsKeepInv(run: seq<Event>)
    requires Exec(Init(), run).Some?
    ensures Inv(Exec(Init(), run).value)
  {
    if run != [] {
      RunsKeepInv(run[..|run| - 1]);
      StepKeepsInv(Exec(Init(), run[..|run| - 1]).value, run[|run| - 1]);
    }
  }

  // ----- the theorems -----

  /** The ids under way stage by stage, oldest first: acknowledgements posted to the worker, then on
      the wire, then requests at the server, on the wire, in the write queue and posted to it. */
  function UnderWay(s: State, k: Kind): seq<nat> {
    Ids(s.worker, Acks(k)) + Ids(s.inWire, Acks(k)) + Ids(s.server, Requests(k)) + Ids(s.outWire, Requests(k))
    + Ids(Unsent(s.ws), Requests(k)) + Ids(s.ws.posted, Requests(k))
  }

  lemma UnderWayIsFlight(s: State, k: Kind)
    ensures UnderWay(s, k) == Flight(s, k)
  {
    var w := Requests(k);
    IdsConcat(s.worker, s.inWire, Acks(k));
    IdsConcat(s.server, OnTheWay(s), w);
    IdsConcat(s.outWire, Unsent(s.ws) + s.ws.posted, w);
    IdsConcat(Unsent(s.ws), s.ws.posted, w);
    Reassociate(Ids(Inbound(s), Acks(k)), Ids(s.server, w), Ids(s.outWire, w), Ids(Unsent(s.ws), w), Ids(s.ws.posted, w));
  }

  lemma Reassociate(a: seq<nat>, b: seq<nat>, c: seq<nat>, d: seq<nat>, e: seq<nat>)
    ensures a + b + c + d + e == a + (b + (c + (d + e)))
  {
  }

  /** In every run, and for both kinds of request: the pending queue is exactly the ids under way if
      and only if no request task of that kind ever ran while signalling was not connected.  Write
      errors, interleaved traffic and the other kind of request do not matter. */
  lemma PendingMirrorsFlight(run: seq<Event>, k: Kind)
    requires Exec(Init(), run).Some?
    ensures var s := Exec(Init(), run).value;
      && (Book(s.room, k).pending == UnderWay(s, k) <==> Book(s.room, k).dropped == 0)
      && |Book(s.room, k).pending| == |UnderWay(s, k)| + Book(s.room, k).dropped
  {
    RunsKeepInv(run);
    var s := Exec(Init(), run).value;
    assert Balanced(s, k);
    UnderWayIsFlight(s, k);
  }

  /** Which stream an acknowledgement is credited to, in every run: the i-th one of a kind answers the
      i-th request that was really sent and goes to the i-th stream that was pushed.  So nobody gets
      another stream's acknowledgement exactly as long as the two histories agree, and that is so
      when nothing was dropped. */
  lemma AcksFollowOrder(run: seq<Event>, k: Kind)
    requires Exec(Init(), run).Some?
    ensures var l := Book(Exec(Init(), run).value.room, k);
      && |l.handled| == |l.given| <= |l.sent| <= |l.pushes|
      && l.handled == l.sent[..|l.handled|]
      && l.given == l.pushes[..|l.handled|]
      && (l.dropped == 0 ==> l.given == l.handled)
  {
    RunsKeepInv(run);
    assert Balanced(Exec(Init(), run).value, k);
  }

  /** No acknowledgement ever finds its pending queue empty, dropped requests or not. */
  lemma NeverPopsEmpty(run: seq<Event>)
    requires Exec(Init(), run).Some?
    ensures var s := Exec(Init(), run).value;
      && s.room.fault != Some(EmptyQueue)
      && (s.worker != [] && s.worker[0].Ack? ==> Book(s.room, s.worker[0].kind).pending != [])
  {
    RunsKeepInv(run);
    var s := Exec(Init(), run).value;
    if s.worker != [] && s.worker[0].Ack? {
      HeadAck(s);
    }
  }

  lemma HeadAck(s: State)
    requires Inv(s) && s.worker != [] && s.worker[0].Ack?
    ensures var l := Book(s.room, s.worker[0].kind);
      l.pending != [] && (l.dropped == 0 ==> l.pending[0] == s.worker[0].asked)
  {
    var m := s.worker[0];
    HeadLeaves(s, m.kind);
    assert Balanced(s, m.kind);
    AgreesAck(Book(s.room, m.kind), m.asked, Flight(Taken(s), m.kind));
  }
}
