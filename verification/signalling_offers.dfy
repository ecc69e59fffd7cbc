/** Where offers and readiness events end up: exactly, in every run whose acknowledgements were credited
    to the streams they answered; and, in careful runs, always at the stream that asked.  */
module SignallingOffers {
  import opened Wrappers
  import opened Signalling
  import opened SignallingFifo
  import opened SignallingRouting
  import opened SignallingHazards
  import opened SignallingPublishing

  // ----- exact outcomes -----

  /** Only the stream a connection was allocated for can hold it. */
  lemma OnlyOwnerHolds(remote: Streams, owner: map<string, Asker>, conn: string, id: nat)
    requires Routed(remote, owner) && conn != "" && HeldBy(remote, id, conn)
    ensures conn in owner && owner[conn].kind == Subscribe && owner[conn].id == id
  {
  }

  /** What is reported for an offer: the stream it was allocated for if that still holds it. */
  function Reported(remote: Streams, conn: string, id: nat): Option<nat> {
    if HeldBy(remote, id, conn) then Some(id) else None
  }

  lemma OfferOutcome(r: Room, conn: string, ro: seq<nat>, owner: map<string, Asker>)
    requires IsOrder(ro, r.remote) && Routed(r.remote, owner) && r.fault.None?
    requires conn != "" && conn in owner && owner[conn].kind == Subscribe
    ensures HandleOffer(r, conn, ro).fault.None? ==>
      HandleOffer(r, conn, ro)
      == r.(offers := r.offers + [Delivery(conn, Reported(r.remote, conn, owner[conn].id))])
  {
    var found := Scan(r.remote, ro, conn);
    if found.Hit? {
      OnlyOwnerHolds(r.remote, owner, conn, found.id);
    } else if found.Miss? {
      ScanMissMeans(r.remote, ro, conn);
    }
  }

  /** In every run whose acknowledgements were matched, an offer is reported for the stream its
      connection was allocated for if that stream still holds the connection, for none otherwise, and
      never for another one; a handler that meets a null entry first faults, which cannot happen in a
      guarded run. */
  lemma OfferIsExact(run: seq<Event>, ro: seq<nat>, lo: seq<nat>)
    requires Exec(Init(), run).Some?
    requires var s := Exec(Init(), run).value;
      Enabled(s, RunTask(ro, lo)) && s.worker[0].Offer? && Matched(s.room)
    ensures var s := Exec(Init(), run).value; var conn := s.worker[0].conn;
      var r' := Apply(s, RunTask(ro, lo)).room;
      && conn in s.owner
      && (r'.fault.None? ==>
            r' == s.room.(offers := s.room.offers + [Delivery(conn, Reported(s.room.remote, conn, s.owner[conn].id))]))
      && (NoNulls(s.room.remote) ==> r'.fault.None?)
      && (Guarded(run) ==> r'.fault.None?)
  {
    var s := Exec(Init(), run).value;
    RunsPlaced(run);
    assert s.worker[0] in s.worker;
    OfferOutcome(s.room, s.worker[0].conn, ro, s.owner);
    if Guarded(run) { GuardedRunsNeverFault(run); }
    if NoNulls(s.room.remote) { ScanNotNull(s.room.remote, ro, s.worker[0].conn); }
  }

  /** What a readiness event makes of the room: it marks the stream its connection was allocated for, in
      the remote map for a subscription and in the local map for a publication, if that stream still
      holds the connection, and changes nothing otherwise. */
  function Marked(r: Room, conn: string, asker: Asker): Room {
    if asker.kind == Subscribe && HeldBy(r.remote, asker.id, conn) then
      r.(remote := r.remote[asker.id := Some(Info(conn, true))])
    else if asker.kind == Publish && HeldBy(View(r.local), asker.stream, conn) then
      r.(local := MarkConnected(r.local, r.local.refs[asker.stream].value))
    else r
  }

  /** The object that the readiness of a publication marks: one that the local map holds with that
      connection.  If the publish acknowledgements were matched and it is an object of the client, it is the
      one whose request the connection answers. */
  ghost predicate MarksHolder(r: Room, r': Room, conn: string, asker: Asker) {
    if Held(View(r.local), conn) then
      exists id :: HeldBy(View(r.local), id, conn)
        && var h := r.local.refs[id].value;
           && r' == r.(local := MarkConnected(r.local, h))
           && (PublishMatched(r) && h.Given? ==> h.info == asker.id)
    else r' == r
  }

  lemma SubscribedReady(r: Room, conn: string, ro: seq<nat>, lo: seq<nat>, owner: map<string, Asker>)
    requires IsOrder(ro, r.remote) && IsOrder(lo, View(r.local)) && r.fault.None?
    requires Routed(r.remote, owner) && Shelved(r.local, owner)
    requires conn != "" && conn in owner && owner[conn].kind == Subscribe
    requires HandleReady(r, conn, ro, lo).fault.None?
    ensures HandleReady(r, conn, ro, lo) == Marked(r, conn, owner[conn])
  {
    var found := Scan(r.remote, ro, conn);
    if found.Hit? {
      OnlyOwnerHolds(r.remote, owner, conn, found.id);
    } else {
      ScanMissMeans(r.remote, ro, conn);
      NoLocalHolder(r.local, owner, conn);
    }
  }

  /** Local streams hold connections of publications only. */
  lemma NoLocalHolder(l: Locals, owner: map<string, Asker>, conn: string)
    requires Shelved(l, owner) && conn in owner && owner[conn].kind == Subscribe
    ensures forall id :: Live(View(l), id) ==> View(l)[id].value.connId != conn
  {
    forall id | Live(View(l), id) ensures View(l)[id].value.connId != conn {
      assert Entry(l, owner, id, l.refs[id].value);
    }
  }

  lemma PublishedReady(r: Room, conn: string, ro: seq<nat>, lo: seq<nat>, owner: map<string, Asker>)
    requires IsOrder(ro, r.remote) && IsOrder(lo, View(r.local)) && r.fault.None?
    requires Routed(r.remote, owner) && Filed(r, owner)
    requires conn != "" && conn in owner && owner[conn].kind == Publish
    requires HandleReady(r, conn, ro, lo).fault.None?
    ensures MarksHolder(r, HandleReady(r, conn, ro, lo), conn, owner[conn])
    ensures FilledOnce(r.pub.given) ==> HandleReady(r, conn, ro, lo) == Marked(r, conn, owner[conn])
  {
    var found := Scan(r.remote, ro, conn);
    if found.Hit? {
      OnlyOwnerHolds(r.remote, owner, conn, found.id);
      assert false;
    }
    var local := Scan(View(r.local), lo, conn);
    if local.Hit? {
      var h := r.local.refs[local.id].value;
      assert Entry(r.local, owner, local.id, h);
      assert HeldBy(View(r.local), local.id, conn);
      if h.Given? { ObjectFromOneAnswer(r, owner, h.info); }
    } else {
      ScanMissMeans(View(r.local), lo, conn);
    }
  }

  /** The same for readiness events.  One for a subscription marks exactly its stream.  One for a
      publication marks an object that holds the connection; it is the one whose request the connection
      answers if the publish acknowledgements were matched, and the one stored under the id of that answer
      if no object was published twice. */
  lemma ReadyIsExact(run: seq<Event>, ro: seq<nat>, lo: seq<nat>)
    requires Exec(Init(), run).Some?
    requires var s := Exec(Init(), run).value;
      Enabled(s, RunTask(ro, lo)) && s.worker[0].Ready? && Matched(s.room)
    ensures var s := Exec(Init(), run).value; var conn := s.worker[0].conn;
      var r' := Apply(s, RunTask(ro, lo)).room;
      && conn in s.owner
      && (r'.fault.None? && (s.owner[conn].kind == Subscribe || FilledOnce(s.room.pub.given)) ==>
            r' == Marked(s.room, conn, s.owner[conn]))
      && (r'.fault.None? && s.owner[conn].kind == Publish ==> MarksHolder(s.room, r', conn, s.owner[conn]))
      && (NoNulls(s.room.remote) && NoNulls(View(s.room.local)) ==> r'.fault.None?)
      && (Guarded(run) && Guard(s.room, s.worker[0]) ==> r'.fault.None?)
  {
    var s := Exec(Init(), run).value;
    var conn := s.worker[0].conn;
    RunsPlaced(run);
    RunsFiled(run);
    assert s.worker[0] in s.worker;
    if Guarded(run) { GuardedRunsNeverFault(run); }
    if NoNulls(s.room.remote) && Guard(s.room, s.worker[0]) {
      ReadySafe(s.room, s.connected, conn, ro, lo);
    }
    if HandleReady(s.room, conn, ro, lo).fault.None? {
      if s.owner[conn].kind == Subscribe {
        SubscribedReady(s.room, conn, ro, lo, s.owner);
      } else {
        PublishedReady(s.room, conn, ro, lo, s.owner);
      }
    }
  }

  /** Every offer reported so far went to the stream its connection was allocated for, or to none. */
  ghost predicate NoneMisdelivered(s: State) {
    forall i :: 0 <= i < |s.room.offers| ==>
      && s.room.offers[i].conn in s.owner && s.owner[s.room.offers[i].conn].kind == Subscribe
      && (s.room.offers[i].stream.Some? ==> s.room.offers[i].stream.value == s.owner[s.room.offers[i].conn].id)
  }

  lemma HandleOffers(r: Room, up: bool, m: Msg, ro: seq<nat>, lo: seq<nat>)
    requires forall x :: x in ro ==> x in r.remote
    requires forall x :: x in lo ==> x in View(r.local)
    requires !m.Offer?
    ensures Handle(r, up, m, ro, lo).room.offers == r.offers
  {
  }

  lemma StepNoneMisdelivered(s: State, e: Event)
    requires Placed(s) && Enabled(s, e) && Matched(s.room) && NoneMisdelivered(s)
    ensures NoneMisdelivered(Apply(s, e))
  {
    match e
    case RunTask(ro, lo) =>
      var m := s.worker[0];
      assert m in s.worker;
      if m.Offer? {
        OfferOutcome(s.room, m.conn, ro, s.owner);
      } else {
        HandleOffers(s.room, s.connected, m, ro, lo);
      }
    case CallInline(m) => HandleOffers(s.room, s.connected, m, [], []);
    case ServerAnswer(i, conn, stream) => assert s.room == Answered(s, i, conn, stream).room;
    case _ => assert Apply(s, e).room == s.room && Apply(s, e).owner == s.owner;
  }

  lemma StepMatched(s: State, e: Event)
    requires Enabled(s, e) && Matched(Apply(s, e).room)
    ensures Matched(s.room)
  {
    match e
    case RunTask(ro, lo) => MatchedBefore(s.room, s.connected, s.worker[0], ro, lo);
    case CallInline(m) => MatchedBefore(s.room, s.connected, m, [], []);
    case _ =>
  }

  /** Over whole runs, guarded or not: no offer is ever reported for a stream other than the one its
      connection was allocated for, as long as the acknowledgements were matched. */
  lemma {:induction false} OffersNeverMisdelivered(run: seq<Event>)
    requires Exec(Init(), run).Some? && Matched(Exec(Init(), run).value.room)
    ensures NoneMisdelivered(Exec(Init(), run).value)
  {
    if run != [] {
      var before, e := run[..|run| - 1], run[|run| - 1];
      StepMatched(Exec(Init(), before).value, e);
      OffersNeverMisdelivered(before);
      RunsPlaced(before);
      StepNoneMisdelivered(Exec(Init(), before).value, e);
    }
  }

  // ----- careful runs -----

  /** A discipline under which every offer is reported for the stream that asked: on top of the guard,
      requests run while connected, a stream is subscribed to once and not removed afterwards, and an
      added stream is new. */
  ghost predicate Care(s: State, m: Msg) {
    match m
    case Ask(k, id) => s.connected && (k == Subscribe ==> Live(s.room.remote, id) && id !in s.room.sub.pushes)
    case RemoveStream(id) => id !in s.room.sub.pushes
    case AddStream(id) => id !in s.room.remote
    case Ice(id) => Live(s.room.remote, id)
    case Sdp(id) => Live(s.room.remote, id)
    case Ready(conn) => conn in s.owner && (s.owner[conn].kind == Subscribe || NoNulls(View(s.room.local)))
    case _ => true
  }

  ghost predicate Careful(run: seq<Event>) {
    run != [] ==>
      && Careful(run[..|run| - 1])
      && var s := Exec(Init(), run[..|run| - 1]);
         s.Some? ==>
           var m := Executed(s.value, run[|run| - 1]);
           m.Some? ==> Care(s.value, m.value)
  }

  predicate Distinct(ids: seq<nat>) {
    forall i, j :: 0 <= i < j < |ids| ==> ids[i] != ids[j]
  }

  /** Every acknowledged connection is the one its stream still has. */
  ghost predicate StillHeld(r: Room, owner: map<string, Asker>) {
    forall c :: c in r.conns ==>
      && c in owner
      && (owner[c].kind == Subscribe ==> HeldBy(r.remote, owner[c].id, c))
  }

  ghost predicate Delivered(r: Room, owner: map<string, Asker>) {
    forall i :: 0 <= i < |r.offers| ==>
      && r.offers[i].conn in owner && owner[r.offers[i].conn].kind == Subscribe
      && r.offers[i].stream == Some(owner[r.offers[i].conn].id)
  }

  ghost predicate Tidy(r: Room, owner: map<string, Asker>) {
    && r.fault.None? && r.sub.dropped == 0
    && Distinct(r.sub.pushes)
    && NoNulls(r.remote)
    && (forall id :: id in r.sub.pushes ==> id in r.remote)
    && StillHeld(r, owner)
    && Delivered(r, owner)
  }

  /** No stream owns two connections. */
  ghost predicate OwnedOnce(owner: map<string, Asker>) {
    forall c, d :: c in owner && d in owner && owner[c].kind == owner[d].kind == Subscribe ==>
      owner[c].id == owner[d].id ==> c == d
  }

  /** A connection exists only for a subscription that was answered. */
  ghost predicate OwnedAnswered(s: State) {
    forall c :: c in s.owner && s.owner[c].kind == Subscribe ==>
      s.owner[c].id in s.room.sub.handled + Ids(Inbound(s), Acks(Subscribe))
  }

  function Seen(ms: seq<Msg>, conns: set<string>): set<string> {
    if ms == [] then conns
    else Seen(ms[1..], if ms[0].Ack? then conns + {ms[0].conn} else conns)
  }

  /** An offer or a readiness event comes after the acknowledgement of its connection. */
  predicate InOrder(ms: seq<Msg>, conns: set<string>) {
    ms != [] ==>
      && (ms[0].Offer? || ms[0].Ready? ==> ms[0].conn in conns)
      && InOrder(ms[1..], if ms[0].Ack? then conns + {ms[0].conn} else conns)
  }

  ghost predicate Announced(s: State) {
    && InOrder(Inbound(s), s.room.conns)
    && (forall c :: c in s.owner ==> c in Seen(Inbound(s), s.room.conns))
  }

  ghost predicate Kept(s: State) {
    Tidy(s.room, s.owner) && OwnedOnce(s.owner) && OwnedAnswered(s) && Announced(s)
  }

  lemma {:induction false} InOrderAppend(ms: seq<Msg>, m: Msg, conns: set<string>)
    requires InOrder(ms, conns)
    requires m.Offer? || m.Ready? ==> m.conn in Seen(ms, conns)
    ensures InOrder(ms + [m], conns)
    ensures Seen(ms + [m], conns) == Seen(ms, conns) + if m.Ack? then {m.conn} else {}
  {
    if ms == [] {
      assert ms + [m] == [m] && [m][1..] == [];
    } else {
      assert (ms + [m])[1..] == ms[1..] + [m];
      InOrderAppend(ms[1..], m, if ms[0].Ack? then conns + {ms[0].conn} else conns);
    }
  }

  lemma {:induction false} InOrderInsert(a: seq<Msg>, m: Msg, b: seq<Msg>, conns: set<string>)
    requires ClientTask(m) && InOrder(a + b, conns)
    ensures InOrder(a + [m] + b, conns) && Seen(a + [m] + b, conns) == Seen(a + b, conns)
  {
    if a == [] {
      assert a + b == b && a + [m] + b == [m] + b && ([m] + b)[1..] == b;
    } else {
      assert (a + b)[1..] == a[1..] + b && (a + [m] + b)[1..] == a[1..] + [m] + b;
      InOrderInsert(a[1..], m, b, if a[0].Ack? then conns + {a[0].conn} else conns);
    }
  }

  // ----- the worker -----

  lemma HandleConns(r: Room, up: bool, m: Msg, ro: seq<nat>, lo: seq<nat>)
    requires forall x :: x in ro ==> x in r.remote
    requires forall x :: x in lo ==> x in View(r.local)
    requires m.Ack? ==> Book(r, m.kind).pending != []
    ensures Handle(r, up, m, ro, lo).room.conns == if m.Ack? then r.conns + {m.conn} else r.conns
  {
  }

  lemma OfferTidy(r: Room, conn: string, ro: seq<nat>, owner: map<string, Asker>)
    requires IsOrder(ro, r.remote) && Tidy(r, owner) && Routed(r.remote, owner)
    requires conn != "" && conn in r.conns && conn in owner && owner[conn].kind == Subscribe
    ensures Tidy(HandleOffer(r, conn, ro), owner)
  {
    ScanNotNull(r.remote, ro, conn);
    OfferOutcome(r, conn, ro, owner);
  }

  lemma ReadyTidy(r: Room, conn: string, ro: seq<nat>, lo: seq<nat>, owner: map<string, Asker>)
    requires IsOrder(ro, r.remote) && IsOrder(lo, View(r.local))
    requires Tidy(r, owner) && Routed(r.remote, owner) && Filed(r, owner) && conn != ""
    requires conn in r.conns && conn in owner && (owner[conn].kind == Subscribe || NoNulls(View(r.local)))
    ensures owner[conn].kind == Subscribe ==> HandleReady(r, conn, ro, lo) == Marked(r, conn, owner[conn])
    ensures HandleReady(r, conn, ro, lo).fault.None? && Tidy(HandleReady(r, conn, ro, lo), owner)
  {
    if owner[conn].kind == Subscribe { assert HeldBy(r.remote, owner[conn].id, conn); }
    ReadySafe(r, true, conn, ro, lo);
    if owner[conn].kind == Subscribe {
      SubscribedReady(r, conn, ro, lo, owner);
    } else {
      PublishedReady(r, conn, ro, lo, owner);
    }
  }

  lemma AckTidy(r: Room, m: Msg, owner: map<string, Asker>)
    requires Tidy(r, owner) && OwnedOnce(owner) && m.Ack? && Genuine(m, owner)
    requires Book(r, m.kind).pending != []
    requires m.kind == Subscribe ==> r.sub.pending[0] == m.asked && m.asked in r.sub.pushes
    ensures Tidy(HandleAck(r, m.kind, m.asked, m.conn, m.stream), owner)
  {
  }

  lemma OtherTidy(s: State, m: Msg, ro: seq<nat>, lo: seq<nat>)
    requires forall x :: x in ro ==> x in s.room.remote
    requires forall x :: x in lo ==> x in View(s.room.local)
    requires Tidy(s.room, s.owner) && Care(s, m) && !m.Ack? && !m.Offer? && !m.Ready?
    requires forall c :: c in s.owner && s.owner[c].kind == Subscribe ==> s.owner[c].id in s.room.sub.pushes
    ensures Tidy(Handle(s.room, s.connected, m, ro, lo).room, s.owner)
  {
  }

  lemma NothingDroppedMatches(s: State)
    requires Inv(s) && s.room.sub.dropped == 0
    ensures Matched(s.room)
  {
    assert Balanced(s, Subscribe);
  }

  lemma OwnedPushed(s: State)
    requires Inv(s) && s.room.sub.dropped == 0 && OwnedAnswered(s)
    ensures forall c :: c in s.owner && s.owner[c].kind == Subscribe ==> s.owner[c].id in s.room.sub.pushes
  {
    var coming, going := Ids(Inbound(s), Acks(Subscribe)), Ids(Outbound(s), Requests(Subscribe));
    assert Balanced(s, Subscribe);
    assert s.room.sub.pushes == (s.room.sub.handled + coming) + going;
  }

  lemma PerformTidy(s: State, m: Msg, ro: seq<nat>, lo: seq<nat>)
    requires (IsOrder(ro, s.room.remote) && IsOrder(lo, View(s.room.local))) || !(m.Offer? || m.Ready?)
    requires forall x :: x in ro ==> x in s.room.remote
    requires forall x :: x in lo ==> x in View(s.room.local)
    requires Tidy(s.room, s.owner) && OwnedOnce(s.owner) && Care(s, m)
    requires Routed(s.room.remote, s.owner) && Filed(s.room, s.owner) && Genuine(m, s.owner)
    requires "" !in s.owner
    requires forall c :: c in s.owner && s.owner[c].kind == Subscribe ==> s.owner[c].id in s.room.sub.pushes
    requires m.Offer? || m.Ready? ==> m.conn in s.room.conns
    requires m.Ack? ==> Book(s.room, m.kind).pending != []
    requires m.Ack? && m.kind == Subscribe ==> s.room.sub.pending[0] == m.asked && m.asked in s.room.sub.pushes
    ensures Tidy(Handle(s.room, s.connected, m, ro, lo).room, s.owner)
  {
    if m.Offer? {
      OfferTidy(s.room, m.conn, ro, s.owner);
    } else if m.Ready? {
      ReadyTidy(s.room, m.conn, ro, lo, s.owner);
    } else if m.Ack? {
      AckTidy(s.room, m, s.owner);
    } else {
      OtherTidy(s, m, ro, lo);
    }
  }

  lemma PerformAnswered(s: State, t: State, m: Msg, ro: seq<nat>, lo: seq<nat>)
    requires forall x :: x in ro ==> x in t.room.remote
    requires forall x :: x in lo ==> x in View(t.room.local)
    requires t.room == s.room && t.owner == s.owner && t.connected == s.connected
    requires Ids(Inbound(s), Acks(Subscribe)) == Tag(m, Acks(Subscribe)) + Ids(Inbound(t), Acks(Subscribe))
    requires OwnedAnswered(s) && (m.Ack? ==> Book(s.room, m.kind).pending != [])
    ensures OwnedAnswered(Perform(t, m, ro, lo))
  {
    HandleBooks(t.room, t.connected, m, ro, lo, Subscribe);
    Slide(s.room.sub.handled, Tag(m, Acks(Subscribe)), Ids(Inbound(t), Acks(Subscribe)));
    SameAnswered(s, Perform(t, m, ro, lo), t, Tag(m, Acks(Subscribe)));
  }

  lemma SameAnswered(s: State, s': State, t: State, tag: seq<nat>)
    requires OwnedAnswered(s) && s'.owner == s.owner && s'.worker == t.worker && s'.inWire == t.inWire
    requires s'.room.sub.handled == s.room.sub.handled + tag
    requires Ids(Inbound(s), Acks(Subscribe)) == tag + Ids(Inbound(t), Acks(Subscribe))
    ensures OwnedAnswered(s')
  {
    Slide(s.room.sub.handled, tag, Ids(Inbound(t), Acks(Subscribe)));
  }

  lemma RunTaskKept(s: State, ro: seq<nat>, lo: seq<nat>)
    requires Inv(s) && Placed(s) && Filed(s.room, s.owner) && Kept(s)
    requires Enabled(s, RunTask(ro, lo)) && Care(s, s.worker[0])
    ensures Kept(Apply(s, RunTask(ro, lo)))
  {
    var m, t := s.worker[0], Taken(s);
    assert m in s.worker && Inbound(s)[0] == m && Inbound(s)[1..] == Inbound(t);
    OwnedPushed(s);
    NothingDroppedMatches(s);
    if m.Ack? { HeadAck(s); }
    assert m.Ack? && m.kind == Subscribe ==> m.asked in s.room.sub.pushes;
    PerformTidy(s, m, ro, lo);
    PerformAnswered(s, t, m, ro, lo);
    HandleConns(s.room, s.connected, m, ro, lo);
    assert Inbound(Apply(s, RunTask(ro, lo))) == Inbound(t);
  }

  lemma InlineKept(s: State, m: Msg)
    requires Inv(s) && Placed(s) && Filed(s.room, s.owner) && Kept(s) && Enabled(s, CallInline(m)) && Care(s, m)
    ensures Kept(Apply(s, CallInline(m)))
  {
    OwnedPushed(s);
    NothingDroppedMatches(s);
    PerformTidy(s, m, [], []);
    assert Ids(Inbound(s), Acks(Subscribe)) == Tag(m, Acks(Subscribe)) + Ids(Inbound(s), Acks(Subscribe));
    PerformAnswered(s, s, m, [], []);
    HandleConns(s.room, s.connected, m, [], []);
    assert Inbound(Apply(s, CallInline(m))) == Inbound(s);
  }

  // ----- transport -----

  lemma AnswerFresh(s: State, i: nat, conn: string, stream: nat)
    requires Inv(s) && Kept(s) && Enabled(s, ServerAnswer(i, conn, stream)) && s.server[i].kind == Subscribe
    ensures s.server[i].id !in s.room.sub.handled + Ids(Inbound(s), Acks(Subscribe))
  {
    var old_ := s.room.sub.handled + Ids(Inbound(s), Acks(Subscribe));
    var rest := Ids((s.server[..i] + s.server[i + 1..]) + OnTheWay(s), Requests(Subscribe));
    IdsTake(s.server, i, OnTheWay(s), Requests(Subscribe));
    assert Balanced(s, Subscribe);
    assert s.room.sub.pushes == old_ + ([s.server[i].id] + rest);
    assert s.room.sub.pushes[|old_|] == s.server[i].id;
    forall j | 0 <= j < |old_| ensures old_[j] != s.server[i].id {
      assert s.room.sub.pushes[j] == old_[j];
    }
  }

  lemma AnswerOwned(s: State, i: nat, conn: string, stream: nat)
    requires Inv(s) && Kept(s) && Enabled(s, ServerAnswer(i, conn, stream))
    ensures OwnedOnce(Answered(s, i, conn, stream).owner) && OwnedAnswered(Answered(s, i, conn, stream))
  {
    var s' := Answered(s, i, conn, stream);
    var ack := Ack(s.server[i].kind, s.server[i].id, conn, stream);
    if s.server[i].kind == Subscribe { AnswerFresh(s, i, conn, stream); }
    assert Inbound(s') == Inbound(s) + [ack];
    IdsLast(Inbound(s), ack, Acks(Subscribe));
  }

  lemma AnswerKept(s: State, i: nat, conn: string, stream: nat)
    requires Inv(s) && Kept(s) && Enabled(s, ServerAnswer(i, conn, stream))
    ensures Kept(Answered(s, i, conn, stream))
  {
    AnswerOwned(s, i, conn, stream);
    var ack := Ack(s.server[i].kind, s.server[i].id, conn, stream);
    assert Inbound(Answered(s, i, conn, stream)) == Inbound(s) + [ack];
    InOrderAppend(Inbound(s), ack, s.room.conns);
  }

  lemma SendKept(s: State, m: Msg)
    requires Kept(s) && Enabled(s, ServerSend(m))
    ensures Kept(Apply(s, ServerSend(m)))
  {
    assert Inbound(Apply(s, ServerSend(m))) == Inbound(s) + [m];
    InOrderAppend(Inbound(s), m, s.room.conns);
    IdsLast(Inbound(s), m, Acks(Subscribe));
  }

  lemma CallKept(s: State, m: Msg)
    requires Kept(s) && Enabled(s, Call(m))
    ensures Kept(Apply(s, Call(m)))
  {
    assert Inbound(Apply(s, Call(m))) == s.worker + [m] + s.inWire;
    assert s.worker + [m] + s.inWire == s.worker + ([m] + s.inWire);
    InOrderInsert(s.worker, m, s.inWire, s.room.conns);
    IdsInsert(s.worker, m, s.inWire, Acks(Subscribe));
    IdsConcat(s.worker, s.inWire, Acks(Subscribe));
  }

  lemma SameInboundKept(s: State, s': State)
    requires Kept(s) && s'.room == s.room && s'.owner == s.owner && Inbound(s') == Inbound(s)
    ensures Kept(s')
  {
  }

  lemma StepKept(s: State, e: Event)
    requires Inv(s) && Placed(s) && Filed(s.room, s.owner) && Kept(s) && Enabled(s, e)
    requires Executed(s, e).Some? ==> Care(s, Executed(s, e).value)
    ensures Kept(Apply(s, e))
  {
    match e
    case RunTask(ro, lo) => RunTaskKept(s, ro, lo);
    case CallInline(m) => InlineKept(s, m);
    case ServerAnswer(i, conn, stream) => AnswerKept(s, i, conn, stream);
    case ServerSend(m) => SendKept(s, m);
    case Call(m) => CallKept(s, m);
    case _ => MovesKept(s, e);
  }

  lemma MovesKept(s: State, e: Event)
    requires Kept(s) && Enabled(s, e)
    requires e.Read? || e.Connection? || e.Socket? || e.ServerReceive? || e.ServerAbsorb?
    ensures Kept(Apply(s, e))
  {
    MovesInbound(s, e);
    SameInboundKept(s, Apply(s, e));
  }

  lemma MovesInbound(s: State, e: Event)
    requires Enabled(s, e)
    requires e.Read? || e.Connection? || e.Socket? || e.ServerReceive? || e.ServerAbsorb?
    ensures var s' := Apply(s, e);
      s'.room == s.room && s'.owner == s.owner && Inbound(s') == Inbound(s)
  {
    if e.Read? {
      Advance(s.worker, s.inWire, []);
      assert Inbound(Apply(s, e)) == Inbound(s);
    }
  }

  lemma {:induction false} CarefulRunsKept(run: seq<Event>)
    requires Exec(Init(), run).Some? && Careful(run)
    ensures Kept(Exec(Init(), run).value)
  {
    if run != [] {
      var before := run[..|run| - 1];
      CarefulRunsKept(before);
      RunsKeepInv(before);
      RunsPlaced(before);
      RunsFiled(before);
      StepKept(Exec(Init(), before).value, run[|run| - 1]);
    }
  }

  /** End to end: in a careful run every offer is reported for exactly the stream whose subscription
      its connection was allocated for, and no handler faults. */
  lemma OffersReachTheirStream(run: seq<Event>, i: nat)
    requires Exec(Init(), run).Some? && Careful(run)
    requires i < |Exec(Init(), run).value.room.offers|
    ensures var s := Exec(Init(), run).value; var offer := s.room.offers[i];
      && s.room.fault == None
      && offer.conn in s.owner
      && s.owner[offer.conn].kind == Subscribe
      && offer.stream == Some(s.owner[offer.conn].id)
  {
    CarefulRunsKept(run);
  }

  /** In a careful run no readiness event faults, and one for a subscription finds and marks its stream. */
  lemma ReadinessReachesItsStream(run: seq<Event>, ro: seq<nat>, lo: seq<nat>)
    requires Exec(Init(), run).Some? && Careful(run)
    requires var s := Exec(Init(), run).value;
      Enabled(s, RunTask(ro, lo)) && s.worker[0].Ready? && Care(s, s.worker[0])
    ensures var s := Exec(Init(), run).value; var conn := s.worker[0].conn; var r' := Apply(s, RunTask(ro, lo)).room;
      && r'.fault.None?
      && (s.owner[conn].kind == Subscribe ==>
            HeldBy(s.room.remote, s.owner[conn].id, conn) && r' == Marked(s.room, conn, s.owner[conn]))
  {
    CarefulRunsKept(run);
    RunsKeepInv(run);
    RunsPlaced(run);
    RunsFiled(run);
    var s := Exec(Init(), run).value;
    NothingDroppedMatches(s);
    assert s.worker[0] in s.worker && Inbound(s)[0] == s.worker[0];
    ReadyTidy(s.room, s.worker[0].conn, ro, lo, s.owner);
  }
}
