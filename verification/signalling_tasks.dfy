/** What each worker task does to the room, entry by entry and field by field, and what follows for a stream
    that was in the room before the client joined.  */
module SignallingTasks {
  import opened Wrappers
  import opened Signalling
  import opened SignallingFifo
  import opened SignallingRouting
  import opened SignallingHazards
  import opened SignallingPublishing
  import opened SignallingOffers

  /** Everything but the two maps and the reported offers. */
  predicate SameBooks(r: Room, r': Room) {
    r'.sub == r.sub && r'.pub == r.pub && r'.conns == r.conns
  }

  /** An entry of a map that is what it was, there or not. */
  predicate SameEntry(m: Streams, m': Streams, id: nat) {
    (id in m' <==> id in m) && (id in m ==> m'[id] == m[id])
  }

  // ----- streams come and go -----

  /** A stream of the join response: an absent one is stored without connection, a present one keeps its
      entry, and nothing else changes. */
  lemma ExistingMeans(r: Room, up: bool, id: nat, x: nat)
    ensures var r' := Handle(r, up, Existing(id), [], []).room;
      && id in r'.remote
      && r'.remote[id] == (if id in r.remote then r.remote[id] else Some(Info("", false)))
      && (x != id ==> SameEntry(r.remote, r'.remote, x))
      && SameBooks(r, r') && r'.local == r.local && r'.offers == r.offers && r'.fault == r.fault
    ensures Handle(r, up, Existing(id), [], []).out == None
  {
  }

  /** An announcement of a stream that the room did not publish, whether or not the local map has a null
      entry for it: it becomes a remote stream without connection, also after a removal. */
  lemma AnnouncedRemote(r: Room, up: bool, id: nat, x: nat)
    requires id !in r.local.refs || r.local.refs[id].None?
    ensures var r' := Handle(r, up, AddStream(id), [], []).room;
      && id in r'.remote && r'.remote[id] == Some(Info("", false))
      && (x != id ==> SameEntry(r.remote, r'.remote, x))
      && id in r'.local.refs && r'.local.refs[id].None?
      && (x != id ==> SameEntry(View(r.local), View(r'.local), x))
      && r'.local.objects == r.local.objects
      && SameBooks(r, r') && r'.offers == r.offers && r'.fault == r.fault
  {
  }

  /** An announcement of a published stream: its entry gets an object of its own, not connected, with the
      connection the entry had; the remote map and all other objects stay. */
  lemma AnnouncedLocal(r: Room, up: bool, id: nat, h: Ref)
    requires id in r.local.refs && r.local.refs[id].Some? && r.local.refs[id].value in r.local.objects
    requires forall n :: n in r.local.objects && n.Made? ==> n.number < r.local.made
    ensures var r' := Handle(r, up, AddStream(id), [], []).room;
      && id in r'.local.refs && r'.local.refs[id].Some?
      && (var new_ := r'.local.refs[id].value;
          && new_ !in r.local.objects && new_ in r'.local.objects
          && r'.local.objects[new_] == Object(id, r.local.objects[r.local.refs[id].value].conn, false)
          && (h != new_ ==> (h in r'.local.objects <==> h in r.local.objects))
          && (h in r.local.objects ==> r'.local.objects[h] == r.local.objects[h]))
      && r'.remote == r.remote && SameBooks(r, r') && r'.offers == r.offers && r'.fault == r.fault
  {
  }

  lemma RemovedMeans(r: Room, up: bool, id: nat, x: nat)
    ensures var r' := Handle(r, up, RemoveStream(id), [], []).room;
      && id !in r'.remote && (x != id ==> SameEntry(r.remote, r'.remote, x))
      && SameBooks(r, r') && r'.local == r.local && r'.offers == r.offers && r'.fault == r.fault
  {
  }

  // ----- what is sent -----

  /** A candidate is sent if and only if the stream is remote or local, and the task faults otherwise; a
      missing stream leaves a null entry in every map that was searched. */
  lemma CandidateSentIff(r: Room, up: bool, id: nat)
    requires r.fault.None?
    ensures var effect := Handle(r, up, Ice(id), [], []); var known := Live(r.remote, id) || Live(View(r.local), id);
      && (effect.out == Some(Notice) <==> known) && (effect.out == None <==> !known)
      && (effect.room.fault == None <==> known)
      && id in effect.room.remote && (id !in r.remote ==> effect.room.remote[id].None?)
      && (!Live(r.remote, id) && id !in r.local.refs ==>
            id in effect.room.local.refs && effect.room.local.refs[id].None?)
  {
  }

  /** A description is sent if and only if the stream is remote. */
  lemma DescriptionSentIff(r: Room, up: bool, id: nat)
    requires r.fault.None?
    ensures var effect := Handle(r, up, Sdp(id), [], []);
      && (effect.out == Some(Notice) <==> Live(r.remote, id)) && (effect.out == None <==> !Live(r.remote, id))
      && (effect.room.fault == None <==> Live(r.remote, id))
      && id in effect.room.remote && (id !in r.remote ==> effect.room.remote[id].None?)
  {
  }

  /** Asking pushes the id to the queue of its kind, whatever the connection, and hands the request over. */
  lemma AskedMeans(r: Room, up: bool, k: Kind, id: nat)
    ensures var effect := Handle(r, up, Ask(k, id), [], []);
      && effect.out == Some(Request(k, id))
      && (k == Subscribe ==> effect.room.sub.pending == r.sub.pending + [id] && effect.room.pub == r.pub)
      && (k == Publish ==> effect.room.pub.pending == r.pub.pending + [id] && effect.room.sub == r.sub)
      && effect.room.remote == r.remote && effect.room.local == r.local && effect.room.offers == r.offers
      && effect.room.fault == r.fault
  {
  }

  // ----- transport -----

  /** Calls and received messages queue up behind the worker's tasks, one task is taken at a time, and a
      request that is handed over while connected reaches the socket. */
  lemma TransportMeans(s: State, m: Msg)
    requires s.room.fault.None?
    ensures ClientTask(m) ==> Apply(s, Call(m)) == s.(worker := s.worker + [m])
    ensures s.inWire != [] ==>
      Apply(s, Read) == s.(inWire := s.inWire[1..], worker := s.worker + [s.inWire[0]])
    ensures s.outWire != [] ==>
      Apply(s, ServerReceive) == s.(outWire := s.outWire[1..], server := s.server + [s.outWire[0]])
    ensures m.Ask? ==>
      var s' := Apply(s, CallInline(m));
      s'.ws.posted == s.ws.posted + if s.connected then [Request(m.kind, m.id)] else []
  {
  }

  lemma TaskTaken(s: State, ro: seq<nat>, lo: seq<nat>)
    requires Enabled(s, RunTask(ro, lo))
    ensures var s' := Apply(s, RunTask(ro, lo)); var effect := Handle(s.room, s.connected, s.worker[0], ro, lo);
      && s.worker == [s.worker[0]] + s'.worker && s'.room == effect.room
      && s'.ws.posted == s.ws.posted + (if s.connected && effect.out.Some? then [effect.out.value] else [])
      && s'.inWire == s.inWire && s'.outWire == s.outWire && s'.server == s.server && s'.owner == s.owner
  {
  }

  // ----- acknowledgements -----

  /** The acknowledgement of a subscription: the stream in front of the queue gets the connection and
      nothing else of it changes. */
  lemma SubscribedMeans(r: Room, up: bool, asked: nat, conn: string, stream: nat, x: nat)
    requires r.sub.pending != [] && Live(r.remote, r.sub.pending[0])
    ensures var r' := Handle(r, up, Ack(Subscribe, asked, conn, stream), [], []).room; var id := r.sub.pending[0];
      && r.sub.pending == [id] + r'.sub.pending
      && id in r'.remote && r'.remote[id] == Some(Info(conn, r.remote[id].value.connected))
      && (x != id ==> SameEntry(r.remote, r'.remote, x))
      && r'.pub == r.pub && r'.local == r.local && r'.offers == r.offers && r'.fault == r.fault
  {
  }

  /** The acknowledgement of a publication: the object in front of the queue gets id and connection, keeps
      its mark, and is stored under the id; no other object and no other entry changes. */
  lemma PublishedMeans(r: Room, up: bool, asked: nat, conn: string, stream: nat, h: Ref, x: nat)
    requires r.pub.pending != []
    ensures var r' := Handle(r, up, Ack(Publish, asked, conn, stream), [], []).room; var info := Given(r.pub.pending[0]);
      && r.pub.pending == [r.pub.pending[0]] + r'.pub.pending
      && stream in r'.local.refs && r'.local.refs[stream] == Some(info)
      && (x != stream ==> (x in r'.local.refs <==> x in r.local.refs)
                          && (x in r.local.refs ==> r'.local.refs[x] == r.local.refs[x]))
      && info in r'.local.objects && r'.local.objects[info].id == stream && r'.local.objects[info].conn == conn
      && r'.local.objects[info].connected == (info in r.local.objects && r.local.objects[info].connected)
      && (h != info ==> (h in r'.local.objects <==> h in r.local.objects)
                        && (h in r.local.objects ==> r'.local.objects[h] == r.local.objects[h]))
      && r'.sub == r.sub && r'.remote == r.remote && r'.offers == r.offers && r'.fault == r.fault
  {
  }

  // ----- readiness -----

  /** One object is connected now; its id and connection, all other objects and all entries are as before. */
  ghost predicate OnlyConnected(l: Locals, l': Locals, h: Ref) {
    && h in l.objects && h in l'.objects
    && l'.objects[h].connected && l'.objects[h].id == l.objects[h].id && l'.objects[h].conn == l.objects[h].conn
    && (forall g :: g != h ==> (g in l'.objects <==> g in l.objects))
    && (forall g :: g != h && g in l.objects ==> l'.objects[g] == l.objects[g])
    && l'.refs == l.refs && l'.made == l.made && l'.stored == l.stored
  }

  /** In every run with matched subscriptions: the readiness of a published connection that the local map
      holds connects exactly one object, one that is stored under some id with that connection, and changes
      nothing else in the room.  The readiness of a subscription that its stream holds connects that stream
      alone. */
  lemma ReadinessConnectsOne(run: seq<Event>, ro: seq<nat>, lo: seq<nat>)
    requires Exec(Init(), run).Some?
    requires var s := Exec(Init(), run).value;
      Enabled(s, RunTask(ro, lo)) && s.worker[0].Ready? && Matched(s.room)
    requires Apply(Exec(Init(), run).value, RunTask(ro, lo)).room.fault.None?
    ensures var s := Exec(Init(), run).value; var conn := s.worker[0].conn;
      var r' := Apply(s, RunTask(ro, lo)).room;
      && conn in s.owner
      && (s.owner[conn].kind == Publish && Held(View(s.room.local), conn) ==>
            && r' == s.room.(local := r'.local)
            && exists id :: HeldBy(View(s.room.local), id, conn)
                 && OnlyConnected(s.room.local, r'.local, s.room.local.refs[id].value))
      && (s.owner[conn].kind == Subscribe && HeldBy(s.room.remote, s.owner[conn].id, conn) ==>
            && r' == s.room.(remote := r'.remote)
            && HeldBy(r'.remote, s.owner[conn].id, conn) && r'.remote[s.owner[conn].id].value.connected
            && forall x :: x != s.owner[conn].id ==> SameEntry(s.room.remote, r'.remote, x))
  {
    var s := Exec(Init(), run).value;
    var conn := s.worker[0].conn;
    ReadyIsExact(run, ro, lo);
    RunsFiled(run);
    if s.owner[conn].kind == Publish && Held(View(s.room.local), conn) {
      var id :| HeldBy(View(s.room.local), id, conn)
        && Apply(s, RunTask(ro, lo)).room
           == s.room.(local := MarkConnected(s.room.local, s.room.local.refs[id].value));
      assert Entry(s.room.local, s.owner, id, s.room.local.refs[id].value);
      MarkConnectsOne(s.room.local, s.room.local.refs[id].value);
    }
  }

  lemma MarkConnectsOne(l: Locals, h: Ref)
    requires h in l.objects
    ensures OnlyConnected(l, MarkConnected(l, h), h)
  {
  }

  // ----- a stream of the join response, over a run -----

  /** No task of the run removes the stream. */
  ghost predicate NeverRemoved(s: State, more: seq<Event>, id: nat) {
    more != [] ==>
      && NeverRemoved(s, more[..|more| - 1], id)
      && var before := Exec(s, more[..|more| - 1]);
         before.Some? ==> Executed(before.value, more[|more| - 1]) != Some(RemoveStream(id))
  }

  lemma HandleStaysLive(r: Room, up: bool, m: Msg, ro: seq<nat>, lo: seq<nat>, id: nat)
    requires forall x :: x in ro ==> x in r.remote
    requires forall x :: x in lo ==> x in View(r.local)
    requires Live(r.remote, id) && m != RemoveStream(id)
    ensures Live(Handle(r, up, m, ro, lo).room.remote, id)
  {
  }

  lemma StepStaysLive(s: State, e: Event, id: nat)
    requires Enabled(s, e) && Live(s.room.remote, id) && Executed(s, e) != Some(RemoveStream(id))
    ensures Live(Apply(s, e).room.remote, id)
  {
    match e
    case RunTask(ro, lo) => HandleStaysLive(s.room, s.connected, s.worker[0], ro, lo, id);
    case CallInline(m) => HandleStaysLive(s.room, s.connected, m, [], [], id);
    case _ => assert Apply(s, e).room == s.room;
  }

  lemma {:induction false} StaysLive(s: State, more: seq<Event>, id: nat)
    requires Exec(s, more).Some? && Live(s.room.remote, id) && NeverRemoved(s, more, id)
    ensures Live(Exec(s, more).value.room.remote, id)
  {
    if more != [] {
      StaysLive(s, more[..|more| - 1], id);
      StepStaysLive(Exec(s, more[..|more| - 1]).value, more[|more| - 1], id);
    }
  }

  lemma {:induction false} ExecConcat(s: State, a: seq<Event>, b: seq<Event>)
    requires Exec(s, a).Some?
    ensures Exec(s, a + b) == Exec(Exec(s, a).value, b)
    decreases |b|
  {
    if b == [] {
      assert a + b == a;
    } else {
      ExecConcat(s, a, b[..|b| - 1]);
      assert (a + b)[..|a + b| - 1] == a + b[..|b| - 1];
    }
  }

  /** A stream is listed in the join response and the room has no null entry for it.  Whatever happens
      afterwards except its removal, the acknowledgement of a subscription to it gives it its connection,
      provided that no subscribe request was dropped; in particular the handler does not fault. */
  lemma ListedStreamGetsConnection(run: seq<Event>, more: seq<Event>, ro: seq<nat>, lo: seq<nat>,
                                   ro': seq<nat>, lo': seq<nat>)
    requires Exec(Init(), run).Some?
    requires var s := Exec(Init(), run).value;
      && Enabled(s, RunTask(ro, lo)) && s.worker[0].Existing?
      && (s.worker[0].id in s.room.remote ==> s.room.remote[s.worker[0].id].Some?)
      && var listed := Apply(s, RunTask(ro, lo));
         && Exec(listed, more).Some? && NeverRemoved(listed, more, s.worker[0].id)
         && var s' := Exec(listed, more).value;
            && Enabled(s', RunTask(ro', lo')) && s'.worker[0].Ack? && s'.worker[0].kind == Subscribe
            && s'.worker[0].asked == s.worker[0].id && s'.room.sub.dropped == 0
    ensures var s := Exec(Init(), run).value; var s' := Exec(Apply(s, RunTask(ro, lo)), more).value;
      var r' := Apply(s', RunTask(ro', lo')).room;
      r'.fault.None? && HeldBy(r'.remote, s.worker[0].id, s'.worker[0].conn)
  {
    var s := Exec(Init(), run).value;
    var id, listed := s.worker[0].id, Apply(s, RunTask(ro, lo));
    var s' := Exec(listed, more).value;
    ExistingMeans(s.room, s.connected, id, id);
    StaysLive(listed, more, id);
    AppendRun(run, RunTask(ro, lo), more);
    RunsKeepInv(run + [RunTask(ro, lo)] + more);
    LiveStreamGetsConnection(s', ro', lo');
  }

  lemma LiveStreamGetsConnection(s: State, ro: seq<nat>, lo: seq<nat>)
    requires Inv(s) && Enabled(s, RunTask(ro, lo)) && s.worker[0].Ack? && s.worker[0].kind == Subscribe
    requires Live(s.room.remote, s.worker[0].asked) && s.room.sub.dropped == 0
    ensures var r' := Apply(s, RunTask(ro, lo)).room;
      r'.fault.None? && HeldBy(r'.remote, s.worker[0].asked, s.worker[0].conn)
  {
    HeadAck(s);
  }

  lemma AppendRun(run: seq<Event>, e: Event, more: seq<Event>)
    requires Exec(Init(), run).Some? && Enabled(Exec(Init(), run).value, e)
    requires Exec(Apply(Exec(Init(), run).value, e), more).Some?
    ensures Exec(Init(), run + [e] + more) == Exec(Apply(Exec(Init(), run).value, e), more)
  {
    assert (run + [e])[..|run + [e]| - 1] == run;
    ExecConcat(Init(), run + [e], more);
  }
}
