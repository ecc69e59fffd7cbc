/** Which stream object a publish acknowledgement fills, and what the local map then holds.  The objects are
    shared: the client passes one to `PublishStream`, the room fills in its id and connection and stores it,
    and the same object may be published again.  */
module SignallingPublishing {
  import opened Wrappers
  import opened Signalling
  import opened SignallingFifo
  import opened SignallingRouting

  /** Every publish acknowledgement so far was taken for the object whose request it answered. */
  predicate PublishMatched(r: Room) {
    r.pub.given == r.pub.handled
  }

  /** No object was filled in twice. */
  predicate FilledOnce(given: seq<nat>) {
    forall i, j :: 0 <= i < j < |given| ==> given[i] != given[j]
  }

  /** The last acknowledgement taken for an object. */
  function LastOf(stored: seq<Publication>, info: nat): Option<Publication> {
    if stored == [] then None
    else if stored[|stored| - 1].info == info then Some(stored[|stored| - 1])
    else LastOf(stored[..|stored| - 1], info)
  }

  /** The i-th publication is the i-th acknowledgement: taken for the i-th object of the queue, with the
      stream and connection that answer the i-th request sent. */
  ghost predicate Accounted(stored: seq<Publication>, pub: Ledger, owner: map<string, Asker>) {
    && |stored| == |pub.given| == |pub.handled|
    && (forall i :: 0 <= i < |stored| ==>
          && stored[i].info == pub.given[i]
          && stored[i].conn in owner && owner[stored[i].conn] == Asker(Publish, pub.handled[i], stored[i].stream))
  }

  /** A client's object has id and connection of the last acknowledgement taken for it. */
  ghost predicate Filled(l: Locals) {
    forall h :: h in l.objects && h.Given? ==>
      LastOf(l.stored, h.info) == Some(Publication(h.info, l.objects[h].id, l.objects[h].conn))
  }

  ghost predicate StoredUnder(stored: seq<Publication>, info: nat, id: nat) {
    exists i :: 0 <= i < |stored| && stored[i].info == info && stored[i].stream == id
  }

  /** Every entry refers to an object with a published connection: one that was stored under that id, or
      one the room made for it. */
  ghost predicate Entry(l: Locals, owner: map<string, Asker>, id: nat, h: Ref) {
    && h in l.objects
    && (if h.Given? then StoredUnder(l.stored, h.info, id) else l.objects[h].id == id)
    && l.objects[h].conn in owner && owner[l.objects[h].conn].kind == Publish
  }

  ghost predicate Shelved(l: Locals, owner: map<string, Asker>) {
    && (forall id :: id in l.refs && l.refs[id].Some? ==> Entry(l, owner, id, l.refs[id].value))
    && (forall h :: h in l.objects && h.Made? ==> h.number < l.made)
  }

  /** Every entry carries its own id, and the connection allocated for that id. */
  ghost predicate InPlace(l: Locals, owner: map<string, Asker>) {
    forall id :: id in l.refs && l.refs[id].Some? ==>
      var o := At(l, l.refs[id].value); o.id == id && o.conn in owner && owner[o.conn].stream == id
  }

  ghost predicate Filed(r: Room, owner: map<string, Asker>) {
    && Accounted(r.local.stored, r.pub, owner)
    && Filled(r.local)
    && Shelved(r.local, owner)
    && (FilledOnce(r.pub.given) ==> InPlace(r.local, owner))
  }

  // ----- one change of the local map -----

  lemma LastOfAppend(stored: seq<Publication>, p: Publication, info: nat)
    ensures LastOf(stored + [p], info) == if p.info == info then Some(p) else LastOf(stored, info)
  {
    assert (stored + [p])[..|stored + [p]| - 1] == stored;
  }

  lemma StoredGrows(stored: seq<Publication>, p: Publication, info: nat, id: nat)
    ensures StoredUnder(stored, info, id) ==> StoredUnder(stored + [p], info, id)
    ensures p.info == info && p.stream == id ==> StoredUnder(stored + [p], info, id)
  {
    if i :| 0 <= i < |stored| && stored[i].info == info && stored[i].stream == id {
      assert (stored + [p])[i] == stored[i];
    }
    assert (stored + [p])[|stored|] == p;
  }

  lemma StoreFilled(l: Locals, info: nat, stream: nat, conn: string)
    requires Filled(l)
    ensures Filled(Store(l, info, stream, conn))
  {
    var l', p := Store(l, info, stream, conn), Publication(info, stream, conn);
    forall h | h in l'.objects && h.Given?
      ensures LastOf(l'.stored, h.info) == Some(Publication(h.info, l'.objects[h].id, l'.objects[h].conn))
    {
      LastOfAppend(l.stored, p, h.info);
    }
  }

  lemma StoreShelved(l: Locals, info: nat, stream: nat, conn: string, owner: map<string, Asker>)
    requires Shelved(l, owner) && conn in owner && owner[conn].kind == Publish
    ensures Shelved(Store(l, info, stream, conn), owner)
  {
    var l', p := Store(l, info, stream, conn), Publication(info, stream, conn);
    forall id | id in l'.refs && l'.refs[id].Some? ensures Entry(l', owner, id, l'.refs[id].value) {
      var h := l'.refs[id].value;
      if id != stream { assert Entry(l, owner, id, h); }
      if h.Given? { StoredGrows(l.stored, p, h.info, id); }
    }
  }

  /** An object that is filled in for the first time is under no other id. */
  lemma StoreInPlace(l: Locals, pub: Ledger, info: nat, stream: nat, conn: string, owner: map<string, Asker>)
    requires Accounted(l.stored, pub, owner) && Shelved(l, owner) && InPlace(l, owner) && info !in pub.given
    requires conn in owner && owner[conn].stream == stream
    ensures InPlace(Store(l, info, stream, conn), owner)
  {
    forall id | id in l.refs && l.refs[id].Some? ensures l.refs[id].value != Given(info) {
      assert Entry(l, owner, id, l.refs[id].value);
    }
  }

  lemma FilledOnceBefore(given: seq<nat>, info: nat)
    requires FilledOnce(given + [info])
    ensures FilledOnce(given) && info !in given
  {
    var all := given + [info];
    assert all[|given|] == info;
    assert forall i :: 0 <= i < |given| ==> all[i] == given[i];
  }

  lemma AccountedAppend(stored: seq<Publication>, p: Publication, pub: Ledger, owner: map<string, Asker>, asked: nat)
    requires Accounted(stored, pub, owner) && pub.pending != [] && p.info == pub.pending[0]
    requires p.conn in owner && owner[p.conn] == Asker(Publish, asked, p.stream)
    ensures Accounted(stored + [p], Popped(pub, asked), owner)
  {
  }

  lemma AckFiled(r: Room, asked: nat, conn: string, stream: nat, owner: map<string, Asker>)
    requires Filed(r, owner) && r.pub.pending != [] && conn in owner && owner[conn] == Asker(Publish, asked, stream)
    ensures Filed(HandleAck(r, Publish, asked, conn, stream), owner)
  {
    var info := r.pub.pending[0];
    AccountedAppend(r.local.stored, Publication(info, stream, conn), r.pub, owner, asked);
    StoreFilled(r.local, info, stream, conn);
    StoreShelved(r.local, info, stream, conn, owner);
    if FilledOnce(r.pub.given + [info]) {
      FilledOnceBefore(r.pub.given, info);
      StoreInPlace(r.local, r.pub, info, stream, conn, owner);
    }
  }

  lemma ReplaceFiled(r: Room, id: nat, owner: map<string, Asker>)
    requires Filed(r, owner) && Live(View(r.local), id)
    ensures Filed(r.(local := Replace(r.local, id)), owner)
  {
    var l, l' := r.local, Replace(r.local, id);
    assert Entry(l, owner, id, l.refs[id].value);
    forall x | x in l'.refs && l'.refs[x].Some? ensures Entry(l', owner, x, l'.refs[x].value) {
      if x != id { assert Entry(l, owner, x, l.refs[x].value); }
    }
  }

  lemma TouchFiled(r: Room, id: nat, owner: map<string, Asker>)
    requires Filed(r, owner)
    ensures Filed(r.(local := TouchLocal(r.local, id)), owner)
  {
    var l, l' := r.local, TouchLocal(r.local, id);
    forall x | x in l'.refs && l'.refs[x].Some? ensures Entry(l', owner, x, l'.refs[x].value) {
      assert Entry(l, owner, x, l.refs[x].value);
    }
  }

  lemma MarkFiled(r: Room, h: Ref, owner: map<string, Asker>)
    requires Filed(r, owner) && h in r.local.objects
    ensures Filed(r.(local := MarkConnected(r.local, h)), owner)
  {
    var l, l' := r.local, MarkConnected(r.local, h);
    forall x | x in l'.refs && l'.refs[x].Some? ensures Entry(l', owner, x, l'.refs[x].value) {
      assert Entry(l, owner, x, l.refs[x].value);
    }
  }

  // ----- runs -----

  /** Only the local map and two histories of the publish ledger matter. */
  lemma SameFiled(r: Room, r': Room, owner: map<string, Asker>)
    requires Filed(r, owner) && r'.local == r.local
    requires r'.pub.given == r.pub.given && r'.pub.handled == r.pub.handled
    ensures Filed(r', owner)
  {
  }

  lemma HandleFiled(r: Room, up: bool, m: Msg, ro: seq<nat>, lo: seq<nat>, owner: map<string, Asker>)
    requires forall x :: x in ro ==> x in r.remote
    requires forall x :: x in lo ==> x in View(r.local)
    requires Filed(r, owner) && Genuine(m, owner)
    ensures Filed(Handle(r, up, m, ro, lo).room, owner)
  {
    var r' := Handle(r, up, m, ro, lo).room;
    if m.Ack? && m.kind == Publish && r.pub.pending != [] {
      AckFiled(r, m.asked, m.conn, m.stream, owner);
    } else if m.AddStream? && Live(View(r.local), m.id) {
      ReplaceFiled(r, m.id, owner);
    } else if m.AddStream? || m.Ice? {
      TouchFiled(r, m.id, owner);
      SameFiled(if r'.local == r.local then r else r.(local := TouchLocal(r.local, m.id)), r', owner);
    } else if m.Ready? {
      ReadyFiled(r, m.conn, ro, lo, owner);
    } else {
      HandleBooks(r, up, m, ro, lo, Publish);
      SameFiled(r, r', owner);
    }
  }

  lemma ReadyFiled(r: Room, conn: string, ro: seq<nat>, lo: seq<nat>, owner: map<string, Asker>)
    requires forall x :: x in ro ==> x in r.remote
    requires forall x :: x in lo ==> x in View(r.local)
    requires Filed(r, owner)
    ensures Filed(HandleReady(r, conn, ro, lo), owner)
  {
    var found := Scan(View(r.local), lo, conn);
    if Scan(r.remote, ro, conn).Miss? && found.Hit? {
      assert Entry(r.local, owner, found.id, r.local.refs[found.id].value);
      MarkFiled(r, r.local.refs[found.id].value, owner);
    } else {
      SameFiled(r, HandleReady(r, conn, ro, lo), owner);
    }
  }

  lemma OwnerGrows(r: Room, owner: map<string, Asker>, conn: string, asker: Asker)
    requires Filed(r, owner) && conn !in owner
    ensures Filed(r, owner[conn := asker])
  {
    var owner', l := owner[conn := asker], r.local;
    forall id | id in l.refs && l.refs[id].Some? ensures Entry(l, owner', id, l.refs[id].value) {
      assert Entry(l, owner, id, l.refs[id].value);
    }
  }

  lemma StepFiled(s: State, e: Event)
    requires Placed(s) && Filed(s.room, s.owner) && Enabled(s, e)
    ensures Filed(Apply(s, e).room, Apply(s, e).owner)
  {
    match e
    case RunTask(ro, lo) =>
      assert s.worker[0] in s.worker;
      HandleFiled(s.room, s.connected, s.worker[0], ro, lo, s.owner);
    case CallInline(m) => HandleFiled(s.room, s.connected, m, [], [], s.owner);
    case ServerAnswer(i, conn, stream) =>
      OwnerGrows(s.room, s.owner, conn, Asker(s.server[i].kind, s.server[i].id, stream));
    case _ => assert Apply(s, e).room == s.room && Apply(s, e).owner == s.owner;
  }

  lemma {:induction false} RunsFiled(run: seq<Event>)
    requires Exec(Init(), run).Some?
    ensures Filed(Exec(Init(), run).value.room, Exec(Init(), run).value.owner)
  {
    if run != [] {
      RunsFiled(run[..|run| - 1]);
      RunsPlaced(run[..|run| - 1]);
      StepFiled(Exec(Init(), run[..|run| - 1]).value, run[|run| - 1]);
    }
  }

  // ----- the theorems -----

  lemma {:induction false} LastOfAt(stored: seq<Publication>, info: nat) returns (i: nat)
    requires LastOf(stored, info).Some?
    ensures i < |stored| && stored[i].info == info && LastOf(stored, info) == Some(stored[i])
  {
    if stored[|stored| - 1].info == info {
      i := |stored| - 1;
    } else {
      i := LastOfAt(stored[..|stored| - 1], info);
    }
  }

  /** A client's object carries id and connection of one and the same answer; and if the acknowledgements
      were matched, of an answer to its own request. */
  lemma ObjectFromOneAnswer(r: Room, owner: map<string, Asker>, info: nat)
    requires Filed(r, owner) && Given(info) in r.local.objects
    ensures var o := r.local.objects[Given(info)];
      && o.conn in owner && owner[o.conn].kind == Publish && owner[o.conn].stream == o.id
      && (PublishMatched(r) ==> owner[o.conn].id == info)
  {
    var i := LastOfAt(r.local.stored, info);
    assert r.local.stored[i].info == r.pub.given[i];
  }

  /** The object stored under a published id.  In every run it has a connection the server allocated for a
      publication, and a client's object has the id that goes with its connection.  If every publish
      acknowledgement was taken for the object that asked, in particular if no publish request was dropped,
      then the object under an id is one whose request the server answered with that id, and its connection
      answers a request of its own.  If moreover no object was published twice, every entry carries its own
      id and the connection allocated for that id. */
  lemma ConnectionLandsOnPublisher(run: seq<Event>, id: nat)
    requires Exec(Init(), run).Some?
    requires var l := Exec(Init(), run).value.room.local; id in l.refs && l.refs[id].Some?
    ensures var s := Exec(Init(), run).value; var h := s.room.local.refs[id].value; var o := At(s.room.local, h);
      && o.conn in s.owner && s.owner[o.conn].kind == Publish
      && (h.Given? ==> s.owner[o.conn].stream == o.id)
      && (s.room.pub.dropped == 0 ==> PublishMatched(s.room))
      && (PublishMatched(s.room) && h.Given? ==>
            s.owner[o.conn].id == h.info && exists c :: c in s.owner && s.owner[c] == Asker(Publish, h.info, id))
      && (FilledOnce(s.room.pub.given) ==> o.id == id && s.owner[o.conn].stream == id)
      && (FilledOnce(s.room.pub.pushes) ==> FilledOnce(s.room.pub.given))
  {
    var s := Exec(Init(), run).value;
    var h := s.room.local.refs[id].value;
    RunsFiled(run);
    AcksFollowOrder(run, Publish);
    assert Entry(s.room.local, s.owner, id, h);
    if h.Given? {
      ObjectFromOneAnswer(s.room, s.owner, h.info);
      var i :| 0 <= i < |s.room.local.stored| && s.room.local.stored[i].info == h.info
        && s.room.local.stored[i].stream == id;
      assert s.owner[s.room.local.stored[i].conn] == Asker(Publish, s.room.pub.handled[i], id);
      assert s.room.pub.given[i] == h.info;
    }
  }

  /** Which id an entry carries: its own one exactly if the last acknowledgement taken for its object was
      for that id. */
  lemma OwnIdIff(run: seq<Event>, id: nat, info: nat)
    requires Exec(Init(), run).Some?
    requires var l := Exec(Init(), run).value.room.local; id in l.refs && l.refs[id] == Some(Given(info))
    ensures var l := Exec(Init(), run).value.room.local; var last := LastOf(l.stored, info);
      last.Some? && (At(l, Given(info)).id == id <==> last.value.stream == id)
  {
    RunsFiled(run);
    var s := Exec(Init(), run).value;
    assert Entry(s.room.local, s.owner, id, Given(info));
  }
}
