/** The request/acknowledgement protocol between core/licode_room.cc and the server: the room, its
    worker, the websocket write queue, the wire, the server and the way back as one step system.

    Every subscribe request carries transaction id 222 and every publish request 333, so an
    acknowledgement does not say which request it answers.  The room matches it with the oldest
    entry of a pending queue.  The field `asked` of an acknowledgement is history: it names the
    request the server answered, and no client code reads it.  */
module Signalling {
  import opened Wrappers
  import Websocket

  datatype Kind = Subscribe | Publish

  /** The id of a publish request is the number of the stream object that the client passed. */
  datatype Msg =
    | Ask(kind: Kind, id: nat)       // worker task of SubscribeStream / PublishStream
    | Ice(id: nat)                   // worker task of SendIceCandidate
    | Sdp(id: nat)                   // worker task of SendOffer / SendAnswer
    | Request(kind: Kind, id: nat)   // to the server
    | Notice                         // any other message to the server
    | Ack(kind: Kind, asked: nat, conn: string, stream: nat)
    | Existing(id: nat)              // a stream listed in the join response
    | AddStream(id: nat)
    | RemoveStream(id: nat)
    | Offer(conn: string)
    | Ready(conn: string)

  // ----- the room -----

  datatype Info = Info(connId: string, connected: bool)

  /** `None` is the null pointer that `operator[]` inserts for a missing key. */
  type Streams = map<nat, Option<Info>>

  /** A stream object on the client's side: one that the client passed to `PublishStream`, by its number,
      or one that the room made for an announcement. */
  datatype Ref = Given(info: nat) | Made(number: nat)

  datatype Object = Object(id: nat, conn: string, connected: bool)

  datatype Publication = Publication(info: nat, stream: nat, conn: string)

  /** The local map holds shared pointers, so one object can be stored under several ids.  `made` counts
      the objects the room made.  `stored` is history: what each publish acknowledgement was taken for. */
  datatype Locals = Locals(
    refs: map<nat, Option<Ref>>, objects: map<Ref, Object>, made: nat, stored: seq<Publication>)

  function At(l: Locals, h: Ref): Object {
    if h in l.objects then l.objects[h] else Object(0, "", false)
  }

  /** What a traversal of the local map sees. */
  function View(l: Locals): (m: Streams)
    ensures m.Keys == l.refs.Keys
    ensures forall id :: id in l.refs ==>
      m[id] == if l.refs[id].None? then None
               else Some(Info(At(l, l.refs[id].value).conn, At(l, l.refs[id].value).connected))
  {
    map id | id in l.refs ::
      if l.refs[id].None? then None
      else Some(Info(At(l, l.refs[id].value).conn, At(l, l.refs[id].value).connected))
  }

  /** The object in front of the queue gets the id and the connection, and is stored under the id. */
  function Store(l: Locals, info: nat, stream: nat, conn: string): Locals {
    l.(objects := l.objects[Given(info) := Object(stream, conn, At(l, Given(info)).connected)],
       refs := l.refs[stream := Some(Given(info))],
       stored := l.stored + [Publication(info, stream, conn)])
  }

  /** A published stream that is announced gets a new object with the old connection. */
  function Replace(l: Locals, id: nat): Locals
    requires id in l.refs && l.refs[id].Some?
  {
    l.(objects := l.objects[Made(l.made) := Object(id, At(l, l.refs[id].value).conn, false)],
       refs := l.refs[id := Some(Made(l.made))],
       made := l.made + 1)
  }

  function MarkConnected(l: Locals, h: Ref): Locals {
    l.(objects := l.objects[h := At(l, h).(connected := true)])
  }

  function TouchLocal(l: Locals, id: nat): Locals {
    if id in l.refs then l else l.(refs := l.refs[id := None])
  }

  datatype Fault = EmptyQueue | NullStream

  /** The pending queue of one kind of request, and the history of that kind: all ids pushed; the ids
      really handed to the websocket; for each acknowledgement handled so far the id it answered and
      the id it was given to; and the number of requests dropped while not connected. */
  datatype Ledger = Ledger(
    pending: seq<nat>, pushes: seq<nat>, sent: seq<nat>, handled: seq<nat>, given: seq<nat>, dropped: nat)

  datatype Delivery = Delivery(conn: string, stream: Option<nat>)

  /** `conns` (of the acknowledgements handled) and `offers` (as reported to the observer) are
      history; `fault` is the undefined behaviour a handler ran into, if any. */
  datatype Room = Room(
    sub: Ledger, pub: Ledger, remote: Streams, local: Locals,
    conns: set<string>, offers: seq<Delivery>, fault: Option<Fault>)

  /** What a worker task makes of the room, and the message it hands to `SendMsg`. */
  datatype Effect = Effect(room: Room, out: Option<Msg>)

  function Book(r: Room, k: Kind): Ledger {
    if k == Subscribe then r.sub else r.pub
  }

  function WithBook(r: Room, k: Kind, l: Ledger): Room {
    if k == Subscribe then r.(sub := l) else r.(pub := l)
  }

  predicate Live(m: Streams, id: nat) {
    id in m && m[id].Some?
  }

  /** `m[id]` as the code writes it. */
  function Touch(m: Streams, id: nat): Streams {
    if id in m then m else m[id := None]
  }

  datatype Found = Hit(id: nat) | Null | Miss

  /** The search loops of `receiveOffer` and `OnPeerConnectionConnectErizoReady`: they dereference
      every entry they pass. */
  function Scan(m: Streams, order: seq<nat>, conn: string): (found: Found)
    requires forall x :: x in order ==> x in m
    ensures found.Hit? ==> found.id in order && Live(m, found.id) && m[found.id].value.connId == conn
  {
    if order == [] then Miss
    else if m[order[0]].None? then Null
    else if m[order[0]].value.connId == conn then Hit(order[0])
    else Scan(m, order[1..], conn)
  }

  /** A traversal order of an unordered map. */
  ghost predicate IsOrder(order: seq<nat>, m: Streams) {
    && (forall x :: x in order <==> x in m)
    && (forall i, j :: 0 <= i < j < |order| ==> order[i] != order[j])
  }

  /** Executes one task on the worker thread. */
  function Handle(r: Room, connected: bool, m: Msg, remoteOrder: seq<nat>, localOrder: seq<nat>): Effect
    requires forall x :: x in remoteOrder ==> x in r.remote
    requires forall x :: x in localOrder ==> x in View(r.local)
  {
    match m
    case Ask(k, id) => Effect(HandleAsk(r, connected, k, id), Some(Request(k, id)))
    case Ack(k, asked, conn, stream) => Effect(HandleAck(r, k, asked, conn, stream), None)
    case Existing(id) => Effect(HandleExisting(r, id), None)
    case AddStream(id) => Effect(HandleAdd(r, id), None)
    case RemoveStream(id) => Effect(r.(remote := r.remote - {id}), None)
    case Offer(conn) => Effect(HandleOffer(r, conn, remoteOrder), None)
    case Ready(conn) => Effect(HandleReady(r, conn, remoteOrder, localOrder), None)
    case Ice(id) => HandleIce(r, id)
    case Sdp(id) => HandleSdp(r, id)
    case Notice => Effect(r, Some(Notice))
    case Request(_, _) => Effect(r, None)  // never a worker task
  }

  function HandleAsk(r: Room, connected: bool, k: Kind, id: nat): Room {
    var l := Book(r, k);
    var pushed := l.(pending := l.pending + [id], pushes := l.pushes + [id]);
    WithBook(r, k, if connected then pushed.(sent := l.sent + [id]) else pushed.(dropped := l.dropped + 1))
  }

  function HandleAck(r: Room, k: Kind, asked: nat, conn: string, stream: nat): Room {
    var l := Book(r, k);
    if l.pending == [] then r.(fault := Some(EmptyQueue))
    else
      var popped := WithBook(r, k, Popped(l, asked)).(conns := r.conns + {conn});
      if k == Publish then popped.(local := Store(r.local, l.pending[0], stream, conn))
      else Credit(popped, l.pending[0], conn)
  }

  function Popped(l: Ledger, asked: nat): Ledger
    requires l.pending != []
  {
    l.(pending := l.pending[1..], handled := l.handled + [asked], given := l.given + [l.pending[0]])
  }

  /** Gives a connection id to a remote stream. */
  function Credit(r: Room, id: nat, conn: string): Room {
    if Live(r.remote, id) then r.(remote := r.remote[id := Some(r.remote[id].value.(connId := conn))])
    else r.(remote := Touch(r.remote, id), fault := Some(NullStream))
  }

  /** `emplace` keeps an entry that is already there, even a null one. */
  function HandleExisting(r: Room, id: nat): Room {
    if id in r.remote then r else r.(remote := r.remote[id := Some(Info("", false))])
  }

  function HandleAdd(r: Room, id: nat): Room {
    if Live(View(r.local), id) then r.(local := Replace(r.local, id))
    else r.(local := TouchLocal(r.local, id), remote := r.remote[id := Some(Info("", false))])
  }

  function HandleOffer(r: Room, conn: string, remoteOrder: seq<nat>): Room
    requires forall x :: x in remoteOrder ==> x in r.remote
  {
    match Scan(r.remote, remoteOrder, conn)
    case Hit(id) => r.(offers := r.offers + [Delivery(conn, Some(id))])
    case Null => r.(fault := Some(NullStream))
    case Miss => r.(offers := r.offers + [Delivery(conn, None)])
  }

  function HandleReady(r: Room, conn: string, remoteOrder: seq<nat>, localOrder: seq<nat>): Room
    requires forall x :: x in remoteOrder ==> x in r.remote
    requires forall x :: x in localOrder ==> x in View(r.local)
  {
    match Scan(r.remote, remoteOrder, conn)
    case Hit(id) => r.(remote := r.remote[id := Some(Info(conn, true))])
    case Null => r.(fault := Some(NullStream))
    case Miss =>
      match Scan(View(r.local), localOrder, conn)
      case Hit(id) => r.(local := MarkConnected(r.local, r.local.refs[id].value))
      case Null => r.(fault := Some(NullStream))
      case Miss => r
  }

  /** Looks in the remote map first and, if there is no stream there, in the local one; both lookups
      insert what they do not find. */
  function HandleIce(r: Room, id: nat): Effect {
    var looked := r.(remote := Touch(r.remote, id),
                     local := if Live(r.remote, id) then r.local else TouchLocal(r.local, id));
    if Live(r.remote, id) || Live(View(r.local), id) then Effect(looked, Some(Notice))
    else Effect(looked.(fault := Some(NullStream)), None)
  }

  /** Looks only in the remote map, and inserts what it does not find. */
  function HandleSdp(r: Room, id: nat): Effect {
    var looked := r.(remote := Touch(r.remote, id));
    if Live(r.remote, id) then Effect(looked, Some(Notice))
    else Effect(looked.(fault := Some(NullStream)), None)
  }

  // ----- the system -----

  /** The request a connection id answers, and the stream id the server chose for it. */
  datatype Asker = Asker(kind: Kind, id: nat, stream: nat)

  /** `owner` records the connection ids the server gave out, and to whom. */
  datatype State = State(
    connected: bool,
    room: Room,
    worker: seq<Msg>,
    ws: Websocket.Session<Msg>,
    outWire: seq<Msg>,
    server: seq<Msg>,
    inWire: seq<Msg>,
    owner: map<string, Asker>)

  datatype Event =
    | Connection(up: bool)
    | Call(task: Msg)                // a client call posts its task to the worker
    | CallInline(task: Msg)          // the same from the worker thread: dispatch runs it at once
    | RunTask(remoteOrder: seq<nat>, localOrder: seq<nat>)
    | Socket(step: Websocket.Event<Msg>)
    | ServerReceive
    | ServerAbsorb(index: nat)
    | ServerAnswer(index: nat, conn: string, stream: nat)
    | ServerSend(msg: Msg)
    | Read

  predicate ClientTask(m: Msg) {
    m.Ask? || m.Ice? || m.Sdp? || m.Notice?
  }

  function Init(): State {
    var empty := Ledger([], [], [], [], [], 0);
    var nothing := Locals(map[], map[], 0, []);
    State(false, Room(empty, empty, map[], nothing, {}, [], None), [], Websocket.Idle(), [], [], [], map[])
  }

  ghost predicate Enabled(s: State, e: Event) {
    && s.room.fault.None?
    && match e
       case Connection(_) => true
       case Call(m) => ClientTask(m)
       case CallInline(m) => ClientTask(m)
       case RunTask(remoteOrder, localOrder) =>
         s.worker != [] && IsOrder(remoteOrder, s.room.remote) && IsOrder(localOrder, View(s.room.local))
       case Socket(step) => !step.Post? && Websocket.Enabled(s.ws, step)
       case ServerReceive => s.outWire != []
       case ServerAbsorb(i) => i < |s.server| && s.server[i].Notice?
       case ServerAnswer(i, conn, _) =>
         // each kind of request is answered once and in order, whatever the other kind does
         && i < |s.server| && s.server[i].Request?
         && (forall j :: 0 <= j < i ==> !(s.server[j].Request? && s.server[j].kind == s.server[i].kind))
         && conn != "" && conn !in s.owner
       case ServerSend(m) =>
         || m.Existing? || m.AddStream? || m.RemoveStream?
         || (m.Offer? && m.conn in s.owner && s.owner[m.conn].kind == Subscribe)
         || (m.Ready? && m.conn in s.owner)
       case Read => s.inWire != []
  }

  /** `SendMsg` drops silently while not connected. */
  function Post(s: State, out: Option<Msg>): Websocket.Session<Msg> {
    if s.connected && out.Some? then Websocket.Apply(s.ws, Websocket.Post(out.value)) else s.ws
  }

  function Perform(s: State, m: Msg, remoteOrder: seq<nat>, localOrder: seq<nat>): State
    requires forall x :: x in remoteOrder ==> x in s.room.remote
    requires forall x :: x in localOrder ==> x in View(s.room.local)
  {
    var effect := Handle(s.room, s.connected, m, remoteOrder, localOrder);
    s.(room := effect.room, ws := Post(s, effect.out))
  }

  function Taken(s: State): State
    requires s.worker != []
  {
    s.(worker := s.worker[1..])
  }

  function Answered(s: State, i: nat, conn: string, stream: nat): State
    requires i < |s.server| && s.server[i].Request?
  {
    s.(server := s.server[..i] + s.server[i + 1..],
       inWire := s.inWire + [Ack(s.server[i].kind, s.server[i].id, conn, stream)],
       owner := s.owner[conn := Asker(s.server[i].kind, s.server[i].id, stream)])
  }

  ghost function Apply(s: State, e: Event): State
    requires Enabled(s, e)
  {
    match e
    case Connection(up) => s.(connected := up)
    case Call(m) => s.(worker := s.worker + [m])
    case CallInline(m) => Perform(s, m, [], [])
    case RunTask(remoteOrder, localOrder) => Perform(Taken(s), s.worker[0], remoteOrder, localOrder)
    case Socket(step) =>
      var moved := s.(ws := Websocket.Apply(s.ws, step));
      if step.Transmit? then moved.(outWire := s.outWire + [s.ws.inFlight.value]) else moved
    case ServerReceive => s.(outWire := s.outWire[1..], server := s.server + [s.outWire[0]])
    case ServerAbsorb(i) => s.(server := s.server[..i] + s.server[i + 1..])
    case ServerAnswer(i, conn, stream) => Answered(s, i, conn, stream)
    case ServerSend(m) => s.(inWire := s.inWire + [m])
    case Read => s.(inWire := s.inWire[1..], worker := s.worker + [s.inWire[0]])
  }

  ghost function Exec(s: State, run: seq<Event>): Option<State> {
    if run == [] then Some(s)
    else
      var before := Exec(s, run[..|run| - 1]);
      var e := run[|run| - 1];
      if before.Some? && Enabled(before.value, e) then Some(Apply(before.value, e)) else None
  }
}
