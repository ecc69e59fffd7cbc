/** Short runs that show why the conditions are there.  */
module SignallingExamples {
  import opened Wrappers
  import opened Signalling
  import opened SignallingHazards
  import Websocket

  lemma ExecAppend(run: seq<Event>, e: Event)
    requires Exec(Init(), run).Some? && Enabled(Exec(Init(), run).value, e)
    ensures Exec(Init(), run + [e]) == Some(Apply(Exec(Init(), run).value, e))
  {
    assert (run + [e])[..|run + [e]| - 1] == run;
  }

  /** One step at a time, with the state named. */
  lemma Step(run: seq<Event>, s: State, e: Event) returns (run': seq<Event>, s': State)
    requires Exec(Init(), run) == Some(s) && Enabled(s, e)
    ensures Exec(Init(), run') == Some(s') && s' == Apply(s, e)
  {
    ExecAppend(run, e);
    run', s' := run + [e], Apply(s, e);
  }

  /** Nothing is under way. */
  predicate Quiet(s: State) {
    s.room.fault.None? && s.worker == [] && s.inWire == [] && s.server == [] && s.outWire == []
  }

  predicate Unused(s: State) {
    s.ws.posted == [] && s.ws.queue == []
  }

  lemma Connect() returns (run: seq<Event>, s: State)
    ensures Exec(Init(), run) == Some(s) && s == Init().(connected := true)
  {
    run, s := Step([], Init(), Connection(true));
  }

  /** The server announces or removes a stream and the room handles it. */
  lemma Tell(run: seq<Event>, s: State, m: Msg, ro: seq<nat>, lo: seq<nat>) returns (run': seq<Event>, s': State)
    requires Exec(Init(), run) == Some(s) && Quiet(s) && (m.AddStream? || m.RemoveStream?)
    requires IsOrder(ro, s.room.remote) && IsOrder(lo, View(s.room.local))
    ensures Exec(Init(), run') == Some(s')
    ensures s' == s.(room := if m.AddStream? then HandleAdd(s.room, m.id) else s.room.(remote := s.room.remote - {m.id}))
    ensures m.AddStream? && m.id !in View(s.room.local) ==>
      && s'.room.remote == s.room.remote[m.id := Some(Info("", false))]
      && View(s'.room.local) == View(s.room.local)[m.id := None]
  {
    run', s' := Step(run, s, ServerSend(m));
    run', s' := Step(run', s', Read);
    run', s' := Step(run', s', RunTask(ro, lo));
  }

  /** The only request under way travels to the server, is answered, and the answer reaches the worker. */
  lemma RoundTrip(run: seq<Event>, s: State, conn: string, stream: nat) returns (run': seq<Event>, s': State)
    requires Exec(Init(), run) == Some(s) && Quiet(s) && conn != "" && conn !in s.owner
    requires s.ws.queue == [] && |s.ws.posted| == 1 && s.ws.posted[0].Request?
    ensures var m := s.ws.posted[0];
      && Exec(Init(), run') == Some(s')
      && s'.room == s.room && s'.connected == s.connected && s'.inWire == [] && s'.server == [] && s'.outWire == []
      && Unused(s') && s'.worker == [Ack(m.kind, m.id, conn, stream)]
      && s'.owner == s.owner[conn := Asker(m.kind, m.id, stream)]
  {
    run', s' := Step(run, s, Socket(Websocket.OnSend));
    run', s' := Step(run', s', Socket(Websocket.Transmit));
    run', s' := Step(run', s', Socket(Websocket.OnWrite(false)));
    run', s' := Step(run', s', ServerReceive);
    run', s' := Step(run', s', ServerAnswer(0, conn, stream));
    run', s' := Step(run', s', Read);
  }

  /** A hazardous task at the head of the worker, run under the hash order that makes it fault. */
  lemma Fault(run: seq<Event>, s: State) returns (run': seq<Event>, s': State)
    requires Exec(Init(), run) == Some(s) && s.room.fault.None? && s.worker != []
    requires Poppable(s.room, s.worker[0]) && Hazard(s.room, s.worker[0])
    ensures Exec(Init(), run') == Some(s') && s'.room.fault == Some(NullStream)
  {
    var ro, lo := FaultingOrders(s.room, s.connected, s.worker[0]);
    run', s' := Step(run, s, RunTask(ro, lo));
  }

  /** A stream is announced, asked for, and removed before the answer comes. */
  lemma RemovePending() returns (run: seq<Event>, s: State)
    ensures Exec(Init(), run) == Some(s) && Quiet(s)
    ensures s.ws.posted == [Request(Subscribe, 1)] && s.ws.queue == []
    ensures s.room.remote == map[] && s.room.sub.pending == [1] && s.owner == map[]
  {
    run, s := Connect();
    run, s := Tell(run, s, AddStream(1), [], []);
    run, s := Step(run, s, CallInline(Ask(Subscribe, 1)));
    run, s := Tell(run, s, RemoveStream(1), [1], [1]);
  }

  /** A stream that is removed while its subscription is pending makes the acknowledgement handler
      dereference a null pointer. */
  lemma RemovingPendingStreamFaults() returns (run: seq<Event>, s: State)
    ensures Exec(Init(), run) == Some(s) && s.room.fault == Some(NullStream)
  {
    run, s := RemovePending();
    run, s := RoundTrip(run, s, "c", 0);
    run, s := Fault(run, s);
  }

  lemma TellTwo(run: seq<Event>, s: State) returns (run': seq<Event>, s': State)
    requires Exec(Init(), run) == Some(s) && Quiet(s) && s.room.remote == map[] && View(s.room.local) == map[]
    ensures Exec(Init(), run') == Some(s') && s' == s.(room := s'.room)
    ensures s'.room.fault.None? && s'.room.sub == s.room.sub
    ensures s'.room.remote == map[1 := Some(Info("", false)), 2 := Some(Info("", false))]
  {
    run', s' := Tell(run, s, AddStream(1), [], []);
    run', s' := Tell(run', s', AddStream(2), [1], [1]);
  }

  /** A request task that runs before signalling is connected is dropped; afterwards both streams are
      announced and the second one is asked for. */
  lemma DropFirst() returns (run: seq<Event>, s: State)
    ensures Exec(Init(), run) == Some(s) && Quiet(s)
    ensures s.ws.posted == [Request(Subscribe, 2)] && s.ws.queue == []
    ensures s.room.remote == map[1 := Some(Info("", false)), 2 := Some(Info("", false))]
    ensures s.owner == map[]
    ensures s.room.sub.pending == [1, 2] && s.room.sub.handled == [] && s.room.sub.given == []
  {
    run, s := Step([], Init(), CallInline(Ask(Subscribe, 1)));
    run, s := Step(run, s, Connection(true));
    run, s := TellTwo(run, s);
    run, s := Step(run, s, CallInline(Ask(Subscribe, 2)));
  }

  /** The room handles the acknowledgement at the head of its worker. */
  lemma Acknowledge(run: seq<Event>, s: State) returns (run': seq<Event>, s': State)
    requires Exec(Init(), run) == Some(s) && s.room.fault.None? && s.worker != [] && s.worker[0].Ack?
    ensures Exec(Init(), run') == Some(s') && s'.owner == s.owner
    ensures var m := s.worker[0]; s'.room == HandleAck(s.room, m.kind, m.asked, m.conn, m.stream)
    ensures s' == s.(worker := s.worker[1..], room := s'.room)
  {
    var ro := OrderOf(s.room.remote);
    var lo := OrderOf(View(s.room.local));
    run', s' := Step(run, s, RunTask(ro, lo));
  }

  /** The dropped request leaves its stream in the queue, and the next acknowledgement is credited to it
      instead of the stream it answers. */
  lemma DroppedRequestMisroutes() returns (run: seq<Event>, s: State)
    ensures Exec(Init(), run) == Some(s)
    ensures s.room.sub.handled == [2] && s.room.sub.given == [1]
    ensures Live(s.room.remote, 1) && s.room.remote[1].value.connId == "c"
    ensures "c" in s.owner && s.owner["c"].kind == Subscribe && s.owner["c"].id == 2
  {
    run, s := DropFirst();
    run, s := RoundTrip(run, s, "c", 0);
    run, s := Acknowledge(run, s);
  }

  /** An object is published: the answer gives it an id and a connection. */
  lemma PublishOne(run: seq<Event>, s: State, info: nat, conn: string, stream: nat)
    returns (run': seq<Event>, s': State)
    requires Exec(Init(), run) == Some(s) && Quiet(s) && Unused(s) && s.connected && s.room.pub.pending == []
    requires conn != "" && conn !in s.owner
    ensures Exec(Init(), run') == Some(s') && Quiet(s') && Unused(s') && s'.connected && s'.room.pub.pending == []
    ensures s'.room.remote == s.room.remote && s'.room.local == Store(s.room.local, info, stream, conn)
    ensures s'.owner == s.owner[conn := Asker(Publish, info, stream)]
  {
    run', s' := Step(run, s, CallInline(Ask(Publish, info)));
    run', s' := RoundTrip(run', s', conn, stream);
    run', s' := Acknowledge(run', s');
  }

  /** Object 1 is published before signalling is connected, object 2 afterwards.  The answer to the second
      request is taken for object 1, which gets the id and the connection of object 2. */
  lemma DroppedPublicationMisroutes() returns (run: seq<Event>, s: State)
    ensures Exec(Init(), run) == Some(s)
    ensures s.room.pub.handled == [2] && s.room.pub.given == [1]
    ensures s.room.local.refs == map[7 := Some(Given(1))]
    ensures s.room.local.objects == map[Given(1) := Object(7, "p", false)]
    ensures s.owner == map["p" := Asker(Publish, 2, 7)]
  {
    run, s := Step([], Init(), CallInline(Ask(Publish, 1)));
    run, s := Step(run, s, Connection(true));
    run, s := Step(run, s, CallInline(Ask(Publish, 2)));
    run, s := RoundTrip(run, s, "p", 7);
    run, s := Acknowledge(run, s);
  }

  /** One object is published twice.  It is then stored under both ids, and the first entry has lost its
      connection to the second one. */
  lemma RepublishedObjectIsShared() returns (run: seq<Event>, s: State)
    ensures Exec(Init(), run) == Some(s)
    ensures s.room.local.refs == map[7 := Some(Given(1)), 8 := Some(Given(1))]
    ensures s.room.local.objects == map[Given(1) := Object(8, "q", false)]
    ensures s.owner == map["p" := Asker(Publish, 1, 7), "q" := Asker(Publish, 1, 8)]
  {
    run, s := Connect();
    run, s := PublishOne(run, s, 1, "p", 7);
    run, s := PublishOne(run, s, 1, "q", 8);
  }

  /** The server reports the published connection ready, and the search for it meets a null entry. */
  lemma ReadyFaults(run: seq<Event>, s: State) returns (run': seq<Event>, s': State)
    requires Exec(Init(), run) == Some(s) && s.room.fault.None? && s.worker == [] && s.inWire == [] && "p" in s.owner
    requires Hazard(s.room, Ready("p"))
    ensures Exec(Init(), run') == Some(s') && s'.room.fault == Some(NullStream)
  {
    run', s' := Step(run, s, ServerSend(Ready("p")));
    run', s' := Step(run', s', Read);
    run', s' := Fault(run', s');
  }

  /** Sending an ICE candidate for a published stream puts a null entry into the remote map, and the next
      search dereferences it, here the one for the readiness event of that very stream. */
  lemma CandidateOfPublishedStreamFaults() returns (run: seq<Event>, s: State)
    ensures Exec(Init(), run) == Some(s) && s.room.fault == Some(NullStream)
  {
    run, s := Connect();
    run, s := PublishOne(run, s, 1, "p", 7);
    run, s := Step(run, s, CallInline(Ice(7)));
    assert 7 in s.room.remote && s.room.remote[7].None?;
    run, s := ReadyFaults(run, s);
  }

  /** Announcing a remote stream puts a null entry into the local map, and the readiness event of a
      published stream may dereference it. */
  lemma ReadinessOfPublishedStreamFaults() returns (run: seq<Event>, s: State)
    ensures Exec(Init(), run) == Some(s) && s.room.fault == Some(NullStream)
  {
    run, s := Connect();
    run, s := Tell(run, s, AddStream(1), [], []);
    run, s := PublishOne(run, s, 1, "p", 7);
    assert 1 in View(s.room.local) && View(s.room.local)[1].None?;
    assert forall id :: Live(s.room.remote, id) ==> s.room.remote[id].value.connId == "";
    run, s := ReadyFaults(run, s);
  }
}
