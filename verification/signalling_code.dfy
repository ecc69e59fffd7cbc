/** The worker tasks of core/licode_room.cc as code on the room's containers, each proved to do what
    the step system says.  A task that would run into undefined behaviour stops with `fault`. */
module SignallingCode {
  import opened Wrappers
  import opened Signalling

  class LicodeRoom {
    var pendingSubscribeStreams: seq<nat>
    var pendingPublishLocalStreams: seq<nat>
    var remoteStreamInfos: Streams
    var localStreamInfos: map<nat, Option<Ref>>
    var objects: map<Ref, Object>
    var made: nat
    ghost var model: Room

    ghost predicate Valid()
      reads this
    {
      && pendingSubscribeStreams == model.sub.pending
      && pendingPublishLocalStreams == model.pub.pending
      && remoteStreamInfos == model.remote
      && localStreamInfos == model.local.refs && objects == model.local.objects && made == model.local.made
    }

    constructor ()
      ensures Valid() && model == Init().room
    {
      pendingSubscribeStreams, pendingPublishLocalStreams := [], [];
      remoteStreamInfos, localStreamInfos, objects, made := map[], map[], map[], 0;
      model := Init().room;
    }

    method SubscribeStream(streamId: nat, connected: bool) returns (out: Msg)
      requires Valid()
      modifies this
      ensures Valid()
      ensures Effect(model, Some(out)) == Handle(old(model), connected, Ask(Subscribe, streamId), [], [])
    {
      model := HandleAsk(model, connected, Subscribe, streamId);
      pendingSubscribeStreams := pendingSubscribeStreams + [streamId];
      out := Request(Subscribe, streamId);
    }

    /** `info` is the number of the stream object that the client passes and keeps sharing. */
    method PublishStream(info: nat, connected: bool) returns (out: Msg)
      requires Valid()
      modifies this
      ensures Valid()
      ensures Effect(model, Some(out)) == Handle(old(model), connected, Ask(Publish, info), [], [])
    {
      model := HandleAsk(model, connected, Publish, info);
      pendingPublishLocalStreams := pendingPublishLocalStreams + [info];
      out := Request(Publish, info);
    }

    method OnSubscribeStream(conn: string, ghost asked: nat) returns (fault: Option<Fault>)
      requires Valid() && model.fault.None?
      modifies this
      ensures Valid() && fault == model.fault
      ensures model == Handle(old(model), true, Ack(Subscribe, asked, conn, 0), [], []).room
    {
      model := HandleAck(model, Subscribe, asked, conn, 0);
      if pendingSubscribeStreams == [] {
        return Some(EmptyQueue);
      }
      var streamId := pendingSubscribeStreams[0];
      pendingSubscribeStreams := pendingSubscribeStreams[1..];
      if streamId !in remoteStreamInfos {
        remoteStreamInfos := remoteStreamInfos[streamId := None];
      }
      var info := remoteStreamInfos[streamId];
      if info.None? {
        return Some(NullStream);
      }
      remoteStreamInfos := remoteStreamInfos[streamId := Some(info.value.(connId := conn))];
      return None;
    }

    method OnPublishStream(streamId: nat, conn: string, ghost asked: nat) returns (fault: Option<Fault>)
      requires Valid() && model.fault.None?
      modifies this
      ensures Valid() && fault == model.fault
      ensures model == Handle(old(model), true, Ack(Publish, asked, conn, streamId), [], []).room
    {
      model := HandleAck(model, Publish, asked, conn, streamId);
      if pendingPublishLocalStreams == [] {
        return Some(EmptyQueue);
      }
      var streamInfo := Given(pendingPublishLocalStreams[0]);
      pendingPublishLocalStreams := pendingPublishLocalStreams[1..];
      var before := if streamInfo in objects then objects[streamInfo] else Object(0, "", false);
      objects := objects[streamInfo := before.(id := streamId, conn := conn)];
      localStreamInfos := localStreamInfos[streamId := Some(streamInfo)];
      return None;
    }

    /** A stream that was in the room before, from the join response. */
    method OnExistingStream(id: nat)
      requires Valid()
      modifies this
      ensures Valid() && model == Handle(old(model), true, Existing(id), [], []).room
    {
      model := HandleExisting(model, id);
      if id !in remoteStreamInfos {
        remoteStreamInfos := remoteStreamInfos[id := Some(Info("", false))];
      }
    }

    method OnAddStream(id: nat)
      requires Valid()
      modifies this
      ensures Valid() && model == Handle(old(model), true, AddStream(id), [], []).room
    {
      model := HandleAdd(model, id);
      if id !in localStreamInfos {
        localStreamInfos := localStreamInfos[id := None];
      }
      var localStreamInfo := localStreamInfos[id];
      if localStreamInfo.Some? {
        var old_ := if localStreamInfo.value in objects then objects[localStreamInfo.value] else Object(0, "", false);
        objects := objects[Made(made) := Object(id, old_.conn, false)];
        localStreamInfos := localStreamInfos[id := Some(Made(made))];
        made := made + 1;
      } else {
        remoteStreamInfos := remoteStreamInfos[id := Some(Info("", false))];
      }
    }

    method OnRemoveStream(id: nat)
      requires Valid()
      modifies this
      ensures Valid() && model == Handle(old(model), true, RemoveStream(id), [], []).room
    {
      model := model.(remote := model.remote - {id});
      if id in remoteStreamInfos {
        remoteStreamInfos := remoteStreamInfos - {id};
      }
      assert remoteStreamInfos == model.remote;
    }

    /** The search loop of `receiveOffer` and `OnPeerConnectionConnectErizoReady`. */
    static method Search(infos: Streams, order: seq<nat>, connId: string) returns (found: Found)
      requires forall x :: x in order ==> x in infos
      ensures found == Scan(infos, order, connId)
    {
      var i := 0;
      while i < |order|
        invariant 0 <= i <= |order|
        invariant Scan(infos, order, connId) == Scan(infos, order[i..], connId)
      {
        var info := infos[order[i]];
        assert order[i..][0] == order[i] && order[i..][1..] == order[i + 1..];
        if info.None? {
          return Null;
        }
        if info.value.connId == connId {
          return Hit(order[i]);
        }
        i := i + 1;
      }
      return Miss;
    }

    /** The second search loop of `OnPeerConnectionConnectErizoReady`, through the shared objects. */
    static method SearchLocal(ghost local: Locals, infos: map<nat, Option<Ref>>, objects: map<Ref, Object>,
                              order: seq<nat>, connId: string) returns (found: Found)
      requires local.refs == infos && local.objects == objects && forall x :: x in order ==> x in infos
      ensures found == Scan(View(local), order, connId)
    {
      ghost var view := View(local);
      var i := 0;
      while i < |order|
        invariant 0 <= i <= |order|
        invariant Scan(view, order, connId) == Scan(view, order[i..], connId)
      {
        var info := infos[order[i]];
        assert order[i..][0] == order[i] && order[i..][1..] == order[i + 1..];
        if info.None? {
          return Null;
        }
        var conn := if info.value in objects then objects[info.value].conn else "";
        if conn == connId {
          return Hit(order[i]);
        }
        i := i + 1;
      }
      return Miss;
    }

    method ReceiveOffer(connId: string, order: seq<nat>) returns (reported: Option<nat>, fault: Option<Fault>)
      requires Valid() && model.fault.None? && forall x :: x in order ==> x in remoteStreamInfos
      modifies this
      ensures Valid() && fault == model.fault
      ensures model == Handle(old(model), true, Offer(connId), order, []).room
      ensures fault.None? ==> model.offers == old(model).offers + [Delivery(connId, reported)]
    {
      model := HandleOffer(model, connId, order);
      var found := Search(remoteStreamInfos, order, connId);
      if found.Null? {
        return None, Some(NullStream);
      }
      return if found.Hit? then Some(found.id) else None, None;
    }

    method OnPeerConnectionConnectErizoReady(connId: string, remoteOrder: seq<nat>, localOrder: seq<nat>)
      returns (fault: Option<Fault>)
      requires Valid() && model.fault.None?
      requires forall x :: x in remoteOrder ==> x in remoteStreamInfos
      requires forall x :: x in localOrder ==> x in localStreamInfos
      modifies this
      ensures Valid() && fault == model.fault
      ensures model == Handle(old(model), true, Ready(connId), remoteOrder, localOrder).room
    {
      model := HandleReady(model, connId, remoteOrder, localOrder);
      var found := Search(remoteStreamInfos, remoteOrder, connId);
      if found.Null? {
        return Some(NullStream);
      }
      if found.Hit? {
        remoteStreamInfos := remoteStreamInfos[found.id := Some(Info(connId, true))];
        return None;
      }
      found := SearchLocal(old(model.local), localStreamInfos, objects, localOrder, connId);
      if found.Null? {
        return Some(NullStream);
      }
      if found.Hit? {
        var streamInfo := localStreamInfos[found.id].value;
        var before := if streamInfo in objects then objects[streamInfo] else Object(0, "", false);
        objects := objects[streamInfo := before.(connected := true)];
      }
      return None;
    }

    /** `SendOffer` and `SendAnswer`. */
    method SendDescription(streamId: nat) returns (out: Option<Msg>, fault: Option<Fault>)
      requires Valid() && model.fault.None?
      modifies this
      ensures Valid() && fault == model.fault
      ensures Effect(model, out) == Handle(old(model), true, Sdp(streamId), [], [])
    {
      model := HandleSdp(model, streamId).room;
      if streamId !in remoteStreamInfos {
        remoteStreamInfos := remoteStreamInfos[streamId := None];
      }
      if remoteStreamInfos[streamId].None? {
        return None, Some(NullStream);
      }
      return Some(Notice), None;
    }

    method SendIceCandidate(streamId: nat) returns (out: Option<Msg>, fault: Option<Fault>)
      requires Valid() && model.fault.None?
      modifies this
      ensures Valid() && fault == model.fault
      ensures Effect(model, out) == Handle(old(model), true, Ice(streamId), [], [])
    {
      model := HandleIce(model, streamId).room;
      if streamId !in remoteStreamInfos {
        remoteStreamInfos := remoteStreamInfos[streamId := None];
      }
      if remoteStreamInfos[streamId].None? {
        if streamId !in localStreamInfos {
          localStreamInfos := localStreamInfos[streamId := None];
        }
        if localStreamInfos[streamId].None? {
          return None, Some(NullStream);
        }
      }
      return Some(Notice), None;
    }
  }
}
