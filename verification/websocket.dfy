/** The output side of messenger/websocket_session.cc.  `SendMsg` posts a message to the session's
    single-threaded executor, `OnSend` appends it to the queue, at most one asynchronous write is in
    flight, and its completion handler `OnWrite` pops the queue and starts the next one.  */
module Websocket {
  import opened Wrappers

  /** `inFlight` is the message of the pending async_write; `transmitted` says that its bytes have
      already left although the completion handler has not run yet.  `completed` and `sent` are
      history: the messages whose write completed, and all messages posted. */
  datatype Session<M> = Session(
    posted: seq<M>,
    queue: seq<M>,
    inFlight: Option<M>,
    transmitted: bool,
    failed: bool,
    completed: seq<M>,
    sent: seq<M>)

  datatype Event<M> =
    | Post(msg: M)
    | OnSend
    | Transmit
    | OnWrite(error: bool)

  function Idle<M>(): Session<M> {
    Session([], [], None, false, false, [], [])
  }

  predicate Enabled<M>(s: Session<M>, e: Event<M>) {
    match e
    case Post(_) => true
    case OnSend => s.posted != []
    case Transmit => s.inFlight.Some? && !s.transmitted
    case OnWrite(error) => s.inFlight.Some? && (s.transmitted || error) && s.queue != []
  }

  function StartWrite<M>(s: Session<M>): Session<M>
    requires s.queue != []
  {
    s.(inFlight := Some(s.queue[0]), transmitted := false)
  }

  function Apply<M>(s: Session<M>, e: Event<M>): Session<M>
    requires Enabled(s, e)
  {
    match e
    case Post(m) => s.(posted := s.posted + [m], sent := s.sent + [m])
    case OnSend =>
      var queued := s.(posted := s.posted[1..], queue := s.queue + [s.posted[0]]);
      if |queued.queue| > 1 then queued else StartWrite(queued)
    case Transmit => s.(transmitted := true)
    case OnWrite(error) =>
      if error then s.(inFlight := None, failed := true)
      else
        var popped := s.(inFlight := None, queue := s.queue[1..], completed := s.completed + [s.queue[0]]);
        if popped.queue != [] then StartWrite(popped) else popped
  }

  function Exec<M>(s: Session<M>, run: seq<Event<M>>): Option<Session<M>> {
    if run == [] then Some(s)
    else
      var before := Exec(s, run[..|run| - 1]);
      var e := run[|run| - 1];
      if before.Some? && Enabled(before.value, e) then Some(Apply(before.value, e)) else None
  }

  /** Exactly one write is in flight if and only if the queue is non-empty, and it is for the front
      message; a failed session keeps its queue and writes nothing. */
  predicate Valid<M(==)>(s: Session<M>) {
    && s.sent == s.completed + s.queue + s.posted
    && (!s.failed ==> s.inFlight == if s.queue == [] then None else Some(s.queue[0]))
    && (s.failed ==> s.inFlight == None && s.queue != [])
  }

  lemma StepKeepsValid<M>(s: Session<M>, e: Event<M>)
    requires Valid(s) && Enabled(s, e)
    ensures Valid(Apply(s, e))
  {
    var s' := Apply(s, e);
    match e
    case Post(m) =>
      assert s.completed + s.queue + s'.posted == (s.completed + s.queue + s.posted) + [m];
    case OnSend =>
      assert s.posted == [s.posted[0]] + s.posted[1..];
      assert s'.sent == s'.completed + s'.queue + s'.posted;
    case Transmit =>
    case OnWrite(_) =>
      assert s.queue == [s.queue[0]] + s.queue[1..];
      assert s'.sent == s'.completed + s'.queue + s'.posted;
  }

  /** Output order over all runs.  Before an error `completed ++ queue ++ posted` is what was sent;
      the written messages are always a prefix of it, in order. */
  lemma {:induction false} OutputIsInOrder<M>(run: seq<Event<M>>)
    requires Exec(Idle<M>(), run).Some?
    ensures var s := Exec(Idle<M>(), run).value;
      && Valid(s)
      && s.completed <= s.sent
      && (s.failed ==> s.completed < s.sent)
  {
    if run != [] {
      OutputIsInOrder(run[..|run| - 1]);
      StepKeepsValid(Exec(Idle<M>(), run[..|run| - 1]).value, run[|run| - 1]);
    }
  }

  /** Posting adds the message to what was sent. */
  lemma PostSends<M>(s: Session<M>, m: M)
    ensures Apply(s, Post(m)).sent == s.sent + [m] && Apply(s, Post(m)).posted == s.posted + [m]
  {
  }

  lemma {:induction false} ExecFirst<M>(s: Session<M>, e: Event<M>, more: seq<Event<M>>)
    requires Enabled(s, e)
    ensures Exec(s, [e] + more) == Exec(Apply(s, e), more)
    decreases |more|
  {
    var all := [e] + more;
    if more == [] {
      assert all[..|all| - 1] == [];
    } else {
      ExecFirst(s, e, more[..|more| - 1]);
      assert all[..|all| - 1] == [e] + more[..|more| - 1];
    }
  }

  /** As long as no write has failed, everything sent so far can still be written, in order. */
  lemma AllCanBeWritten<M>(s: Session<M>) returns (more: seq<Event<M>>)
    requires Valid(s) && !s.failed
    ensures Exec(s, more).Some? && Exec(s, more).value.completed == s.sent
    decreases |s.posted|, |s.queue|, if s.transmitted then 0 else 1
  {
    if s.posted != [] {
      more := Continue(s, OnSend);
    } else if s.queue != [] {
      more := Continue(s, if s.transmitted then OnWrite(false) else Transmit);
    } else {
      more := [];
      assert s.completed + [] + [] == s.completed;
    }
  }

  lemma Continue<M>(s: Session<M>, e: Event<M>) returns (more: seq<Event<M>>)
    requires Valid(s) && !s.failed && Enabled(s, e) && (s.posted != [] ==> e == OnSend)
    requires s.posted == [] && s.queue != [] ==> e == if s.transmitted then OnWrite(false) else Transmit
    requires s.posted != [] || s.queue != []
    ensures Exec(s, more).Some? && Exec(s, more).value.completed == s.sent
    decreases |s.posted|, |s.queue|, if s.transmitted then 0 else 1, 0
  {
    StepKeepsValid(s, e);
    var rest := AllCanBeWritten(Apply(s, e));
    ExecFirst(s, e, rest);
    more := [e] + rest;
  }

  /** After a write error no further write ever starts and the written output is final. */
  lemma {:induction false} FailureIsFinal<M>(s: Session<M>, more: seq<Event<M>>)
    requires Valid(s) && s.failed && Exec(s, more).Some?
    ensures var s' := Exec(s, more).value;
      Valid(s') && s'.failed && s'.inFlight == None && s'.completed == s.completed && s.sent <= s'.sent
  {
    if more != [] {
      FailureIsFinal(s, more[..|more| - 1]);
      StepKeepsValid(Exec(s, more[..|more| - 1]).value, more[|more| - 1]);
    }
  }
}

/** The handlers of messenger/websocket_session.cc as code.  `pendingWrite` stands for the operation handed
    to async_write. */
module WebsocketCode {
  import opened Wrappers
  import Websocket

  class WebsocketSession<M(==)> {
    var connected: bool
    var executor: seq<M>
    var queue: seq<M>
    var pendingWrite: Option<M>
    var transmitted: bool
    ghost var model: Websocket.Session<M>

    ghost predicate Valid()
      reads this
    {
      && Websocket.Valid(model)
      && executor == model.posted && queue == model.queue
      && pendingWrite == model.inFlight && transmitted == model.transmitted
    }

    constructor ()
      ensures Valid() && model == Websocket.Idle() && !connected
    {
      connected, executor, queue, pendingWrite, transmitted := false, [], [], None, false;
      model := Websocket.Idle();
    }

    method AsyncWrite(msg: M)
      modifies this`pendingWrite, this`transmitted
      ensures pendingWrite == Some(msg) && !transmitted
    {
      pendingWrite, transmitted := Some(msg), false;
    }

    /** Drops the message silently when the handshake has not completed. */
    method SendMsg(msg: M)
      requires Valid()
      modifies this
      ensures Valid() && connected == old(connected)
      ensures model == if connected then Websocket.Apply(old(model), Websocket.Post(msg)) else old(model)
    {
      if !connected {
        return;
      }
      executor := executor + [msg];
      Websocket.StepKeepsValid(model, Websocket.Post(msg));
      model := Websocket.Apply(model, Websocket.Post(msg));
    }

    method OnSend()
      requires Valid() && executor != []
      modifies this
      ensures Valid() && model == Websocket.Apply(old(model), Websocket.Event.OnSend)
    {
      var msg := executor[0];
      executor := executor[1..];
      Websocket.StepKeepsValid(model, Websocket.Event.OnSend);
      model := Websocket.Apply(model, Websocket.Event.OnSend);
      queue := queue + [msg];
      if |queue| > 1 {
        return;
      }
      AsyncWrite(queue[0]);
    }

    method OnWrite(error: bool)
      requires Valid() && pendingWrite.Some? && (transmitted || error)
      modifies this
      ensures Valid() && model == Websocket.Apply(old(model), Websocket.Event.OnWrite(error))
    {
      Websocket.StepKeepsValid(model, Websocket.Event.OnWrite(error));
      model := Websocket.Apply(model, Websocket.Event.OnWrite(error));
      pendingWrite := None;
      if error {
        return;
      }
      queue := queue[1..];
      if queue != [] {
        AsyncWrite(queue[0]);
      }
    }
  }
}
