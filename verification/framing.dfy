/** Packet framing and dispatch of core/licode_signaling.cc: the decimal digits at the front of a
    message select its handler, the rest is the body (Packet encoding, Engine.IO protocol revision 3). */
module Framing {
  import opened Wrappers
  import Text

  const ENGINE_OPEN := "0"
  const ENGINE_PONG := "3"
  const ENGINE_MESSAGE := "4"
  const PACKET_CONNECT := "0"
  const PACKET_DISCONNECT := "1"
  const PACKET_EVENT := "2"
  const PACKET_ACK := "3"
  const INIT_TOKEN_TRANS_ID := "111"
  const SUBSCRIBE_STREAM_TRANS_ID := "222"
  const PUBLISH_STREAM_TRANS_ID := "333"

  datatype Handler =
    | SocketOpen
    | Pong
    | SocketConnect
    | InitTokenResponse
    | SocketDisconnect
    | SubscribeResponse
    | PublishResponse
    | SocketEvent

  function Header(h: Handler): string {
    match h
    case SocketOpen => ENGINE_OPEN
    case Pong => ENGINE_PONG
    case SocketConnect => ENGINE_MESSAGE + PACKET_CONNECT
    case InitTokenResponse => ENGINE_MESSAGE + PACKET_ACK + INIT_TOKEN_TRANS_ID
    case SocketDisconnect => ENGINE_MESSAGE + PACKET_DISCONNECT
    case SubscribeResponse => ENGINE_MESSAGE + PACKET_ACK + SUBSCRIBE_STREAM_TRANS_ID
    case PublishResponse => ENGINE_MESSAGE + PACKET_ACK + PUBLISH_STREAM_TRANS_ID
    case SocketEvent => ENGINE_MESSAGE + PACKET_EVENT
  }

  predicate AllDigits(s: string) {
    forall i :: 0 <= i < |s| ==> Text.IsDigit(s[i])
  }

  predicate StartsWithDigit(s: string) {
    s != [] && Text.IsDigit(s[0])
  }

  function LeadingDigits(msg: string): (digits: string)
    ensures digits <= msg
  {
    if StartsWithDigit(msg) then [msg[0]] + LeadingDigits(msg[1..]) else ""
  }

  datatype Packet = Packet(handler: Handler, body: string)

  /** The handler a message reaches and the body it is given. */
  function Dispatch(msg: string): Option<Packet> {
    var number := LeadingDigits(msg);
    var h := Select(number);
    if h.None? then None else Some(Packet(h.value, msg[|number|..]))
  }

  /** The comparison chain of `OnWebsocketMsg`. */
  function Select(number: string): Option<Handler> {
    if number == Header(SocketOpen) then Some(SocketOpen)
    else if number == Header(Pong) then Some(Pong)
    else if number == Header(SocketConnect) then Some(SocketConnect)
    else if number == Header(InitTokenResponse) then Some(InitTokenResponse)
    else if number == Header(SocketDisconnect) then Some(SocketDisconnect)
    else if number == Header(SubscribeResponse) then Some(SubscribeResponse)
    else if number == Header(PublishResponse) then Some(PublishResponse)
    else if number == Header(SocketEvent) then Some(SocketEvent)
    else None
  }

  lemma {:induction false} LeadingDigitsSplit(digits: string, body: string)
    requires AllDigits(digits) && !StartsWithDigit(body)
    ensures LeadingDigits(digits + body) == digits
  {
    if digits == [] {
      assert digits + body == body;
    } else {
      assert (digits + body)[1..] == digits[1..] + body;
      LeadingDigitsSplit(digits[1..], body);
    }
  }

  lemma {:induction false} LeadingDigitsMeans(msg: string)
    ensures LeadingDigits(msg) <= msg && AllDigits(LeadingDigits(msg))
    ensures !StartsWithDigit(msg[|LeadingDigits(msg)|..])
  {
    if StartsWithDigit(msg) {
      LeadingDigitsMeans(msg[1..]);
      assert msg == [msg[0]] + msg[1..];
      assert msg[|LeadingDigits(msg)|..] == msg[1..][|LeadingDigits(msg[1..])|..];
    }
  }

  /** The eight headers as they stand in front of a message. */
  lemma HeaderTexts()
    ensures Header(SocketOpen) == "0" && Header(Pong) == "3"
    ensures Header(SocketConnect) == "40" && Header(SocketDisconnect) == "41" && Header(SocketEvent) == "42"
    ensures Header(InitTokenResponse) == "43111"
    ensures Header(SubscribeResponse) == "43222" && Header(PublishResponse) == "43333"
  {
  }

  lemma HeadersDistinct(h: Handler, h': Handler)
    requires Header(h) == Header(h')
    ensures h == h'
  {
    assert |Header(h)| == |Header(h')|;
    assert Header(h)[|Header(h)| - 1] == Header(h')[|Header(h')| - 1];
  }

  lemma SelectMeans(number: string, h: Handler)
    ensures Select(number) == Some(h) <==> number == Header(h)
  {
    if Select(number).Some? && number == Header(h) {
      HeadersDistinct(h, Select(number).value);
    }
  }

  /** Framing is unambiguous: a message reaches handler `h` with body `body` if and only if it is h's
      header followed by that body and the body does not begin with a digit. */
  lemma DispatchIff(msg: string, h: Handler, body: string)
    ensures Dispatch(msg) == Some(Packet(h, body)) <==> msg == Header(h) + body && !StartsWithDigit(body)
  {
    LeadingDigitsMeans(msg);
    SelectMeans(LeadingDigits(msg), h);
    assert msg == LeadingDigits(msg) + msg[|LeadingDigits(msg)|..];
    if msg == Header(h) + body && !StartsWithDigit(body) {
      LeadingDigitsSplit(Header(h), body);
    }
  }

  // ----- the session -----

  datatype Session = Disconnect | Connecting | Connected

  datatype Action =
    | Nothing
    | Opened(body: string)
    | KeepAliveAndInitToken
    | Forward(handler: Handler, body: string)
    | CloseSocket(tellRoom: bool)

  datatype Reaction = Reaction(state: Session, action: Action)

  /** What a message does to the signalling session. */
  function React(state: Session, msg: string): Reaction {
    match Dispatch(msg)
    case None => Reaction(state, Nothing)
    case Some(Packet(h, body)) =>
      match h
      case SocketOpen => Reaction(state, Opened(body))
      case Pong => Reaction(state, Nothing)
      case SocketConnect => Reaction(Connected, KeepAliveAndInitToken)
      case SocketDisconnect => Reaction(Disconnect, CloseSocket(state == Connected))
      case _ => Reaction(state, Forward(h, body))
  }

  /** Each header reaches exactly its own handler with exactly the body, every other digit prefix
      changes nothing, and only the two session packets change the session state. */
  lemma ReactionIsExact(state: Session, h: Handler, body: string, other: string)
    requires !StartsWithDigit(body)
    requires AllDigits(other) && forall k: Handler :: other != Header(k)
    ensures React(state, other + body) == Reaction(state, Nothing)
    ensures h in {InitTokenResponse, SubscribeResponse, PublishResponse, SocketEvent} ==>
      React(state, Header(h) + body) == Reaction(state, Forward(h, body))
    ensures React(state, Header(SocketOpen) + body) == Reaction(state, Opened(body))
    ensures React(state, Header(Pong) + body) == Reaction(state, Nothing)
    ensures React(state, Header(SocketConnect) + body) == Reaction(Connected, KeepAliveAndInitToken)
    ensures React(state, Header(SocketDisconnect) + body) == Reaction(Disconnect, CloseSocket(state == Connected))
  {
    LeadingDigitsSplit(other, body);
    forall k: Handler ensures Dispatch(Header(k) + body) == Some(Packet(k, body)) {
      DispatchIff(Header(k) + body, k, body);
    }
    assert Select(other) == None by {
      if Select(other).Some? { SelectMeans(other, Select(other).value); }
    }
  }

  class LicodeSignaling {
    var state: Session

    constructor ()
      ensures state == Disconnect
    {
      state := Disconnect;
    }

    static method ExtractNumber(msg: string) returns (number: string)
      ensures number == LeadingDigits(msg)
    {
      var n := 0;
      while n < |msg| && Text.IsDigit(msg[n])
        invariant 0 <= n <= |msg|
        invariant AllDigits(msg[..n])
      {
        n := n + 1;
      }
      LeadingDigitsSplit(msg[..n], msg[n..]);
      assert msg == msg[..n] + msg[n..];
      return msg[..n];
    }

    method OnWebsocketMsg(msg: string) returns (action: Action)
      modifies this
      ensures Reaction(state, action) == React(old(state), msg)
    {
      var number := ExtractNumber(msg);
      var h := Select(number);
      if h.None? {
        return Nothing;
      } else if h.value == SocketOpen {
        return Opened(msg[|number|..]);
      } else if h.value == Pong {
        return Nothing;
      } else if h.value == SocketConnect {
        state := Connected;
        return KeepAliveAndInitToken;
      } else if h.value == SocketDisconnect {
        var needCallback := state == Connected;
        state := Disconnect;
        return CloseSocket(needCallback);
      } else {
        return Forward(h.value, msg[|number|..]);
      }
    }
  }
}
