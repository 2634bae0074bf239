/**
 * The older WebSocketConnectionActorBase (Akka.IO.TcpTools): the asynchronous
 * dispatch over the older MessageTools and FramedWebSocketMessage. Its
 * ByteStringReader.ReadAsync runs a framework WebSocket over a MemoryStream and
 * is a parameter here (`read`).
 */
module LegacyConnectionActor {
  import opened Wire
  import opened StandardMessageTypes
  import opened ActorProtocol
  import opened AsyncConnection
  import L = LegacyMessageTools
  import LT = LegacyMessageTypes
  import LF = LegacyFramedMessage
  import M = MessageTools
  import F = FramedMessage
  import CA = ConnectionActorV2

  /** What the older actor calls, as the shared asynchronous step sees it. */
  function OlderTools(p: Platform, read: Bytes -> Try<string>): (tools: AsyncTools)
    ensures tools.closeMessage == M.CloseMessage
    ensures forall data :: tools.messageType(data) == M.GetMessageType(data)
  {
    L.CannedFramesAgree();
    AsyncTools(
      L.GetSecWebSocketKey,
      key => M.CreateAck(p, key),
      (data: Bytes) => M.GetMessageType(data),
      M.MessageTotalLength,
      (t: nat, n: nat) => F.Completed(t, n),
      read,
      L.CloseMessage)
  }

  /**
   * The older actor's step: it never sends Tcp.Close, stops only on PeerClosed
   * in the default handler, and answers a Close frame with the canned close frame.
   */
  function StepOlder(p: Platform, read: Bytes -> Try<string>, state: ConnectionState, message: Message): (r: Step)
    ensures TcpClose !in r.actions
    ensures r.next == Stopped <==> state == Stopped || (state == Default && message.TcpPeerClosed?)
    ensures state == Default && message.TcpReceived? && L.GetSecWebSocketKey(p.toText(message.data)) == "" &&
              M.GetMessageType(message.data) == Returns(Close) ==>
              r == Step(Default, [Write(M.CloseMessage)])
  {
    StepAsync(p, OlderTools(p, read), state, message)
  }

  /**
   * The revisions part on a Close frame: the V2 actor closes the connection and
   * stops, the older one answers with the canned close frame and goes on.
   */
  lemma ClosePolicies(p: Platform, read: Bytes -> Try<string>)
    requires M.GetSecWebSocketKey(p.toText(M.CloseMessage)) == ""
    requires L.GetSecWebSocketKey(p.toText(M.CloseMessage)) == ""
    ensures CA.StepV2(p, Default, TcpReceived(M.CloseMessage)) == Step(Stopped, [TcpClose, Stop])
    ensures StepOlder(p, read, Default, TcpReceived(M.CloseMessage)) == Step(Default, [Write(M.CloseMessage)])
  {
    M.MessageTypeExamples();
  }

  class WebSocketConnectionActor {
    const p: Platform
    const read: Bytes -> Try<string>
    var framed: LF.FramedWebSocketMessage?
    var accumulating: bool
    var stopped: bool

    ghost predicate Valid()
      reads this, framed, if framed != null then {framed.messageBytes} else {}
    {
      (framed != null ==> framed.Valid())
      && (accumulating ==> framed != null && !framed.messageBytes.disposed && !stopped)
    }

    /** The state of the step function this object is in. */
    ghost function State(): ConnectionState
      requires Valid()
      reads this, framed, if framed != null then {framed.messageBytes} else {}
    {
      if stopped then Stopped
      else if accumulating then Accumulating(Some(Pending(framed.totalLength, framed.messageBytes.buffer)))
      else Default
    }

    constructor(p: Platform, read: Bytes -> Try<string>)
      ensures Valid() && State() == Default && this.p == p && this.read == read
    {
      this.p := p;
      this.read := read;
      framed := null;
      accumulating := false;
      stopped := false;
    }

    /** The mailbox delivering one message to the handler on top of the stack. */
    method Receive(message: Message) returns (actions: seq<Action>)
      requires Valid()
      modifies this, if framed != null then {framed.messageBytes} else {}
      ensures Valid()
      ensures Step(State(), actions) == StepOlder(p, read, old(State()), message)
    {
      if stopped {
        return [];
      }
      if accumulating {
        actions := OnFrameReceived(message);
        return;
      }
      match message
      case TcpReceived(data) =>
        actions := OnReceived(data);
      case TcpPeerClosed =>
        stopped := true;
        actions := [Stop];
      case Text(_) =>
        actions := [];
    }

    method OnReceived(data: Bytes) returns (actions: seq<Action>)
      requires Valid() && !accumulating && !stopped
      modifies this
      ensures Valid()
      ensures Step(State(), actions) == ReceivedStep(p, OlderTools(p, read), data)
    {
      var secWebSocketKey := L.GetSecWebSocketKey(p.toText(data));
      if secWebSocketKey != "" {
        var ack := L.CreateAck(p, secWebSocketKey);
        return [Write(p.fromText(ack))];
      }
      var messageType := L.GetMessageType(data);
      if messageType.Throws? {
        return [GracefulStop];
      }
      match messageType.value
      case Text =>
        actions := OnTextReceived(data);
      case Close =>
        actions := [Write(L.CloseMessage)];
      case _ =>
        actions := [];
    }

    method OnTextReceived(data: Bytes) returns (actions: seq<Action>)
      requires Valid() && !accumulating && !stopped
      modifies this
      ensures Valid()
      ensures Step(State(), actions) == TextStep(OlderTools(p, read), data)
    {
      var totalLength := L.GetMessageTotalLength(data);
      if totalLength > |data| {
        var buffer := new LF.FramedWebSocketMessage(totalLength);
        buffer.Write(data);
        assert buffer.messageBytes.buffer == data;
        framed := buffer;
        accumulating := true;
        return [];
      }
      var receivedMessage := read(data);
      if receivedMessage.Throws? {
        return [GracefulStop];
      }
      return [Deliver(receivedMessage.value)];
    }

    method OnFrameReceived(message: Message) returns (actions: seq<Action>)
      requires Valid() && accumulating
      modifies this, framed.messageBytes
      ensures Valid()
      ensures Step(State(), actions) == StepOlder(p, read, old(State()), message)
    {
      if !message.TcpReceived? {
        return [Forward(message)];
      }
      var buffer := framed;
      buffer.Write(message.data);
      var completed := buffer.IsCompleted();
      if !completed {
        return [];
      }
      accumulating := false;
      var allBytes := buffer.ReadAllBytes();
      var receivedMessage := read(allBytes);
      if receivedMessage.Throws? {
        return [];
      }
      actions := [Deliver(receivedMessage.value)];
      buffer.Close();
      framed := null;
    }
  }
}
