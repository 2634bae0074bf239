/**
 * WebSocketConnectionActorBase of the Standard package: the asynchronous
 * dispatch over the Standard package's MessageTools, FramedWebSocketMessage and
 * ByteStringReader. Those three are not part of this model, so the actor calls
 * them through `AsyncTools`, and the buffer field holds the target and the bytes
 * written so far as a value (None while the field is null).
 */
module StandardConnectionActor {
  import opened Wire
  import opened StandardMessageTypes
  import opened ActorProtocol
  import opened AsyncConnection

  class WebSocketConnectionActor {
    const p: Platform
    const tools: AsyncTools
    var framed: Option<Pending>
    var accumulating: bool
    var stopped: bool

    /** The state of the step function this object is in. */
    function State(): (s: ConnectionState)
      reads this
      ensures s == Stopped <==> stopped
    {
      if stopped then Stopped else if accumulating then Accumulating(framed) else Default
    }

    constructor(p: Platform, tools: AsyncTools)
      ensures State() == Default && framed.None? && this.p == p && this.tools == tools
    {
      this.p := p;
      this.tools := tools;
      framed := None;
      accumulating := false;
      stopped := false;
    }

    /** The mailbox delivering one message to the handler on top of the stack. */
    method Receive(message: Message) returns (actions: seq<Action>)
      modifies this
      ensures Step(State(), actions) == StepAsync(p, tools, old(State()), message)
    {
      if stopped {
        return [];
      }
      if accumulating {
        actions := OnFrameReceived(message);
        return;
      }
      match message
      case TcpReceived(data) =>
        actions := OnReceived(data);
      case TcpPeerClosed =>
        stopped := true;
        actions := [Stop];
      case Text(_) =>
        actions := [];
    }

    method OnReceived(data: Bytes) returns (actions: seq<Action>)
      requires !accumulating && !stopped
      modifies this
      ensures Step(State(), actions) == ReceivedStep(p, tools, data)
    {
      var secWebSocketKey := tools.secWebSocketKey(p.toText(data));
      if secWebSocketKey != "" {
        return [Write(p.fromText(tools.createAck(secWebSocketKey)))];
      }
      var messageType := tools.messageType(data);
      if messageType.Throws? {
        return [GracefulStop];
      }
      match messageType.value
      case Text =>
        actions := OnTextReceived(data);
      case Close =>
        actions := [Write(tools.closeMessage)];
      case _ =>
        actions := [];
    }

    method OnTextReceived(data: Bytes) returns (actions: seq<Action>)
      requires !accumulating && !stopped
      modifies this
      ensures Step(State(), actions) == TextStep(tools, data)
    {
      var totalLength := tools.totalLength(data);
      if totalLength > |data| {
        framed := Some(Pending(totalLength, data));
        accumulating := true;
        return [];
      }
      var receivedMessage := tools.read(data);
      if receivedMessage.Throws? {
        return [GracefulStop];
      }
      return [Deliver(receivedMessage.value)];
    }

    /** OnFrameReceivedAsync, including the branch for a null buffer. */
    method OnFrameReceived(message: Message) returns (actions: seq<Action>)
      requires accumulating && !stopped
      modifies this
      ensures Step(State(), actions) == StepAsync(p, tools, old(State()), message)
    {
      if !message.TcpReceived? {
        return [Forward(message)];
      }
      if framed.None? {
        accumulating := false;
        return [Forward(message)];
      }
      var pending := Pending(framed.value.totalLength, framed.value.received + message.data);
      framed := Some(pending);
      if !tools.completed(pending.totalLength, |pending.received|) {
        return [];
      }
      accumulating := false;
      var receivedMessage := tools.read(pending.received);
      if receivedMessage.Throws? {
        return [];
      }
      actions := [Deliver(receivedMessage.value)];
      framed := None;
    }
  }
}
