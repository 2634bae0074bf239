/**
 * WebSocketConnectionActorBaseV2 (Akka.IO.TcpTools): the per-chunk dispatch of
 * the synchronous connection actor. Every chunk is first searched for a
 * handshake key (there is no handshake-completed flag); otherwise its opcode
 * selects the handler. Text and Binary frames whose GetMessageTotalLength
 * exceeds the chunk length start a FramedWebSocketMessage and stack the frame
 * handler; Ping is answered with a Pong and Pong with a Ping carrying the same
 * text; Close, Continuation and Invalid close the connection and stop the
 * actor; an exception closes the connection and requests a graceful stop.
 */
module ConnectionActorV2 {
  import opened Wire
  import opened StandardMessageTypes
  import opened ActorProtocol
  import M = MessageTools
  import R = ByteStringReaderV2
  import F = FramedMessage
  import H = FrameHeader

  /** `Sender.Tell(Tcp.Close.Instance)` followed by the 5-second graceful stop of the catch block. */
  const Failed: seq<Action> := [TcpClose, GracefulStop]

  /** OnBinaryReceived and OnTextReceived (the same code). */
  function DataStep(p: Platform, data: Bytes): (r: Step)
    ensures r.next.Accumulating? <==> M.MessageTotalLength(data) > |data|
    ensures r.next.Accumulating? ==>
              r == Step(Accumulating(Some(Pending(M.MessageTotalLength(data), data))), [])
    ensures !r.next.Accumulating? ==> r.next == Default && |r.actions| > 0
    ensures !r.next.Accumulating? && R.ReadText(data, p.utf8).Returns? ==>
              r.actions == [Deliver(R.ReadText(data, p.utf8).value)]
    ensures !r.next.Accumulating? && R.ReadText(data, p.utf8).Throws? ==> r.actions == Failed
  {
    var totalLength := M.MessageTotalLength(data);
    if totalLength > |data| then Step(Accumulating(Some(Pending(totalLength, data))), [])
    else
      match R.ReadText(data, p.utf8)
      case Returns(text) => Step(Default, [Deliver(text)])
      case Throws => Step(Default, Failed)
  }

  /** OnPingReceived (answer with Pong) and OnPongReceived (answer with Ping): the text read back in a control frame. */
  function ControlStep(p: Platform, data: Bytes, opCode: Byte): (r: Step)
    ensures r.next == Default
    ensures R.ReadText(data, p.utf8).Returns? ==>
              r.actions == [Write(M.ControlFrame(opCode, p.utf8.getBytes(R.ReadText(data, p.utf8).value)))]
    ensures R.ReadText(data, p.utf8).Throws? ==> r.actions == Failed
  {
    match R.ReadText(data, p.utf8)
    case Returns(text) => Step(Default, [Write(M.ControlFrame(opCode, p.utf8.getBytes(text)))])
    case Throws => Step(Default, Failed)
  }

  /**
   * A chunk that OnReceived answers by closing the connection and stopping: no
   * handshake key, and a Close frame or a kind the switch does not list.
   */
  predicate ClosingFrame(p: Platform, data: Bytes)
  {
    M.GetSecWebSocketKey(p.toText(data)) == "" && M.GetMessageType(data).Returns? &&
    (M.GetMessageType(data).value == Close || M.GetMessageType(data).value == Continuation ||
     M.GetMessageType(data).value == Invalid)
  }

  /** OnReceived: the handshake check, then the switch on the message type. */
  function ReceivedStep(p: Platform, data: Bytes): (r: Step)
    ensures M.GetSecWebSocketKey(p.toText(data)) != "" ==>
              r == Step(Default, [Write(p.fromText(M.CreateAck(p, M.GetSecWebSocketKey(p.toText(data)))))])
    ensures M.GetSecWebSocketKey(p.toText(data)) == "" && M.GetMessageType(data).Throws? ==> r == Step(Default, Failed)
    ensures M.GetSecWebSocketKey(p.toText(data)) == "" && M.GetMessageType(data).Returns? ==>
              match M.GetMessageType(data).value
              case Text => r == DataStep(p, data)
              case Binary => r == DataStep(p, data)
              case Ping => r == ControlStep(p, data, M.PongOpCode)
              case Pong => r == ControlStep(p, data, M.PingOpCode)
              case _ => r == Step(Stopped, [TcpClose, Stop])
    ensures r.next == Stopped <==> ClosingFrame(p, data)
    ensures r.next == Stopped ==> r.actions == [TcpClose, Stop]
    ensures Stop in r.actions <==> r.next == Stopped
    ensures TcpClose in r.actions ==> r.actions[0] == TcpClose
    ensures r.next != Accumulating(None)
    ensures |data| == 0 && M.GetSecWebSocketKey(p.toText(data)) == "" ==> r == Step(Default, Failed)
  {
    var secWebSocketKey := M.GetSecWebSocketKey(p.toText(data));
    if secWebSocketKey != "" then Step(Default, [Write(p.fromText(M.CreateAck(p, secWebSocketKey)))])
    else
      match M.GetMessageType(data)
      case Throws => Step(Default, Failed)
      case Returns(messageType) =>
        match messageType
        case Binary => DataStep(p, data)
        case Text => DataStep(p, data)
        case Ping => ControlStep(p, data, M.PongOpCode)
        case Pong => ControlStep(p, data, M.PingOpCode)
        case _ => Step(Stopped, [TcpClose, Stop])
  }

  /**
   * The actor's step: default handler, frame handler, or nothing once stopped.
   * It stops exactly on PeerClosed or a closing frame in the default handler,
   * and Tcp.Close, when sent, is always the first effect.
   */
  function StepV2(p: Platform, state: ConnectionState, message: Message): (r: Step)
    ensures r.next == Stopped <==>
              state == Stopped ||
              (state == Default && (message.TcpPeerClosed? || (message.TcpReceived? && ClosingFrame(p, message.data))))
    ensures Stop in r.actions <==> r.next == Stopped && state != Stopped
    ensures TcpClose in r.actions ==> r.actions[0] == TcpClose
  {
    match state
    case Stopped => Step(Stopped, [])
    case Accumulating(buffer) =>
      Accumulate((t: nat, n: nat) => F.Completed(t, n), (b: Bytes) => R.ReadText(b, p.utf8), buffer, message)
    case Default =>
      match message
      case TcpReceived(data) => ReceivedStep(p, data)
      case TcpPeerClosed => Step(Stopped, [Stop])
      case Text(_) => Step(Default, [])
  }

  /** A state the actor can be in: the frame handler is only stacked together with a buffer. */
  predicate WellFormed(state: ConnectionState)
  {
    state != Accumulating(None)
  }

  /** Every step keeps the actor well formed, so the null-buffer branch of OnFrameReceived is dead code. */
  lemma StepKeepsWellFormed(p: Platform, state: ConnectionState, message: Message)
    requires WellFormed(state)
    ensures WellFormed(StepV2(p, state, message).next)
  {
  }

  /** From any well-formed state, any mail leaves the actor well formed. */
  lemma {:induction false} RunKeepsWellFormed(p: Platform, state: ConnectionState, messages: seq<Message>)
    requires WellFormed(state)
    ensures WellFormed(Run((s, m) => StepV2(p, s, m), state, messages).next)
    decreases |messages|
  {
    if |messages| > 0 {
      StepKeepsWellFormed(p, state, messages[0]);
      RunKeepsWellFormed(p, StepV2(p, state, messages[0]).next, messages[1..]);
    }
  }

  /** After Close, Continuation, Invalid or PeerClosed the actor emits nothing more. */
  lemma StoppedV2(p: Platform, messages: seq<Message>)
    ensures Run((s, m) => StepV2(p, s, m), Stopped, messages) == Step(Stopped, [])
  {
    StoppedStaysSilent((s, m) => StepV2(p, s, m), messages);
  }

  /** A buffered message fed chunk by chunk is delivered once, when the buffer completes. */
  lemma AccumulationV2(p: Platform, pending: Pending, chunks: seq<Bytes>)
    requires |chunks| > 0
    requires forall k :: 0 < k < |chunks| ==> !F.Completed(pending.totalLength, |pending.received + Flatten(chunks[..k])|)
    requires F.Completed(pending.totalLength, |pending.received + Flatten(chunks)|)
    ensures var all := pending.received + Flatten(chunks);
            Run((s, m) => StepV2(p, s, m), Accumulating(Some(pending)), Chunks(chunks))
            == Step(Default, if R.ReadText(all, p.utf8).Returns? then [Deliver(R.ReadText(all, p.utf8).value)] else [])
  {
    AccumulationDeliversOnce((s, m) => StepV2(p, s, m), (t: nat, n: nat) => F.Completed(t, n), (b: Bytes) => R.ReadText(b, p.utf8),
                             pending, chunks);
  }

  /**
   * A ping built from a text (no handshake key in its text form) is answered
   * with a pong built from the same text, when UTF-8 round-trips it.
   */
  lemma PingAnsweredWithPong(p: Platform, text: string)
    requires M.GetSecWebSocketKey(p.toText(M.ControlFrame(M.PingOpCode, p.utf8.getBytes(text)))) == ""
    requires p.utf8.getString(p.utf8.getBytes(text)) == text
    requires p.utf8.getBytes(text) == [] <==> text == ""
    ensures StepV2(p, Default, TcpReceived(M.ControlFrame(M.PingOpCode, p.utf8.getBytes(text))))
         == Step(Default, [Write(M.ControlFrame(M.PongOpCode, p.utf8.getBytes(text)))])
  {
    M.ControlFrameTypes(p.utf8.getBytes(text));
    R.ReadPingMessage(p, text);
  }

  /** Every Pong, even the answer to a ping of this actor, is answered with a Ping. */
  lemma PongAnsweredWithPing(p: Platform, payload: Bytes)
    requires M.GetSecWebSocketKey(p.toText(M.ControlFrame(M.PongOpCode, payload))) == ""
    ensures StepV2(p, Default, TcpReceived(M.ControlFrame(M.PongOpCode, payload))).actions
         == [Write(M.ControlFrame(M.PingOpCode, p.utf8.getBytes(if |payload| == 0 then "" else p.utf8.getString(payload))))]
  {
    M.ControlFrameTypes(payload);
    R.ReadControlFrame(M.PongOpCode, payload, p.utf8);
  }

  /**
   * Read off byte 0: a Continuation (opcode 0) or Close (opcode 8) frame, a
   * reserved opcode, or any RSV bit set makes the actor send Tcp.Close and stop.
   */
  lemma UnlistedFramesStop(p: Platform, data: Bytes)
    requires M.GetSecWebSocketKey(p.toText(data)) == "" && |data| > 0
    requires H.Opcode(data[0]) == 0 || H.Opcode(data[0]) == 8 ||
             !M.NamedOpcode(H.Opcode(data[0])) || H.ReservedBits(data[0]) != 0
    ensures StepV2(p, Default, TcpReceived(data)) == Step(Stopped, [TcpClose, Stop])
  {
    var t := M.GetMessageType(data).value;
    if t != Invalid {
      assert Value(t) == H.Opcode(data[0]);
    }
    assert ClosingFrame(p, data);
  }

  /**
   * A target among the eight largest 64-bit values wraps to under 8, so once
   * 8 bytes are buffered the next chunk, even an empty one, completes the message.
   */
  lemma WrappedTargetCompletesAtOnce(p: Platform, pending: Pending, chunk: Bytes)
    requires U64_LIMIT - F.Offset <= pending.totalLength < U64_LIMIT && |pending.received| >= F.Offset
    ensures StepV2(p, Accumulating(Some(pending)), TcpReceived(chunk)).next == Default
  {
    F.CompletedAboveWrap(pending.totalLength, |pending.received + chunk|);
  }

  /** A reading failure while completing is only logged: the default handler is already back and nothing is emitted. */
  lemma FailedReadLeavesDefault(p: Platform, pending: Pending, chunk: Bytes)
    requires F.Completed(pending.totalLength, |pending.received + chunk|)
    requires R.ReadText(pending.received + chunk, p.utf8).Throws?
    ensures StepV2(p, Accumulating(Some(pending)), TcpReceived(chunk)) == Step(Default, [])
  {
  }

  /**
   * The actor: the buffer field, whether the frame handler is stacked, and
   * whether Context.Stop has been called.
   */
  class WebSocketConnectionActor {
    const p: Platform
    var framed: F.FramedWebSocketMessage?
    var accumulating: bool
    var stopped: bool

    ghost predicate Valid()
      reads this, framed, if framed != null then {framed.messageBytes} else {}
    {
      (framed != null ==> framed.Valid())
      && (accumulating ==> framed != null && !framed.messageBytes.disposed && !stopped)
    }

    /** The state of the step function this object is in. */
    ghost function State(): ConnectionState
      requires Valid()
      reads this, framed, if framed != null then {framed.messageBytes} else {}
    {
      if stopped then Stopped
      else if accumulating then Accumulating(Some(Pending(framed.totalLength, framed.messageBytes.buffer)))
      else Default
    }

    constructor(p: Platform)
      ensures Valid() && State() == Default && this.p == p
    {
      this.p := p;
      framed := null;
      accumulating := false;
      stopped := false;
    }

    /** The mailbox delivering one message to the handler on top of the stack. */
    method Receive(message: Message) returns (actions: seq<Action>)
      requires Valid()
      modifies this, if framed != null then {framed.messageBytes} else {}
      ensures Valid()
      ensures Step(State(), actions) == StepV2(p, old(State()), message)
    {
      if stopped {
        return [];
      }
      if accumulating {
        actions := OnFrameReceived(message);
        return;
      }
      match message
      case TcpReceived(data) =>
        actions := OnReceived(data);
      case TcpPeerClosed =>
        stopped := true;
        actions := [Stop];
      case Text(_) =>
        actions := [];
    }

    method OnReceived(data: Bytes) returns (actions: seq<Action>)
      requires Valid() && !accumulating && !stopped
      modifies this
      ensures Valid()
      ensures Step(State(), actions) == ReceivedStep(p, data)
    {
      var secWebSocketKey := M.GetSecWebSocketKey(p.toText(data));
      if secWebSocketKey != "" {
        return [Write(p.fromText(M.CreateAck(p, secWebSocketKey)))];
      }
      var messageType := M.GetMessageType(data);
      if messageType.Throws? {
        return Failed;
      }
      match messageType.value
      case Binary =>
        actions := OnDataReceived(data);
      case Text =>
        actions := OnDataReceived(data);
      case Ping =>
        actions := OnPingReceived(data);
      case Pong =>
        actions := OnPongReceived(data);
      case _ =>
        stopped := true;
        actions := [TcpClose, Stop];
    }

    method OnDataReceived(data: Bytes) returns (actions: seq<Action>)
      requires Valid() && !accumulating && !stopped
      modifies this
      ensures Valid()
      ensures Step(State(), actions) == DataStep(p, data)
    {
      var totalLength := M.GetMessageTotalLength(data);
      if totalLength > |data| {
        var buffer := new F.FramedWebSocketMessage(totalLength);
        buffer.Write(data);
        assert buffer.messageBytes.buffer == data;
        framed := buffer;
        accumulating := true;
        return [];
      }
      var receivedMessage := R.ReadUtf8(p, data);
      if receivedMessage.Throws? {
        return Failed;
      }
      return [Deliver(receivedMessage.value)];
    }

    method OnPingReceived(data: Bytes) returns (actions: seq<Action>)
      requires Valid() && !accumulating && !stopped
      ensures Step(State(), actions) == ControlStep(p, data, M.PongOpCode)
    {
      var receivedMessage := R.ReadUtf8(p, data);
      if receivedMessage.Throws? {
        return Failed;
      }
      var pongMessage := M.CreatePongMessage(p, receivedMessage.value, None);
      return [Write(pongMessage)];
    }

    method OnPongReceived(data: Bytes) returns (actions: seq<Action>)
      requires Valid() && !accumulating && !stopped
      ensures Step(State(), actions) == ControlStep(p, data, M.PingOpCode)
    {
      var receivedMessage := R.ReadUtf8(p, data);
      if receivedMessage.Throws? {
        return Failed;
      }
      var pingMessage := M.CreatePingMessage(p, receivedMessage.value, None);
      return [Write(pingMessage)];
    }

    method OnFrameReceived(message: Message) returns (actions: seq<Action>)
      requires Valid() && accumulating
      modifies this, framed.messageBytes
      ensures Valid()
      ensures Step(State(), actions) == StepV2(p, old(State()), message)
    {
      if !message.TcpReceived? {
        return [Forward(message)];
      }
      var buffer := framed;
      buffer.Write(message.data);
      var completed := buffer.IsCompleted();
      if !completed {
        return [];
      }
      accumulating := false;
      var allBytes := buffer.ReadAllBytes();
      var receivedMessage := R.ReadUtf8(p, allBytes);
      if receivedMessage.Throws? {
        return [];
      }
      actions := [Deliver(receivedMessage.value)];
      buffer.Close();
      framed := null;
    }
  }
}
