/**
 * The per-chunk dispatch shared by the two asynchronous connection actors (the
 * Standard package's WebSocketConnectionActorBase and the older one). Unlike
 * the V2 actor they only act on Text and Close: a handshake key is answered
 * with the ack, a Text frame is delivered or starts a framed message, a Close
 * frame is answered with the canned close frame and the actor goes on, Binary,
 * Ping, Pong, Continuation and Invalid frames are dropped, and an exception
 * requests a graceful stop without closing the connection. What the two
 * revisions call (their MessageTools, buffer and reader) is a parameter here.
 */
module AsyncConnection {
  import opened Wire
  import opened StandardMessageTypes
  import opened ActorProtocol

  /**
   * The helpers a revision's actor calls: its MessageTools (key search, ack,
   * opcode classification, payload length, canned close frame), its
   * FramedWebSocketMessage.IsCompleted and its ByteStringReader.ReadAsync.
   */
  datatype AsyncTools = AsyncTools(
    secWebSocketKey: string -> string,
    createAck: string -> string,
    messageType: Bytes -> Try<StandardMessageType>,
    totalLength: Bytes -> nat,
    completed: (nat, nat) -> bool,
    read: Bytes -> Try<string>,
    closeMessage: Bytes)

  /** The Task returned by OnTextReceivedAsync: buffer an over-length chunk, or deliver what the reader reads. */
  function TextStep(tools: AsyncTools, data: Bytes): (r: Step)
    ensures r.next.Accumulating? <==> tools.totalLength(data) > |data|
    ensures r.next.Accumulating? ==>
              r == Step(Accumulating(Some(Pending(tools.totalLength(data), data))), [])
    ensures !r.next.Accumulating? ==>
              r == Step(Default, if tools.read(data).Returns? then [Deliver(tools.read(data).value)] else [GracefulStop])
  {
    var totalLength := tools.totalLength(data);
    if totalLength > |data| then Step(Accumulating(Some(Pending(totalLength, data))), [])
    else
      match tools.read(data)
      case Returns(text) => Step(Default, [Deliver(text)])
      case Throws => Step(Default, [GracefulStop])
  }

  /** OnReceivedAsync: the handshake check, then the switch, whose unlisted cases fall through. */
  function ReceivedStep(p: Platform, tools: AsyncTools, data: Bytes): (r: Step)
    ensures tools.secWebSocketKey(p.toText(data)) != "" ==>
              r == Step(Default, [Write(p.fromText(tools.createAck(tools.secWebSocketKey(p.toText(data)))))])
    ensures tools.secWebSocketKey(p.toText(data)) == "" && tools.messageType(data).Throws? ==>
              r == Step(Default, [GracefulStop])
    ensures tools.secWebSocketKey(p.toText(data)) == "" && tools.messageType(data) == Returns(Close) ==>
              r == Step(Default, [Write(tools.closeMessage)])
    ensures tools.secWebSocketKey(p.toText(data)) == "" && tools.messageType(data).Returns? ==>
              match tools.messageType(data).value
              case Text => r == TextStep(tools, data)
              case Close => true
              case _ => r == Step(Default, [])
  {
    var secWebSocketKey := tools.secWebSocketKey(p.toText(data));
    if secWebSocketKey != "" then Step(Default, [Write(p.fromText(tools.createAck(secWebSocketKey)))])
    else
      match tools.messageType(data)
      case Throws => Step(Default, [GracefulStop])
      case Returns(messageType) =>
        match messageType
        case Text => TextStep(tools, data)
        case Close => Step(Default, [Write(tools.closeMessage)])
        case _ => Step(Default, [])
  }

  /**
   * The actor's step. It never sends Tcp.Close, and only PeerClosed in the
   * default handler stops it.
   */
  function StepAsync(p: Platform, tools: AsyncTools, state: ConnectionState, message: Message): (r: Step)
    ensures TcpClose !in r.actions
    ensures r.next == Stopped <==> state == Stopped || (state == Default && message.TcpPeerClosed?)
    ensures Stop in r.actions <==> state == Default && message.TcpPeerClosed?
  {
    match state
    case Stopped => Step(Stopped, [])
    case Accumulating(buffer) => Accumulate(tools.completed, tools.read, buffer, message)
    case Default =>
      match message
      case TcpReceived(data) => ReceivedStep(p, tools, data)
      case TcpPeerClosed => Step(Stopped, [Stop])
      case Text(_) => Step(Default, [])
  }

  /** Whatever it is sent, an asynchronous actor never closes the TCP connection itself. */
  lemma {:induction false} NeverClosesTcp(p: Platform, tools: AsyncTools, state: ConnectionState, messages: seq<Message>)
    ensures TcpClose !in Run((s, m) => StepAsync(p, tools, s, m), state, messages).actions
    decreases |messages|
  {
    if |messages| > 0 {
      var first := StepAsync(p, tools, state, messages[0]);
      NeverClosesTcp(p, tools, first.next, messages[1..]);
    }
  }

  /** Mail without PeerClosed never stops an actor that is running. */
  lemma {:induction false} RunsWithoutPeerClosed(p: Platform, tools: AsyncTools, state: ConnectionState, messages: seq<Message>)
    requires state != Stopped
    requires forall i :: 0 <= i < |messages| ==> !messages[i].TcpPeerClosed?
    ensures Run((s, m) => StepAsync(p, tools, s, m), state, messages).next != Stopped
    ensures Stop !in Run((s, m) => StepAsync(p, tools, s, m), state, messages).actions
    decreases |messages|
  {
    if |messages| > 0 {
      var first := StepAsync(p, tools, state, messages[0]);
      RunsWithoutPeerClosed(p, tools, first.next, messages[1..]);
    }
  }

  /** After PeerClosed the actor emits nothing more. */
  lemma StoppedAsync(p: Platform, tools: AsyncTools, messages: seq<Message>)
    ensures Run((s, m) => StepAsync(p, tools, s, m), Stopped, messages) == Step(Stopped, [])
  {
    StoppedStaysSilent((s, m) => StepAsync(p, tools, s, m), messages);
  }

  /** A buffered Text message fed chunk by chunk is delivered once, when the buffer completes. */
  lemma AccumulationAsync(p: Platform, tools: AsyncTools, pending: Pending, chunks: seq<Bytes>)
    requires |chunks| > 0
    requires forall k :: 0 < k < |chunks| ==>
               !tools.completed(pending.totalLength, |pending.received + Flatten(chunks[..k])|)
    requires tools.completed(pending.totalLength, |pending.received + Flatten(chunks)|)
    ensures var all := pending.received + Flatten(chunks);
            Run((s, m) => StepAsync(p, tools, s, m), Accumulating(Some(pending)), Chunks(chunks))
            == Step(Default, if tools.read(all).Returns? then [Deliver(tools.read(all).value)] else [])
  {
    AccumulationDeliversOnce((s, m) => StepAsync(p, tools, s, m), tools.completed, tools.read, pending, chunks);
  }
}
