/**
 * WebSocketStreamActorBase.OnReceived (Akka.IO.TcpTools): the stream actor's
 * reply to each TCP chunk. A chunk carrying a handshake key is answered with
 * the ack; any other chunk joins the fragment queue. A chunk of at least 512
 * bytes stays queued and is answered with an empty pong; a shorter
 * one empties the queue and the concatenation of everything queued is handled
 * as one frame: Binary gives back its payload, Text an empty pong, Ping a pong
 * and Pong a ping carrying the payload, Close a close frame with code 1000, and
 * anything else nothing. An exception gives nothing and asks for a graceful stop.
 */
module StreamActor {
  import opened Wire
  import opened StandardMessageTypes
  import opened FrameHeader
  import M = MessageTools
  import D = WebSocketMessageDecoder
  import CC = CloseCodes

  const BufferSize: nat := 512

  /** MessageTools.CreateMessage(bytes, opCode, isFinal) and CreateCloseMessage(int), which this model does not include. */
  datatype StreamTools = StreamTools(createMessage: (Bytes, Byte, bool) -> Bytes, createCloseMessage: int -> Bytes)

  /** The reply to one chunk, and whether Self.GracefulStop was requested. */
  datatype Reply = Reply(bytes: Bytes, gracefulStop: bool)

  /** The reply, and the fragment queue afterwards. */
  datatype StreamStep = StreamStep(reply: Reply, fragments: seq<Bytes>)

  /** `CreateMessage(new byte[0], PongOpCode, false)`. */
  function EmptyPong(tools: StreamTools): Bytes
  {
    tools.createMessage([], M.PongOpCode, false)
  }

  /**
   * The switch on a reassembled frame and the On*Received reply builders.
   * Decoding a frame cut short throws, so nothing is replied and a graceful
   * stop is requested; the unlisted kinds fall through to ByteString.Empty.
   */
  function Dispatch(p: Platform, tools: StreamTools, raw: Bytes): (r: Reply)
    ensures r.gracefulStop ==> r.bytes == []
    ensures M.GetMessageType(raw) == Returns(Close) ==> r == Reply(tools.createCloseMessage(1000), false)
    ensures M.GetMessageType(raw) == Returns(Continuation) || M.GetMessageType(raw) == Returns(Invalid) ==>
              r == Reply([], false)
  {
    match M.GetMessageType(raw)
    case Throws => Reply([], true)
    case Returns(messageType) =>
      match messageType
      case Binary =>
        (match D.DecodedBytes(raw)
         case Throws => Reply([], true)
         case Returns(message) => Reply(message, false))
      case Text =>
        (match D.DecodeAsString(p, raw, None)
         case Throws => Reply([], true)
         case Returns(_) => Reply(EmptyPong(tools), false))
      case Ping =>
        (match D.DecodedBytes(raw)
         case Throws => Reply([], true)
         case Returns(decoded) => Reply(tools.createMessage(decoded, M.PongOpCode, true), false))
      case Pong =>
        (match D.DecodedBytes(raw)
         case Throws => Reply([], true)
         case Returns(decoded) => Reply(tools.createMessage(decoded, M.PingOpCode, true), false))
      case Close => Reply(tools.createCloseMessage(CC.Code(CC.NormalClosure)), false)
      case _ => Reply([], false)
  }

  /** What each kind of frame is answered with, and when a graceful stop is requested. */
  lemma DispatchReplies(p: Platform, tools: StreamTools, raw: Bytes)
    ensures Dispatch(p, tools, raw).gracefulStop ==> Dispatch(p, tools, raw).bytes == []
    ensures Dispatch(p, tools, raw).gracefulStop <==>
              |raw| == 0 ||
              (M.GetMessageType(raw).value in {Binary, Text, Ping, Pong} && D.DecodedBytes(raw).Throws?)
    ensures M.GetMessageType(raw) == Returns(Binary) && D.DecodedBytes(raw).Returns? ==>
              Dispatch(p, tools, raw).bytes == D.DecodedBytes(raw).value
    ensures M.GetMessageType(raw) == Returns(Text) && D.DecodedBytes(raw).Returns? ==> Dispatch(p, tools, raw).bytes == EmptyPong(tools)
    ensures M.GetMessageType(raw) == Returns(Ping) && D.DecodedBytes(raw).Returns? ==>
              Dispatch(p, tools, raw).bytes == tools.createMessage(D.DecodedBytes(raw).value, M.PongOpCode, true)
    ensures M.GetMessageType(raw) == Returns(Pong) && D.DecodedBytes(raw).Returns? ==>
              Dispatch(p, tools, raw).bytes == tools.createMessage(D.DecodedBytes(raw).value, M.PingOpCode, true)
    ensures M.GetMessageType(raw) == Returns(Close) ==> Dispatch(p, tools, raw) == Reply(tools.createCloseMessage(1000), false)
    ensures M.GetMessageType(raw) == Returns(Continuation) || M.GetMessageType(raw) == Returns(Invalid) ==>
              Dispatch(p, tools, raw) == Reply([], false)
  {
  }

  /** OnReceived on a queue holding `fragments`. */
  function OnReceivedStep(p: Platform, tools: StreamTools, fragments: seq<Bytes>, data: Bytes): (r: StreamStep)
    ensures M.GetSecWebSocketKey(p.toText(data)) != "" ==>
              r == StreamStep(Reply(p.fromText(M.CreateAck(p, M.GetSecWebSocketKey(p.toText(data)))), false), fragments)
    ensures M.GetSecWebSocketKey(p.toText(data)) == "" && |data| >= BufferSize ==>
              r == StreamStep(Reply(EmptyPong(tools), false), fragments + [data])
    ensures M.GetSecWebSocketKey(p.toText(data)) == "" && |data| < BufferSize ==>
              r == StreamStep(Dispatch(p, tools, Flatten(fragments + [data])), [])
  {
    var secWebSocketKey := M.GetSecWebSocketKey(p.toText(data));
    if secWebSocketKey != "" then
      StreamStep(Reply(p.fromText(M.CreateAck(p, secWebSocketKey)), false), fragments)
    else if |data| >= BufferSize then
      StreamStep(Reply(EmptyPong(tools), false), fragments + [data])
    else
      StreamStep(Dispatch(p, tools, Flatten(fragments + [data])), [])
  }

  /** The replies to a sequence of chunks, and the queue left at the end. */
  datatype Fed = Fed(replies: seq<Reply>, fragments: seq<Bytes>)

  function Feed(p: Platform, tools: StreamTools, fragments: seq<Bytes>, chunks: seq<Bytes>): (r: Fed)
    ensures |r.replies| == |chunks|
    decreases |chunks|
  {
    if |chunks| == 0 then Fed([], fragments)
    else
      var first := OnReceivedStep(p, tools, fragments, chunks[0]);
      var rest := Feed(p, tools, first.fragments, chunks[1..]);
      Fed([first.reply] + rest.replies, rest.fragments)
  }

  /**
   * Chunks of at least 512 bytes followed by a shorter one, none carrying a
   * handshake key: each long chunk is answered with the empty pong, and the
   * short one with the reply to everything queued, concatenated in arrival
   * order; the queue ends empty.
   */
  lemma {:induction false} FragmentsReassembled(p: Platform, tools: StreamTools, fragments: seq<Bytes>, chunks: seq<Bytes>)
    requires |chunks| > 0
    requires forall i :: 0 <= i < |chunks| ==> M.GetSecWebSocketKey(p.toText(chunks[i])) == ""
    requires forall i :: 0 <= i < |chunks| - 1 ==> |chunks[i]| >= BufferSize
    requires |chunks[|chunks| - 1]| < BufferSize
    ensures Feed(p, tools, fragments, chunks).fragments == []
    ensures forall i :: 0 <= i < |chunks| - 1 ==> Feed(p, tools, fragments, chunks).replies[i] == Reply(EmptyPong(tools), false)
    ensures Feed(p, tools, fragments, chunks).replies[|chunks| - 1] == Dispatch(p, tools, Flatten(fragments + chunks))
    decreases |chunks|
  {
    if |chunks| == 1 {
      LastChunk(p, tools, fragments, chunks);
    } else {
      var queue := fragments + [chunks[0]];
      var tail := chunks[1..];
      LongChunk(p, tools, fragments, chunks);
      FragmentsReassembled(p, tools, queue, tail);
      Regroup(fragments, chunks);
    }
  }

  lemma Regroup(fragments: seq<Bytes>, chunks: seq<Bytes>)
    requires |chunks| > 0
    ensures fragments + [chunks[0]] + chunks[1..] == fragments + chunks
  {
    assert [chunks[0]] + chunks[1..] == chunks;
  }

  /** The short chunk that ends a run: everything queued is dispatched and the queue emptied. */
  lemma LastChunk(p: Platform, tools: StreamTools, fragments: seq<Bytes>, chunks: seq<Bytes>)
    requires |chunks| == 1 && M.GetSecWebSocketKey(p.toText(chunks[0])) == "" && |chunks[0]| < BufferSize
    ensures Feed(p, tools, fragments, chunks) == Fed([Dispatch(p, tools, Flatten(fragments + chunks))], [])
  {
    assert fragments + [chunks[0]] == fragments + chunks;
    assert chunks[1..] == [];
  }

  /** A long chunk is queued and answered with the empty pong; the rest of the run carries on from the longer queue. */
  lemma LongChunk(p: Platform, tools: StreamTools, fragments: seq<Bytes>, chunks: seq<Bytes>)
    requires |chunks| > 1
    requires forall i :: 0 <= i < |chunks| ==> M.GetSecWebSocketKey(p.toText(chunks[i])) == ""
    requires forall i :: 0 <= i < |chunks| - 1 ==> |chunks[i]| >= BufferSize
    ensures forall i :: 0 <= i < |chunks[1..]| ==> M.GetSecWebSocketKey(p.toText(chunks[1..][i])) == ""
    ensures forall i :: 0 <= i < |chunks[1..]| - 1 ==> |chunks[1..][i]| >= BufferSize
    ensures Feed(p, tools, fragments, chunks)
         == Fed([Reply(EmptyPong(tools), false)] + Feed(p, tools, fragments + [chunks[0]], chunks[1..]).replies,
                Feed(p, tools, fragments + [chunks[0]], chunks[1..]).fragments)
  {
    assert OnReceivedStep(p, tools, fragments, chunks[0]) == StreamStep(Reply(EmptyPong(tools), false), fragments + [chunks[0]]);
  }

  /** A small Binary frame arriving with an empty queue is answered with its payload. */
  lemma BinaryEchoed(p: Platform, tools: StreamTools, payload: Bytes, key: Option<Bytes>)
    requires |payload| < U64_LIMIT && (key.Some? ==> |key.value| == 4)
    requires |EncodeFrame(0x82, payload, key)| < BufferSize
    requires M.GetSecWebSocketKey(p.toText(EncodeFrame(0x82, payload, key))) == ""
    ensures OnReceivedStep(p, tools, [], EncodeFrame(0x82, payload, key)) == StreamStep(Reply(payload, false), [])
  {
    var frame := EncodeFrame(0x82, payload, key);
    FlattenSingle([] + [frame]);
    assert frame[0] == 0x82;
    assert M.GetMessageType(frame) == Returns(Binary);
    D.DecodeEncodedFrame(0x82, payload, key);
    DispatchReplies(p, tools, frame);
  }

  lemma FlattenSingle(queue: seq<Bytes>)
    requires |queue| == 1
    ensures Flatten(queue) == queue[0]
  {
    assert queue[..0] == [];
  }

  /** A Ping frame is answered with a final, unmasked Pong carrying its payload. */
  lemma PingAnswered(p: Platform, tools: StreamTools, payload: Bytes, key: Option<Bytes>)
    requires |payload| < U64_LIMIT && (key.Some? ==> |key.value| == 4)
    ensures Dispatch(p, tools, EncodeFrame(M.PingOpCode, payload, key))
         == Reply(tools.createMessage(payload, M.PongOpCode, true), false)
  {
    D.DecodeEncodedFrame(M.PingOpCode, payload, key);
  }

  /** The stream actor, holding its fragment queue. */
  class WebSocketStreamActor {
    const p: Platform
    const tools: StreamTools
    var fragments: seq<Bytes>

    constructor(p: Platform, tools: StreamTools)
      ensures this.p == p && this.tools == tools && fragments == []
    {
      this.p := p;
      this.tools := tools;
      fragments := [];
    }

    method OnReceived(data: Bytes) returns (reply: Bytes, gracefulStop: bool)
      modifies this
      ensures StreamStep(Reply(reply, gracefulStop), fragments) == OnReceivedStep(p, tools, old(fragments), data)
    {
      var secWebSocketKey := M.GetSecWebSocketKey(p.toText(data));
      if secWebSocketKey != "" {
        return p.fromText(M.CreateAck(p, secWebSocketKey)), false;
      }
      var rawMessage := data;
      fragments := fragments + [rawMessage];
      if |rawMessage| >= BufferSize {
        return EmptyPong(tools), false;
      }
      ghost var queue := fragments;
      assert OnReceivedStep(p, tools, old(fragments), data) == StreamStep(Dispatch(p, tools, Flatten(queue)), []);
      if |fragments| > 1 {
        rawMessage := Flatten(fragments);
        fragments := [];
      } else {
        FlattenSingle(fragments);
        fragments := [];
      }
      reply, gracefulStop := DispatchFrame(rawMessage);
    }

    method DispatchFrame(rawMessage: Bytes) returns (reply: Bytes, gracefulStop: bool)
      ensures Reply(reply, gracefulStop) == Dispatch(p, tools, rawMessage)
    {
      var messageType := M.GetMessageType(rawMessage);
      if messageType.Throws? {
        return [], true;
      }
      match messageType.value
      case Binary =>
        var message := D.DecodeAsBytes(rawMessage);
        if message.Throws? {
          return [], true;
        }
        return message.value, false;
      case Text =>
        var pong := EmptyPong(tools);
        var message := D.DecodeAsString(p, rawMessage, None);
        if message.Throws? {
          return [], true;
        }
        return pong, false;
      case Ping =>
        var decoded := D.DecodeAsBytes(rawMessage);
        if decoded.Throws? {
          return [], true;
        }
        return tools.createMessage(decoded.value, M.PongOpCode, true), false;
      case Pong =>
        var decoded := D.DecodeAsBytes(rawMessage);
        if decoded.Throws? {
          return [], true;
        }
        return tools.createMessage(decoded.value, M.PingOpCode, true), false;
      case Close =>
        return tools.createCloseMessage(CC.Code(CC.NormalClosure)), false;
      case _ =>
        return [], false;
    }
  }
}
