/**
 * MessageTools (src/Akka.IO.TcpTools): the frame-header codec and handshake
 * helpers. Opcode classification with reserved-bit rejection, the two payload
 * length readers (which disagree on a 7-bit field of 125), the unmasked control
 * frames and canned frames carrying close code 1000, the Sec-WebSocket-Key
 * search and the 101 Switching Protocols response (section 4.2.2 of RFC 6455).
 */
module MessageTools {
  import opened Wire
  import opened Strings
  import opened FrameHeader
  import opened StandardMessageTypes
  import opened Runtime
  import opened CloseCodes

  /** What the key regular expression looks behind for. */
  const KeyHeader: string := "Sec-WebSocket-Key:"

  /** The GUID section 1.3 of RFC 6455 appends to the key. */
  const Magic: string := "258EAFA5-E914-47DA-95CA-C5AB0DC85B11"

  /** First bytes of unfragmented (FIN) Close, Ping and Pong frames. */
  const CloseOpCode: Byte := 136
  const PingOpCode: Byte := 137
  const PongOpCode: Byte := 138

  /** The canned frames: length 2, payload 03 E8. */
  const CloseMessage: Bytes := [CloseOpCode, 2, 3, 232]
  const PingMessage: Bytes := [PingOpCode, 2, 3, 232]
  const PongMessage: Bytes := [PongOpCode, 2, 3, 232]

  /** The canned frames are FIN control frames of their kind whose payload is NormalClosure's close body. */
  lemma CannedFrames()
    ensures CloseMessage == [CloseOpCode, 2] + CloseBody(NormalClosure)
    ensures PingMessage == [PingOpCode, 2] + CloseBody(NormalClosure)
    ensures PongMessage == [PongOpCode, 2] + CloseBody(NormalClosure)
    ensures Fin(CloseOpCode) && Opcode(CloseOpCode) == Value(Close)
    ensures Fin(PingOpCode) && Opcode(PingOpCode) == Value(Ping)
    ensures Fin(PongOpCode) && Opcode(PongOpCode) == Value(Pong)
  {
    NormalClosureBody();
  }

  // ---------------------------------------------------------------- handshake

  /**
   * `(?<=Sec-WebSocket-Key:).*` then Trim: the first place the header name
   * occurs, the rest of that line, white space trimmed; "" when the name is absent.
   */
  function GetSecWebSocketKey(message: string): (key: string)
    ensures (forall j :: !OccursAt(message, KeyHeader, j)) ==> key == ""
    ensures |key| > 0 ==> !IsWhiteSpace(key[0]) && !IsWhiteSpace(key[|key| - 1])
    ensures FindFrom(message, KeyHeader, 0).Some? ==>
              (key == "" <==> AllWhiteSpace(RestOfLine(message, FindFrom(message, KeyHeader, 0).value + |KeyHeader|)))
  {
    match FindFrom(message, KeyHeader, 0)
    case None => ""
    case Some(i) => Trim(RestOfLine(message, i + |KeyHeader|))
  }

  /**
   * The key is the first header line's value, whatever white space surrounds it
   * and whether the line ends in "\r\n", "\n" or the end of the text.
   */
  lemma {:induction false} KeyFromHeaderLine(message: string, pre: string, gap: string, key: string, trail: string, post: string)
    requires message == pre + KeyHeader + gap + key + trail + post
    requires forall j :: 0 <= j < |pre| ==> !OccursAt(message, KeyHeader, j)
    requires AllWhiteSpace(gap) && AllWhiteSpace(trail) && '\n' !in gap + key + trail
    requires |key| > 0 && !IsWhiteSpace(key[0]) && !IsWhiteSpace(key[|key| - 1])
    requires post == "" || post[0] == '\n'
    ensures GetSecWebSocketKey(message) == key
  {
    var start := |pre|;
    assert message[start..start + |KeyHeader|] == KeyHeader;
    assert OccursAt(message, KeyHeader, start);
    var found := FindFrom(message, KeyHeader, 0);
    assert found == Some(start);
    assert message == (pre + KeyHeader) + (gap + key + trail) + post;
    RestOfLineIs(pre + KeyHeader, gap + key + trail, post);
    TrimSurrounded(gap, key, trail);
  }

  /** The HTTP/1.1 end-of-line. */
  const Crlf: string := "\r\n"

  const StatusLine: string := "HTTP/1.1 101 Switching Protocols"
  const UpgradeLine: string := "Upgrade: websocket"
  const ConnectionLine: string := "Connection: Upgrade"
  const AcceptPrefix: string := "Sec-WebSocket-Accept: "

  /** Each line followed by CR LF. */
  function CrlfLines(lines: seq<string>): string
  {
    if |lines| == 0 then "" else lines[0] + Crlf + CrlfLines(lines[1..])
  }

  /** The response lines of section 4.2.2 of RFC 6455 this server sends, ending with the empty line. */
  function AckLines(accept: string): seq<string>
  {
    [StatusLine, UpgradeLine, ConnectionLine, AcceptPrefix + accept, ""]
  }

  /**
   * The 101 response for a client key: four CRLF-terminated header lines, the
   * accept value being Base64(SHA-1(UTF-8(key + Magic))), then an empty line.
   * The one interpolated string of the source is written as the concatenation
   * of its parts.
   */
  function CreateAck(p: Platform, key: string): (ack: string)
    ensures ack == CrlfLines(AckLines(p.acceptDigest(key + Magic)))
  {
    var accept := p.acceptDigest(key + Magic);
    CrlfLinesOfFive(StatusLine, UpgradeLine, ConnectionLine, AcceptPrefix + accept, "");
    StatusLine + Crlf + UpgradeLine + Crlf + ConnectionLine + Crlf + AcceptPrefix + accept + Crlf + Crlf
  }

  lemma CrlfLinesOfFive(a: string, b: string, c: string, d: string, e: string)
    ensures CrlfLines([a, b, c, d, e]) == a + Crlf + b + Crlf + c + Crlf + d + Crlf + e + Crlf
  {
    assert [e][1..] == [];
    assert CrlfLines([e]) == e + Crlf;
    assert [d, e][1..] == [e];
    assert CrlfLines([d, e]) == d + Crlf + e + Crlf;
    assert [c, d, e][1..] == [d, e];
    assert CrlfLines([c, d, e]) == c + Crlf + d + Crlf + e + Crlf;
    assert [b, c, d, e][1..] == [c, d, e];
    assert CrlfLines([b, c, d, e]) == b + Crlf + c + Crlf + d + Crlf + e + Crlf;
    assert [a, b, c, d, e][1..] == [b, c, d, e];
  }

  // ---------------------------------------------------------------- opcodes

  /** The six opcodes section 5.2 of RFC 6455 names. */
  predicate NamedOpcode(op: nat)
  {
    op == 0 || op == 1 || op == 2 || op == 8 || op == 9 || op == 10
  }

  /** The switch on `messageBytes[0] & 15`. */
  function OpcodeType(op: nat): StandardMessageType
  {
    match op
    case 0 => Continuation
    case 1 => Text
    case 2 => Binary
    case 8 => Close
    case 9 => Ping
    case 10 => Pong
    case _ => Invalid
  }

  /**
   * The kind of a frame, from byte 0 alone: a named opcode with no RSV bit set
   * gives the member of that value, anything else Invalid. Reading byte 0 of an
   * empty array throws.
   */
  function GetMessageType(messageBytes: Bytes): (r: Try<StandardMessageType>)
    ensures r.Throws? <==> |messageBytes| == 0
    ensures r.Returns? ==>
              (r.value != Invalid <==> ReservedBits(messageBytes[0]) == 0 && NamedOpcode(Opcode(messageBytes[0])))
    ensures r.Returns? && r.value != Invalid ==> Value(r.value) == Opcode(messageBytes[0])
  {
    if |messageBytes| == 0 then Throws
    else
      var messageType := OpcodeType(Opcode(messageBytes[0]));
      if messageType == Invalid then Returns(messageType)
      else if ReservedBits(messageBytes[0]) != 0 then Returns(Invalid)
      else Returns(messageType)
  }

  /** Only byte 0 matters, and of it neither the FIN bit: frames that agree on its low seven bits get the same kind. */
  lemma {:induction false} MessageTypeReadsSevenBits(s: Bytes, t: Bytes)
    requires |s| > 0 && |t| > 0 && s[0] % 0x80 == t[0] % 0x80
    ensures GetMessageType(s) == GetMessageType(t)
  {
    assert Opcode(s[0]) == s[0] % 0x80 % 0x10;
    assert Opcode(t[0]) == t[0] % 0x80 % 0x10;
    assert ReservedBits(s[0]) == s[0] % 0x80 / 0x10;
    assert ReservedBits(t[0]) == t[0] % 0x80 / 0x10;
  }

  /** The kinds of the canned frames and of the single bytes the unit tests and the RFC's examples use. */
  lemma MessageTypeExamples()
    ensures GetMessageType([]) == Throws
    ensures GetMessageType([11]) == Returns(Invalid)
    ensures GetMessageType([2]) == Returns(Binary)
    ensures GetMessageType(CloseMessage) == Returns(Close)
    ensures GetMessageType(PingMessage) == Returns(Ping)
    ensures GetMessageType(PongMessage) == Returns(Pong)
    ensures GetMessageType([0x81]) == Returns(Text)
    ensures GetMessageType([0x01]) == Returns(Text)
    ensures GetMessageType([0x80]) == Returns(Continuation)
    ensures GetMessageType([0xC1]) == Returns(Invalid)
  {
  }

  // ---------------------------------------------------------------- lengths

  /**
   * GetMessageTotalLength's result: the 7-bit field (mask bit dropped) when it is
   * 1 to 124, the extended big-endian length after 126 or 127, and 0 for a field
   * of 0 or 125 and for empty input. Bytes a short input lacks read as 0.
   */
  function MessageTotalLength(s: Bytes): (n: nat)
    ensures n < U64_LIMIT
  {
    Pow256Values();
    if |s| == 0 then 0
    else
      var field := LengthField(ByteOrZero(s, 1));
      if 0 < field < 125 then field
      else if field == 126 then BigEndian(StreamBytes(s, 2, 2))
      else if field == 127 then BigEndian(StreamBytes(s, 2, 8))
      else 0
  }

  /**
   * Reads `width` bytes from the stream into a fresh zeroed array, reverses it and
   * hands it to BitConverter: the big-endian value of the next `width` bytes.
   */
  method ReadReversedLength(stream: MemoryStream, width: nat) returns (value: nat)
    requires stream.Valid() && !stream.disposed
    modifies stream`position
    ensures stream.Valid()
    ensures value == BigEndian(StreamBytes(stream.buffer, old(stream.position), width))
  {
    var from := stream.position;
    var length := new Byte[width](_ => 0);
    var n := stream.Read(length, 0, width);
    ghost var read := length[..];
    forall j | 0 <= j < width
      ensures read[j] == ByteOrZero(stream.buffer, from + j)
    {
      if j >= n {
        assert read[j] == 0;
      }
    }
    assert read == StreamBytes(stream.buffer, from, width);
    Reverse(length);
    LittleEndianOfReversed(read);
    value := LittleEndian(length[..]);
  }

  /** The stream-reading length decoder; its result is MessageTotalLength. */
  method GetMessageTotalLength(messageBytes: Bytes) returns (totalLength: nat)
    ensures totalLength == MessageTotalLength(messageBytes)
  {
    if |messageBytes| == 0 {
      return 0;
    }
    var messageStream := new MemoryStream.Over(messageBytes);
    messageStream.Seek(0);
    var packets := new Byte[2](_ => 0);
    var n := messageStream.Read(packets, 0, 2);
    assert packets[1] == ByteOrZero(messageBytes, 1);
    var masked := MaskBit(packets[1]);
    var pseudoLength := packets[1] - (if masked then 128 else 0);
    assert pseudoLength == LengthField(ByteOrZero(messageBytes, 1));
    totalLength := 0;
    if 0 < pseudoLength < 125 {
      totalLength := pseudoLength;
    } else if pseudoLength == 126 {
      totalLength := ReadReversedLength(messageStream, 2);
    } else if pseudoLength == 127 {
      totalLength := ReadReversedLength(messageStream, 8);
    }
  }

  /**
   * The indexing length decoder: 0 for empty input, else the 7-bit field, with
   * 126 and 127 replaced by the extended length; throws when byte 1 or the
   * extended bytes are missing.
   */
  function GetMessageTotalLengthV2(messageBytes: Bytes): (r: Try<nat>)
    ensures |messageBytes| == 0 ==> r == Returns(0)
    ensures |messageBytes| > 0 ==> (r.Returns? <==> ParseHeader(messageBytes).Returns?)
    ensures |messageBytes| > 0 && r.Returns? ==> r.value == ParseHeader(messageBytes).value.length
  {
    if |messageBytes| == 0 then Returns(0)
    else if |messageBytes| < 2 then Throws
    else
      var messageLength := LengthField(messageBytes[1]);
      if messageLength == 126 then
        if |messageBytes| < 4 then Throws
        else Returns(LittleEndian([messageBytes[3], messageBytes[2]]))
      else if messageLength == 127 then
        if |messageBytes| < 10 then Throws
        else Returns(LittleEndian([messageBytes[9], messageBytes[8], messageBytes[7], messageBytes[6],
                                   messageBytes[5], messageBytes[4], messageBytes[3], messageBytes[2]]))
      else Returns(messageLength)
  }

  /** Wherever the header is complete, GetMessageTotalLength is the declared payload length except that 125 reads as 0. */
  lemma TotalLengthOfHeader(s: Bytes)
    requires ParseHeader(s).Returns?
    ensures MessageTotalLength(s) == if LengthField(s[1]) == 125 then 0 else ParseHeader(s).value.length
  {
    if LengthField(s[1]) == 126 {
      StreamBytesInside(s, 2, 2);
    } else if LengthField(s[1]) == 127 {
      StreamBytesInside(s, 2, 8);
    }
  }

  /** The two decoders agree wherever the second returns, except on a 7-bit field of 125. */
  lemma TotalLengthVersions(s: Bytes)
    requires GetMessageTotalLengthV2(s).Returns?
    ensures MessageTotalLength(s) == if |s| > 0 && LengthField(s[1]) == 125 then 0 else GetMessageTotalLengthV2(s).value
  {
    if |s| > 0 {
      TotalLengthOfHeader(s);
    }
  }

  /** On a frame laid out as section 5.2 of RFC 6455 prescribes, GetMessageTotalLength is the payload length, except 0 for 125 bytes. */
  lemma TotalLengthOfEncodedFrame(b0: Byte, payload: Bytes, key: Option<Bytes>)
    requires |payload| < U64_LIMIT
    requires key.Some? ==> |key.value| == 4
    ensures MessageTotalLength(EncodeFrame(b0, payload, key)) == if |payload| == 125 then 0 else |payload|
    ensures GetMessageTotalLengthV2(EncodeFrame(b0, payload, key)) == Returns(|payload|)
  {
    var frame := EncodeFrame(b0, payload, key);
    ParseEncodedFrame(b0, payload, key);
    TotalLengthOfHeader(frame);
    assert LengthField(frame[1]) == LengthCode(|payload|);
  }

  /**
   * Where the decoders part: a header declaring 125 bytes reads as 0 then 125;
   * and a 7-byte ping carrying "Hello" has V2 length 5, the payload, not the 7
   * bytes of the frame.
   */
  lemma TotalLengthExamples()
    ensures MessageTotalLength([0x81, 125]) == 0
    ensures GetMessageTotalLengthV2([0x81, 125]) == Returns(125)
    ensures GetMessageTotalLengthV2([PingOpCode, 5, 0x48, 0x65, 0x6c, 0x6c, 0x6f]) == Returns(5)
    ensures GetMessageTotalLengthV2([0x81]) == Throws
    ensures MessageTotalLength([0x81]) == 0
  {
  }

  // ---------------------------------------------------------------- building frames

  /** An unmasked frame with first byte `opCode`, a length byte capped at 125, then the whole payload. */
  function ControlFrame(opCode: Byte, payload: Bytes): (frame: Bytes)
    ensures |frame| == |payload| + 2 && frame[2..] == payload
    ensures frame[0] == opCode && frame[1] == Min(|payload|, 125)
  {
    [opCode, Min(|payload|, 125)] + payload
  }

  /** Up to 125 bytes, the built frame is the RFC's unmasked encoding; longer payloads still say 125. */
  lemma ControlFrameEncoding(opCode: Byte, payload: Bytes)
    ensures |payload| <= 125 ==> ControlFrame(opCode, payload) == EncodeFrame(opCode, payload, None)
    ensures |payload| > 125 ==> LengthField(ControlFrame(opCode, payload)[1]) == 125
  {
  }

  /** The built frames classify as the kind of their opcode. */
  lemma ControlFrameTypes(payload: Bytes)
    ensures GetMessageType(ControlFrame(CloseOpCode, payload)) == Returns(Close)
    ensures GetMessageType(ControlFrame(PingOpCode, payload)) == Returns(Ping)
    ensures GetMessageType(ControlFrame(PongOpCode, payload)) == Returns(Pong)
  {
  }

  /**
   * An array of n+2 zero bytes, filled, when unmasked, with the opcode byte,
   * the capped length and a copy of the payload from index 2. The masked branch
   * is unwritten and leaves the zeros.
   */
  method FabricateMessage(bytes: Bytes, opCode: Byte, unmasked: bool) returns (r: Bytes)
    ensures unmasked ==> r == ControlFrame(opCode, bytes)
    ensures !unmasked ==> |r| == |bytes| + 2 && forall i :: 0 <= i < |r| ==> r[i] == 0
  {
    var result := new Byte[|bytes| + 2](_ => 0);
    if unmasked {
      result[0] := opCode;
      result[1] := if |bytes| > 125 then 125 else |bytes|;
      var i := 0;
      while i < |bytes|
        invariant 0 <= i <= |bytes|
        invariant result[0] == opCode && result[1] == Min(|bytes|, 125)
        invariant forall j :: 2 <= j < i + 2 ==> result[j] == bytes[j - 2]
      {
        result[i + 2] := bytes[i];
        i := i + 1;
      }
    }
    r := result[..];
  }

  /** A Close frame carrying the encoded text. */
  method CreateCloseMessage(p: Platform, payload: string, encoding: Option<Encoding>) returns (r: Bytes)
    ensures r == ControlFrame(CloseOpCode, EncodingOrUtf8(p, encoding).getBytes(payload))
  {
    var bytes := EncodingOrUtf8(p, encoding).getBytes(payload);
    r := FabricateMessage(bytes, CloseOpCode, true);
  }

  /** A Ping frame carrying the encoded text. */
  method CreatePingMessage(p: Platform, payload: string, encoding: Option<Encoding>) returns (r: Bytes)
    ensures r == ControlFrame(PingOpCode, EncodingOrUtf8(p, encoding).getBytes(payload))
  {
    var bytes := EncodingOrUtf8(p, encoding).getBytes(payload);
    r := FabricateMessage(bytes, PingOpCode, true);
  }

  /** A Pong frame carrying the encoded text. */
  method CreatePongMessage(p: Platform, payload: string, encoding: Option<Encoding>) returns (r: Bytes)
    ensures r == ControlFrame(PongOpCode, EncodingOrUtf8(p, encoding).getBytes(payload))
  {
    var bytes := EncodingOrUtf8(p, encoding).getBytes(payload);
    r := FabricateMessage(bytes, PongOpCode, true);
  }
}
