/**
 * The older MessageTools (Akka.IO.TcpTools, used by the older connection actor):
 * a capture-group key search that insists on one space after the colon, the
 * stream length reader without an empty-input guard, a StringBuilder-built
 * handshake response, and the same opcode classification and canned frames.
 */
module LegacyMessageTools {
  import opened Wire
  import opened Strings
  import opened FrameHeader
  import opened Runtime
  import opened LegacyMessageTypes
  import S = StandardMessageTypes
  import M = MessageTools

  /** The literal part of `Sec-WebSocket-Key: (.*)`. */
  const KeyPattern: string := "Sec-WebSocket-Key: "

  const CloseMessage: Bytes := [136, 2, 3, 232]
  const PingMessage: Bytes := [137, 2, 3, 232]
  const PongMessage: Bytes := [138, 2, 3, 232]

  /** The older canned frames are byte for byte the newer ones. */
  lemma CannedFramesAgree()
    ensures CloseMessage == M.CloseMessage && PingMessage == M.PingMessage && PongMessage == M.PongMessage
  {
  }

  /** Group 1 of the first match, trimmed: the rest of the line after the first "Sec-WebSocket-Key: ", or "". */
  function GetSecWebSocketKey(message: string): (key: string)
    ensures (forall j :: !OccursAt(message, KeyPattern, j)) ==> key == ""
    ensures |key| > 0 ==> !IsWhiteSpace(key[0]) && !IsWhiteSpace(key[|key| - 1])
    ensures FindFrom(message, KeyPattern, 0).Some? ==>
              (key == "" <==> AllWhiteSpace(RestOfLine(message, FindFrom(message, KeyPattern, 0).value + |KeyPattern|)))
  {
    match FindFrom(message, KeyPattern, 0)
    case None => ""
    case Some(i) => Trim(RestOfLine(message, i + |KeyPattern|))
  }

  /** After the one required space, further white space around the value is trimmed as in the newer search. */
  lemma {:induction false} KeyFromHeaderLine(message: string, pre: string, gap: string, key: string, trail: string, post: string)
    requires message == pre + KeyPattern + gap + key + trail + post
    requires forall j :: 0 <= j < |pre| ==> !OccursAt(message, KeyPattern, j)
    requires AllWhiteSpace(gap) && AllWhiteSpace(trail) && '\n' !in gap + key + trail
    requires |key| > 0 && !IsWhiteSpace(key[0]) && !IsWhiteSpace(key[|key| - 1])
    requires post == "" || post[0] == '\n'
    ensures GetSecWebSocketKey(message) == key
  {
    var start := |pre|;
    assert message[start..start + |KeyPattern|] == KeyPattern;
    assert OccursAt(message, KeyPattern, start);
    assert FindFrom(message, KeyPattern, 0) == Some(start);
    assert message == (pre + KeyPattern) + (gap + key + trail) + post;
    RestOfLineIs(pre + KeyPattern, gap + key + trail, post);
    TrimSurrounded(gap, key, trail);
  }

  /** The revisions part on a header with no space after the colon: the newer finds the key, the older finds nothing. */
  lemma KeySearchesDiverge()
    ensures M.GetSecWebSocketKey(M.KeyHeader + "abc") == "abc"
    ensures GetSecWebSocketKey(M.KeyHeader + "abc") == ""
  {
    var message := M.KeyHeader + "abc";
    assert message == "" + M.KeyHeader + "" + "abc" + "" + "";
    M.KeyFromHeaderLine(message, "", "", "abc", "", "");
    NoSpacedHeader(message);
  }

  /** "Sec-WebSocket-Key:abc" has no "Sec-WebSocket-Key: " in it. */
  lemma NoSpacedHeader(message: string)
    requires message == M.KeyHeader + "abc"
    ensures forall j :: !OccursAt(message, KeyPattern, j)
  {
    forall j: nat | j + |KeyPattern| <= |message|
      ensures !OccursAt(message, KeyPattern, j)
    {
      var window := message[j..j + |KeyPattern|];
      if j == 0 {
        assert window[18] == message[18] == 'a';
      } else {
        assert window[0] == message[j] != 'S';
      }
    }
  }

  /** The same switch on `messageBytes[0] & 15` and RSV test, over the older enum. */
  function GetMessageType(messageBytes: Bytes): (r: Try<LegacyMessageType>)
    ensures r.Throws? <==> M.GetMessageType(messageBytes).Throws?
    ensures r.Returns? ==> ToStandard(r.value) == M.GetMessageType(messageBytes).value
  {
    if |messageBytes| == 0 then Throws
    else
      var messageType := match Opcode(messageBytes[0])
        case 0 => Continuation
        case 1 => Text
        case 2 => Binary
        case 8 => Close
        case 9 => Ping
        case 10 => Pong
        case _ => Invalid;
      if messageType == Invalid then Returns(messageType)
      else if ReservedBits(messageBytes[0]) != 0 then Returns(Invalid)
      else Returns(messageType)
  }

  /** Without the empty-input guard, an empty array still gives 0: the two-byte read leaves zeros. */
  method GetMessageTotalLength(messageBytes: Bytes) returns (totalLength: nat)
    ensures totalLength == M.MessageTotalLength(messageBytes)
  {
    var messageStream := new MemoryStream.Over(messageBytes);
    messageStream.Seek(0);
    var packets := new Byte[2](_ => 0);
    var n := messageStream.Read(packets, 0, 2);
    assert packets[1] == ByteOrZero(messageBytes, 1);
    var masked := MaskBit(packets[1]);
    var pseudoLength := packets[1] - (if masked then 128 else 0);
    assert pseudoLength == LengthField(ByteOrZero(messageBytes, 1));
    totalLength := 0;
    if 0 < pseudoLength < 125 {
      totalLength := pseudoLength;
    } else if pseudoLength == 126 {
      totalLength := M.ReadReversedLength(messageStream, 2);
    } else if pseudoLength == 127 {
      totalLength := M.ReadReversedLength(messageStream, 8);
    }
  }

  /** The StringBuilder response: line, eol, line, eol, line, eol, accept line, eol, eol; the same text as the newer one. */
  method CreateAck(p: Platform, key: string) returns (ack: string)
    ensures ack == M.CrlfLines(M.AckLines(p.acceptDigest(key + M.Magic)))
  {
    var eol := "\r\n";
    var keyWithMagicBase64 := p.acceptDigest(key + M.Magic);
    var ackBuilder := "HTTP/1.1 101 Switching Protocols";
    ackBuilder := ackBuilder + eol;
    ackBuilder := ackBuilder + "Upgrade: websocket";
    ackBuilder := ackBuilder + eol;
    ackBuilder := ackBuilder + "Connection: Upgrade";
    ackBuilder := ackBuilder + eol;
    ackBuilder := ackBuilder + ("Sec-WebSocket-Accept: " + keyWithMagicBase64);
    ackBuilder := ackBuilder + eol;
    ackBuilder := ackBuilder + eol;
    M.CrlfLinesOfFive(M.StatusLine, M.UpgradeLine, M.ConnectionLine, M.AcceptPrefix + keyWithMagicBase64, "");
    ack := ackBuilder;
  }
}
