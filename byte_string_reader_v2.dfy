/**
 * ByteStringReaderV2 (Akka.IO.TcpTools): the text of one received frame. The
 * header walk and the masked branch are those of WebSocketMessageDecoder; the
 * unmasked branch decodes every byte from index 2, whatever the length of the
 * header, so a 16- or 64-bit length field is decoded as part of the text.
 * A ByteString and a byte[] are both `Bytes` here (`ToArray()` copies the
 * same bytes), so the four overloads are two.
 */
module ByteStringReaderV2 {
  import opened Wire
  import opened FrameHeader
  import D = WebSocketMessageDecoder
  import M = MessageTools
  import Runtime

  /** Read(byte[], Encoding) as a value. */
  function ReadText(receivedBytes: Bytes, encoding: Encoding): (r: Try<string>)
    ensures |receivedBytes| == 0 ==> r == Returns("")
    ensures 0 < |receivedBytes| && ParseHeader(receivedBytes).Throws? ==> r.Throws?
    ensures ParseHeader(receivedBytes).Returns? && ParseHeader(receivedBytes).value.length == 0 ==> r == Returns("")
    ensures ParseHeader(receivedBytes).Returns? && ParseHeader(receivedBytes).value.length > 0 && !MaskBit(receivedBytes[1]) ==>
              r == Returns(encoding.getString(receivedBytes[2..]))
  {
    if |receivedBytes| == 0 then Returns("")
    else
      match ParseHeader(receivedBytes)
      case Throws => Throws
      case Returns(h) =>
        if h.length == 0 then Returns("")
        else if !h.masked then Returns(encoding.getString(receivedBytes[2..]))
        else
          match D.Payload(receivedBytes, true, h.length, h.offset)
          case Throws => Throws
          case Returns(decodedBytes) => Returns(encoding.getString(decodedBytes))
  }

  /** Read(byte[], Encoding): the header walk, the two short cuts, then the unmasking loop and GetString. */
  method Read(receivedBytes: Bytes, encoding: Encoding) returns (r: Try<string>)
    ensures r == ReadText(receivedBytes, encoding)
  {
    if |receivedBytes| == 0 {
      return Returns("");
    }
    var header := ParseHeader(receivedBytes);
    if header.Throws? {
      return Throws;
    }
    var offset, messageLength := header.value.offset, header.value.length;
    if messageLength == 0 {
      return Returns("");
    }
    if !header.value.masked {
      return Returns(encoding.getString(receivedBytes[2..]));
    }
    var decodedBytes := D.Unmask(receivedBytes, messageLength, offset);
    if decodedBytes.Throws? {
      return Throws;
    }
    var text := encoding.getString(decodedBytes.value);
    return Returns(text);
  }

  /** Read(byte[]) and Read(ByteString): the same with UTF-8. */
  method ReadUtf8(p: Platform, receivedBytes: Bytes) returns (r: Try<string>)
    ensures r == ReadText(receivedBytes, p.utf8)
  {
    r := Read(receivedBytes, p.utf8);
  }

  /** On a masked frame the reader decodes exactly the bytes the decoder returns, and throws exactly when it throws. */
  lemma MaskedAgreesWithDecoder(receivedBytes: Bytes, encoding: Encoding)
    requires ParseHeader(receivedBytes).Returns? && MaskBit(receivedBytes[1])
    requires ParseHeader(receivedBytes).value.length > 0
    ensures ReadText(receivedBytes, encoding).Throws? <==> D.DecodedBytes(receivedBytes).Throws?
    ensures D.DecodedBytes(receivedBytes).Returns? ==>
              ReadText(receivedBytes, encoding) == Returns(encoding.getString(D.DecodedBytes(receivedBytes).value))
  {
  }

  /**
   * On an unmasked frame the reader decodes the extended length bytes followed
   * by what the decoder returns: the two agree only for a 7-bit length.
   */
  lemma UnmaskedIncludesExtendedLength(receivedBytes: Bytes, encoding: Encoding)
    requires ParseHeader(receivedBytes).Returns? && !MaskBit(receivedBytes[1])
    requires ParseHeader(receivedBytes).value.length > 0
    ensures D.DecodedBytes(receivedBytes).Returns?
    ensures ReadText(receivedBytes, encoding)
         == Returns(encoding.getString(receivedBytes[2..ParseHeader(receivedBytes).value.offset]
                                       + D.DecodedBytes(receivedBytes).value))
  {
    var offset := ParseHeader(receivedBytes).value.offset;
    assert receivedBytes[2..] == receivedBytes[2..offset] + receivedBytes[offset..];
  }

  /** A 16-bit length read by the reader: the length bytes 00 01 come out in front of the one payload byte. */
  lemma SixteenBitUnmaskedExample(encoding: Encoding)
    ensures ReadText([0x81, 126, 0, 1, 0x41], encoding) == Returns(encoding.getString([0, 1, 0x41]))
    ensures D.DecodedBytes([0x81, 126, 0, 1, 0x41]) == Returns([0x41])
  {
    var s: Bytes := [0x81, 126, 0, 1, 0x41];
    assert s[2..4] == [0, 1];
    assert BigEndian([0, 1]) == 1;
    assert ParseHeader(s) == Returns(Header(false, 1, 4));
    assert s[2..] == [0, 1, 0x41];
    assert s[4..] == [0x41];
  }

  /** Reading a frame built by FabricateMessage gives back the decoded payload, or "" for an empty one. */
  lemma ReadControlFrame(opCode: Byte, payload: Bytes, encoding: Encoding)
    ensures ReadText(M.ControlFrame(opCode, payload), encoding)
         == Returns(if |payload| == 0 then "" else encoding.getString(payload))
  {
    var frame := M.ControlFrame(opCode, payload);
    assert frame[1] == Runtime.Min(|payload|, 125);
    assert ParseHeader(frame) == Returns(Header(false, Runtime.Min(|payload|, 125), 2));
  }

  /** A ping built from a text reads back as that text, when the encoding round-trips it. */
  lemma ReadPingMessage(p: Platform, text: string)
    requires p.utf8.getString(p.utf8.getBytes(text)) == text
    requires p.utf8.getBytes(text) == [] <==> text == ""
    ensures ReadText(M.ControlFrame(M.PingOpCode, p.utf8.getBytes(text)), p.utf8) == Returns(text)
  {
    ReadControlFrame(M.PingOpCode, p.utf8.getBytes(text), p.utf8);
  }
}
