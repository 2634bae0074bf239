/**
 * WebSocketMessageDecoder of the Akka.IO.TcpTools.Standard package: the same
 * header walk and unmasking loop, except that the MASK bit comes from the
 * package's `IsMasked()` extension method, which is not part of this model and
 * is therefore a parameter, and that the masked branch first copies the input
 * with `ToArray()`.
 */
module StandardWebSocketMessageDecoder {
  import opened Wire
  import opened FrameHeader
  import D = WebSocketMessageDecoder

  /** DecodeAsBytes as a value, with `isMasked` standing for `message.IsMasked()`. */
  function DecodedBytes(isMasked: Bytes -> bool, message: Bytes): (r: Try<Bytes>)
    ensures |message| == 0 ==> r == Returns([])
    ensures 0 < |message| && ParseHeader(message).Throws? ==> r.Throws?
    ensures ParseHeader(message).Returns? && ParseHeader(message).value.length == 0 ==> r == Returns([])
    ensures ParseHeader(message).Returns? && ParseHeader(message).value.length > 0 && !isMasked(message) ==>
              r == Returns(message[ParseHeader(message).value.offset..])
  {
    if |message| == 0 then Returns([])
    else
      match ParseHeader(message)
      case Throws => Throws
      case Returns(h) => D.Payload(message, isMasked(message), h.length, h.offset)
  }

  /** DecodeAsBytes: the header walk, the two short cuts, the `ToArray()` copy, then the unmasking loop. */
  method DecodeAsBytes(isMasked: Bytes -> bool, message: Bytes) returns (r: Try<Bytes>)
    ensures r == DecodedBytes(isMasked, message)
  {
    if |message| == 0 {
      return Returns([]);
    }
    var masked := isMasked(message);
    var header := ParseHeader(message);
    if header.Throws? {
      return Throws;
    }
    var offset, messageLength := header.value.offset, header.value.length;
    if messageLength == 0 {
      return Returns([]);
    }
    if !masked {
      return Returns(message[offset..]);
    }
    var messageBytes := message;
    r := D.Unmask(messageBytes, messageLength, offset);
  }

  /** DecodeAsString: "" for empty input or an empty payload, else the payload decoded with the encoding (UTF-8 by default). */
  function DecodeAsString(p: Platform, isMasked: Bytes -> bool, message: Bytes, encoding: Option<Encoding>): (r: Try<string>)
    ensures |message| == 0 ==> r == Returns("")
    ensures r.Throws? <==> DecodedBytes(isMasked, message).Throws?
    ensures DecodedBytes(isMasked, message) == Returns([]) ==> r == Returns("")
    ensures DecodedBytes(isMasked, message).Returns? && |DecodedBytes(isMasked, message).value| > 0 ==>
              r == Returns(EncodingOrUtf8(p, encoding).getString(DecodedBytes(isMasked, message).value))
  {
    if |message| == 0 then Returns("")
    else
      match DecodedBytes(isMasked, message)
      case Throws => Throws
      case Returns(result) =>
        if |result| == 0 then Returns("") else Returns(EncodingOrUtf8(p, encoding).getString(result))
  }

  /** When `IsMasked()` tests bit 0x80 of byte 1, the Standard decoder and the other one agree on every input. */
  lemma AgreesWithDecoder(p: Platform, isMasked: Bytes -> bool, message: Bytes, encoding: Option<Encoding>)
    requires |message| >= 2 ==> isMasked(message) == MaskBit(message[1])
    ensures DecodedBytes(isMasked, message) == D.DecodedBytes(message)
    ensures DecodeAsString(p, isMasked, message, encoding) == D.DecodeAsString(p, message, encoding)
  {
  }

  /**
   * `AgreesWithDecoder` needs its MASK test: on every masked frame with a payload,
   * a test that answers "unmasked" returns the key and the masked bytes after the
   * header, where the other decoder unmasks exactly the declared bytes or throws.
   */
  lemma MaskTestMatters(isMasked: Bytes -> bool, message: Bytes)
    requires ParseHeader(message).Returns? && ParseHeader(message).value.masked
    requires ParseHeader(message).value.length > 0 && !isMasked(message)
    ensures DecodedBytes(isMasked, message).Returns?
    ensures D.DecodedBytes(message).Returns? ==>
              |D.DecodedBytes(message).value| + 4 <= |DecodedBytes(isMasked, message).value|
    ensures DecodedBytes(isMasked, message) != D.DecodedBytes(message)
  {
    var h := ParseHeader(message).value;
    if D.DecodedBytes(message).Returns? {
      assert |D.DecodedBytes(message).value| == h.length;
    }
  }
}
