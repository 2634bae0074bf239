/**
 * WebSocketMessageDecoder (Akka.IO.TcpTools): the payload of one received frame.
 * The header walk gives the MASK bit, the declared length and the end of the
 * length field; a declared length of 0 gives nothing, an unmasked frame gives
 * every byte after the length field, and a masked frame gives exactly the
 * declared number of bytes after the 4-byte key, each XORed with
 * key[i mod 4] (section 5.3 of RFC 6455).
 */
module WebSocketMessageDecoder {
  import opened Wire
  import opened FrameHeader

  /**
   * What follows a length field ending at `offset` that declares `length` bytes:
   * the masked branch reads the key and then `length` bytes, and throws
   * (IndexOutOfRangeException) when the frame ends first.
   */
  function Payload(s: Bytes, masked: bool, length: nat, offset: nat): (r: Try<Bytes>)
    requires offset <= |s|
    ensures length == 0 ==> r == Returns([])
    ensures length > 0 && !masked ==> r == Returns(s[offset..])
    ensures length > 0 && masked ==> (r.Returns? <==> offset + 4 + length <= |s|)
    ensures length > 0 && masked && r.Returns? ==>
              |r.value| == length &&
              forall i :: 0 <= i < length ==> r.value[i] == Xor(s[offset + 4 + i], s[offset + i % 4])
  {
    if length == 0 then Returns([])
    else if !masked then Returns(s[offset..])
    else if |s| < offset + 4 + length then Throws
    else Returns(Mask(s[offset + 4..offset + 4 + length], s[offset..offset + 4]))
  }

  /** DecodeAsBytes as a value: empty input gives empty output, a header cut short throws. */
  function DecodedBytes(s: Bytes): (r: Try<Bytes>)
    ensures |s| == 0 ==> r == Returns([])
    ensures 0 < |s| && ParseHeader(s).Throws? ==> r.Throws?
    ensures ParseHeader(s).Returns? && ParseHeader(s).value.length == 0 ==> r == Returns([])
    ensures ParseHeader(s).Returns? && ParseHeader(s).value.length > 0 && !ParseHeader(s).value.masked ==>
              r == Returns(s[ParseHeader(s).value.offset..])
    ensures ParseHeader(s).Returns? && ParseHeader(s).value.length > 0 && ParseHeader(s).value.masked ==>
              var h := ParseHeader(s).value;
              (r.Returns? <==> h.offset + 4 + h.length <= |s|) &&
              (r.Returns? ==> r.value == Mask(s[h.offset + 4..h.offset + 4 + h.length], s[h.offset..h.offset + 4]))
  {
    if |s| == 0 then Returns([])
    else
      match ParseHeader(s)
      case Throws => Throws
      case Returns(h) => Payload(s, h.masked, h.length, h.offset)
  }

  /**
   * The unmasking loop: `length` bytes from offset + 4 on, each XORed with the
   * key byte at offset + i mod 4, into a fresh array; running off the end of the
   * frame throws.
   */
  method Unmask(receivedBytes: Bytes, length: nat, offset: nat) returns (r: Try<Bytes>)
    requires offset <= |receivedBytes| && length > 0
    ensures r == Payload(receivedBytes, true, length, offset)
  {
    var decodedBytes := new Byte[length];
    if |receivedBytes| < offset + 4 {
      return Throws;
    }
    var maskBytes := receivedBytes[offset..offset + 4];
    var start := offset + 4;
    var i := 0;
    while i < length
      invariant 0 <= i <= length && start + i <= |receivedBytes|
      invariant forall j :: 0 <= j < i ==> decodedBytes[j] == Xor(receivedBytes[start + j], maskBytes[j % 4])
    {
      if start + i >= |receivedBytes| {
        return Throws;
      }
      decodedBytes[i] := Xor(receivedBytes[start + i], maskBytes[i % 4]);
      i := i + 1;
    }
    assert decodedBytes[..] == Mask(receivedBytes[start..start + length], maskBytes);
    return Returns(decodedBytes[..]);
  }

  /** DecodeAsBytes: the header walk, the two short cuts, then the unmasking loop. */
  method DecodeAsBytes(receivedBytes: Bytes) returns (r: Try<Bytes>)
    ensures r == DecodedBytes(receivedBytes)
  {
    if |receivedBytes| == 0 {
      return Returns([]);
    }
    var header := ParseHeader(receivedBytes);
    if header.Throws? {
      return Throws;
    }
    var offset, messageLength := header.value.offset, header.value.length;
    if messageLength == 0 {
      return Returns([]);
    }
    if !header.value.masked {
      return Returns(receivedBytes[offset..]);
    }
    r := Unmask(receivedBytes, messageLength, offset);
  }

  /** DecodeAsString: "" for empty input or an empty payload, else the payload decoded with the encoding (UTF-8 by default). */
  function DecodeAsString(p: Platform, receivedBytes: Bytes, encoding: Option<Encoding>): (r: Try<string>)
    ensures |receivedBytes| == 0 ==> r == Returns("")
    ensures r.Throws? <==> DecodedBytes(receivedBytes).Throws?
    ensures DecodedBytes(receivedBytes) == Returns([]) ==> r == Returns("")
    ensures DecodedBytes(receivedBytes).Returns? && |DecodedBytes(receivedBytes).value| > 0 ==>
              r == Returns(EncodingOrUtf8(p, encoding).getString(DecodedBytes(receivedBytes).value))
  {
    if |receivedBytes| == 0 then Returns("")
    else
      match DecodedBytes(receivedBytes)
      case Throws => Throws
      case Returns(result) =>
        if |result| == 0 then Returns("") else Returns(EncodingOrUtf8(p, encoding).getString(result))
  }

  /** Decoding undoes the encoder of section 5.2 of RFC 6455, masked or not, whatever the first byte. */
  lemma {:induction false} DecodeEncodedFrame(b0: Byte, payload: Bytes, key: Option<Bytes>)
    requires |payload| < U64_LIMIT
    requires key.Some? ==> |key.value| == 4
    ensures DecodedBytes(EncodeFrame(b0, payload, key)) == Returns(payload)
  {
    var frame := EncodeFrame(b0, payload, key);
    var offset := HeaderEnd(|payload|);
    ParseEncodedFrame(b0, payload, key);
    if |payload| > 0 && key.Some? {
      UnmaskEncoded(frame, offset, payload, key.value);
    }
  }

  lemma UnmaskEncoded(frame: Bytes, offset: nat, payload: Bytes, key: Bytes)
    requires |key| == 4 && |payload| > 0 && offset <= |frame|
    requires frame[offset..] == key + Mask(payload, key)
    ensures Payload(frame, true, |payload|, offset) == Returns(payload)
  {
    assert frame[offset..offset + 4] == key;
    assert frame[offset + 4..offset + 4 + |payload|] == Mask(payload, key);
    MaskInvolution(payload, key);
  }

  /** The masked "Hello" frame of section 5.7 of RFC 6455. */
  const MaskedHelloFrame: Bytes := [0x81, 0x85, 0x37, 0xfa, 0x21, 0x3d, 0x7f, 0x9f, 0x4d, 0x51, 0x58]

  lemma MaskedHelloHeader()
    ensures ParseHeader(MaskedHelloFrame) == Returns(Header(true, 5, 2))
  {
  }

  /** The five XORs of the masked "Hello" example. */
  lemma HelloBytes()
    ensures Xor(0x7f, 0x37) == 0x48 && Xor(0x9f, 0xfa) == 0x65 && Xor(0x4d, 0x21) == 0x6c
    ensures Xor(0x51, 0x3d) == 0x6c && Xor(0x58, 0x37) == 0x6f
  {
  }

  lemma MaskFive(masked: Bytes, key: Bytes, plain: Bytes)
    requires |masked| == 5 && |key| == 4 && |plain| == 5
    requires Xor(masked[0], key[0]) == plain[0] && Xor(masked[1], key[1]) == plain[1]
    requires Xor(masked[2], key[2]) == plain[2] && Xor(masked[3], key[3]) == plain[3]
    requires Xor(masked[4], key[0]) == plain[4]
    ensures Mask(masked, key) == plain
  {
  }

  lemma MaskedHelloPayload()
    ensures Payload(MaskedHelloFrame, true, 5, 2) == Returns([0x48, 0x65, 0x6c, 0x6c, 0x6f])
  {
    var s := MaskedHelloFrame;
    assert s[6..11] == [0x7f, 0x9f, 0x4d, 0x51, 0x58];
    assert s[2..6] == [0x37, 0xfa, 0x21, 0x3d];
    HelloBytes();
    MaskFive([0x7f, 0x9f, 0x4d, 0x51, 0x58], [0x37, 0xfa, 0x21, 0x3d], [0x48, 0x65, 0x6c, 0x6c, 0x6f]);
  }

  /** The masked "Hello" of section 5.7 of RFC 6455 decodes to 48 65 6c 6c 6f. */
  lemma MaskedHello()
    ensures DecodedBytes(MaskedHelloFrame) == Returns([0x48, 0x65, 0x6c, 0x6c, 0x6f])
  {
    MaskedHelloHeader();
    MaskedHelloPayload();
  }

  /** The FIN bit and opcode in byte 0 are read but never used: any first byte decodes alike. */
  lemma FirstByteIgnored(s: Bytes, b0: Byte)
    requires |s| > 0
    ensures DecodedBytes(s[0 := b0]) == DecodedBytes(s)
  {
    var t := s[0 := b0];
    assert t[1..] == s[1..];
    if |s| >= 2 {
      assert t[2..] == s[2..];
      assert ParseHeader(t) == ParseHeader(s);
    }
  }
}
