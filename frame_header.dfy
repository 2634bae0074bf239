/**
 * The base framing header of section 5.2 of RFC 6455 as the decoders read it:
 * the bit tests on the first two bytes, the walk to the end of the length field
 * (offset 2, 4 or 10), and, as the reference the decoders are measured against,
 * the encoder the RFC describes (shortest length form, optional 4-byte masking key).
 */
module FrameHeader {
  import opened Wire

  /** `b0 & 0x0F`: the opcode nibble. */
  function Opcode(b0: Byte): (op: nat)
    ensures op < 16
  {
    b0 % 0x10
  }

  /** `(b0 & 0x70) >> 4`: the three RSV bits; `b0 & 0x70` is non-zero exactly when this is. */
  function ReservedBits(b0: Byte): (rsv: nat)
    ensures rsv < 8
  {
    b0 / 0x10 % 8
  }

  /** `b0 & 0x80 != 0`: the FIN bit. */
  predicate Fin(b0: Byte)
  {
    b0 >= 0x80
  }

  /** `b1 & 0x80 != 0`: the MASK bit. */
  predicate MaskBit(b1: Byte)
  {
    b1 >= 0x80
  }

  /** `b1 & 0x7F`: the 7-bit payload length field. */
  function LengthField(b1: Byte): (field: nat)
    ensures field < 0x80
  {
    b1 % 0x80
  }

  /** The first byte is FIN, then RSV1-3, then the opcode, most significant bit first. */
  lemma FirstByteLayout(b0: Byte)
    ensures b0 == (if Fin(b0) then 0x80 else 0) + ReservedBits(b0) * 0x10 + Opcode(b0)
  {
  }

  /** What the header walk yields: the MASK bit, the declared payload length, and where the length field ends. */
  datatype Header = Header(masked: bool, length: nat, offset: nat)

  /**
   * The walk `DecodeAsBytes` and `Read` share: byte 1 gives the MASK bit and the
   * 7-bit field; 126 means a 16-bit length in bytes 2-3, 127 a 64-bit length in
   * bytes 2-9, each handed to BitConverter in reversed (little-endian) order.
   * Reading a byte past the end throws IndexOutOfRangeException.
   */
  function ParseHeader(s: Bytes): (r: Try<Header>)
    ensures r.Returns? <==> |s| >= 2 && (LengthField(s[1]) == 126 ==> |s| >= 4) && (LengthField(s[1]) == 127 ==> |s| >= 10)
    ensures r.Returns? ==> r.value.masked == MaskBit(s[1])
    ensures r.Returns? ==> r.value.offset <= |s| && r.value.length < U64_LIMIT
    ensures r.Returns? && LengthField(s[1]) < 126 ==> r.value.offset == 2 && r.value.length == LengthField(s[1])
    ensures r.Returns? && LengthField(s[1]) == 126 ==> r.value.offset == 4 && r.value.length == BigEndian(s[2..4])
    ensures r.Returns? && LengthField(s[1]) == 127 ==> r.value.offset == 10 && r.value.length == BigEndian(s[2..10])
  {
    if |s| < 2 then Throws
    else
      var field := LengthField(s[1]);
      if field == 126 then
        if |s| < 4 then Throws
        else
          var wire := [s[3], s[2]];
          ReversedLength(s[2..4], wire);
          Returns(Header(MaskBit(s[1]), LittleEndian(wire), 4))
      else if field == 127 then
        if |s| < 10 then Throws
        else
          var wire := [s[9], s[8], s[7], s[6], s[5], s[4], s[3], s[2]];
          ReversedLength(s[2..10], wire);
          Returns(Header(MaskBit(s[1]), LittleEndian(wire), 10))
      else Returns(Header(MaskBit(s[1]), field, 2))
  }

  /** BitConverter applied to the reversed bytes reads them as a big-endian integer of their width. */
  lemma ReversedLength(bytes: Bytes, wire: Bytes)
    requires |bytes| == 2 || |bytes| == 8
    requires wire == Reversed(bytes)
    ensures LittleEndian(wire) == BigEndian(bytes) < U64_LIMIT
  {
    LittleEndianOfReversed(bytes);
    Pow256Values();
    assert Pow256(2) < Pow256(8);
  }

  /** The 7-bit length field the encoder uses for an n-byte payload (section 5.2 of RFC 6455). */
  function LengthCode(n: nat): (field: nat)
    ensures field < 128
  {
    if n < 126 then n else if n < 0x1_0000 then 126 else 127
  }

  /** The extended payload length that follows byte 1: none, 2 or 8 bytes, big-endian. */
  function ExtendedLength(n: nat): (r: Bytes)
    requires n < U64_LIMIT
    ensures |r| == (if n < 126 then 0 else if n < 0x1_0000 then 2 else 8)
    ensures |r| > 0 ==> BigEndian(r) == n
  {
    Pow256Values();
    if n < 126 then [] else if n < 0x1_0000 then ToBigEndian(n, 2) else ToBigEndian(n, 8)
  }

  /** Bytes 0 and 1 of a frame with first byte b0 and the given MASK bit and payload length. */
  function HeaderBytes(b0: Byte, masked: bool, n: nat): (r: Bytes)
    requires n < U64_LIMIT
  {
    [b0, (if masked then 0x80 else 0) + LengthCode(n)] + ExtendedLength(n)
  }

  /**
   * A frame as section 5.2 of RFC 6455 lays it out: first byte b0, the payload
   * length in its shortest form, then either the payload, or a masking key
   * followed by the payload masked with it.
   */
  function EncodeFrame(b0: Byte, payload: Bytes, key: Option<Bytes>): (frame: Bytes)
    requires |payload| < U64_LIMIT
    requires key.Some? ==> |key.value| == 4
  {
    HeaderBytes(b0, key.Some?, |payload|)
      + match key
        case None => payload
        case Some(k) => k + Mask(payload, k)
  }

  /** Where the length field of an n-byte payload ends. */
  function HeaderEnd(n: nat): (offset: nat)
  {
    if n < 126 then 2 else if n < 0x1_0000 then 4 else 10
  }

  /** The header walk recovers the MASK bit and payload length of every encoded frame, whatever b0. */
  lemma ParseEncodedFrame(b0: Byte, payload: Bytes, key: Option<Bytes>)
    requires |payload| < U64_LIMIT
    requires key.Some? ==> |key.value| == 4
    ensures ParseHeader(EncodeFrame(b0, payload, key)) == Returns(Header(key.Some?, |payload|, HeaderEnd(|payload|)))
    ensures EncodeFrame(b0, payload, key)[HeaderEnd(|payload|)..]
         == match key case None => payload case Some(k) => k + Mask(payload, k)
  {
    var n := |payload|;
    var frame := EncodeFrame(b0, payload, key);
    var ext := ExtendedLength(n);
    assert frame[1] == (if key.Some? then 0x80 else 0) + LengthCode(n);
    assert frame[2..HeaderEnd(n)] == ext;
    assert frame[HeaderEnd(n)..] == match key case None => payload case Some(k) => k + Mask(payload, k);
  }
}
