/**
 * Byte-level vocabulary shared by the frame codec, the payload decoders and the
 * connection actors: bytes, big- and little-endian integers, the XOR mask of
 * section 5.3 of RFC 6455, the outcome of a call that may throw, and the
 * platform services (text encodings, SHA-1 and Base64) the code calls but does
 * not define.
 */
module Wire {

  /** A byte as the source's `byte`: its bit tests are written as arithmetic (`b & 0x7F` is `b % 0x80`). */
  type Byte = b: int | 0 <= b < 256
  type Bytes = seq<Byte>

  /** 2^64: every `ulong` of the source lies below it. */
  const U64_LIMIT: nat := 0x1_0000_0000_0000_0000

  datatype Option<+T> = None | Some(value: T)

  /**
   * The outcome of a call that can throw (an index past the end of an array,
   * an array too large to allocate): either the value it returns, or the
   * exception that the calling actor's catch block then handles.
   */
  datatype Try<+T> = Returns(value: T) | Throws

  /** A System.Text.Encoding: both directions are foreign to this model. */
  datatype Encoding = Encoding(getBytes: string -> Bytes, getString: Bytes -> string)

  /** Services of the .NET and Akka platforms that the core calls. */
  datatype Platform = Platform(
    utf8: Encoding,                  // Encoding.UTF8
    toText: Bytes -> string,         // ByteString.ToString()
    fromText: string -> Bytes,       // ByteString.FromString(string)
    acceptDigest: string -> string)  // Base64(SHA-1(UTF-8 bytes of the argument))

  /** `encoding ?? Encoding.UTF8`. */
  function EncodingOrUtf8(p: Platform, encoding: Option<Encoding>): Encoding
  {
    match encoding
    case None => p.utf8
    case Some(e) => e
  }

  function Pow256(n: nat): (r: nat)
    ensures r >= 1
  {
    if n == 0 then 1 else 256 * Pow256(n - 1)
  }

  lemma Pow256Values()
    ensures Pow256(2) == 0x1_0000
    ensures Pow256(8) == U64_LIMIT
  {
    assert Pow256(1) == 256;
    assert Pow256(2) == 0x1_0000;
    assert Pow256(3) == 0x100_0000;
    assert Pow256(4) == 0x1_0000_0000;
    assert Pow256(5) == 0x100_0000_0000;
    assert Pow256(6) == 0x1_0000_0000_0000;
    assert Pow256(7) == 0x100_0000_0000_0000;
  }

  /** The unsigned integer whose most significant byte comes first. */
  function BigEndian(s: Bytes): (n: nat)
    ensures n < Pow256(|s|)
  {
    if |s| == 0 then 0
    else
      var high := BigEndian(s[..|s| - 1]);
      assert high <= Pow256(|s| - 1) - 1;
      assert high * 256 <= Pow256(|s|) - 256;
      high * 256 + s[|s| - 1]
  }

  /** The unsigned integer whose least significant byte comes first (BitConverter on x86/x64). */
  function LittleEndian(s: Bytes): nat
  {
    if |s| == 0 then 0 else s[0] + 256 * LittleEndian(s[1..])
  }

  /** The bytes in the opposite order (Array.Reverse). */
  function Reversed(s: Bytes): (r: Bytes)
    ensures |r| == |s|
    ensures forall i :: 0 <= i < |s| ==> r[i] == s[|s| - 1 - i]
  {
    if |s| == 0 then [] else [s[|s| - 1]] + Reversed(s[..|s| - 1])
  }

  /** Reading a reversed buffer little-endian is reading the original big-endian. */
  lemma {:induction false} LittleEndianOfReversed(s: Bytes)
    ensures LittleEndian(Reversed(s)) == BigEndian(s)
  {
    if |s| > 0 {
      var init := s[..|s| - 1];
      assert Reversed(s)[1..] == Reversed(init);
      LittleEndianOfReversed(init);
    }
  }

  /** The `width`-byte big-endian form of n. */
  function ToBigEndian(n: nat, width: nat): (r: Bytes)
    requires n < Pow256(width)
    ensures |r| == width
    ensures BigEndian(r) == n
  {
    if width == 0 then []
    else
      DivideBy256(n, Pow256(width - 1));
      var high := ToBigEndian(n / 256, width - 1);
      var low: Byte := n % 256;
      BigEndianAppend(high, low);
      high + [low]
  }

  lemma BigEndianAppend(high: Bytes, low: Byte)
    ensures BigEndian(high + [low]) == BigEndian(high) * 256 + low
  {
    assert (high + [low])[..|high|] == high;
  }

  lemma DivideBy256(n: nat, bound: nat)
    requires n < 256 * bound
    ensures n / 256 < bound
    ensures (n / 256) * 256 + n % 256 == n
  {
  }

  /** Byte i of s, or 0 past its end: what a short stream read leaves in a zeroed buffer. */
  function ByteOrZero(s: Bytes, i: nat): (b: Byte)
  {
    if i < |s| then s[i] else 0
  }

  /** The `count` bytes that reading s from `from` leaves in a zero-filled buffer of that size. */
  function StreamBytes(s: Bytes, from: nat, count: nat): (r: Bytes)
    ensures |r| == count
    ensures forall i :: 0 <= i < count ==> r[i] == ByteOrZero(s, from + i)
  {
    if count == 0 then [] else StreamBytes(s, from, count - 1) + [ByteOrZero(s, from + count - 1)]
  }

  lemma StreamBytesInside(s: Bytes, from: nat, count: nat)
    requires from + count <= |s|
    ensures StreamBytes(s, from, count) == s[from..from + count]
  {
  }

  function Pow2(n: nat): (r: nat)
    ensures r >= 1
  {
    if n == 0 then 1 else 2 * Pow2(n - 1)
  }

  /** Bitwise exclusive or of the low `width` bits of a and b, lowest bit first. */
  function XorBits(a: nat, b: nat, width: nat): (r: nat)
    requires a < Pow2(width) && b < Pow2(width)
    ensures r < Pow2(width)
  {
    if width == 0 then 0
    else (if a % 2 == b % 2 then 0 else 1) + 2 * XorBits(a / 2, b / 2, width - 1)
  }

  /** XOR-ing twice with the same value gives the original back. */
  lemma {:induction false} XorBitsTwice(a: nat, k: nat, width: nat)
    requires a < Pow2(width) && k < Pow2(width)
    ensures XorBits(XorBits(a, k, width), k, width) == a
  {
    if width > 0 {
      var x := XorBits(a, k, width);
      var rest := XorBits(a / 2, k / 2, width - 1);
      assert x % 2 == (if a % 2 == k % 2 then 0 else 1) && x / 2 == rest;
      XorBitsTwice(a / 2, k / 2, width - 1);
    }
  }

  lemma Pow2Of8()
    ensures Pow2(8) == 256
  {
  }

  /** `a ^ b` on bytes. */
  function Xor(a: Byte, b: Byte): Byte
  {
    Pow2Of8();
    XorBits(a, b, 8)
  }

  lemma XorTwice(a: Byte, k: Byte)
    ensures Xor(Xor(a, k), k) == a
  {
    Pow2Of8();
    XorBitsTwice(a, k, 8);
  }

  /** XOR of byte i with key[i mod 4] (section 5.3 of RFC 6455); masking and unmasking alike. */
  function Mask(payload: Bytes, key: Bytes): (r: Bytes)
    requires |key| == 4
  {
    var r: Bytes := seq(|payload|, i requires 0 <= i < |payload| => Xor(payload[i], key[i % 4]));
    r
  }

  /** Unmasking undoes masking: applying the same key twice gives the payload back. */
  lemma MaskInvolution(payload: Bytes, key: Bytes)
    requires |key| == 4
    ensures |Mask(payload, key)| == |payload|
    ensures Mask(Mask(payload, key), key) == payload
  {
    var once := Mask(payload, key);
    forall i | 0 <= i < |payload|
      ensures Mask(once, key)[i] == payload[i]
    {
      assert once[i] == Xor(payload[i], key[i % 4]);
      XorTwice(payload[i], key[i % 4]);
    }
  }

  /** The bytes of a queue of chunks, in order (SelectMany over the queue). */
  function Flatten(chunks: seq<Bytes>): (r: Bytes)
  {
    if |chunks| == 0 then [] else Flatten(chunks[..|chunks| - 1]) + chunks[|chunks| - 1]
  }

  /** Flattening a queue is its first chunk followed by the rest flattened. */
  lemma {:induction false} FlattenFirst(chunks: seq<Bytes>)
    requires |chunks| > 0
    ensures Flatten(chunks) == chunks[0] + Flatten(chunks[1..])
    decreases |chunks|
  {
    if |chunks| > 1 {
      var init := chunks[..|chunks| - 1];
      FlattenFirst(init);
      assert init[1..] == chunks[1..][..|chunks[1..]| - 1];
      assert init[0] == chunks[0];
    } else {
      assert chunks[..0] == [];
      assert chunks[1..] == [];
    }
  }
}
