/**
 * The close codes the Standard package names (section 7.4.1 of RFC 6455) and
 * their wire form, the 2-byte big-endian body of a Close frame (section 5.5.1).
 */
module CloseCodes {
  import opened Wire

  datatype CloseCode = NormalClosure | GoingAway | ProtocolError

  /** The enum member's int value. */
  function Code(c: CloseCode): (v: int)
    ensures 1000 <= v <= 1002
  {
    match c
    case NormalClosure => 1000
    case GoingAway => 1001
    case ProtocolError => 1002
  }

  /** The close frame body carrying the code: two bytes, most significant first. */
  function CloseBody(c: CloseCode): (body: Bytes)
    ensures |body| == 2
    ensures BigEndian(body) == Code(c)
  {
    Pow256Values();
    ToBigEndian(Code(c), 2)
  }

  /** The codes are distinct and consecutive, from 1000 upwards. */
  lemma CodesConsecutive()
    ensures Code(GoingAway) == Code(NormalClosure) + 1
    ensures Code(ProtocolError) == Code(GoingAway) + 1
  {
  }

  /** Every code fits the 0-4999 range a close body may carry. */
  lemma CodesInCloseRange(c: CloseCode)
    ensures 0 <= Code(c) <= 4999 && Code(c) < Pow256(2)
  {
    Pow256Values();
  }

  /** NormalClosure is sent as 03 E8. */
  lemma {:induction false} NormalClosureBody()
    ensures CloseBody(NormalClosure) == [0x03, 0xE8]
  {
    assert Pow256(1) == 256 && Pow256(2) == 65536;
    assert ToBigEndian(3, 1) == [3];
    assert ToBigEndian(1000, 2) == [3, 232];
  }
}
