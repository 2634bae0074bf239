/**
 * The opcode vocabulary of section 5.2 of RFC 6455 as the Standard package's
 * StandardMessageType enum declares it: six named opcodes plus Invalid = 255
 * for the reserved nibbles 0x3-0x7 (non-control) and 0xB-0xF (control).
 */
module StandardMessageTypes {

  datatype StandardMessageType = Continuation | Text | Binary | Close | Ping | Pong | Invalid

  /** The enum member's underlying byte value. */
  function Value(t: StandardMessageType): (v: nat)
    ensures v < 256
  {
    match t
    case Continuation => 0x0
    case Text => 0x1
    case Binary => 0x2
    case Close => 0x8
    case Ping => 0x9
    case Pong => 0xA
    case Invalid => 255
  }

  /** Control frames (section 5.5 of RFC 6455). */
  predicate IsControl(t: StandardMessageType)
  {
    t == Close || t == Ping || t == Pong
  }

  /** Distinct members have distinct values. */
  lemma ValueInjective(t: StandardMessageType, u: StandardMessageType)
    ensures Value(t) == Value(u) <==> t == u
  {
  }

  /** Every named opcode fits the 4-bit opcode field; Invalid does not, so no nibble denotes it. */
  lemma NamedValuesAreNibbles(t: StandardMessageType)
    ensures t != Invalid <==> Value(t) < 16
  {
  }

  /** The reserved nibbles 0x3-0x7 and 0xB-0xF are the value of no member. */
  lemma ReservedNibblesUnnamed(t: StandardMessageType)
    ensures !(3 <= Value(t) <= 7) && !(11 <= Value(t) <= 15)
  {
  }

  /** Among the named opcodes, the control kinds are exactly those with value 8 or more. */
  lemma ControlKindsAreHighOpcodes(t: StandardMessageType)
    requires t != Invalid
    ensures IsControl(t) <==> Value(t) >= 8
  {
  }
}
