/**
 * The older revision's StandardMessageType enum (underlying type byte), and its
 * correspondence with the Standard package's enum.
 */
module LegacyMessageTypes {
  import S = StandardMessageTypes

  datatype LegacyMessageType = Continuation | Text | Binary | Close | Ping | Pong | Invalid

  /** The enum member's underlying value; the enum is declared over byte. */
  function Value(t: LegacyMessageType): (v: nat)
    ensures v <= 255
  {
    match t
    case Continuation => 0x0
    case Text => 0x1
    case Binary => 0x2
    case Close => 0x8
    case Ping => 0x9
    case Pong => 0xA
    case Invalid => 255
  }

  /** The Standard member of the same name. */
  function ToStandard(t: LegacyMessageType): (u: S.StandardMessageType)
    ensures S.Value(u) == Value(t)
  {
    match t
    case Continuation => S.Continuation
    case Text => S.Text
    case Binary => S.Binary
    case Close => S.Close
    case Ping => S.Ping
    case Pong => S.Pong
    case Invalid => S.Invalid
  }

  /** The two enums agree value for value: every Standard member is the image of exactly one older member. */
  lemma EnumsAgree(u: S.StandardMessageType)
    ensures exists t :: ToStandard(t) == u
    ensures forall t, t' :: ToStandard(t) == u && ToStandard(t') == u ==> t == t'
  {
    var t := match u
      case Continuation => Continuation
      case Text => Text
      case Binary => Binary
      case Close => Close
      case Ping => Ping
      case Pong => Pong
      case Invalid => Invalid;
    assert ToStandard(t) == u;
  }
}
