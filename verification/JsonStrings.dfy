/** Writing JSON strings, as section 7 of RFC 8259 allows it; defined apart from the decoder that reads them. */
module JsonStrings {
  import opened Common
  import opened Utf8

  /** A character as itself, as a letter after a backslash, or in hexadecimal with every digit in either case. */
  datatype Style = Bare | Letter | Hex(upper: seq<bool>)

  /** One character of a string and how it is written. */
  datatype Spelling = Spelling(c: nat, style: Style)

  function LetterOf(c: nat): Option<Byte> {
    if c == 0x22 then Some(0x22)  // quotation mark
    else if c == 0x5C then Some(0x5C)  // reverse solidus
    else if c == 0x2F then Some(0x2F)  // solidus
    else if c == 0x08 then Some(0x62)  // backspace: b
    else if c == 0x0C then Some(0x66)  // form feed: f
    else if c == 0x0A then Some(0x6E)  // line feed: n
    else if c == 0x0D then Some(0x72)  // carriage return: r
    else if c == 0x09 then Some(0x74)  // tab: t
    else None
  }

  function Digit(value: nat, upper: bool): Byte
    requires value < 16
  {
    if value < 10 then 0x30 + value else if upper then 0x41 + (value - 10) else 0x61 + (value - 10)
  }

  function Digits(unit: nat, upper: seq<bool>): (t: Bytes)
    requires unit < 0x10000 && |upper| == 4
    ensures |t| == 4
  {
    [Digit(unit / 4096, upper[0]), Digit(unit / 256 % 16, upper[1]), Digit(unit / 16 % 16, upper[2]),
     Digit(unit % 16, upper[3])]
  }

  predicate CanWrite(s: Spelling) {
    && IsScalar(s.c)
    && match s.style
       case Bare => s.c != 0x5C
       case Letter => LetterOf(s.c).Some?
       case Hex(upper) => |upper| == if s.c < 0x10000 then 4 else 8
  }

  /** A character beyond 16 bits is written as two surrogates. */
  function Written(s: Spelling): (t: Bytes)
    requires CanWrite(s)
    ensures t != []
  {
    match s.style
    case Bare => Encode(s.c)
    case Letter => [0x5C, LetterOf(s.c).value]
    case Hex(upper) =>
      if s.c < 0x10000 then [0x5C, 0x75] + Digits(s.c, upper)
      else
        [0x5C, 0x75] + Digits(0xD800 + (s.c - 0x10000) / 0x400, upper[..4])
        + [0x5C, 0x75] + Digits(0xDC00 + (s.c - 0x10000) % 0x400, upper[4..])
  }

  function WrittenAll(ps: seq<Spelling>): Bytes
    requires forall s :: s in ps ==> CanWrite(s)
  {
    if ps == [] then [] else Written(ps[0]) + WrittenAll(ps[1..])
  }

  /** The characters themselves. */
  function Spelled(ps: seq<Spelling>): Bytes
    requires forall s :: s in ps ==> CanWrite(s)
  {
    if ps == [] then []
    else
      assert CanWrite(ps[0]);
      Encode(ps[0].c) + Spelled(ps[1..])
  }
}
