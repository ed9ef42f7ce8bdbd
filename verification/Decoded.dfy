/** The loop that decodes a text and records where every decoded byte came from, and what it is for. */
module DecodedText {
  import opened Common
  import opened Utf8
  import opened Escapes
  import opened JsonStrings

  /** `text` decoded, and for every byte of it and one past the end an offset into the original. */
  datatype Decoded = Decoded(text: Bytes, origin: seq<nat>) {
    function Original(start: nat, end: nat): (nat, nat)
      requires start < |origin| && end < |origin|
    {
      (origin[start], origin[end])
    }
  }

  const ONE_BACKSLASH: Bytes := [BACKSLASH]

  function ShiftedBack(origin: seq<nat>): (r: seq<nat>)
    ensures |r| == |origin| && forall i :: 0 <= i < |r| ==> r[i] == Monus(origin[i], 1)
  {
    if origin == [] then [] else [Monus(origin[0], 1)] + ShiftedBack(origin[1..])
  }

  predicate Mapped(view: Decoded) {
    |view.origin| == |view.text| + 1
  }

  function PlainView(t: Bytes): (view: Decoded)
    ensures Mapped(view)
  {
    Decoded(Decode(t), Origins(t, 0))
  }

  function LeadingView(t: Bytes): (view: Decoded)
    ensures Mapped(view)
  {
    Decoded(Decode(ONE_BACKSLASH + t), ShiftedBack(Origins(ONE_BACKSLASH + t, 0)))
  }

  lemma SkippedEscape(t: Bytes, at: nat)
    requires Valid(t) && t != [] && Unescape(t).Some?
    ensures var e := Unescape(t).value;
            && e.used <= |t| && Valid(t[e.used..])
            && Decode(t) == Encode(e.scalar) + Decode(t[e.used..])
            && Origins(t, at) == Repeat(at, |Encode(e.scalar)|) + Origins(t[e.used..], at + e.used)
  {
    EscapeIsAscii(t);
    DropAscii(t, Used(t));
    hide Unescape, Encode, Valid;
    OriginsStep(t, at);
  }

  /** Decodes a text that holds a backslash. */
  method DecodeLoop(text: Bytes) returns (view: Decoded)
    requires Valid(text)
    ensures view == PlainView(text)
  {
    hide Unescape, Decode, Origins, CharLen, Valid, Encode, Repeat, Upwards;
    var decoded: Bytes, origin: seq<nat>, at := [], [], 0;
    assert text[0..] == text;
    while at < |text|
      invariant at <= |text| && Valid(text[at..])
      invariant Decode(text) == decoded + Decode(text[at..])
      invariant Origins(text, 0) == origin + Origins(text[at..], at)
    {
      var rest := text[at..];
      var c, used, from;
      var escape := Unescape(rest);
      if escape.Some? {
        SkippedEscape(rest, at);
        c, used := Encode(escape.value.scalar), escape.value.used;
        from := Repeat(at, |c|);
      } else {
        CopiedChar(rest, at);
        used := CharLen(rest);
        c, from := rest[..used], Upwards(at, used);
      }
      assert rest[used..] == text[at + used..];
      assert decoded + Decode(rest) == decoded + c + Decode(text[at + used..]);
      assert origin + Origins(rest, at) == origin + from + Origins(text[at + used..], at + used);
      decoded, origin, at := decoded + c, origin + from, at + used;
    }
    assert text[at..] == [];
    NothingLeft(at);
    view := Decoded(decoded, origin + [|text|]);
  }

  lemma NothingLeft(at: nat)
    ensures Decode([]) == [] && Origins([], at) == [at]
  {
  }

  lemma BackslashFirst(t: Bytes)
    requires Valid(t)
    ensures Valid(ONE_BACKSLASH + t) && BACKSLASH in ONE_BACKSLASH + t
  {
    assert ONE_BACKSLASH[1..] == [];
    ValidConcat(ONE_BACKSLASH, t);
    assert (ONE_BACKSLASH + t)[0] == BACKSLASH;
  }

  /** The decoded view of a text, or of the text as if one backslash came before it; none without a backslash. */
  method NewView(text: Bytes, leadingBackslash: bool) returns (view: Option<Decoded>)
    requires Valid(text)
    ensures leadingBackslash ==> view == Some(LeadingView(text))
    ensures !leadingBackslash ==> view == if BACKSLASH in text then Some(PlainView(text)) else None
  {
    if leadingBackslash {
      BackslashFirst(text);
      var whole := DecodeLoop(ONE_BACKSLASH + text);
      var origin: seq<nat> := [];
      var i := 0;
      while i < |whole.origin|
        invariant i <= |whole.origin| && |origin| == i
        invariant forall k :: 0 <= k < i ==> origin[k] == Monus(whole.origin[k], 1)
      {
        origin := origin + [Monus(whole.origin[i], 1)];
        i := i + 1;
      }
      assert origin == ShiftedBack(whole.origin);
      return Some(Decoded(whole.text, origin));
    }
    if BACKSLASH !in text {
      return None;
    }
    var whole := DecodeLoop(text);
    view := Some(whole);
  }

  // ----- every spelling decodes to what it spells -----

  lemma DigitReads(value: nat, upper: bool)
    requires value < 16
    ensures HexDigit(Digit(value, upper)) == Some(value)
  {
  }

  lemma DigitIsWritten(b: Byte)
    requires HexDigit(b).Some?
    ensures HexDigit(b).value < 16 && b == Digit(HexDigit(b).value, 0x41 <= b <= 0x46)
  {
  }

  lemma UnitOfDigits(unit: nat, a: nat, b: nat, c: nat, d: nat)
    requires unit < 0x10000 && a < 16 && b < 16 && c < 16 && d < 16
    ensures unit == ((a * 16 + b) * 16 + c) * 16 + d
            <==> a == unit / 4096 && b == unit / 256 % 16 && c == unit / 16 % 16 && d == unit % 16
  {
  }

  /** Four digits as they are written read as the number. */
  lemma DigitsRead(t: Bytes, at: nat, unit: nat, upper: seq<bool>)
    requires unit < 0x10000 && |upper| == 4
    requires at + 4 <= |t| && t[at..at + 4] == Digits(unit, upper)
    ensures IsHex4(t, at) && Hex4(t, at) == unit
  {
    hide HexDigit, Digit;
    var digits := Digits(unit, upper);
    assert t[at] == digits[0] && t[at + 1] == digits[1] && t[at + 2] == digits[2] && t[at + 3] == digits[3];
    DigitReads(unit / 4096, upper[0]);
    DigitReads(unit / 256 % 16, upper[1]);
    DigitReads(unit / 16 % 16, upper[2]);
    DigitReads(unit % 16, upper[3]);
    UnitOfDigits(unit, unit / 4096, unit / 256 % 16, unit / 16 % 16, unit % 16);
  }

  /** Four digits that read as a number are written for it. */
  lemma DigitsWritten(t: Bytes, at: nat) returns (upper: seq<bool>)
    requires IsHex4(t, at)
    ensures |upper| == 4 && t[at..at + 4] == Digits(Hex4(t, at), upper)
  {
    hide HexDigit, Digit;
    upper := [0x41 <= t[at] <= 0x46, 0x41 <= t[at + 1] <= 0x46, 0x41 <= t[at + 2] <= 0x46, 0x41 <= t[at + 3] <= 0x46];
    DigitIsWritten(t[at]);
    DigitIsWritten(t[at + 1]);
    DigitIsWritten(t[at + 2]);
    DigitIsWritten(t[at + 3]);
    UnitOfDigits(Hex4(t, at), HexDigit(t[at]).value, HexDigit(t[at + 1]).value, HexDigit(t[at + 2]).value,
                 HexDigit(t[at + 3]).value);
  }

  lemma WrittenEscape(s: Spelling, rest: Bytes)
    requires CanWrite(s) && !s.style.Bare?
    ensures Unescape(Written(s) + rest) == Some(Escape(s.c, |Written(s)|))
  {
    hide IsHex4, Hex4, Digits;
    var t := Written(s) + rest;
    match s.style
    case Letter =>
    case Hex(upper) =>
      if s.c < 0x10000 {
        assert t[2..6] == Digits(s.c, upper);
        DigitsRead(t, 2, s.c, upper);
      } else {
        var high, low := 0xD800 + (s.c - 0x10000) / 0x400, 0xDC00 + (s.c - 0x10000) % 0x400;
        assert t[2..6] == Digits(high, upper[..4]);
        DigitsRead(t, 2, high, upper[..4]);
        assert t[8..12] == Digits(low, upper[4..]);
        DigitsRead(t, 8, low, upper[4..]);
      }
  }

  lemma EscapeIsWritten(t: Bytes) returns (style: Style)
    requires Unescape(t).Some?
    ensures var e := Unescape(t).value;
            && !style.Bare? && CanWrite(Spelling(e.scalar, style))
            && e.used <= |t| && t[..e.used] == Written(Spelling(e.scalar, style))
  {
    hide IsHex4, Hex4, Digits;
    var e := Unescape(t).value;
    if e.used == 2 {
      style := Letter;
    } else {
      var upper := DigitsWritten(t, 2);
      if e.used == 6 {
        style := Hex(upper);
      } else {
        var more := DigitsWritten(t, 8);
        style := Hex(upper + more);
        assert (upper + more)[..4] == upper && (upper + more)[4..] == more;
        assert t[..12] == t[..2] + t[2..6] + t[6..8] + t[8..12];
      }
    }
  }

  /** A text starts with an escape of a character exactly when it starts with what can be written for it. */
  lemma UnescapeIff(t: Bytes, c: nat, used: nat)
    ensures Unescape(t) == Some(Escape(c, used))
            <==> exists style: Style :: !style.Bare? && CanWrite(Spelling(c, style))
                                        && used <= |t| && t[..used] == Written(Spelling(c, style))
  {
    hide Unescape, Written, CanWrite;
    if Unescape(t) == Some(Escape(c, used)) {
      var style := EscapeIsWritten(t);
    }
    forall style: Style | !style.Bare? && CanWrite(Spelling(c, style)) && used <= |t| && t[..used] == Written(Spelling(c, style))
      ensures Unescape(t) == Some(Escape(c, used))
    {
      WrittenEscape(Spelling(c, style), t[used..]);
      assert t == Written(Spelling(c, style)) + t[used..];
    }
  }

  lemma EncodeAvoidsBackslash(c: nat)
    requires IsScalar(c) && c != BACKSLASH
    ensures BACKSLASH !in Encode(c)
  {
  }

  lemma SpellingDecodes(s: Spelling, rest: Bytes)
    requires CanWrite(s)
    ensures Decode(Written(s) + rest) == Encode(s.c) + Decode(rest)
  {
    hide Unescape, Encode, CanWrite;
    var t, k := Written(s) + rest, |Written(s)|;
    assert t[..k] == Written(s) && t[k..] == rest;
    if s.style.Bare? {
      WrittenBare(s);
      CopiedBytes(t, 0, k);
    } else {
      WrittenEscape(s, rest);
      OriginsStep(t, 0);
    }
  }

  lemma ScalarWritten(s: Spelling)
    requires CanWrite(s)
    ensures IsScalar(s.c)
  {
  }

  lemma WrittenBare(s: Spelling)
    requires CanWrite(s) && s.style.Bare?
    ensures BACKSLASH !in Written(s) && Written(s) == Encode(s.c)
  {
    EncodeAvoidsBackslash(s.c);
  }

  /** Whatever mixture of spellings a string is written in, decoding gives the string. */
  lemma {:induction false} EverySpellingDecodes(ps: seq<Spelling>, rest: Bytes)
    requires forall s :: s in ps ==> CanWrite(s)
    ensures Decode(WrittenAll(ps) + rest) == Spelled(ps) + Decode(rest)
  {
    hide CanWrite, Written, Decode, Encode;
    if ps == [] {
      assert WrittenAll(ps) + rest == rest;
      assert Spelled(ps) + Decode(rest) == Decode(rest);
    } else {
      var first, more := ps[0], ps[1..];
      ScalarWritten(first);
      EverySpellingDecodes(more, rest);
      SpellingDecodes(first, WrittenAll(more) + rest);
      assert WrittenAll(ps) + rest == Written(first) + (WrittenAll(more) + rest);
      assert Spelled(ps) + Decode(rest) == Encode(first.c) + (Spelled(more) + Decode(rest));
    }
  }
}
