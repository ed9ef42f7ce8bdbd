/** JSON string escapes (section 7 of RFC 8259) decoded in arbitrary text, with a map back to the text. */
module Escapes {
  import opened Common
  import opened Utf8

  const BACKSLASH: Byte := 0x5C
  const LOWER_U: Byte := 0x75
  /** No decoded byte takes more of the text than the six bytes of a unicode escape. */
  const ESCAPE_GROWTH: nat := 6

  function HexDigit(b: Byte): Option<nat> {
    if 0x30 <= b <= 0x39 then Some(b - 0x30)
    else if 0x41 <= b <= 0x46 then Some(b - 0x41 + 10)
    else if 0x61 <= b <= 0x66 then Some(b - 0x61 + 10)
    else None
  }

  predicate IsHex4(t: Bytes, at: nat) {
    && at + 4 <= |t|
    && HexDigit(t[at]).Some? && HexDigit(t[at + 1]).Some? && HexDigit(t[at + 2]).Some? && HexDigit(t[at + 3]).Some?
  }

  function Hex4(t: Bytes, at: nat): (unit: nat)
    requires IsHex4(t, at)
    ensures unit < 0x10000
  {
    ((HexDigit(t[at]).value * 16 + HexDigit(t[at + 1]).value) * 16 + HexDigit(t[at + 2]).value) * 16
    + HexDigit(t[at + 3]).value
  }

  /** A scalar value and the number of bytes its escape takes. */
  datatype Escape = Escape(scalar: nat, used: nat)

  /** Six bytes for a scalar value, twelve when two surrogates make one; a surrogate by itself is no escape. */
  function Unicode(t: Bytes): (e: Option<Escape>)
    ensures e.Some? ==> IsScalar(e.value.scalar) && e.value.used <= |t|
    ensures e.Some? ==> e.value.used == 6 || (e.value.used == 12 && e.value.scalar >= 0x10000)
  {
    if !IsHex4(t, 2) then None
    else
      var unit := Hex4(t, 2);
      if 0xD800 <= unit <= 0xDBFF then
        if !(|t| >= 8 && t[6] == BACKSLASH && t[7] == LOWER_U && IsHex4(t, 8)) then None
        else
          var low := Hex4(t, 8);
          if !(0xDC00 <= low <= 0xDFFF) then None
          else Some(Escape(0x10000 + (unit - 0xD800) * 0x400 + (low - 0xDC00), 12))
      else if 0xDC00 <= unit <= 0xDFFF then None
      else Some(Escape(unit, 6))
  }

  /** The character a one-letter escape stands for. */
  function Simple(b: Byte): Option<nat> {
    if b == 0x22 || b == 0x5C || b == 0x2F then Some(b)  // quote, backslash, solidus
    else if b == 0x62 then Some(0x08)
    else if b == 0x66 then Some(0x0C)
    else if b == 0x6E then Some(0x0A)
    else if b == 0x72 then Some(0x0D)
    else if b == 0x74 then Some(0x09)
    else None
  }

  /** The escape at the start of `t`. */
  function Unescape(t: Bytes): (e: Option<Escape>)
    ensures e.Some? ==> |t| >= 2 && t[0] == BACKSLASH && IsScalar(e.value.scalar) && 0 < e.value.used <= |t|
    ensures e.Some? ==> e.value.used == 2 || e.value.used == 6 || (e.value.used == 12 && e.value.scalar >= 0x10000)
  {
    if |t| < 2 || t[0] != BACKSLASH then None
    else if t[1] == LOWER_U then Unicode(t)
    else if Simple(t[1]).Some? then Some(Escape(Simple(t[1]).value, 2))
    else None
  }

  /** What one step of the decoder reads: an escape, or one byte copied as it is. */
  function Used(t: Bytes): (n: nat)
    requires t != []
    ensures 0 < n <= |t|
  {
    if Unescape(t).Some? then Unescape(t).value.used else 1
  }

  function Yield(t: Bytes): (d: Bytes)
    requires t != []
    ensures 0 < |d|
    ensures Used(t) <= ESCAPE_GROWTH * |d|
  {
    if Unescape(t).Some? then Encode(Unescape(t).value.scalar) else [t[0]]
  }

  /** The text with its escapes decoded. */
  function Decode(t: Bytes): Bytes {
    if t == [] then [] else Yield(t) + Decode(t[Used(t)..])
  }

  function Repeat(value: nat, count: nat): (r: seq<nat>)
    ensures |r| == count && forall i :: 0 <= i < count ==> r[i] == value
  {
    if count == 0 then [] else Repeat(value, count - 1) + [value]
  }

  /** The position each decoded byte was read from, then that of the end; `t` itself starts at `at`. */
  function Origins(t: Bytes, at: nat): (r: seq<nat>)
    ensures |r| == |Decode(t)| + 1
    ensures r[0] == at && r[|r| - 1] == at + |t|
    decreases |t|
  {
    if t == [] then [at] else Repeat(at, |Yield(t)|) + Origins(t[Used(t)..], at + Used(t))
  }

  /** A position of the text where the decoder starts a step, or the end. */
  predicate IsToken(t: Bytes, p: nat) {
    || p == 0
    || (t != [] && Used(t) <= p && IsToken(t[Used(t)..], p - Used(t)))
  }

  /** How many bytes are decoded before a position. */
  function DecodedBefore(t: Bytes, p: nat): (n: nat)
    requires IsToken(t, p)
    ensures n <= |Decode(t)|
  {
    if p == 0 then 0 else |Yield(t)| + DecodedBefore(t[Used(t)..], p - Used(t))
  }

  lemma {:induction false} TokenWithin(t: Bytes, p: nat)
    requires IsToken(t, p)
    ensures p <= |t|
  {
    hide Used, Yield;
    if p > 0 {
      TokenWithin(t[Used(t)..], p - Used(t));
    }
  }

  /** From a token on, decoding depends on the rest of the text only. */
  lemma {:induction false} DecodeFromToken(t: Bytes, p: nat)
    requires IsToken(t, p)
    ensures p <= |t| && Decode(t)[DecodedBefore(t, p)..] == Decode(t[p..])
  {
    hide Used, Yield;
    TokenWithin(t, p);
    if p == 0 {
      assert t[0..] == t;
    } else {
      var rest := t[Used(t)..];
      DecodeFromToken(rest, p - Used(t));
      assert rest[p - Used(t)..] == t[p..];
    }
  }

  /** A token of the rest of the text is a token of the text. */
  lemma {:induction false} TokensCompose(t: Bytes, p: nat, q: nat)
    requires IsToken(t, p) && p <= |t| && IsToken(t[p..], q)
    ensures IsToken(t, p + q)
    ensures DecodedBefore(t, p + q) == DecodedBefore(t, p) + DecodedBefore(t[p..], q)
  {
    hide Used, Yield;
    if p == 0 {
      assert t[0..] == t;
    } else {
      var rest := t[Used(t)..];
      TokenWithin(rest, p - Used(t));
      assert rest[p - Used(t)..] == t[p..];
      TokensCompose(rest, p - Used(t), q);
    }
  }

  // ----- decoded text is text -----

  function Upwards(at: nat, count: nat): (r: seq<nat>)
    ensures |r| == count && forall i :: 0 <= i < count ==> r[i] == at + i
  {
    if count == 0 then [] else Upwards(at, count - 1) + [at + count - 1]
  }

  lemma OriginsStep(t: Bytes, at: nat)
    requires t != []
    ensures Origins(t, at) == Repeat(at, |Yield(t)|) + Origins(t[Used(t)..], at + Used(t))
    ensures Decode(t) == Yield(t) + Decode(t[Used(t)..])
  {
    hide Used, Yield;
  }

  lemma PlainByteStep(t: Bytes, at: nat)
    requires t != [] && t[0] != BACKSLASH
    ensures Origins(t, at) == [at] + Origins(t[1..], at + 1)
    ensures Decode(t) == [t[0]] + Decode(t[1..])
  {
    hide Unicode, Simple;
    OriginsStep(t, at);
    assert Repeat(at, 1) == [at];
  }

  /** Bytes that start no escape decode to themselves. */
  lemma {:induction false} CopiedBytes(t: Bytes, at: nat, k: nat)
    requires k <= |t| && forall i :: 0 <= i < k ==> t[i] != BACKSLASH
    ensures Decode(t) == t[..k] + Decode(t[k..])
    ensures Origins(t, at) == Upwards(at, k) + Origins(t[k..], at + k)
    decreases k
  {
    hide Decode, Origins;
    if k == 0 {
      assert t[0..] == t;
    } else {
      PlainByteStep(t, at);
      var rest := t[1..];
      CopiedBytes(rest, at + 1, k - 1);
      assert rest[k - 1..] == t[k..];
      assert t[..k] == [t[0]] + rest[..k - 1];
      assert Upwards(at, k) == [at] + Upwards(at + 1, k - 1);
    }
  }

  /** The bytes of an escape are ASCII, so the text after it is still text. */
  lemma {:induction false} DropAscii(t: Bytes, k: nat)
    requires Valid(t) && k <= |t| && forall i :: 0 <= i < k ==> t[i] < 0x80
    ensures Valid(t[k..])
  {
    if k == 0 {
      assert t[0..] == t;
    } else {
      DropAscii(t[1..], k - 1);
      assert t[1..][k - 1..] == t[k..];
    }
  }

  lemma EscapeIsAscii(t: Bytes)
    requires Unescape(t).Some?
    ensures forall i :: 0 <= i < Used(t) ==> t[i] < 0x80
  {
  }

  /** A whole character is copied when no escape starts there, and it is one step or several plain ones. */
  lemma CopiedChar(t: Bytes, at: nat)
    requires Valid(t) && t != [] && Unescape(t).None?
    ensures CharLen(t) > 0 && Valid(t[CharLen(t)..])
    ensures Decode(t) == t[..CharLen(t)] + Decode(t[CharLen(t)..])
    ensures Origins(t, at) == Upwards(at, CharLen(t)) + Origins(t[CharLen(t)..], at + CharLen(t))
  {
    hide Unescape, Decode, Origins, CharLen;
    CharShape(t);
    var k := CharLen(t);
    if t[0] == BACKSLASH {
      OriginsStep(t, at);
      assert Repeat(at, 1) == Upwards(at, 1);
      assert t[..1] == [t[0]];
    } else {
      CopiedBytes(t, at, k);
    }
  }

  lemma EncodeIsValid(c: nat)
    requires IsScalar(c)
    ensures Valid(Encode(c))
  {
    assert Encode(c)[|Encode(c)|..] == [];
  }

  lemma FirstCharIsValid(t: Bytes)
    requires CharLen(t) > 0
    ensures Valid(t[..CharLen(t)])
  {
    var c := t[..CharLen(t)];
    assert CharLen(c) == |c|;
    assert c[|c|..] == [];
  }

  lemma {:induction false} DecodedIsValid(t: Bytes)
    requires Valid(t)
    ensures Valid(Decode(t))
    decreases |t|
  {
    hide Unescape, Encode, CharLen;
    if t != [] {
      if Unescape(t).Some? {
        EscapeIsAscii(t);
        DropAscii(t, Used(t));
        DecodedIsValid(t[Used(t)..]);
        EncodeIsValid(Unescape(t).value.scalar);
        ValidConcat(Yield(t), Decode(t[Used(t)..]));
      } else {
        hide Decode, Valid;
        CopiedChar(t, 0);
        DecodedIsValid(t[CharLen(t)..]);
        FirstCharIsValid(t);
        ValidConcat(t[..CharLen(t)], Decode(t[CharLen(t)..]));
      }
    }
  }

  // ----- the range a decoded match came from -----

  lemma YieldIsOneChar(t: Bytes, i: nat)
    requires t != [] && 0 < i && IsBoundary(Decode(t), i)
    ensures |Yield(t)| <= i
  {
    hide Unicode, Simple;
    assert Decode(t)[..|Yield(t)|] == Yield(t);
  }

  /** Every character boundary of the decoded text is where a token of the text starts. */
  lemma {:induction false} BoundaryIsToken(t: Bytes, at: nat, i: nat) returns (p: nat)
    requires IsBoundary(Decode(t), i)
    ensures IsToken(t, p) && DecodedBefore(t, p) == i && Origins(t, at)[i] == at + p
    decreases |t|
  {
    hide Used, Yield;
    if i == 0 {
      p := 0;
    } else {
      assert t != [];
      hide Decode, Origins;
      OriginsStep(t, at);
      var d, rest := Yield(t), t[Used(t)..];
      YieldIsOneChar(t, i);
      assert Decode(t)[|d|..] == Decode(rest);
      assert IsBoundary(Decode(rest), i - |d|);
      p := BoundaryIsToken(rest, at + Used(t), i - |d|);
      p := Used(t) + p;
    }
  }

  /** A character of the decoded text comes from where a character of the text starts. */
  lemma OriginIsBoundary(t: Bytes, i: nat)
    requires IsBoundary(Decode(t), i)
    ensures IsBoundary(t, Origins(t, 0)[i])
  {
    hide IsToken, DecodedBefore, Unicode, Simple, Encode, CharLen, Origins, Decode;
    var p := BoundaryIsToken(t, 0, i);
    DecodeFromToken(t, p);
    if p < |t| {
      FirstDecoded(t[p..]);
      assert Decode(t)[i..][0] == Decode(t)[i];
    }
  }

  lemma FirstDecoded(t: Bytes)
    requires t != []
    ensures Decode(t) != [] && (Decode(t)[0] == t[0] || t[0] == BACKSLASH)
  {
    hide Unicode, Simple, Encode;
  }

  lemma {:induction false} Growth(t: Bytes, p: nat)
    requires IsToken(t, p)
    ensures p <= ESCAPE_GROWTH * DecodedBefore(t, p)
  {
    hide Used, Yield;
    if p > 0 {
      Growth(t[Used(t)..], p - Used(t));
    }
  }

  /** Positions further on in the decoded text come from positions further on in the text. */
  lemma {:induction false} LaterToken(t: Bytes, p: nat, q: nat)
    requires IsToken(t, p) && IsToken(t, q) && DecodedBefore(t, p) <= DecodedBefore(t, q)
    ensures p <= q && q <= |t| && IsToken(t[p..], q - p)
    ensures DecodedBefore(t[p..], q - p) == DecodedBefore(t, q) - DecodedBefore(t, p)
  {
    hide Used, Yield;
    TokenWithin(t, q);
    if p == 0 {
      assert t[0..] == t;
    } else {
      assert q != 0;
      var rest := t[Used(t)..];
      LaterToken(rest, p - Used(t), q - Used(t));
      assert rest[p - Used(t)..] == t[p..];
    }
  }

  /**
   A decoded match comes from whole escapes and characters: its range starts and ends on tokens,
   decodes to the match, is not empty, and is at most `ESCAPE_GROWTH` times as long.
   */
  lemma MatchCoversTokens(t: Bytes, v: Bytes, i: nat, j: nat)
    requires Valid(t) && Valid(v) && v != []
    requires i <= j <= |Decode(t)| && Decode(t)[i..j] == v
    ensures var p, q := Origins(t, 0)[i], Origins(t, 0)[j];
            && p < q <= |t| && q - p <= ESCAPE_GROWTH * |v|
            && IsToken(t, p) && IsToken(t, q)
            && DecodedBefore(t, p) == i && DecodedBefore(t, q) == j
  {
    hide Used, Yield, IsToken, DecodedBefore, Decode, Origins, Valid, CharLen;
    DecodedIsValid(t);
    OccurrenceIsAligned(Decode(t), v, i, j);
    var p := BoundaryIsToken(t, 0, i);
    var q := BoundaryIsToken(t, 0, j);
    LaterToken(t, p, q);
    Growth(t[p..], q - p);
  }
}
