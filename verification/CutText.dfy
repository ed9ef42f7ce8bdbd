/** Decoding a text from an arbitrary cut: one of two views finds the escapes of the whole text again. */
module CutText {
  import opened Common
  import opened Utf8
  import opened Escapes
  import opened JsonStrings
  import opened DecodedText
  import opened SpanMask
  import opened Redaction

  /** After a token, the tokens of a text are those of its rest. */
  lemma {:induction false} TokensAfter(t: Bytes, e: nat, q: nat)
    requires IsToken(t, e) && e <= |t|
    ensures IsToken(t, e + q) <==> IsToken(t[e..], q)
  {
    hide Used;
    if e == 0 {
      assert t[0..] == t;
    } else {
      var rest := t[Used(t)..];
      TokenWithin(rest, e - Used(t));
      assert rest[e - Used(t)..] == t[e..];
      TokensAfter(rest, e - Used(t), q);
    }
  }

  lemma {:induction false} OriginOfToken(t: Bytes, at: nat, p: nat)
    requires IsToken(t, p)
    ensures Origins(t, at)[DecodedBefore(t, p)] == at + p
    decreases |t|
  {
    hide Used, Yield;
    if p > 0 {
      OriginOfToken(t[Used(t)..], at + Used(t), p - Used(t));
    }
  }

  // ----- inside an escape -----

  lemma HexIsNoBackslash(b: Byte)
    requires HexDigit(b).Some?
    ensures b != BACKSLASH
  {
  }

  lemma TailBytes(t: Bytes, k: nat)
    requires Unescape(t).Some? && 2 <= k < Used(t)
    ensures t[k] == BACKSLASH ==> k == 6 && Used(t) == 12
  {
    hide HexDigit, Hex4;
    forall b | HexDigit(b).Some?
      ensures b != BACKSLASH
    {
      HexIsNoBackslash(b);
    }
  }

  lemma LowHalf(t: Bytes)
    requires Unescape(t).Some? && Used(t) == 12
    ensures IsHex4(t, 8) && 0xDC00 <= Hex4(t, 8) < 0xE000
  {
    hide HexDigit, Hex4, IsHex4;
  }

  lemma LoneLowHalf(t: Bytes)
    requires IsHex4(t, 2) && 0xDC00 <= Hex4(t, 2) < 0xE000
    ensures Unicode(t).None?
  {
    hide HexDigit, Hex4;
  }

  lemma ShiftedHex(t: Bytes, at: nat, k: nat)
    requires k <= at && IsHex4(t, at)
    ensures IsHex4(t[k..], at - k) && Hex4(t[k..], at - k) == Hex4(t, at)
  {
    hide HexDigit;
  }

  /** Two bytes into an escape or later, no escape starts: the second half of a surrogate pair is none alone. */
  lemma NoEscapeInside(t: Bytes, k: nat)
    requires Unescape(t).Some? && 2 <= k < Used(t)
    ensures Unescape(t[k..]).None?
  {
    hide Unicode, Simple, HexDigit, IsHex4, Hex4;
    TailBytes(t, k);
    if t[k] == BACKSLASH {
      LowHalf(t);
      ShiftedHex(t, 8, 6);
      LoneLowHalf(t[6..]);
      SecondU(t);
    }
  }

  lemma SecondU(t: Bytes)
    requires Unescape(t).Some? && Used(t) == 12
    ensures t[7] == LOWER_U
  {
    hide HexDigit, Hex4, IsHex4;
  }

  lemma {:induction false} CopiedToken(t: Bytes, b: nat, e: nat)
    requires b <= e <= |t| && forall k :: b <= k < e ==> Unescape(t[k..]).None?
    ensures IsToken(t[b..], e - b)
    decreases e - b
  {
    hide Unescape;
    if b < e {
      CopiedToken(t, b + 1, e);
      assert t[b..][1..] == t[b + 1..];
    }
  }

  /** The text after a cut, with the backslash the second view puts before it. */
  function View(t: Bytes, b: nat, leading: bool): (v: Bytes)
    requires b <= |t|
    ensures |v| == |t| - b + Shift(leading)
  {
    if leading then ONE_BACKSLASH + t[b..] else t[b..]
  }

  function Shift(leading: bool): nat {
    if leading then 1 else 0
  }

  /** A cut inside the first token. */
  lemma CutInside(t: Bytes, b: nat) returns (leading: bool)
    requires t != [] && 0 < b < Used(t)
    ensures leading <==> b == 1
    ensures IsToken(View(t, b, leading), Used(t) - b + Shift(leading))
  {
    hide Unescape;
    var u := Used(t);
    leading := b == 1;
    if leading {
      EscapeStarts(t);
      assert ONE_BACKSLASH + t[1..] == t;
      assert IsToken(t[u..], 0);
    } else {
      forall k | b <= k < u
        ensures Unescape(t[k..]).None?
      {
        NoEscapeInside(t, k);
      }
      CopiedToken(t, b, u);
    }
  }

  lemma EscapeStarts(t: Bytes)
    requires Unescape(t).Some?
    ensures t[0] == BACKSLASH
  {
  }

  /** The end of the token that straddles the cut, and the view that finds it. */
  lemma {:induction false} FirstTokenAfter(t: Bytes, b: nat) returns (e: nat, leading: bool)
    requires b <= |t|
    ensures IsToken(t, e) && b <= e <= |t| && forall q :: b <= q < e ==> !IsToken(t, q)
    ensures IsToken(View(t, b, leading), e - b + Shift(leading))
  {
    hide Used;
    if b == 0 {
      e, leading := 0, false;
      assert t[0..] == t;
    } else {
      var u := Used(t);
      var rest := t[u..];
      if u <= b {
        e, leading := FirstTokenAfter(rest, b - u);
        assert rest[b - u..] == t[b..];
        e := e + u;
      } else {
        leading := CutInside(t, b);
        e := u;
        assert IsToken(rest, 0);
      }
    }
  }

  /**
   Whatever the text and wherever it is cut, one of the two views of what follows has, from the end of the token
   that straddles the cut, exactly the tokens of the whole text, and decodes to the same from there.
   */
  lemma Resynchronises(t: Bytes, b: nat) returns (e: nat, leading: bool)
    requires b <= |t|
    ensures IsToken(t, e) && b <= e <= |t| && forall q :: b <= q < e ==> !IsToken(t, q)
    ensures var v, f := View(t, b, leading), e - b + Shift(leading);
            && IsToken(v, f)
            && (forall q: nat :: q >= e ==> (IsToken(t, q) <==> IsToken(v, q - b + Shift(leading))))
            && Decode(v)[DecodedBefore(v, f)..] == Decode(t)[DecodedBefore(t, e)..]
  {
    hide IsToken, DecodedBefore, Decode;
    e, leading := FirstTokenAfter(t, b);
    var v, f := View(t, b, leading), e - b + Shift(leading);
    assert v[f..] == t[e..];
    forall q: nat | q >= e
      ensures IsToken(t, q) <==> IsToken(v, q - b + Shift(leading))
    {
      TokensAfter(v, f, q - e);
      TokensAfter(t, e, q - e);
    }
    DecodeFromToken(t, e);
    DecodeFromToken(v, f);
  }

  // ----- a value found in the whole text is found after the cut -----

  /** A match of the whole text that lies after the cut, as a match of the view that found the tokens again. */
  lemma MatchInView(t: Bytes, b: nat, e: nat, leading: bool, p: nat, q: nat) returns (i: nat)
    requires b <= e <= p && IsToken(t, p) && IsToken(t, q) && q <= |t|
    requires DecodedBefore(t, p) <= DecodedBefore(t, q) && p <= q
    requires IsToken(View(t, b, leading), p - b + Shift(leading))
    ensures var v, n := View(t, b, leading), DecodedBefore(t, q) - DecodedBefore(t, p);
            && i + n <= |Decode(v)|
            && Decode(v)[i..i + n] == Decode(t)[DecodedBefore(t, p)..DecodedBefore(t, q)]
            && Origins(v, 0)[i] == p - b + Shift(leading)
            && Origins(v, 0)[i + n] == q - b + Shift(leading)
  {
    hide IsToken, DecodedBefore, Decode, Origins;
    var v, f := View(t, b, leading), p - b + Shift(leading);
    ViewFrom(t, b, leading, p);
    LaterToken(t, p, q);
    TokensCompose(v, f, q - p);
    i := DecodedBefore(v, f);
    OriginOfToken(v, 0, f);
    OriginOfToken(v, 0, f + (q - p));
    DecodeFromToken(v, f);
    DecodeFromToken(t, p);
    SameStretch(Decode(v), i, Decode(t), DecodedBefore(t, p), DecodedBefore(t, q) - DecodedBefore(t, p));
  }

  lemma ViewFrom(t: Bytes, b: nat, leading: bool, p: nat)
    requires b <= p <= |t|
    ensures View(t, b, leading)[p - b + Shift(leading)..] == t[p..]
  {
  }

  lemma SameStretch(a: Bytes, i: nat, b: Bytes, j: nat, n: nat)
    requires i <= |a| && j + n <= |b| && a[i..] == b[j..]
    ensures i + n <= |a| && a[i..i + n] == b[j..j + n]
  {
    assert |a[i..]| == |b[j..]|;
    assert a[i..i + n] == a[i..][..n] && b[j..j + n] == b[j..][..n];
  }

  /** The decoded view the redactor makes of the text after a cut. */
  function CutView(t: Bytes, b: nat, leading: bool): (view: Decoded)
    requires b <= |t|
    ensures Mapped(view)
  {
    if leading then LeadingView(t[b..]) else PlainView(t[b..])
  }

  lemma CutViewOrigin(t: Bytes, b: nat, leading: bool, i: nat)
    requires b <= |t| && i <= |Decode(View(t, b, leading))|
    ensures CutView(t, b, leading).text == Decode(View(t, b, leading))
    ensures CutView(t, b, leading).origin[i] == Monus(Origins(View(t, b, leading), 0)[i], Shift(leading))
  {
    hide Decode, Origins;
  }

  lemma HiddenInCutView(values: seq<Bytes>, t: Bytes, b: nat, leading: bool, v: Bytes, i: nat, j: nat, x: nat)
    requires b <= |t| && v in values && Occurs(v, CutView(t, b, leading).text, i, j)
    requires CutView(t, b, leading).origin[i] <= x < CutView(t, b, leading).origin[j]
    ensures Hidden(values, t[b..], true, x)
  {
    hide Decode, Origins;
  }

  /** Every occurrence in the decoded text that starts after the cut is hidden in the text after the cut. */
  lemma DecodedHiddenAfterCut(values: seq<Bytes>, t: Bytes, b: nat, v: Bytes, i: nat, j: nat, x: nat)
    requires AllSecrets(values) && Valid(t) && v in values && Occurs(v, Decode(t), i, j)
    requires b <= Origins(t, 0)[i] <= x < Origins(t, 0)[j]
    ensures b <= |t| && Hidden(values, t[b..], true, x - b)
  {
    hide IsToken, DecodedBefore, Decode, Origins, Valid, IsSecret, AllSecrets, Hidden, CutView, View;
    SecretIsLong(values, v);
    DecodedOccurrence(t, v, i, j);
    var p, q := Origins(t, 0)[i], Origins(t, 0)[j];
    var e, leading := Resynchronises(t, b);
    var k := MatchInView(t, b, e, leading, p, q);
    CutViewOrigin(t, b, leading, k);
    CutViewOrigin(t, b, leading, k + |v|);
    HiddenInCutView(values, t, b, leading, v, k, k + |v|, x - b);
  }

  lemma RawHiddenAfterCut(values: seq<Bytes>, t: Bytes, b: nat, cut: bool, v: Bytes, i: nat, j: nat, x: nat)
    requires v in values && Occurs(v, t, i, j) && b <= i <= x < j
    ensures b <= |t| && Hidden(values, t[b..], cut, x - b)
  {
    var rest := t[b..];
    assert rest[i - b..j - b] == t[i..j];
    assert Occurs(v, RawView(rest).text, i - b, j - b);
  }

  // ----- every spelling is hidden -----

  lemma {:induction false} WrittenIsToken(ps: seq<Spelling>, rest: Bytes)
    requires forall s :: s in ps ==> CanWrite(s)
    ensures IsToken(WrittenAll(ps) + rest, |WrittenAll(ps)|)
    ensures DecodedBefore(WrittenAll(ps) + rest, |WrittenAll(ps)|) == |Spelled(ps)|
  {
    hide CanWrite, Written, IsToken, DecodedBefore, Encode;
    if ps == [] {
      NoTokens(WrittenAll(ps) + rest);
    } else {
      var first, more := ps[0], ps[1..];
      var tail := WrittenAll(more) + rest;
      WrittenIsToken(more, rest);
      SpellingIsToken(first, tail);
      assert WrittenAll(ps) + rest == Written(first) + tail;
      assert (Written(first) + tail)[|Written(first)|..] == tail;
      TokensCompose(Written(first) + tail, |Written(first)|, |WrittenAll(more)|);
    }
  }

  lemma NoTokens(t: Bytes)
    ensures IsToken(t, 0) && DecodedBefore(t, 0) == 0
  {
  }

  lemma SpellingIsToken(s: Spelling, rest: Bytes)
    requires CanWrite(s)
    ensures IsToken(Written(s) + rest, |Written(s)|)
    ensures DecodedBefore(Written(s) + rest, |Written(s)|) == |Encode(s.c)|
  {
    hide Unescape, CanWrite, Encode;
    var t, k := Written(s) + rest, |Written(s)|;
    assert t[k..] == rest && t[..k] == Written(s);
    if s.style.Bare? {
      WrittenBare(s);
      CopiedIsToken(t, k);
    } else {
      WrittenEscape(s, rest);
      NoTokens(rest);
    }
  }

  lemma {:induction false} CopiedIsToken(t: Bytes, k: nat)
    requires k <= |t| && forall i :: 0 <= i < k ==> t[i] != BACKSLASH
    ensures IsToken(t, k) && DecodedBefore(t, k) == k
    decreases k
  {
    hide Unicode, Simple, Decode;
    if k > 0 {
      CopiedIsToken(t[1..], k - 1);
    }
  }

  /** A value is hidden wherever it is written, in any mixture of spellings, from a token of the text on. */
  lemma EverySpellingIsHidden(values: seq<Bytes>, before: Bytes, ps: seq<Spelling>, after: Bytes, cut: bool, x: nat)
    requires (forall s :: s in ps ==> CanWrite(s)) && Spelled(ps) in values
    requires IsToken(before + (WrittenAll(ps) + after), |before|)
    requires |before| <= x < |before| + |WrittenAll(ps)|
    ensures Hidden(values, before + (WrittenAll(ps) + after), cut, x)
  {
    hide CanWrite, WrittenAll, Spelled, IsToken, DecodedBefore, Decode, Origins;
    var w := WrittenAll(ps) + after;
    var t, p, n := before + w, |before|, |WrittenAll(ps)|;
    assert t[p..] == w;
    WrittenIsToken(ps, after);
    TokensCompose(t, p, n);
    var i, v := DecodedBefore(t, p), Spelled(ps);
    DecodeFromToken(t, p);
    EverySpellingDecodes(ps, after);
    assert Decode(t)[i..][..|v|] == v;
    OriginOfToken(t, 0, p);
    OriginOfToken(t, 0, p + n);
    assert Occurs(v, PlainView(t).text, i, i + |v|);
  }
  /** In a text that is itself written as a JSON string, a value is hidden in whatever spelling it stands. */
  lemma WrittenValueIsHidden(values: seq<Bytes>, before: seq<Spelling>, ps: seq<Spelling>, after: Bytes, cut: bool, x: nat)
    requires (forall s :: s in before ==> CanWrite(s)) && (forall s :: s in ps ==> CanWrite(s))
    requires Spelled(ps) in values
    requires |WrittenAll(before)| <= x < |WrittenAll(before)| + |WrittenAll(ps)|
    ensures Hidden(values, WrittenAll(before) + (WrittenAll(ps) + after), cut, x)
  {
    hide CanWrite, WrittenAll, Spelled, IsToken, DecodedBefore, Hidden;
    WrittenIsToken(before, WrittenAll(ps) + after);
    EverySpellingIsHidden(values, WrittenAll(before), ps, after, cut, x);
  }
}
