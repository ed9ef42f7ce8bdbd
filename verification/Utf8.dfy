/** Bytes, and well-formed UTF-8 as in table 3-7 of the Unicode Standard. */
module Utf8 {
  type Byte = b: int | 0 <= b < 256
  type Bytes = seq<Byte>

  predicate IsContinuation(b: Byte) {
    0x80 <= b < 0xC0
  }

  /** Length of the well-formed character `t` starts with, or 0 when there is none. */
  function CharLen(t: Bytes): (n: nat)
    ensures n <= |t|
  {
    if |t| == 0 then 0
    else if t[0] < 0x80 then 1
    else if 0xC2 <= t[0] <= 0xDF && |t| >= 2 && IsContinuation(t[1]) then 2
    else if 0xE0 <= t[0] <= 0xEF && |t| >= 3 && IsContinuation(t[1]) && IsContinuation(t[2])
         && (t[0] == 0xE0 ==> t[1] >= 0xA0) && (t[0] == 0xED ==> t[1] < 0xA0) then 3
    else if 0xF0 <= t[0] <= 0xF4 && |t| >= 4
         && IsContinuation(t[1]) && IsContinuation(t[2]) && IsContinuation(t[3])
         && (t[0] == 0xF0 ==> t[1] >= 0x90) && (t[0] == 0xF4 ==> t[1] < 0x90) then 4
    else 0
  }

  /** A sequence of well-formed characters. */
  predicate Valid(t: Bytes) {
    t == [] || (CharLen(t) > 0 && Valid(t[CharLen(t)..]))
  }

  /** A position where a character starts, or the end. */
  predicate IsBoundary(t: Bytes, i: nat) {
    i <= |t| && (i < |t| ==> !IsContinuation(t[i]))
  }

  predicate IsScalar(c: int) {
    0 <= c < 0xD800 || 0xE000 <= c < 0x110000
  }

  function Encode(c: nat): (t: Bytes)
    requires IsScalar(c)
    ensures 0 < |t| <= 4 && CharLen(t) == |t|
    ensures forall i :: 0 < i < |t| ==> IsContinuation(t[i])
    ensures c < 0x80 ==> t == [c]
    ensures c >= 0x80 ==> t[0] >= 0x80 && |t| >= 2
    ensures c >= 0x10000 ==> |t| == 4
  {
    if c < 0x80 then [c]
    else if c < 0x800 then [0xC0 + c / 64, 0x80 + c % 64]
    else if c < 0x10000 then [0xE0 + c / 4096, 0x80 + c / 64 % 64, 0x80 + c % 64]
    else [0xF0 + c / 262144, 0x80 + c / 4096 % 64, 0x80 + c / 64 % 64, 0x80 + c % 64]
  }

  /** The first character decides its own length. */
  lemma CharLenOfPrefix(t: Bytes, k: nat)
    requires k <= |t| && CharLen(t[..k]) > 0
    ensures CharLen(t) == CharLen(t[..k])
  {
  }

  lemma CharShape(t: Bytes)
    requires CharLen(t) > 0
    ensures !IsContinuation(t[0])
    ensures forall i :: 0 < i < CharLen(t) ==> IsContinuation(t[i])
    ensures t[0] < 0x80 <==> CharLen(t) == 1
  {
  }

  lemma {:induction false} ValidConcat(a: Bytes, b: Bytes)
    requires Valid(a) && Valid(b)
    ensures Valid(a + b)
    decreases |a|
  {
    if a == [] {
      assert a + b == b;
    } else {
      var k := CharLen(a);
      assert (a + b)[..|a|] == a;
      CharLenOfPrefix(a + b, |a|);
      assert (a + b)[k..] == a[k..] + b;
      ValidConcat(a[k..], b);
    }
  }

  /** Text splits at a character boundary into two texts. */
  lemma {:induction false} ValidSplit(t: Bytes, i: nat)
    requires Valid(t) && IsBoundary(t, i)
    ensures Valid(t[..i]) && Valid(t[i..])
    decreases |t|
  {
    hide CharLen;
    if i == 0 {
      assert t[0..] == t;
    } else {
      CharShape(t);
      var k := CharLen(t);
      assert t[k..][i - k..] == t[i..];
      ValidSplit(t[k..], i - k);
      assert t[..i][k..] == t[k..][..i - k];
      SameFirst(t, i);
    }
  }

  /** A beginning that holds the first character starts with it. */
  lemma SameFirst(t: Bytes, i: nat)
    requires CharLen(t) <= i <= |t| && CharLen(t) > 0
    ensures CharLen(t[..i]) == CharLen(t)
  {
  }

  /** A text that begins with another text has a boundary where that one ends. */
  lemma {:induction false} PrefixEndsOnBoundary(t: Bytes, k: nat)
    requires k <= |t| && Valid(t) && Valid(t[..k])
    ensures IsBoundary(t, k)
    decreases k
  {
    if k == 0 {
      if t != [] {
        CharShape(t);
      }
    } else {
      CharLenOfPrefix(t, k);
      var n := CharLen(t);
      assert t[..k][n..] == t[n..][..k - n];
      PrefixEndsOnBoundary(t[n..], k - n);
    }
  }

  /** Wherever one text occurs inside another, it starts and ends on character boundaries. */
  lemma OccurrenceIsAligned(t: Bytes, v: Bytes, i: nat, j: nat)
    requires Valid(t) && Valid(v) && v != []
    requires i <= j <= |t| && t[i..j] == v
    ensures IsBoundary(t, i) && IsBoundary(t, j)
  {
    CharShape(v);
    assert t[i] == v[0];
    ValidSplit(t, i);
    assert t[i..][..j - i] == v;
    PrefixEndsOnBoundary(t[i..], j - i);
  }
}
