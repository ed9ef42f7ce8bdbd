/** Reading UTF-8 back: the well-formed characters are exactly the encodings of the scalar values. */
module Scalars {
  import opened Utf8

  /** The number with these four digits to the base 64, the six bits that a continuation byte carries. */
  function Bits(a: nat, b: nat, c: nat, d: nat): nat {
    ((a * 64 + b) * 64 + c) * 64 + d
  }

  /** The scalar value of the character `t` starts with, the bits of its bytes put together. */
  function ScalarOf(t: Bytes): nat
    requires CharLen(t) > 0
  {
    var lead: int := t[0];
    var more := (i: nat) requires 0 < i < CharLen(t) => t[i] % 64;
    if CharLen(t) == 1 then lead
    else if CharLen(t) == 2 then Bits(0, 0, lead - 0xC0, more(1))
    else if CharLen(t) == 3 then Bits(0, lead - 0xE0, more(1), more(2))
    else Bits(lead - 0xF0, more(1), more(2), more(3))
  }

  lemma Digit(n: nat, q: nat, r: nat)
    requires r < 64
    ensures n == q * 64 + r <==> q == n / 64 && r == n % 64
  {
  }

  lemma Quotients(n: nat)
    ensures n / 4096 == n / 64 / 64 && n / 262144 == n / 64 / 64 / 64
  {
  }

  lemma BitsOf(n: nat, a: nat, b: nat, c: nat, d: nat)
    requires b < 64 && c < 64 && d < 64
    ensures n == Bits(a, b, c, d) <==> a == n / 262144 && b == n / 4096 % 64 && c == n / 64 % 64 && d == n % 64
  {
    Quotients(n);
    Digit(n, (a * 64 + b) * 64 + c, d);
    Digit(n / 64, a * 64 + b, c);
    Digit(n / 64 / 64, a, b);
  }

  /** A continuation byte carries six bits. */
  lemma Continued(n: nat)
    ensures (0x80 + n % 64) % 64 == n % 64
  {
  }

  /** What is encoded can be read back. */
  lemma ScalarOfEncode(c: nat)
    requires IsScalar(c)
    ensures ScalarOf(Encode(c)) == c
  {
    hide Bits, CharLen;
    BitsOf(c, c / 262144, c / 4096 % 64, c / 64 % 64, c % 64);
    if c >= 0x80 {
      Continued(c);
      Continued(c / 64);
      Continued(c / 4096);
    }
  }

  /** A well-formed character is the encoding of one scalar value, and of no other. */
  lemma EncodeScalarOf(t: Bytes)
    requires CharLen(t) > 0
    ensures IsScalar(ScalarOf(t)) && t[..CharLen(t)] == Encode(ScalarOf(t))
  {
    hide ScalarOf, Encode;
    if CharLen(t) == 1 {
      OneByte(t);
    } else if CharLen(t) == 2 {
      TwoBytes(t);
    } else if CharLen(t) == 3 {
      ThreeBytes(t);
    } else if CharLen(t) == 4 {
      FourBytes(t);
    }
  }

  lemma OneByte(t: Bytes)
    requires CharLen(t) == 1
    ensures IsScalar(ScalarOf(t)) && t[..1] == Encode(ScalarOf(t))
  {
  }

  lemma TwoBytes(t: Bytes)
    requires CharLen(t) == 2
    ensures IsScalar(ScalarOf(t)) && t[..2] == Encode(ScalarOf(t))
  {
    BitsOf(ScalarOf(t), 0, 0, t[0] as int - 0xC0, t[1] % 64);
  }

  lemma ThreeBytes(t: Bytes)
    requires CharLen(t) == 3
    ensures IsScalar(ScalarOf(t)) && t[..3] == Encode(ScalarOf(t))
  {
    BitsOf(ScalarOf(t), 0, t[0] as int - 0xE0, t[1] % 64, t[2] % 64);
  }

  lemma FourBytes(t: Bytes)
    requires CharLen(t) == 4
    ensures IsScalar(ScalarOf(t)) && t[..4] == Encode(ScalarOf(t))
  {
    BitsOf(ScalarOf(t), t[0] as int - 0xF0, t[1] % 64, t[2] % 64, t[3] % 64);
  }

  /** Well-formed text is the encodings of scalar values one after another. */
  function Text(scalars: seq<nat>): Bytes
    requires forall c :: c in scalars ==> IsScalar(c)
  {
    if scalars == [] then [] else Encode(scalars[0]) + Text(scalars[1..])
  }

  lemma {:induction false} ScalarsOf(t: Bytes) returns (scalars: seq<nat>)
    requires Valid(t)
    ensures (forall c :: c in scalars ==> IsScalar(c)) && t == Text(scalars)
    decreases |t|
  {
    hide CharLen, ScalarOf, Encode;
    if t == [] {
      scalars := [];
    } else {
      var more := ScalarsOf(t[CharLen(t)..]);
      EncodeScalarOf(t);
      scalars := [ScalarOf(t)] + more;
      assert t == t[..CharLen(t)] + t[CharLen(t)..];
    }
  }

  lemma {:induction false} TextIsValid(scalars: seq<nat>)
    requires forall c :: c in scalars ==> IsScalar(c)
    ensures Valid(Text(scalars))
  {
    if scalars != [] {
      TextIsValid(scalars[1..]);
      var c := Encode(scalars[0]);
      assert c[|c|..] == [];
      ValidConcat(c, Text(scalars[1..]));
    }
  }
}
