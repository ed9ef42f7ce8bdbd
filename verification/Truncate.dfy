/** Cutting a text to a character cap, keeping head and tail around a marker that counts what is left out. */
module Truncation {
  import opened Common

  function Digit(d: nat): char
    requires d < 10
  {
    ['0', '1', '2', '3', '4', '5', '6', '7', '8', '9'][d]
  }

  function Decimal(n: nat): (s: string)
    ensures s != ""
  {
    if n < 10 then [Digit(n)] else Decimal(n / 10) + [Digit(n % 10)]
  }

  const MARKER_START: string := "[... "
  const MARKER_END: string := " characters omitted ...]"

  function Marker(omitted: nat): string {
    MARKER_START + Decimal(omitted) + MARKER_END
  }

  function Half(n: nat): nat {
    n / 2
  }

  /** Head and tail of a text with the marker between; the head has the odd character. */
  function Around(text: string, kept: nat): string
    requires kept <= |text|
  {
    text[..kept - Half(kept)] + Marker(|text| - kept) + text[|text| - Half(kept)..]
  }

  /** Keeping this many characters leaves room for the marker that goes with it. */
  predicate Fits(length: nat, cap: nat, kept: nat) {
    kept <= length && kept + |Marker(length - kept)| <= cap
  }

  /** A longer count has at least as many digits. */
  lemma {:induction false} DigitsGrow(m: nat, n: nat)
    requires m <= n
    ensures |Decimal(m)| <= |Decimal(n)|
    decreases n
  {
    if n >= 10 && m >= 10 {
      DigitsGrow(m / 10, n / 10);
    }
  }

  /** Omitting more needs a marker at least as long. */
  lemma MarkerGrows(length: nat, more: nat, less: nat)
    requires less <= more <= length
    ensures |Marker(length - more)| <= |Marker(length - less)|
  {
    DigitsGrow(length - more, length - less);
  }

  /** The most that can be kept: no larger count fits together with its own marker. */
  ghost predicate MostKept(length: nat, cap: nat, kept: nat) {
    Fits(length, cap, kept) && forall k: nat :: Fits(length, cap, k) ==> k <= kept
  }

  /** A text shortened as far as needed and no further; the head alone only when no count fits at all. */
  ghost predicate Shortened(text: string, cap: nat, out: string) {
    || (exists kept: nat :: MostKept(|text|, cap, kept) && out == Around(text, kept))
    || ((forall k: nat :: !Fits(|text|, cap, k)) && cap <= |text| && out == text[..cap])
  }

  lemma ShortenedFits(text: string, cap: nat, out: string)
    requires Shortened(text, cap, out)
    ensures |out| <= cap
  {
    hide Marker;
    if kept: nat :| MostKept(|text|, cap, kept) && out == Around(text, kept) {
      assert |out| == kept + |Marker(|text| - kept)|;
    }
  }

  method Truncate(text: string, cap: nat) returns (out: string)
    ensures if |text| <= cap then out == text else Shortened(text, cap, out)
    ensures |out| <= cap
  {
    hide Marker, Shortened;
    var length := |text|;
    if length <= cap {
      return text;
    }
    var kept: nat := cap;
    while true
      invariant kept <= cap < length
      invariant forall k: nat :: Fits(length, cap, k) ==> k <= kept
      decreases kept
    {
      var marker := Marker(length - kept);
      if |marker| > cap {
        NoneFits(length, cap, kept);
        out := text[..cap];
        HeadIsShortened(text, cap);
        return;
      }
      var next := cap - |marker|;
      if next >= kept {
        var tail := Half(kept);
        out := text[..kept - tail] + marker + text[length - tail..];
        KeptIsShortened(text, cap, kept);
        ShortenedFits(text, cap, out);
        return;
      }
      FewerFit(length, cap, kept);
      kept := next;
    }
  }

  lemma HeadIsShortened(text: string, cap: nat)
    requires cap <= |text| && forall k: nat :: !Fits(|text|, cap, k)
    ensures Shortened(text, cap, text[..cap])
  {
  }

  lemma KeptIsShortened(text: string, cap: nat, kept: nat)
    requires MostKept(|text|, cap, kept)
    ensures Shortened(text, cap, Around(text, kept))
  {
  }

  lemma NoneFits(length: nat, cap: nat, kept: nat)
    requires kept <= length && |Marker(length - kept)| > cap && forall k: nat :: Fits(length, cap, k) ==> k <= kept
    ensures forall k: nat :: !Fits(length, cap, k)
  {
    hide Marker;
    forall k: nat | Fits(length, cap, k)
      ensures false
    {
      MarkerGrows(length, kept, k);
    }
  }

  lemma FewerFit(length: nat, cap: nat, kept: nat)
    requires kept <= length && |Marker(length - kept)| <= cap && forall k: nat :: Fits(length, cap, k) ==> k <= kept
    ensures forall k: nat :: Fits(length, cap, k) ==> k <= cap - |Marker(length - kept)|
  {
    hide Marker;
    forall k: nat | Fits(length, cap, k)
      ensures k <= cap - |Marker(length - kept)|
    {
      MarkerGrows(length, kept, k);
    }
  }

  // ----- what the marker says -----

  function Parsed(s: string): Option<nat> {
    if s == "" then None
    else if |s| == 1 then (if '0' <= s[0] <= '9' then Some(s[0] as int - '0' as int) else None)
    else
      var init := Parsed(s[..|s| - 1]);
      var c := s[|s| - 1];
      if init.Some? && '0' <= c <= '9' then Some(init.value * 10 + (c as int - '0' as int)) else None
  }

  /** The number in the marker is the number of characters left out. */
  lemma {:induction false} DecimalReads(n: nat)
    ensures Parsed(Decimal(n)) == Some(n)
  {
    if n >= 10 {
      DecimalReads(n / 10);
      var s := Decimal(n);
      assert s[..|s| - 1] == Decimal(n / 10);
    }
  }

  /**
   What is kept is a prefix and a suffix of the text, as long as each other or the prefix one longer, that together leave
   out exactly the number stated.
   */
  lemma AroundKeeps(text: string, kept: nat)
    requires kept <= |text|
    ensures var tail := Half(kept);
            var omitted := |text| - kept;
            && kept - tail - 1 <= tail <= kept - tail
            && Around(text, kept) == text[..kept - tail] + Marker(omitted) + text[|text| - tail..]
            && text == text[..kept - tail] + text[kept - tail..|text| - tail] + text[|text| - tail..]
            && |text[kept - tail..|text| - tail]| == omitted && Parsed(Decimal(omitted)) == Some(omitted)
            && |Around(text, kept)| == kept + |Marker(omitted)|
  {
    DecimalReads(|text| - kept);
  }
}
