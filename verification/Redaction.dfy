/** Redacting secret values from text: raw occurrences and occurrences spelled with JSON escapes. */
module Redaction {
  import opened Common
  import opened Utf8
  import opened Escapes
  import opened DecodedText
  import opened SpanMask

  const MIN_SECRET_CHARS: nat := 6

  function CharCount(t: Bytes): (n: nat)
    ensures n <= |t|
  {
    if t == [] || CharLen(t) == 0 then 0 else 1 + CharCount(t[CharLen(t)..])
  }

  predicate IsSecret(v: Bytes) {
    Valid(v) && CharCount(v) >= MIN_SECRET_CHARS
  }

  predicate AllSecrets(values: seq<Bytes>) {
    forall v :: v in values ==> IsSecret(v)
  }

  function Longest(values: seq<Bytes>): (n: nat)
    ensures forall v :: v in values ==> |v| <= n
    ensures values != [] ==> exists v :: v in values && |v| == n
    ensures values == [] ==> n == 0
  {
    if values == [] then 0
    else
      var rest := Longest(values[1..]);
      assert forall v :: v in values ==> v == values[0] || v in values[1..];
      assert values[1..] == [] ==> rest == 0;
      if |values[0]| >= rest then |values[0]| else rest
  }

  /** No match maps back to a longer range: the longest value with each byte escaped. */
  function Reach(values: seq<Bytes>): nat {
    Longest(values) * ESCAPE_GROWTH
  }

  // ----- every match, in order of its end -----

  predicate Occurs(v: Bytes, text: Bytes, i: int, j: int) {
    0 <= i <= j <= |text| && text[i..j] == v
  }

  function EndingAt(values: seq<Bytes>, text: Bytes, end: nat): (spans: seq<Span>)
    requires end <= |text|
    ensures forall s :: s in spans ==> s.end == end && s.start <= end
  {
    if values == [] then []
    else
      var v := values[0];
      (if |v| <= end && text[end - |v|..end] == v then [Span(end - |v|, end)] else [])
      + EndingAt(values[1..], text, end)
  }

  function Matches(values: seq<Bytes>, text: Bytes, upTo: nat): (spans: seq<Span>)
    requires upTo <= |text|
    ensures forall s :: s in spans ==> s.start <= s.end <= upTo
  {
    if upTo == 0 then EndingAt(values, text, 0)
    else Matches(values, text, upTo - 1) + EndingAt(values, text, upTo)
  }

  lemma {:induction false} EndingAtIsExact(values: seq<Bytes>, text: Bytes, end: nat, start: nat)
    requires end <= |text|
    ensures Span(start, end) in EndingAt(values, text, end) <==> exists v :: v in values && Occurs(v, text, start, end)
  {
    if values != [] {
      var v := values[0];
      EndingAtIsExact(values[1..], text, end, start);
      assert forall w :: w in values <==> w == v || w in values[1..];
      assert Occurs(v, text, start, end) <==> |v| <= end && start == end - |v| && text[end - |v|..end] == v;
    }
  }

  /** The matches up to a point are exactly the occurrences of a value that end there or before. */
  lemma {:induction false} MatchesAreExact(values: seq<Bytes>, text: Bytes, upTo: nat, i: nat, j: nat)
    requires upTo <= |text|
    ensures Span(i, j) in Matches(values, text, upTo)
       <==> j <= upTo && exists v :: v in values && Occurs(v, text, i, j)
  {
    hide EndingAt, Occurs;
    if j <= |text| {
      EndingAtIsExact(values, text, j, i);
    }
    if upTo > 0 {
      MatchesAreExact(values, text, upTo - 1, i, j);
    }
  }

  predicate InOrder(spans: seq<Span>) {
    forall i, j :: 0 <= i < j < |spans| ==> spans[i].end <= spans[j].end
  }

  lemma {:induction false} MatchesInOrder(values: seq<Bytes>, text: Bytes, upTo: nat)
    requires upTo <= |text|
    ensures InOrder(Matches(values, text, upTo))
  {
    hide EndingAt;
    var now := EndingAt(values, text, upTo);
    assert forall k :: 0 <= k < |now| ==> now[k] in now;
    if upTo > 0 {
      MatchesInOrder(values, text, upTo - 1);
      var before := Matches(values, text, upTo - 1);
      assert forall k :: 0 <= k < |before| ==> before[k] in before;
    }
  }

  // ----- matches in a view, mapped back to the text -----

  function RawView(t: Bytes): (view: Decoded)
    ensures Mapped(view)
  {
    Decoded(t, Upwards(0, |t| + 1))
  }

  function MapBack(spans: seq<Span>, view: Decoded): (r: seq<Span>)
    requires Mapped(view) && forall s :: s in spans ==> s.start <= s.end <= |view.text|
    ensures |r| == |spans|
    ensures forall k :: 0 <= k < |r| ==> r[k] == Span(view.origin[spans[k].start], view.origin[spans[k].end])
  {
    if spans == [] then []
    else
      var (start, end) := view.Original(spans[0].start, spans[0].end);
      [Span(start, end)] + MapBack(spans[1..], view)
  }

  function ViewSpans(values: seq<Bytes>, view: Decoded): seq<Span>
    requires Mapped(view)
  {
    MapBack(Matches(values, view.text, |view.text|), view)
  }

  /** A position of the text that an occurrence of a value in the view comes from. */
  ghost predicate HiddenIn(values: seq<Bytes>, view: Decoded, p: int)
    requires Mapped(view)
  {
    exists v, i, j :: v in values && Occurs(v, view.text, i, j) && view.origin[i] <= p < view.origin[j]
  }

  /** Occurrences map back to non-empty ranges within reach, in the same order. */
  ghost predicate Faithful(values: seq<Bytes>, view: Decoded, size: nat) {
    && Mapped(view)
    && (forall v, i, j :: v in values && Occurs(v, view.text, i, j) ==>
          view.origin[i] < view.origin[j] <= size && view.origin[j] - view.origin[i] <= Reach(values))
    && (forall v, w, i, j, k, l ::
          (v in values && w in values && Occurs(v, view.text, i, j) && Occurs(w, view.text, k, l) && j <= l) ==>
            view.origin[j] <= view.origin[l])
  }

  lemma ViewSpanIsOccurrence(values: seq<Bytes>, view: Decoded, k: nat) returns (v: Bytes)
    requires Mapped(view) && k < |ViewSpans(values, view)|
    ensures var m := Matches(values, view.text, |view.text|)[k]; v in values && Occurs(v, view.text, m.start, m.end)
  {
    hide Matches, Occurs;
    var m := Matches(values, view.text, |view.text|)[k];
    MatchesAreExact(values, view.text, |view.text|, m.start, m.end);
    v :| v in values && Occurs(v, view.text, m.start, m.end);
  }

  lemma ViewSpansArrive(values: seq<Bytes>, view: Decoded, size: nat)
    requires Faithful(values, view, size)
    ensures Arrived(ViewSpans(values, view), size, Reach(values))
  {
    hide Matches, Occurs, Reach;
    var found, spans := Matches(values, view.text, |view.text|), ViewSpans(values, view);
    MatchesInOrder(values, view.text, |view.text|);
    forall k | 0 <= k < |spans|
      ensures spans[k].start < spans[k].end <= size && spans[k].end - spans[k].start <= Reach(values)
    {
      var v := ViewSpanIsOccurrence(values, view, k);
    }
    forall k, l | 0 <= k < l < |spans|
      ensures spans[k].end <= spans[l].end
    {
      var v := ViewSpanIsOccurrence(values, view, k);
      var w := ViewSpanIsOccurrence(values, view, l);
      assert found[k].end <= found[l].end;
    }
  }

  lemma ViewSpansCover(values: seq<Bytes>, view: Decoded, p: int)
    requires Mapped(view)
    ensures Covered(ViewSpans(values, view), p) <==> HiddenIn(values, view, p)
  {
    hide Matches;
    var found, spans := Matches(values, view.text, |view.text|), ViewSpans(values, view);
    if Covered(spans, p) {
      var k :| 0 <= k < |spans| && spans[k].Has(p);
      var v := ViewSpanIsOccurrence(values, view, k);
    }
    if HiddenIn(values, view, p) {
      var v, i, j :| v in values && Occurs(v, view.text, i, j) && view.origin[i] <= p < view.origin[j];
      OccursWithin(v, view.text, i, j);
      MatchesAreExact(values, view.text, |view.text|, i, j);
      var k :| 0 <= k < |found| && found[k] == Span(i, j);
      assert spans[k].Has(p);
    }
  }

  lemma HidingMatch(values: seq<Bytes>, view: Decoded, p: int) returns (v: Bytes, i: nat, j: nat)
    requires Mapped(view) && HiddenIn(values, view, p)
    ensures v in values && Occurs(v, view.text, i, j) && i <= j <= |view.text| && view.origin[i] <= p < view.origin[j]
  {
    v, i, j :| v in values && Occurs(v, view.text, i, j) && view.origin[i] <= p < view.origin[j];
  }

  lemma OccursWithin(v: Bytes, text: Bytes, i: int, j: int)
    requires Occurs(v, text, i, j)
    ensures 0 <= i <= j <= |text| && j - i == |v|
  {
  }

  // ----- the three views of a text -----

  lemma {:induction false} TokenGrows(t: Bytes, p: nat)
    requires IsToken(t, p)
    ensures DecodedBefore(t, p) <= p
  {
    hide Used, Yield;
    if p > 0 {
      YieldShrinks(t);
      TokenGrows(t[Used(t)..], p - Used(t));
    }
  }

  lemma YieldShrinks(t: Bytes)
    requires t != []
    ensures |Yield(t)| <= Used(t)
  {
    hide Unescape, Encode;
    if Unescape(t).Some? {
      ShortEncoding(Unescape(t).value.scalar);
      ShortEscape(t);
    }
  }

  lemma ShortEncoding(c: nat)
    requires IsScalar(c)
    ensures c < 0x80 ==> |Encode(c)| == 1
    ensures |Encode(c)| <= 4
  {
  }

  lemma ShortEscape(t: Bytes)
    requires Unescape(t).Some?
    ensures Unescape(t).value.used == 2 ==> Unescape(t).value.scalar < 0x80
    ensures Unescape(t).value.used >= 6 || Unescape(t).value.used == 2
  {
    hide IsHex4, Hex4;
  }

  /** Where an occurrence in the decoded text comes from. */
  lemma DecodedOccurrence(t: Bytes, v: Bytes, i: nat, j: nat)
    requires Valid(t) && Valid(v) && v != [] && Occurs(v, Decode(t), i, j)
    ensures var p, q := Origins(t, 0)[i], Origins(t, 0)[j];
            && p + |v| <= q <= |t| && q - p <= ESCAPE_GROWTH * |v|
            && IsToken(t, p) && IsToken(t, q) && DecodedBefore(t, p) == i && DecodedBefore(t, q) == j
  {
    hide IsToken, DecodedBefore, Valid, Decode;
    MatchCoversTokens(t, v, i, j);
    var p, q := Origins(t, 0)[i], Origins(t, 0)[j];
    LaterToken(t, p, q);
    TokenGrows(t[p..], q - p);
  }

  lemma SecretIsLong(values: seq<Bytes>, v: Bytes)
    requires AllSecrets(values) && v in values
    ensures Valid(v) && MIN_SECRET_CHARS <= |v| <= Longest(values) && ESCAPE_GROWTH * |v| <= Reach(values)
  {
  }

  lemma RawFaithful(values: seq<Bytes>, t: Bytes)
    requires AllSecrets(values)
    ensures Faithful(values, RawView(t), |t|)
  {
    hide Longest, Upwards, IsSecret;
    forall v | v in values
      ensures v != [] && |v| <= Reach(values)
    {
      SecretIsLong(values, v);
    }
  }

  lemma PlainFaithful(values: seq<Bytes>, t: Bytes)
    requires AllSecrets(values) && Valid(t)
    ensures Faithful(values, PlainView(t), |t|)
  {
    hide Decode, Valid, IsToken, DecodedBefore, Origins, Reach, IsSecret;
    var view := PlainView(t);
    forall v, i, j | v in values && Occurs(v, view.text, i, j)
      ensures view.origin[i] < view.origin[j] <= |t| && view.origin[j] - view.origin[i] <= Reach(values)
    {
      SecretIsLong(values, v);
      OccursWithin(v, view.text, i, j);
      DecodedOccurrence(t, v, i, j);
    }
    forall v, w, i, j, k, l | v in values && w in values && Occurs(v, view.text, i, j) && Occurs(w, view.text, k, l)
      && j <= l
      ensures view.origin[j] <= view.origin[l]
    {
      PlainEndsInOrder(values, t, v, w, i, j, k, l);
    }
  }

  lemma PlainEndsInOrder(values: seq<Bytes>, t: Bytes, v: Bytes, w: Bytes, i: int, j: int, k: int, l: int)
    requires AllSecrets(values) && Valid(t) && v in values && w in values
    requires Occurs(v, Decode(t), i, j) && Occurs(w, Decode(t), k, l) && j <= l
    ensures Origins(t, 0)[j] <= Origins(t, 0)[l]
  {
    hide Decode, Valid, IsToken, DecodedBefore, Origins, Reach, IsSecret;
    SecretIsLong(values, v);
    SecretIsLong(values, w);
    DecodedOccurrence(t, v, i, j);
    DecodedOccurrence(t, w, k, l);
    LaterToken(t, Origins(t, 0)[j], Origins(t, 0)[l]);
  }

  /** The range of the shifted view, for an occurrence of a value. */
  lemma LeadingRange(values: seq<Bytes>, t: Bytes, v: Bytes, i: int, j: int)
    requires AllSecrets(values) && Valid(t) && v in values && Occurs(v, Decode(ONE_BACKSLASH + t), i, j)
    ensures var origin := Origins(ONE_BACKSLASH + t, 0);
            Monus(origin[i], 1) < Monus(origin[j], 1) <= |t| && Monus(origin[j], 1) - Monus(origin[i], 1) <= Reach(values)
  {
    hide Decode, Valid, Origins, Reach, IsSecret, IsToken, DecodedBefore;
    BackslashFirst(t);
    SecretIsLong(values, v);
    DecodedOccurrence(ONE_BACKSLASH + t, v, i, j);
  }

  lemma LeadingFaithful(values: seq<Bytes>, t: Bytes)
    requires AllSecrets(values) && Valid(t)
    ensures Faithful(values, LeadingView(t), |t|)
  {
    var whole := ONE_BACKSLASH + t;
    hide Decode, Valid, Origins, Reach, IsSecret, ShiftedBack, ONE_BACKSLASH;
    BackslashFirst(t);
    var view := LeadingView(t);
    forall v, i, j | v in values && Occurs(v, view.text, i, j)
      ensures view.origin[i] < view.origin[j] <= |t| && view.origin[j] - view.origin[i] <= Reach(values)
    {
      LeadingRange(values, t, v, i, j);
    }
    forall v, w, i, j, k, l | v in values && w in values && Occurs(v, view.text, i, j) && Occurs(w, view.text, k, l)
      && j <= l
      ensures view.origin[j] <= view.origin[l]
    {
      PlainEndsInOrder(values, whole, v, w, i, j, k, l);
    }
  }

  /** Without a backslash the text decodes to itself. */
  lemma PlainIsRaw(t: Bytes)
    requires BACKSLASH !in t
    ensures PlainView(t) == RawView(t)
  {
    hide Upwards;
    CopiedBytes(t, 0, |t|);
    assert t[|t|..] == [];
    NothingLeft(|t|);
    assert Upwards(0, |t|) + [|t|] == Upwards(0, |t| + 1);
  }

  lemma RawSpans(values: seq<Bytes>, t: Bytes)
    ensures ViewSpans(values, RawView(t)) == Matches(values, t, |t|)
  {
    hide Matches, Upwards;
  }

  /**
   The positions to hide: those of every occurrence of a value in the text, in its decoded form, and, when the
   text was cut, in its form decoded after one backslash.
   */
  ghost predicate Hidden(values: seq<Bytes>, t: Bytes, cut: bool, p: int) {
    || HiddenIn(values, RawView(t), p)
    || HiddenIn(values, PlainView(t), p)
    || (cut && HiddenIn(values, LeadingView(t), p))
  }

  ghost function Found(values: seq<Bytes>, t: Bytes, cut: bool): seq<Span> {
    ViewSpans(values, RawView(t)) + ViewSpans(values, PlainView(t))
    + (if cut then ViewSpans(values, LeadingView(t)) else [])
  }

  lemma CoveredByEither(a: seq<Span>, b: seq<Span>, p: int)
    ensures Covered(a + b, p) <==> Covered(a, p) || Covered(b, p)
  {
    if Covered(a, p) {
      var i :| 0 <= i < |a| && a[i].Has(p);
      assert (a + b)[i].Has(p);
    }
    if Covered(b, p) {
      var i :| 0 <= i < |b| && b[i].Has(p);
      assert (a + b)[|a| + i].Has(p);
    }
  }

  lemma FoundIsHidden(values: seq<Bytes>, t: Bytes, cut: bool, p: int)
    ensures Covered(Found(values, t, cut), p) <==> Hidden(values, t, cut, p)
  {
    hide Covered, ViewSpans, HiddenIn, RawView, PlainView, LeadingView;
    var raw, plain := ViewSpans(values, RawView(t)), ViewSpans(values, PlainView(t));
    var leading := if cut then ViewSpans(values, LeadingView(t)) else [];
    CoveredByEither(raw, plain, p);
    CoveredByEither(raw + plain, leading, p);
    ViewSpansCover(values, RawView(t), p);
    ViewSpansCover(values, PlainView(t), p);
    ViewSpansCover(values, LeadingView(t), p);
    NoneCovered([]);
  }
}
