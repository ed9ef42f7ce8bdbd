/** Spans start and end on character boundaries, so that masking them leaves text. */
module Boundaries {
  import opened Common
  import opened Utf8
  import opened Escapes
  import opened DecodedText
  import opened SpanMask
  import opened Redaction

  ghost predicate Aligned(spans: seq<Span>, t: Bytes) {
    forall s :: s in spans ==> s.start <= s.end && IsBoundary(t, s.start) && IsBoundary(t, s.end)
  }

  // ----- what is found is aligned -----

  /** Every occurrence of a value in a view maps back to boundaries of the text. */
  ghost predicate MapsToBoundaries(values: seq<Bytes>, view: Decoded, t: Bytes) {
    && Mapped(view)
    && forall v, i, j :: v in values && Occurs(v, view.text, i, j) ==>
         IsBoundary(t, view.origin[i]) && IsBoundary(t, view.origin[j])
  }

  lemma ViewSpansAligned(values: seq<Bytes>, view: Decoded, t: Bytes)
    requires Faithful(values, view, |t|) && MapsToBoundaries(values, view, t)
    ensures Aligned(ViewSpans(values, view), t)
  {
    hide Matches, Occurs, Reach;
    var spans := ViewSpans(values, view);
    forall k | 0 <= k < |spans|
      ensures spans[k].start <= spans[k].end && IsBoundary(t, spans[k].start) && IsBoundary(t, spans[k].end)
    {
      var v := ViewSpanIsOccurrence(values, view, k);
    }
  }

  lemma RawBoundaries(values: seq<Bytes>, t: Bytes)
    requires AllSecrets(values) && Valid(t)
    ensures MapsToBoundaries(values, RawView(t), t)
  {
    hide Valid, IsSecret, AllSecrets, IsBoundary, Upwards, Reach, Longest;
    forall v, i, j | v in values && Occurs(v, t, i, j)
      ensures IsBoundary(t, RawView(t).origin[i]) && IsBoundary(t, RawView(t).origin[j])
    {
      SecretIsLong(values, v);
      OccurrenceIsAligned(t, v, i, j);
    }
  }

  lemma DecodedBoundaries(values: seq<Bytes>, t: Bytes, v: Bytes, i: int, j: int)
    requires AllSecrets(values) && Valid(t) && v in values && Occurs(v, Decode(t), i, j)
    ensures IsBoundary(t, Origins(t, 0)[i]) && IsBoundary(t, Origins(t, 0)[j])
  {
    hide Valid, IsSecret, IsBoundary, Decode, Origins;
    SecretIsLong(values, v);
    DecodedIsValid(t);
    OccurrenceIsAligned(Decode(t), v, i, j);
    OriginIsBoundary(t, i);
    OriginIsBoundary(t, j);
  }

  lemma PlainBoundaries(values: seq<Bytes>, t: Bytes)
    requires AllSecrets(values) && Valid(t)
    ensures MapsToBoundaries(values, PlainView(t), t)
  {
    hide Valid, IsSecret, IsBoundary, Decode, Origins;
    forall v, i, j | v in values && Occurs(v, Decode(t), i, j)
      ensures IsBoundary(t, Origins(t, 0)[i]) && IsBoundary(t, Origins(t, 0)[j])
    {
      DecodedBoundaries(values, t, v, i, j);
    }
  }

  lemma StartIsBoundary(t: Bytes)
    requires Valid(t)
    ensures IsBoundary(t, 0)
  {
    if t != [] {
      CharShape(t);
    }
  }

  /** A boundary of the text behind one backslash is one of the text, the backslash itself standing for its start. */
  lemma ShiftedBoundary(t: Bytes, p: nat)
    requires Valid(t) && IsBoundary(ONE_BACKSLASH + t, p)
    ensures IsBoundary(t, Monus(p, 1))
  {
    hide Valid;
    if p <= 1 {
      StartIsBoundary(t);
    }
  }

  lemma LeadingBoundaries(values: seq<Bytes>, t: Bytes)
    requires AllSecrets(values) && Valid(t)
    ensures MapsToBoundaries(values, LeadingView(t), t)
  {
    var whole := ONE_BACKSLASH + t;
    hide Valid, IsSecret, IsBoundary, Decode, Origins, ShiftedBack, ONE_BACKSLASH;
    BackslashFirst(t);
    var view := LeadingView(t);
    forall v, i, j | v in values && Occurs(v, view.text, i, j)
      ensures IsBoundary(t, view.origin[i]) && IsBoundary(t, view.origin[j])
    {
      DecodedBoundaries(values, whole, v, i, j);
      ShiftedBoundary(t, Origins(whole, 0)[i]);
      ShiftedBoundary(t, Origins(whole, 0)[j]);
    }
  }

  /** Every span to mask starts and ends on a character boundary of the text. */
  lemma FoundIsAligned(values: seq<Bytes>, t: Bytes, cut: bool)
    requires AllSecrets(values) && Valid(t)
    ensures Aligned(Found(values, t, cut), t)
  {
    hide Valid, AllSecrets, Faithful, MapsToBoundaries, ViewSpans, RawView, PlainView, LeadingView, IsBoundary;
    RawFaithful(values, t);
    RawBoundaries(values, t);
    ViewSpansAligned(values, RawView(t), t);
    PlainFaithful(values, t);
    PlainBoundaries(values, t);
    ViewSpansAligned(values, PlainView(t), t);
    LeadingFaithful(values, t);
    LeadingBoundaries(values, t);
    ViewSpansAligned(values, LeadingView(t), t);
  }

  // ----- so the masked text is text -----

  /** Where covering starts or stops, a span starts or ends. */
  lemma ChangeIsBoundary(spans: seq<Span>, t: Bytes, p: nat)
    requires Aligned(spans, t) && p > 0 && (Covered(spans, p - 1) <==> !Covered(spans, p))
    ensures IsBoundary(t, p)
  {
    if Covered(spans, p) {
      var k :| 0 <= k < |spans| && spans[k].Has(p);
      assert !spans[k].Has(p - 1);
      assert spans[k] in spans;
    } else {
      var k :| 0 <= k < |spans| && spans[k].Has(p - 1);
      assert !spans[k].Has(p);
      assert spans[k] in spans;
    }
  }

  /** A character is covered as a whole or not at all. */
  lemma {:induction false} WholeCharacter(spans: seq<Span>, t: Bytes, i: nat, p: nat)
    requires Aligned(spans, t) && i < |t| && CharLen(t[i..]) > 0 && i <= p < i + CharLen(t[i..])
    ensures Covered(spans, p) <==> Covered(spans, i)
    decreases p
  {
    hide Covered, Aligned, CharLen;
    if i < p {
      WholeCharacter(spans, t, i, p - 1);
      CharShape(t[i..]);
      assert t[i..][p - i] == t[p];
      if Covered(spans, p - 1) <==> !Covered(spans, p) {
        ChangeIsBoundary(spans, t, p);
      }
    }
  }

  lemma {:induction false} MaskStep(t: Bytes, spans: seq<Span>, i: nat, m: nat, j: nat, inside: bool)
    requires i < m <= j <= |t|
    ensures Mask(t, spans, i, j, inside) == Mask(t, spans, i, m, inside) + Mask(t, spans, m, j, Covered(spans, m - 1))
    decreases m - i
  {
    hide Covered, REDACTED;
    if i + 1 < m {
      MaskStep(t, spans, i + 1, m, j, Covered(spans, i));
    }
  }

  lemma {:induction false} AsciiIsValid(t: Bytes)
    requires forall i :: 0 <= i < |t| ==> t[i] < 0x80
    ensures Valid(t)
  {
    if t != [] {
      AsciiIsValid(t[1..]);
    }
  }

  lemma PlaceholderIsValid()
    ensures Valid(REDACTED) && Valid([])
  {
    AsciiIsValid([]);
    hide Valid;
    AsciiIsValid(REDACTED);
  }

  lemma MaskedCharacter(t: Bytes, spans: seq<Span>, i: nat, inside: bool)
    requires Aligned(spans, t) && i < |t| && CharLen(t[i..]) > 0
    ensures Valid(Mask(t, spans, i, i + CharLen(t[i..]), inside))
  {
    hide Valid, CharLen, REDACTED, Mask, Covered, Aligned;
    var m := i + CharLen(t[i..]);
    forall p | i <= p < m ensures Covered(spans, p) <==> Covered(spans, i) {
      WholeCharacter(spans, t, i, p);
    }
    if Covered(spans, i) {
      MaskRun(t, spans, i, m, inside);
      PlaceholderIsValid();
    } else {
      MaskGap(t, spans, i, m, inside);
      FirstCharIsValid(t[i..]);
      assert t[i..][..m - i] == t[i..m];
    }
  }

  /** Masking aligned spans from a boundary on turns text into text. */
  lemma {:induction false} MaskIsValid(t: Bytes, spans: seq<Span>, i: nat, inside: bool)
    requires Aligned(spans, t) && i <= |t| && Valid(t[i..])
    ensures Valid(Mask(t, spans, i, |t|, inside))
    decreases |t| - i
  {
    if i < |t| {
      var m := i + CharLen(t[i..]);
      assert t[i..][m - i..] == t[m..];
      MaskedCharacter(t, spans, i, inside);
      hide Covered, Aligned, Mask, CharLen;
      MaskIsValid(t, spans, m, Covered(spans, m - 1));
      MaskStep(t, spans, i, m, |t|, inside);
      ValidConcat(Mask(t, spans, i, m, inside), Mask(t, spans, m, |t|, Covered(spans, m - 1)));
    }
  }

  /** What redaction gives is text, from whatever boundary of the text on. */
  lemma RedactedIsText(values: seq<Bytes>, t: Bytes, cut: bool, start: nat)
    requires AllSecrets(values) && Valid(t) && IsBoundary(t, start)
    ensures Valid(Mask(t, Found(values, t, cut), start, |t|, false))
  {
    FoundIsAligned(values, t, cut);
    ValidSplit(t, start);
    hide Found, Aligned, AllSecrets;
    MaskIsValid(t, Found(values, t, cut), start, false);
  }
}
