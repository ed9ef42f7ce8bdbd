/** Masking a text where spans cover it: once over the whole text, and online as the spans arrive. */
module SpanMask {
  import opened Common
  import opened Utf8

  const REDACTED: Bytes := [0x5B, 0x72, 0x65, 0x64, 0x61, 0x63, 0x74, 0x65, 0x64, 0x5D]

  datatype Span = Span(start: nat, end: nat) {
    predicate Has(p: int) {
      start <= p < end
    }
  }

  ghost predicate Covered(spans: seq<Span>, p: int) {
    exists i :: 0 <= i < |spans| && spans[i].Has(p)
  }

  /** The text between `i` and `j`, with every maximal covered run as one placeholder; `inside` when one is open. */
  ghost function Mask(text: Bytes, spans: seq<Span>, i: nat, j: nat, inside: bool): Bytes
    requires i <= j <= |text|
    decreases j - i
  {
    if i == j then []
    else if Covered(spans, i) then (if inside then [] else REDACTED) + Mask(text, spans, i + 1, j, true)
    else [text[i]] + Mask(text, spans, i + 1, j, false)
  }

  ghost predicate SameCover(a: seq<Span>, b: seq<Span>, i: int, j: int) {
    forall p :: i <= p < j ==> (Covered(a, p) <==> Covered(b, p))
  }

  lemma {:induction false} MaskSame(text: Bytes, a: seq<Span>, b: seq<Span>, i: nat, j: nat, inside: bool)
    requires i <= j <= |text| && SameCover(a, b, i, j)
    ensures Mask(text, a, i, j, inside) == Mask(text, b, i, j, inside)
    decreases j - i
  {
    hide Covered, REDACTED;
    if i < j {
      MaskSame(text, a, b, i + 1, j, Covered(a, i));
    }
  }

  lemma {:induction false} MaskSplit(text: Bytes, spans: seq<Span>, i: nat, m: nat, j: nat, inside: bool)
    requires i <= m <= j <= |text| && !Covered(spans, m)
    ensures Mask(text, spans, i, j, inside) == Mask(text, spans, i, m, inside) + Mask(text, spans, m, j, false)
    decreases m - i
  {
    hide Covered, REDACTED;
    if i < m {
      MaskSplit(text, spans, i + 1, m, j, Covered(spans, i));
    }
  }

  ghost predicate AllOpen(spans: seq<Span>, i: int, j: int) {
    forall p :: i <= p < j ==> !Covered(spans, p)
  }

  ghost predicate AllCovered(spans: seq<Span>, i: int, j: int) {
    forall p :: i <= p < j ==> Covered(spans, p)
  }

  lemma {:induction false} MaskGap(text: Bytes, spans: seq<Span>, i: nat, j: nat, inside: bool)
    requires i <= j <= |text| && AllOpen(spans, i, j)
    ensures Mask(text, spans, i, j, inside) == text[i..j]
    decreases j - i
  {
    hide Covered, REDACTED;
    if i < j {
      MaskGap(text, spans, i + 1, j, false);
    }
  }

  lemma {:induction false} MaskRun(text: Bytes, spans: seq<Span>, i: nat, j: nat, inside: bool)
    requires i < j <= |text| && AllCovered(spans, i, j)
    ensures Mask(text, spans, i, j, inside) == if inside then [] else REDACTED
    decreases j - i
  {
    hide Covered, REDACTED;
    if i + 1 < j {
      MaskRun(text, spans, i + 1, j, true);
    } else {
      assert Mask(text, spans, j, j, true) == [];
    }
  }

  /** A gap and then a run, up to a position that is open. */
  lemma MaskGapRun(text: Bytes, spans: seq<Span>, i: nat, m: nat, j: nat)
    requires i <= m < j <= |text|
    requires AllOpen(spans, i, m) && AllCovered(spans, m, j)
    ensures Mask(text, spans, i, j, false) == text[i..m] + REDACTED
    decreases m - i
  {
    hide Covered, REDACTED;
    if i == m {
      MaskRun(text, spans, i, j, false);
    } else {
      MaskGapRun(text, spans, i + 1, m, j);
    }
  }

  /** The number of placeholders of a mask. */
  ghost function Runs(spans: seq<Span>, i: nat, j: nat, inside: bool): nat
    requires i <= j
    decreases j - i
  {
    if i == j then 0
    else if Covered(spans, i) then (if inside then 0 else 1) + Runs(spans, i + 1, j, true)
    else Runs(spans, i + 1, j, false)
  }

  lemma {:induction false} MaskLength(text: Bytes, spans: seq<Span>, i: nat, j: nat, inside: bool)
    requires i <= j <= |text|
    ensures |Mask(text, spans, i, j, inside)| <= (j - i) + |REDACTED| * Runs(spans, i, j, inside)
    decreases j - i
  {
    hide Covered, REDACTED;
    if i < j {
      MaskLength(text, spans, i + 1, j, Covered(spans, i));
    }
  }

  /** The spans that start at `i` or later. */
  function StartingFrom(spans: seq<Span>, i: nat): nat {
    if spans == [] then 0
    else StartingFrom(spans[..|spans| - 1], i) + if spans[|spans| - 1].start >= i then 1 else 0
  }

  /** A span that starts earlier is one fewer from there on. */
  lemma {:induction false} FewerLater(spans: seq<Span>, i: nat, k: nat)
    requires k < |spans|
    ensures StartingFrom(spans, i + 1) <= StartingFrom(spans, i) <= |spans|
    ensures spans[k].start == i ==> StartingFrom(spans, i + 1) < StartingFrom(spans, i)
    ensures spans[k].start < i ==> StartingFrom(spans, i) < |spans|
  {
    var n := |spans| - 1;
    if n > 0 {
      FewerLater(spans[..n], i, if k < n then k else 0);
    }
  }

  /** Past the first position, a run starts only where a span does. */
  lemma {:induction false} RunsStart(spans: seq<Span>, i: nat, j: nat, inside: bool)
    requires i <= j && spans != [] && (!inside ==> i > 0 && !Covered(spans, i - 1))
    ensures Runs(spans, i, j, inside) <= StartingFrom(spans, i)
    decreases j - i
  {
    hide StartingFrom;
    if i < j {
      FewerLater(spans, i, 0);
      RunsStart(spans, i + 1, j, Covered(spans, i));
      if Covered(spans, i) && !inside {
        var k :| 0 <= k < |spans| && spans[k].Has(i);
        assert spans[k].start == i by { assert !spans[k].Has(i - 1); }
        FewerLater(spans, i, k);
      }
    }
  }

  lemma {:induction false} RunsOfNothing(i: nat, j: nat, inside: bool)
    requires i <= j
    ensures Runs([], i, j, inside) == 0
    decreases j - i
  {
    if i < j {
      RunsOfNothing(i + 1, j, false);
    }
  }

  /** There is at most one placeholder for each span. */
  lemma RunsAreFew(spans: seq<Span>, i: nat, j: nat)
    requires i <= j
    ensures Runs(spans, i, j, false) <= |spans|
  {
    if spans == [] {
      RunsOfNothing(i, j, false);
    } else if i < j {
      FewerLater(spans, i + 1, 0);
      RunsStart(spans, i + 1, j, Covered(spans, i));
      if Covered(spans, i) {
        var k :| 0 <= k < |spans| && spans[k].Has(i);
        FewerLater(spans, i + 1, k);
      }
    }
  }

  /** Masking lengthens a text by at most one placeholder for each span. */
  lemma MaskGrowth(text: Bytes, spans: seq<Span>, i: nat, j: nat)
    requires i <= j <= |text|
    ensures |Mask(text, spans, i, j, false)| <= (j - i) + |REDACTED| * |spans|
  {
    hide REDACTED, Mask, Runs;
    MaskLength(text, spans, i, j, false);
    RunsAreFew(spans, i, j);
    NoMore(|REDACTED|, Runs(spans, i, j, false), |spans|);
  }

  lemma NoMore(n: nat, a: nat, b: nat)
    requires a <= b
    ensures n * a <= n * b
  {
    assert n * b - n * a == n * (b - a);
  }

  /** Spans arrive in order of their ends, none longer than `reach`. */
  ghost predicate Arrived(spans: seq<Span>, size: nat, reach: nat) {
    && (forall i :: 0 <= i < |spans| ==> spans[i].start < spans[i].end <= size && spans[i].end - spans[i].start <= reach)
    && (forall i, j :: 0 <= i < j < |spans| ==> spans[i].end <= spans[j].end)
  }

  /** Sorted, and neither overlapping nor adjacent. */
  predicate Apart(spans: seq<Span>) {
    && (forall i :: 0 <= i < |spans| ==> spans[i].start < spans[i].end)
    && (forall i, j :: 0 <= i < j < |spans| ==> spans[i].end < spans[j].start)
  }

  function LastEnd(spans: seq<Span>): nat {
    if spans == [] then 0 else spans[|spans| - 1].end
  }

  lemma CoveredByMore(spans: seq<Span>, s: Span, p: int)
    ensures Covered(spans + [s], p) <==> Covered(spans, p) || s.Has(p)
  {
    var more := spans + [s];
    if Covered(spans, p) {
      var i :| 0 <= i < |spans| && spans[i].Has(p);
      assert more[i].Has(p);
    }
    if s.Has(p) {
      assert more[|spans|].Has(p);
    }
  }

  /** Where the spans are apart, the positions before, in, and right after the first one. */
  lemma FirstApart(spans: seq<Span>)
    requires Apart(spans) && spans != []
    ensures AllOpen(spans, 0, spans[0].start) && AllCovered(spans, spans[0].start, spans[0].end)
    ensures !Covered(spans, spans[0].end)
    ensures forall p :: Covered(spans[1..], p) ==> Covered(spans, p) && p > spans[0].end
    ensures forall p :: Covered(spans, p) ==> Covered(spans[1..], p) || spans[0].Has(p)
  {
    forall p | Covered(spans, p)
      ensures Covered(spans[1..], p) || spans[0].Has(p)
    {
      var i :| 0 <= i < |spans| && spans[i].Has(p);
      if i > 0 {
        assert spans[1..][i - 1].Has(p);
      }
    }
    forall p | Covered(spans[1..], p)
      ensures Covered(spans, p) && p > spans[0].end
    {
      var i :| 0 <= i < |spans[1..]| && spans[1..][i].Has(p);
      assert spans[i + 1].Has(p);
    }
    forall p | spans[0].start <= p < spans[0].end
      ensures Covered(spans, p)
    {
      assert spans[0].Has(p);
    }
  }

  /** Two lists of spans cover the same positions from `at` on. */
  ghost predicate Agree(a: seq<Span>, b: seq<Span>, at: int) {
    forall p :: at <= p ==> (Covered(a, p) <==> Covered(b, p))
  }

  /** What the first pending span says about everything that was pushed, and what the others still say after it. */
  lemma FirstPending(pushed: seq<Span>, pending: seq<Span>, copied: nat)
    requires Apart(pending) && pending != [] && Agree(pushed, pending, copied)
    ensures AllOpen(pushed, copied, pending[0].start)
    ensures AllCovered(pushed, Max(pending[0].start, copied), pending[0].end)
    ensures pending[0].end >= copied ==> !Covered(pushed, pending[0].end)
    ensures Agree(pushed, pending[1..], Max(copied, pending[0].end)) && Apart(pending[1..])
    ensures pending[0].start < pending[0].end <= LastEnd(pending)
    ensures pending[1..] != [] ==> LastEnd(pending[1..]) == LastEnd(pending)
  {
    hide Covered;
    FirstApart(pending);
    EndsBefore(pending, 0);
  }

  /** Nothing that arrives later touches a position more than `reach` before the last end. */
  lemma FarIsFinal(spans: seq<Span>, s: Span, size: nat, reach: nat, p: int)
    requires Arrived(spans + [s], size, reach) && spans != []
    requires p + reach < LastEnd(spans)
    ensures !s.Has(p) && s.start > p
  {
    var all := spans + [s];
    assert all[|spans| - 1] == spans[|spans| - 1] && all[|spans|] == s;
  }

  class Spans {
    const text: Bytes
    const reach: nat
    const from: nat
    var out: Bytes
    var copied: nat
    var pending: seq<Span>
    ghost var pushed: seq<Span>

    /** What has been written is final: the mask up to `copied`, which no later span reaches. */
    ghost predicate Written()
      reads this`out, this`copied, this`pushed
    {
      && from <= copied <= |text|
      && out == Mask(text, pushed, from, copied, false)
      && (copied > from ==> !Covered(pushed, copied))
    }

    ghost predicate Valid()
      reads this
    {
      && Written()
      && Arrived(pushed, |text|, reach)
      && Apart(pending)
      && LastEnd(pending) == LastEnd(pushed)
      && (copied > from ==> copied + reach < LastEnd(pushed))
      && Agree(pushed, pending, copied)
    }

    constructor (text: Bytes, from: nat, reach: nat)
      requires from <= |text|
      ensures Valid() && pushed == [] && this.text == text && this.from == from && this.reach == reach
    {
      this.text := text;
      this.reach := reach;
      this.from := from;
      out := [];
      copied := from;
      pending := [];
      pushed := [];
    }

    method Emit(s: Span)
      requires Written() && s.start < s.end <= |text|
      requires AllOpen(pushed, copied, s.start) && AllCovered(pushed, Max(s.start, copied), s.end)
      requires s.end >= copied ==> !Covered(pushed, s.end)
      modifies this`out, this`copied
      ensures Written() && copied == Max(old(copied), s.end)
    {
      if s.end > copied {
        var start := Max(s.start, copied);
        MaskGapRun(text, pushed, copied, start, s.end);
        if copied > from {
          MaskSplit(text, pushed, from, copied, s.end, false);
        } else {
          assert out == [];
        }
        out := out + text[copied..start];
        out := out + REDACTED;
        copied := s.end;
      }
    }

    /** Emits the first `count` pending spans. */
    method Drain(count: nat)
      requires Written() && Apart(pending) && count <= |pending| && LastEnd(pending) <= |text|
      requires Agree(pushed, pending, copied)
      modifies this`out, this`copied, this`pending
      ensures Written() && pending == old(pending)[count..] && Apart(pending)
      ensures Agree(pushed, pending, copied)
      ensures copied == old(copied) || (count > 0 && copied == old(pending)[count - 1].end)
    {
      hide Covered, Mask, REDACTED, Agree, Apart, AllOpen, AllCovered, Written, LastEnd;
      var i := 0;
      assert pending[0..] == pending;
      while i < count
        invariant 0 <= i <= count && pending == old(pending)[i..]
        invariant Written() && Apart(pending) && (pending != [] ==> LastEnd(pending) <= |text|)
        invariant Agree(pushed, pending, copied)
        invariant copied == old(copied) || (i > 0 && copied == old(pending)[i - 1].end)
      {
        FirstPending(pushed, pending, copied);
        assert pending[0] == old(pending)[i] && pending[1..] == old(pending)[i + 1..];
        EndsRise(old(pending), i);
        Emit(pending[0]);
        pending := pending[1..];
        i := i + 1;
      }
    }

    method Push(span: Span)
      requires Valid() && Arrived(pushed + [span], |text|, reach)
      modifies this`out, this`copied, this`pending, this`pushed
      ensures pushed == old(pushed) + [span]
      ensures Valid()
    {
      hide Mask, REDACTED, Covered, Agree, Absorbed, Apart;
      var start: nat := span.start;
      NotYetMasked(span);
      LastIsGreatest(pushed, span, |text|, reach);
      NothingAbsorbed(pending, span);
      while pending != [] && pending[|pending| - 1].end >= start
        invariant start < span.end && LastEnd(pending) <= span.end && Apart(pending)
        invariant Absorbed(old(pending), span, pending, start)
        invariant pushed == old(pushed) && out == old(out) && copied == old(copied)
      {
        MergeLast(old(pending), span, pending, start);
        start := Min(start, pending[|pending| - 1].start);
        pending := pending[..|pending| - 1];
      }
      AllMerged(pushed, old(pending), span, pending, start, copied);
      pending := pending + [Span(start, span.end)];
      pushed := pushed + [span];
      var settled := 0;
      while settled < |pending| && pending[settled].end < Monus(span.end, reach)
        invariant 0 <= settled <= |pending|
        invariant forall i :: 0 <= i < settled ==> pending[i].end < Monus(span.end, reach)
      {
        settled := settled + 1;
      }
      assert pending[|pending| - 1].end == span.end && settled < |pending|;
      Drain(settled);
    }

    /** A new span does not change what has been written. */
    lemma NotYetMasked(span: Span)
      requires Valid() && Arrived(pushed + [span], |text|, reach)
      ensures Mask(text, pushed + [span], from, copied, false) == out
      ensures copied > from ==> pushed != [] && !Covered(pushed + [span], copied)
    {
      if copied > from {
        CoveredByMore(pushed, span, copied);
        FarIsFinal(pushed, span, |text|, reach, copied);
        forall p | from <= p < copied
          ensures Covered(pushed + [span], p) <==> Covered(pushed, p)
        {
          CoveredByMore(pushed, span, p);
          FarIsFinal(pushed, span, |text|, reach, p);
        }
        MaskSame(text, pushed, pushed + [span], from, copied, false);
      }
    }

    method Finish() returns (result: Bytes)
      requires Valid()
      modifies this
      ensures result == Mask(text, old(pushed), from, |text|, false)
    {
      hide Mask, Covered, REDACTED;
      Drain(|pending|);
      NoneCovered(pending);
      MaskGap(text, pushed, copied, |text|, false);
      if copied > from {
        MaskSplit(text, pushed, from, copied, |text|, false);
      } else {
        assert out == [] by { EmptyMask(text, pushed, from); }
      }
      result := out + text[copied..];
    }
  }

  lemma EmptyMask(text: Bytes, spans: seq<Span>, i: nat)
    requires i <= |text|
    ensures Mask(text, spans, i, i, false) == []
  {
  }

  lemma NoneCovered(spans: seq<Span>)
    requires spans == []
    ensures forall p :: !Covered(spans, p)
  {
  }

  lemma EndsBefore(spans: seq<Span>, i: nat)
    requires Apart(spans) && i < |spans|
    ensures spans[i].end <= LastEnd(spans)
  {
  }

  lemma EndsRise(spans: seq<Span>, i: nat)
    requires Apart(spans) && i < |spans|
    ensures i > 0 ==> spans[i - 1].end < spans[i].end
  {
  }

  lemma LastIsGreatest(spans: seq<Span>, s: Span, size: nat, reach: nat)
    requires Arrived(spans + [s], size, reach)
    ensures LastEnd(spans) <= s.end && LastEnd(spans + [s]) == s.end
    ensures s.start < s.end <= size
  {
    var all := spans + [s];
    assert all[|spans|] == s;
    if spans != [] {
      assert all[|spans| - 1] == spans[|spans| - 1];
    }
  }

  /** `pending` and the span from `start` cover what `before` and `span` cover. */
  ghost predicate Absorbed(before: seq<Span>, span: Span, pending: seq<Span>, start: nat) {
    forall p :: (Covered(pending, p) || start <= p < span.end) <==> (Covered(before, p) || span.Has(p))
  }

  lemma NothingAbsorbed(pending: seq<Span>, span: Span)
    ensures Absorbed(pending, span, pending, span.start)
  {
  }

  lemma MergeLast(before: seq<Span>, span: Span, pending: seq<Span>, start: nat)
    requires Apart(pending) && pending != [] && start <= LastEnd(pending) <= span.end
    requires Absorbed(before, span, pending, start)
    ensures var rest, last := pending[..|pending| - 1], pending[|pending| - 1];
            && Absorbed(before, span, rest, Min(start, last.start))
            && Apart(rest) && LastEnd(rest) <= LastEnd(pending) && last.start < last.end
  {
    hide Covered;
    var rest, last := pending[..|pending| - 1], pending[|pending| - 1];
    assert pending == rest + [last];
    forall p: int
      ensures Covered(pending, p) <==> Covered(rest, p) || last.Has(p)
    {
      CoveredByMore(rest, last, p);
    }
  }

  lemma AllMerged(pushed: seq<Span>, before: seq<Span>, span: Span, pending: seq<Span>, start: nat, copied: nat)
    requires Agree(pushed, before, copied) && Absorbed(before, span, pending, start)
    requires Apart(pending) && start < span.end && (pending == [] || LastEnd(pending) < start)
    ensures Agree(pushed + [span], pending + [Span(start, span.end)], copied)
    ensures Apart(pending + [Span(start, span.end)])
    ensures LastEnd(pending + [Span(start, span.end)]) == span.end
  {
    hide Covered;
    forall p: int
      ensures Covered(pending + [Span(start, span.end)], p) <==> Covered(pending, p) || start <= p < span.end
      ensures Covered(pushed + [span], p) <==> Covered(pushed, p) || span.Has(p)
    {
      CoveredByMore(pending, Span(start, span.end), p);
      CoveredByMore(pushed, span, p);
    }
  }
}
