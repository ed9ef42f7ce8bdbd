/** The redactor: secrets read from the configuration, and the merge of match streams that masks a text. */
module Redactor {
  import opened Common
  import opened Utf8
  import opened Escapes
  import opened DecodedText
  import opened SpanMask
  import opened Redaction
  import opened Boundaries

  // ----- merging streams of spans -----

  function Total(streams: seq<seq<Span>>): nat {
    if streams == [] then 0 else |streams[0]| + Total(streams[1..])
  }

  lemma {:induction false} TotalOfTail(streams: seq<seq<Span>>, k: nat)
    requires k < |streams| && streams[k] != []
    ensures Total(streams[k := streams[k][1..]]) + 1 == Total(streams)
  {
    var next := streams[k := streams[k][1..]];
    if k == 0 {
      assert next[1..] == streams[1..];
    } else {
      TotalOfTail(streams[1..], k - 1);
      assert next[1..] == streams[1..][k - 1 := streams[k][1..]];
    }
  }

  ghost predicate AnyCovers(streams: seq<seq<Span>>, p: int) {
    exists k :: 0 <= k < |streams| && Covered(streams[k], p)
  }

  /** Every stream arrives in order of ends, none of which is before `floor`. */
  ghost predicate Waiting(streams: seq<seq<Span>>, size: nat, reach: nat, floor: nat) {
    forall k :: 0 <= k < |streams| ==>
      Arrived(streams[k], size, reach) && (streams[k] != [] ==> floor <= streams[k][0].end)
  }

  lemma TailArrived(spans: seq<Span>, size: nat, reach: nat)
    requires Arrived(spans, size, reach) && spans != []
    ensures Arrived(spans[1..], size, reach)
    ensures spans[1..] != [] ==> spans[0].end <= spans[1..][0].end
  {
  }

  lemma ArrivedMore(spans: seq<Span>, s: Span, size: nat, reach: nat)
    requires Arrived(spans, size, reach)
    requires s.start < s.end <= size && s.end - s.start <= reach && LastEnd(spans) <= s.end
    ensures Arrived(spans + [s], size, reach) && LastEnd(spans + [s]) == s.end
  {
    var all := spans + [s];
    forall i, j | 0 <= i < j < |all|
      ensures all[i].end <= all[j].end
    {
      if i < |spans| {
        assert spans[i].end <= LastEnd(spans);
      }
    }
  }

  lemma HeadOrTail(spans: seq<Span>, p: int)
    requires spans != []
    ensures Covered(spans, p) <==> spans[0].Has(p) || Covered(spans[1..], p)
  {
    if Covered(spans[1..], p) {
      var i :| 0 <= i < |spans[1..]| && spans[1..][i].Has(p);
      assert spans[i + 1].Has(p);
    }
    if Covered(spans, p) {
      var i :| 0 <= i < |spans| && spans[i].Has(p);
      if i > 0 {
        assert spans[1..][i - 1].Has(p);
      }
    }
  }

  /** Together, what was pushed and what is waiting cover what `all` covers. */
  ghost predicate Shares(all: seq<Span>, pushed: seq<Span>, streams: seq<seq<Span>>) {
    forall p :: Covered(all, p) <==> Covered(pushed, p) || AnyCovers(streams, p)
  }

  lemma PopStream(streams: seq<seq<Span>>, k: nat, p: int)
    requires k < |streams| && streams[k] != []
    ensures AnyCovers(streams, p) <==> streams[k][0].Has(p) || AnyCovers(streams[k := streams[k][1..]], p)
  {
    hide Covered;
    var next := streams[k := streams[k][1..]];
    HeadOrTail(streams[k], p);
    if AnyCovers(streams, p) {
      var m :| 0 <= m < |streams| && Covered(streams[m], p);
      assert m != k ==> Covered(next[m], p);
      assert Covered(streams[k][1..], p) ==> Covered(next[k], p);
    }
    if AnyCovers(next, p) {
      var m :| 0 <= m < |next| && Covered(next[m], p);
      assert m != k ==> Covered(streams[m], p);
    }
  }

  lemma PopKeepsShares(all: seq<Span>, pushed: seq<Span>, streams: seq<seq<Span>>, k: nat)
    requires k < |streams| && streams[k] != [] && Shares(all, pushed, streams)
    ensures Shares(all, pushed + [streams[k][0]], streams[k := streams[k][1..]])
  {
    hide Covered, AnyCovers;
    forall p: int
      ensures Covered(all, p) <==>
              Covered(pushed + [streams[k][0]], p) || AnyCovers(streams[k := streams[k][1..]], p)
    {
      CoveredByMore(pushed, streams[k][0], p);
      PopStream(streams, k, p);
    }
  }

  ghost predicate IsEarliest(streams: seq<seq<Span>>, k: int) {
    && 0 <= k < |streams| && streams[k] != []
    && forall m :: 0 <= m < |streams| && streams[m] != [] ==> streams[k][0].end <= streams[m][0].end
  }

  lemma PopKeepsWaiting(streams: seq<seq<Span>>, k: nat, size: nat, reach: nat, floor: nat)
    requires IsEarliest(streams, k) && Waiting(streams, size, reach, floor)
    ensures Waiting(streams[k := streams[k][1..]], size, reach, streams[k][0].end)
    ensures var s := streams[k][0]; floor <= s.end && s.start < s.end <= size && s.end - s.start <= reach
  {
    TailArrived(streams[k], size, reach);
  }

  /** The stream whose next span ends first, the first such when there are several; none when all are empty. */
  method Earliest(streams: seq<seq<Span>>) returns (index: Option<nat>)
    ensures index.None? <==> forall m :: 0 <= m < |streams| ==> streams[m] == []
    ensures index.Some? ==> IsEarliest(streams, index.value)
    ensures index.Some? ==> forall m :: 0 <= m < index.value && streams[m] != [] ==>
                              streams[index.value][0].end < streams[m][0].end
  {
    index := None;
    var i := 0;
    while i < |streams|
      invariant 0 <= i <= |streams|
      invariant index.None? <==> forall m :: 0 <= m < i ==> streams[m] == []
      invariant index.Some? ==> index.value < i && streams[index.value] != []
      invariant index.Some? ==> forall m :: 0 <= m < i && streams[m] != [] ==>
                                  streams[index.value][0].end <= streams[m][0].end
      invariant index.Some? ==> forall m :: 0 <= m < index.value && streams[m] != [] ==>
                                  streams[index.value][0].end < streams[m][0].end
    {
      if streams[i] != [] && (index.None? || streams[i][0].end < streams[index.value][0].end) {
        index := Some(i);
      }
      i := i + 1;
    }
  }

  method PushAll(spans: Spans, streams: seq<seq<Span>>, ghost all: seq<Span>)
    requires spans.Valid() && spans.pushed == []
    requires Waiting(streams, |spans.text|, spans.reach, 0) && Shares(all, [], streams)
    modifies spans
    ensures spans.Valid()
    ensures forall p :: Covered(spans.pushed, p) <==> Covered(all, p)
  {
    hide Covered, AnyCovers, Arrived, Shares, IsEarliest, Apart, Agree;
    var rest := streams;
    var next := Earliest(rest);
    while next.Some?
      invariant spans.Valid() && Arrived(spans.pushed, |spans.text|, spans.reach)
      invariant Waiting(rest, |spans.text|, spans.reach, LastEnd(spans.pushed))
      invariant Shares(all, spans.pushed, rest)
      invariant next.None? <==> forall m :: 0 <= m < |rest| ==> rest[m] == []
      invariant next.Some? ==> IsEarliest(rest, next.value)
      decreases Total(rest)
    {
      var k := next.value;
      assert 0 <= k < |rest| && rest[k] != [] by { EarliestIsThere(rest, k); }
      var s := rest[k][0];
      PopKeepsWaiting(rest, k, |spans.text|, spans.reach, LastEnd(spans.pushed));
      ArrivedMore(spans.pushed, s, |spans.text|, spans.reach);
      PopKeepsShares(all, spans.pushed, rest, k);
      TotalOfTail(rest, k);
      spans.Push(s);
      rest := rest[k := rest[k][1..]];
      next := Earliest(rest);
    }
    SharesAlone(all, spans.pushed, rest);
  }

  lemma EarliestIsThere(streams: seq<seq<Span>>, k: int)
    requires IsEarliest(streams, k)
    ensures 0 <= k < |streams| && streams[k] != []
  {
  }

  lemma SharesAlone(all: seq<Span>, pushed: seq<Span>, streams: seq<seq<Span>>)
    requires Shares(all, pushed, streams) && forall m :: 0 <= m < |streams| ==> streams[m] == []
    ensures forall p :: Covered(pushed, p) <==> Covered(all, p)
  {
    assert forall p :: !Covered([], p);
  }

  // ----- redacting -----

  /** The first character boundary at or after `from`, or the end. */
  function StartAt(t: Bytes, from: nat): (start: nat)
    ensures Min(from, |t|) <= start <= |t| && IsBoundary(t, start)
    ensures forall i :: Min(from, |t|) <= i < start ==> !IsBoundary(t, i)
    decreases Monus(|t|, from)
  {
    if from >= |t| then |t| else if IsBoundary(t, from) then from else StartAt(t, from + 1)
  }

  lemma NoSecretsNothingFound(t: Bytes, cut: bool, p: int)
    ensures !Covered(Found([], t, cut), p)
  {
    FoundIsHidden([], t, cut, p);
  }

  lemma StreamsArrive(values: seq<Bytes>, t: Bytes)
    requires AllSecrets(values) && Valid(t)
    ensures Arrived(Matches(values, t, |t|), |t|, Reach(values))
    ensures Arrived(ViewSpans(values, PlainView(t)), |t|, Reach(values))
    ensures Arrived(ViewSpans(values, LeadingView(t)), |t|, Reach(values))
  {
    hide ViewSpans, PlainView, LeadingView, RawView, Arrived, Faithful, Matches;
    RawFaithful(values, t);
    ViewSpansArrive(values, RawView(t), |t|);
    RawSpans(values, t);
    PlainFaithful(values, t);
    ViewSpansArrive(values, PlainView(t), |t|);
    LeadingFaithful(values, t);
    ViewSpansArrive(values, LeadingView(t), |t|);
  }

  /** The streams of the code hold what is to be found: without a backslash the decoded stream adds nothing. */
  lemma StreamsShare(values: seq<Bytes>, t: Bytes, cut: bool, streams: seq<seq<Span>>)
    requires streams == [Matches(values, t, |t|)]
                      + (if BACKSLASH in t then [ViewSpans(values, PlainView(t))] else [])
                      + (if cut then [ViewSpans(values, LeadingView(t))] else [])
    ensures Shares(Found(values, t, cut), [], streams)
  {
    hide ViewSpans, PlainView, LeadingView, RawView, Matches, Covered;
    RawSpans(values, t);
    if BACKSLASH !in t {
      PlainIsRaw(t);
    }
    var raw, plain := ViewSpans(values, RawView(t)), ViewSpans(values, PlainView(t));
    var leading := if cut then ViewSpans(values, LeadingView(t)) else [];
    forall p: int
      ensures Covered(Found(values, t, cut), p) <==> Covered([], p) || AnyCovers(streams, p)
    {
      NoneCovered([]);
      CoveredByEither(raw, plain, p);
      CoveredByEither(raw + plain, leading, p);
      if Covered(raw, p) {
        assert Covered(streams[0], p);
      }
      if Covered(plain, p) && BACKSLASH in t {
        assert Covered(streams[1], p);
      }
      if Covered(leading, p) {
        assert Covered(streams[|streams| - 1], p);
      }
    }
  }

  lemma RedactedFrom(values: seq<Bytes>, t: Bytes, cut: bool, from: nat)
    requires AllSecrets(values) && Valid(t)
    ensures Valid(Mask(t, Found(values, t, cut), StartAt(t, from), |t|, false))
  {
    hide Mask, Found, Valid, AllSecrets, IsBoundary;
    RedactedIsText(values, t, cut, StartAt(t, from));
  }

  /** Replaces every run of positions to hide by one placeholder, from a position on. */
  method RedactSpans(values: seq<Bytes>, text: Bytes, from: nat, cut: bool) returns (out: Bytes)
    requires AllSecrets(values) && Valid(text)
    ensures out == Mask(text, Found(values, text, cut), StartAt(text, from), |text|, false)
    ensures Valid(out)
  {
    hide Mask, Found, Valid, Covered, Matches, Shares, Arrived, PlainView, LeadingView, ViewSpans, IsBoundary, AllSecrets,
      Apart, Agree, REDACTED, Reach;
    RedactedFrom(values, text, cut, from);
    var start := Min(from, |text|);
    while !IsBoundary(text, start)
      invariant Min(from, |text|) <= start <= |text| && StartAt(text, from) == StartAt(text, start)
      decreases |text| - start
    {
      EndIsBoundary(text);
      start := start + 1;
    }
    assert start == StartAt(text, from);
    if values == [] {
      forall p: int
        ensures !Covered(Found(values, text, cut), p)
      {
        NoSecretsNothingFound(text, cut, p);
      }
      MaskGap(text, Found(values, text, cut), start, |text|, false);
      return text[start..];
    }
    var spans := new Spans(text, start, Reach(values));
    StreamsArrive(values, text);
    var streams := [Matches(values, text, |text|)];
    var view := NewView(text, false);
    if view.Some? {
      streams := streams + [ViewSpans(values, view.value)];
    }
    if cut {
      view := NewView(text, true);
      streams := streams + [ViewSpans(values, view.value)];
    }
    StreamsShare(values, text, cut, streams);
    PushAll(spans, streams, Found(values, text, cut));
    ghost var pushed := spans.pushed;
    out := spans.Finish();
    MaskSame(text, pushed, Found(values, text, cut), start, |text|, false);
  }

  lemma EndIsBoundary(t: Bytes)
    ensures IsBoundary(t, |t|)
  {
  }
}
