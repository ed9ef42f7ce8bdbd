/** The ring that keeps the end of a server's stderr, and the redacted report made of it. */
module StderrTail {
  import opened Common
  import opened Utf8
  import opened Escapes
  import opened DecodedText
  import opened SpanMask
  import opened Redaction
  import opened Boundaries
  import opened Redactor
  import opened CutText

  const STDERR_TAIL_BYTES: nat := 2048

  function LastBytes(t: Bytes, n: nat): (r: Bytes)
    ensures |r| == Min(|t|, n)
  {
    t[Monus(|t|, n)..]
  }

  // ----- characters around a cut -----

  /** No more than three continuation bytes follow one another in text. */
  lemma {:induction false} BoundaryIsNear(t: Bytes, c: nat)
    requires Valid(t) && c <= |t|
    ensures StartAt(t, c) <= c + 3
    decreases |t|
  {
    if t != [] {
      CharShape(t);
      var k := CharLen(t);
      if c < k {
        assert IsBoundary(t, k) by {
          var rest := t[k..];
          if rest != [] {
            CharShape(rest);
            assert rest[0] == t[k];
          }
        }
      } else {
        BoundaryIsNear(t[k..], c - k);
        var s := StartAt(t[k..], c - k);
        assert IsBoundary(t, s + k);
      }
    }
  }

  /** Where the reported text starts in everything that was read. */
  function Base(fed: Bytes, capacity: nat): (b: nat)
    ensures b <= |fed|
  {
    if |fed| > capacity then StartAt(fed, |fed| - capacity) else 0
  }

  /** Where in that text what the report shows starts. */
  function ShownFrom(fed: Bytes, capacity: nat): (s: nat)
    ensures s <= |fed| - Base(fed, capacity)
  {
    var base := Base(fed, capacity);
    if |fed| > capacity
    then StartAt(fed[base..], Monus(Monus(capacity, STDERR_TAIL_BYTES), Monus(base, |fed| - capacity)))
    else 0
  }

  /** A position of everything read that shows a value, raw or with escapes, is hidden in what follows the cut. */
  lemma HiddenAfterCut(values: seq<Bytes>, fed: Bytes, p: nat)
    requires AllSecrets(values) && Valid(fed) && Hidden(values, fed, false, p)
    requires |fed| <= p + STDERR_TAIL_BYTES
    ensures var capacity := STDERR_TAIL_BYTES + Reach(values);
            var b := Base(fed, capacity);
            b <= p && Hidden(values, fed[b..], |fed| > capacity, p - b)
  {
    hide Valid, AllSecrets, Reach, RawView, PlainView, LeadingView, HiddenIn;
    var capacity := STDERR_TAIL_BYTES + Reach(values);
    if |fed| <= capacity {
      assert fed[0..] == fed;
    } else if HiddenIn(values, RawView(fed), p) {
      RawCase(values, fed, p);
    } else {
      DecodedCase(values, fed, p);
    }
  }

  /** So the spans found in what follows the cut cover it. */
  lemma TailIsHidden(values: seq<Bytes>, fed: Bytes)
    requires AllSecrets(values) && Valid(fed)
    requires var b := Base(fed, STDERR_TAIL_BYTES + Reach(values)); Valid(fed[b..])
    ensures var capacity := STDERR_TAIL_BYTES + Reach(values);
            var b := Base(fed, capacity);
            forall p: nat :: |fed| <= p + STDERR_TAIL_BYTES && Hidden(values, fed, false, p) ==>
              p >= b && Covered(Found(values, fed[b..], |fed| > capacity), p - b)
  {
    hide Valid, AllSecrets, Reach, Hidden, Base, Found, Covered;
    var capacity := STDERR_TAIL_BYTES + Reach(values);
    var b := Base(fed, capacity);
    forall p: nat | |fed| <= p + STDERR_TAIL_BYTES && Hidden(values, fed, false, p)
      ensures p >= b && Covered(Found(values, fed[b..], |fed| > capacity), p - b)
    {
      HiddenAfterCut(values, fed, p);
      FoundIsHidden(values, fed[b..], |fed| > capacity, p - b);
    }
  }

  lemma RawCase(values: seq<Bytes>, fed: Bytes, p: nat)
    requires AllSecrets(values) && Valid(fed) && HiddenIn(values, RawView(fed), p)
    requires |fed| <= p + STDERR_TAIL_BYTES && |fed| > STDERR_TAIL_BYTES + Reach(values)
    ensures var b := StartAt(fed, |fed| - STDERR_TAIL_BYTES - Reach(values));
            b <= p && Hidden(values, fed[b..], true, p - b)
  {
    hide Valid, IsSecret, AllSecrets, Hidden, HiddenIn, Reach, Upwards, IsBoundary;
    var v, i, j := HidingMatch(values, RawView(fed), p);
    SecretIsLong(values, v);
    OccurrenceIsAligned(fed, v, i, j);
    RawHiddenAfterCut(values, fed, StartAt(fed, |fed| - STDERR_TAIL_BYTES - Reach(values)), true, v, i, j, p);
  }

  /** A value that reaches into the tail starts at or after the first boundary of the ring. */
  lemma StartsInRing(values: seq<Bytes>, fed: Bytes, v: Bytes, i: nat, j: nat, p: nat)
    requires AllSecrets(values) && Valid(fed) && v in values && Occurs(v, Decode(fed), i, j)
    requires Origins(fed, 0)[i] <= p < Origins(fed, 0)[j]
    requires |fed| <= p + STDERR_TAIL_BYTES && |fed| > STDERR_TAIL_BYTES + Reach(values)
    ensures StartAt(fed, |fed| - STDERR_TAIL_BYTES - Reach(values)) <= Origins(fed, 0)[i]
  {
    hide Valid, IsSecret, AllSecrets, Hidden, Reach, Decode, Origins, IsToken, DecodedBefore, IsBoundary;
    SecretIsLong(values, v);
    DecodedOccurrence(fed, v, i, j);
    DecodedBoundaries(values, fed, v, i, j);
  }

  lemma DecodedCase(values: seq<Bytes>, fed: Bytes, p: nat)
    requires AllSecrets(values) && Valid(fed) && HiddenIn(values, PlainView(fed), p)
    requires |fed| <= p + STDERR_TAIL_BYTES && |fed| > STDERR_TAIL_BYTES + Reach(values)
    ensures var b := StartAt(fed, |fed| - STDERR_TAIL_BYTES - Reach(values));
            b <= p && Hidden(values, fed[b..], true, p - b)
  {
    hide Valid, AllSecrets, Hidden, HiddenIn, Reach, Decode, Origins, IsBoundary, Occurs, StartAt;
    var v, i, j := HidingMatch(values, PlainView(fed), p);
    StartsInRing(values, fed, v, i, j, p);
    DecodedHiddenAfterCut(values, fed, StartAt(fed, |fed| - STDERR_TAIL_BYTES - Reach(values)), v, i, j, p);
  }

  /** The continuation bytes at the front of the ring are what lies before the next boundary. */
  lemma RingStart(fed: Bytes, capacity: nat, start: nat)
    requires Valid(fed) && |fed| > capacity
    requires var ring := LastBytes(fed, capacity);
             && start <= Min(3, capacity) && (forall i :: 0 <= i < start ==> IsContinuation(ring[i]))
             && (start < Min(3, capacity) ==> !IsContinuation(ring[start]))
    ensures Base(fed, capacity) == |fed| - capacity + start
    ensures LastBytes(fed, capacity)[start..] == fed[Base(fed, capacity)..]
    ensures Valid(fed[Base(fed, capacity)..])
  {
    hide Valid, CharLen;
    var ring, c := LastBytes(fed, capacity), |fed| - capacity;
    BoundaryIsNear(fed, c);
    forall i | 0 <= i < |ring|
      ensures ring[i] == fed[c + i]
    {
    }
    var s := StartAt(fed, c);
    forall i | c <= i < c + start
      ensures !IsBoundary(fed, i)
    {
      assert ring[i - c] == fed[i];
    }
    assert start < Min(3, capacity) ==> ring[start] == fed[c + start] && IsBoundary(fed, c + start);
    ValidSplit(fed, s);
  }

  class Tail {
    const slack: nat
    var bytes: Bytes
    var isCut: bool
    ghost var fed: Bytes

    ghost predicate Valid()
      reads this
    {
      && bytes == LastBytes(fed, STDERR_TAIL_BYTES + slack)
      && isCut == (|fed| > STDERR_TAIL_BYTES + slack)
    }

    constructor (slack: nat)
      ensures Valid() && fed == [] && this.slack == slack
    {
      this.slack := slack;
      bytes := [];
      isCut := false;
      fed := [];
    }

    /** Adds what was read and drops what no longer fits. */
    method Append(chunk: Bytes)
      requires Valid()
      modifies this
      ensures fed == old(fed) + chunk
      ensures Valid()
    {
      var capacity := STDERR_TAIL_BYTES + slack;
      bytes := bytes + chunk;
      var excess := Monus(|bytes|, capacity);
      if excess > 0 {
        bytes := bytes[excess..];
        isCut := true;
      }
      fed := fed + chunk;
    }

    /**
     The redacted report. What it shows starts at or after the last `STDERR_TAIL_BYTES` bytes of everything read,
     and no byte there that is part of a value, raw or escaped, is shown.
     */
    method Report(values: seq<Bytes>) returns (out: Bytes)
      requires Valid() && slack == Reach(values) && AllSecrets(values) && Utf8.Valid(fed)
      ensures var capacity := STDERR_TAIL_BYTES + slack;
              var text, start := fed[Base(fed, capacity)..], ShownFrom(fed, capacity);
              && out == Mask(text, Found(values, text, |fed| > capacity), start, |text|, false)
              && (|fed| <= capacity ==> start == 0 && text == fed)
              && (|fed| > capacity ==> Base(fed, capacity) + start >= |fed| - STDERR_TAIL_BYTES)
              && (|fed| > capacity ==> Base(fed, capacity) + start <= |fed| - STDERR_TAIL_BYTES + 3)
              && (forall p: nat :: |fed| <= p + STDERR_TAIL_BYTES && Hidden(values, fed, false, p) ==>
                    p >= Base(fed, capacity) &&
                    Covered(Found(values, text, |fed| > capacity), p - Base(fed, capacity)))
    {
      hide Mask, Found, Utf8.Valid, Covered, Hidden, Reach, AllSecrets, IsBoundary;
      ghost var capacity := STDERR_TAIL_BYTES + slack;
      var skip := 0;
      if isCut {
        while skip < 3 && skip < |bytes| && IsContinuation(bytes[skip])
          invariant skip <= 3 && skip <= |bytes| && forall i :: 0 <= i < skip ==> IsContinuation(bytes[i])
        {
          skip := skip + 1;
        }
        RingStart(fed, capacity, skip);
      }
      var kept := bytes[skip..];
      ghost var text := kept;
      if isCut {
        StartIsNear(fed, capacity, Monus(slack, skip), skip);
        out := RedactSpans(values, kept, Monus(slack, skip), true);
      } else {
        assert kept == fed && fed[0..] == fed;
        StartOfText(fed);
        out := RedactSpans(values, kept, 0, false);
      }
      TailIsHidden(values, fed);
    }
  }

  lemma StartOfText(t: Bytes)
    requires Valid(t)
    ensures StartAt(t, 0) == 0
  {
    if t != [] {
      CharShape(t);
    }
  }

  lemma StartIsNear(fed: Bytes, capacity: nat, from: nat, skip: nat)
    requires Valid(fed) && |fed| > capacity && skip <= 3 && Base(fed, capacity) == |fed| - capacity + skip
    requires Valid(fed[Base(fed, capacity)..])
    requires capacity >= STDERR_TAIL_BYTES && from == Monus(capacity - STDERR_TAIL_BYTES, skip)
    ensures var s := Base(fed, capacity) + StartAt(fed[Base(fed, capacity)..], from);
            |fed| - STDERR_TAIL_BYTES <= s <= |fed| - STDERR_TAIL_BYTES + 3
  {
    hide Valid;
    var text := fed[Base(fed, capacity)..];
    BoundaryIsNear(text, from);
    if capacity - STDERR_TAIL_BYTES < skip {
      StartOfText(text);
    }
  }
}
