/** Server-sent events as a grammar of whole inputs: sections 9.2.5 and 9.2.6 of the WHATWG HTML Standard. */
module SseGrammar {
  import opened Common
  import opened Utf8

  const LF: Byte := 0x0A
  const CR: Byte := 0x0D
  const COLON: Byte := 0x3A
  const SPACE: Byte := 0x20
  const BOM: Bytes := [0xEF, 0xBB, 0xBF]
  const EVENT: Bytes := [0x65, 0x76, 0x65, 0x6E, 0x74]
  const DATA: Bytes := [0x64, 0x61, 0x74, 0x61]
  const ID: Bytes := [0x69, 0x64]
  const RETRY: Bytes := [0x72, 0x65, 0x74, 0x72, 0x79]
  const MESSAGE: Bytes := [0x6D, 0x65, 0x73, 0x73, 0x61, 0x67, 0x65]
  const U64_MAX: nat := 0xFFFF_FFFF_FFFF_FFFF

  // ----- lines -----

  predicate EndsInCr(s: Bytes) {
    s != [] && s[|s| - 1] == CR
  }

  /** The input with every line end as one LF. */
  function Normal(s: Bytes): Bytes {
    if s == [] then []
    else
      var b, init := s[|s| - 1], s[..|s| - 1];
      if b == LF && EndsInCr(init) then Normal(init) else Normal(init) + [if b == CR then LF else b]
  }

  /** The lines that an LF ends. */
  function Split(n: Bytes): seq<Bytes> {
    if n == [] then []
    else
      var init := n[..|n| - 1];
      if n[|n| - 1] == LF then Split(init) + [Tail(init)] else Split(init)
  }

  /** What follows the last LF. */
  function Tail(n: Bytes): Bytes {
    if n == [] || n[|n| - 1] == LF then [] else Tail(n[..|n| - 1]) + [n[|n| - 1]]
  }

  function Lines(s: Bytes): seq<Bytes> {
    Split(Normal(s))
  }

  function Rest(s: Bytes): Bytes {
    Tail(Normal(s))
  }

  datatype End = Lf | Cr | CrLf {
    function Written(): Bytes {
      match this
      case Lf => [LF]
      case Cr => [CR]
      case CrLf => [CR, LF]
    }
  }

  predicate IsLine(l: Bytes) {
    LF !in l && CR !in l
  }

  /** Lines with their ends; a blank line ended by LF cannot follow a CR, since the two read as one CRLF. */
  predicate Writable(lines: seq<Bytes>, ends: seq<End>) {
    && |lines| == |ends| && (forall l :: l in lines ==> IsLine(l))
    && forall i :: 0 <= i < |lines| - 1 && ends[i].Cr? && lines[i + 1] == [] ==> !ends[i + 1].Lf?
  }

  function Render(lines: seq<Bytes>, ends: seq<End>): Bytes
    requires |lines| == |ends|
  {
    if lines == [] then []
    else Render(lines[..|lines| - 1], ends[..|ends| - 1]) + lines[|lines| - 1] + ends[|ends| - 1].Written()
  }

  lemma NormalSnoc(s: Bytes, b: Byte)
    ensures Normal(s + [b]) == if b == LF && EndsInCr(s) then Normal(s) else Normal(s) + [if b == CR then LF else b]
  {
    assert (s + [b])[..|s|] == s;
  }

  lemma {:induction false} NormalOfLine(s: Bytes, l: Bytes)
    requires IsLine(l)
    ensures Normal(s + l) == Normal(s) + l
  {
    if l == [] {
      assert s + l == s;
    } else {
      var init := l[..|l| - 1];
      NormalOfLine(s, init);
      assert s + l == (s + init) + [l[|l| - 1]];
      NormalSnoc(s + init, l[|l| - 1]);
      assert Normal(s) + init + [l[|l| - 1]] == Normal(s) + l;
    }
  }

  lemma {:induction false} SplitOfLine(n: Bytes, l: Bytes)
    requires IsLine(l)
    ensures Split(n + l) == Split(n) && Tail(n + l) == Tail(n) + l
  {
    if l == [] {
      assert n + l == n;
    } else {
      var init := l[..|l| - 1];
      SplitOfLine(n, init);
      assert (n + l)[..|n + l| - 1] == n + init;
      assert Tail(n) + init + [l[|l| - 1]] == Tail(n) + l;
    }
  }

  lemma NormalOfEnd(s: Bytes, end: End)
    requires end.Lf? ==> !EndsInCr(s)
    ensures Normal(s + end.Written()) == Normal(s) + [LF]
  {
    match end
    case Lf => NormalSnoc(s, LF);
    case Cr => NormalSnoc(s, CR);
    case CrLf =>
      NormalSnoc(s, CR);
      NormalSnoc(s + [CR], LF);
      assert s + [CR, LF] == s + [CR] + [LF];
  }

  lemma EndOfRender(lines: seq<Bytes>, ends: seq<End>)
    requires Writable(lines, ends)
    ensures EndsInCr(Render(lines, ends)) <==> lines != [] && ends[|ends| - 1].Cr?
  {
    if lines != [] {
      var w := ends[|ends| - 1].Written();
      assert Render(lines, ends)[|Render(lines, ends)| - 1] == w[|w| - 1];
    }
  }

  /** Every line and one LF after it. */
  function WithLf(lines: seq<Bytes>): Bytes {
    if lines == [] then [] else WithLf(lines[..|lines| - 1]) + lines[|lines| - 1] + [LF]
  }

  lemma {:induction false} NormalOfRender(lines: seq<Bytes>, ends: seq<End>)
    requires Writable(lines, ends)
    ensures Normal(Render(lines, ends)) == WithLf(lines)
  {
    hide Normal;
    if lines == [] {
      assert Normal([]) == [] by { NormalOfNothing(); }
    } else {
      var init, initEnds, last, end := lines[..|lines| - 1], ends[..|ends| - 1], lines[|lines| - 1], ends[|ends| - 1];
      NormalOfRender(init, initEnds);
      var before := Render(init, initEnds);
      NormalOfLine(before, last);
      EndOfRender(init, initEnds);
      assert end.Lf? ==> !EndsInCr(before + last) by {
        assert last != [] ==> (before + last)[|before + last| - 1] == last[|last| - 1];
        assert last == [] ==> before + last == before;
        assert init != [] ==> initEnds[|initEnds| - 1] == ends[|lines| - 2];
      }
      NormalOfEnd(before + last, end);
    }
  }

  lemma NormalOfNothing()
    ensures Normal([]) == []
  {
  }

  lemma SplitEnd(n: Bytes)
    ensures Split(n + [LF]) == Split(n) + [Tail(n)] && Tail(n + [LF]) == []
  {
    assert (n + [LF])[..|n|] == n;
  }

  lemma SplitNothing()
    ensures Split([]) == [] && Tail([]) == []
  {
  }

  lemma {:induction false} SplitWithLf(lines: seq<Bytes>)
    requires forall l :: l in lines ==> IsLine(l)
    ensures Split(WithLf(lines)) == lines && Tail(WithLf(lines)) == []
  {
    hide Split, Tail;
    if lines == [] {
      SplitNothing();
    } else {
      var init, last := lines[..|lines| - 1], lines[|lines| - 1];
      SplitWithLf(init);
      SplitOfLine(WithLf(init), last);
      SplitEnd(WithLf(init) + last);
      assert [] + last == last;
      assert lines == init + [last];
    }
  }

  /** Splitting gives back the lines that were written, whichever line ends were used, and what follows them. */
  lemma LinesOfRender(lines: seq<Bytes>, ends: seq<End>, tail: Bytes)
    requires Writable(lines, ends) && IsLine(tail)
    ensures Lines(Render(lines, ends) + tail) == lines && Rest(Render(lines, ends) + tail) == tail
  {
    hide Split, Tail, Normal, WithLf;
    NormalOfRender(lines, ends);
    NormalOfLine(Render(lines, ends), tail);
    SplitWithLf(lines);
    SplitOfLine(WithLf(lines), tail);
  }

  // ----- fields -----

  function Colon(l: Bytes): (c: nat)
    ensures c <= |l| && (c < |l| ==> l[c] == COLON) && COLON !in l[..c]
  {
    if l == [] || l[0] == COLON then 0
    else
      var c := Colon(l[1..]);
      assert l[..1 + c] == [l[0]] + l[1..][..c];
      1 + c
  }

  function Name(l: Bytes): Bytes {
    l[..Colon(l)]
  }

  function Value(l: Bytes): Bytes {
    var after := if Colon(l) == |l| then [] else l[Colon(l) + 1..];
    if after != [] && after[0] == SPACE then after[1..] else after
  }

  /** The values a list of lines gives to a field, in order; a comment line has the empty name. */
  function Values(lines: seq<Bytes>, name: Bytes): seq<Bytes> {
    if lines == [] then []
    else
      var l, before := lines[|lines| - 1], Values(lines[..|lines| - 1], name);
      if Name(l) == name then before + [Value(l)] else before
  }

  function Last(values: seq<Bytes>, otherwise: Bytes): Bytes {
    if values == [] then otherwise else values[|values| - 1]
  }

  function WithoutNul(values: seq<Bytes>): seq<Bytes> {
    if values == [] then []
    else
      var v, before := values[|values| - 1], WithoutNul(values[..|values| - 1]);
      if 0 in v then before else before + [v]
  }

  predicate IsDigits(v: Bytes) {
    v != [] && forall k :: 0 <= k < |v| ==> 0x30 <= v[k] <= 0x39
  }

  function Decimal(v: Bytes): nat
    requires forall k :: 0 <= k < |v| ==> 0x30 <= v[k] <= 0x39
  {
    if v == [] then 0 else Decimal(v[..|v| - 1]) * 10 + (v[|v| - 1] as int - 0x30)
  }

  /** A reconnection time counts when it is decimal digits and fits 64 bits. */
  function RetryOf(v: Bytes): Option<nat> {
    if IsDigits(v) && Decimal(v) <= U64_MAX then Some(Decimal(v)) else None
  }

  function LastRetry(values: seq<Bytes>): Option<nat> {
    if values == [] then None
    else
      var v := values[|values| - 1];
      if RetryOf(v).Some? then RetryOf(v) else LastRetry(values[..|values| - 1])
  }

  function JoinLines(values: seq<Bytes>): Bytes {
    if values == [] then []
    else if |values| == 1 then values[0]
    else JoinLines(values[..|values| - 1]) + [LF] + values[|values| - 1]
  }

  // ----- events -----

  datatype Event = Event(event: Bytes, data: Bytes, id: Bytes, retry: Option<nat>)

  /** The lines since the last blank line. */
  function Block(lines: seq<Bytes>): seq<Bytes> {
    if lines == [] || lines[|lines| - 1] == [] then [] else Block(lines[..|lines| - 1]) + [lines[|lines| - 1]]
  }

  /** The event that a blank line after these lines dispatches; none without data. */
  function Dispatched(lines: seq<Bytes>): Option<Event> {
    var block := Block(lines);
    var name := Last(Values(block, EVENT), []);
    if Values(block, DATA) == [] then None
    else Some(Event(if name == [] then MESSAGE else name, JoinLines(Values(block, DATA)),
                    Last(WithoutNul(Values(lines, ID)), []), LastRetry(Values(lines, RETRY))))
  }

  function EventsOf(lines: seq<Bytes>): seq<Event> {
    if lines == [] then []
    else
      var before := lines[..|lines| - 1];
      if lines[|lines| - 1] == [] && Dispatched(before).Some? then EventsOf(before) + [Dispatched(before).value]
      else EventsOf(before)
  }

  function WithoutBom(l: Bytes): Bytes {
    if |l| >= 3 && l[..3] == BOM then l[3..] else l
  }

  function Stripped(lines: seq<Bytes>): (r: seq<Bytes>)
    ensures |r| == |lines|
  {
    if lines == [] then [] else [WithoutBom(lines[0])] + lines[1..]
  }

  predicate AllText(lines: seq<Bytes>) {
    forall l :: l in lines ==> Valid(l)
  }

  /** The events of an input: a pure function of its complete lines. */
  function Events(input: Bytes): seq<Event> {
    EventsOf(Stripped(Lines(input)))
  }
}
