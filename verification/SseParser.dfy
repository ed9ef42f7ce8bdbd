/** The chunk-fed parser and size check, and that they follow the grammar for every way of chunking the input. */
module SseParser {
  import opened Common
  import opened Utf8
  import opened SseGrammar

  /** What the parser remembers between lines. */
  datatype Frame = Frame(first: bool, event: Bytes, data: Bytes, hasData: bool, lastId: Bytes, retry: Option<nat>)

  function Terminated(values: seq<Bytes>): Bytes {
    if values == [] then [] else Terminated(values[..|values| - 1]) + values[|values| - 1] + [LF]
  }

  /** The frame that some lines, their byte order mark removed, leave behind. */
  function FrameOf(lines: seq<Bytes>): Frame {
    var block := Block(lines);
    Frame(lines == [], Last(Values(block, EVENT), []), Terminated(Values(block, DATA)), Values(block, DATA) != [],
          Last(WithoutNul(Values(lines, ID)), []), LastRetry(Values(lines, RETRY)))
  }

  lemma {:induction false} TerminatedIsJoined(values: seq<Bytes>)
    requires values != []
    ensures Terminated(values) == JoinLines(values) + [LF]
  {
    if |values| > 1 {
      TerminatedIsJoined(values[..|values| - 1]);
    }
  }

  lemma ValuesSnoc(lines: seq<Bytes>, l: Bytes, name: Bytes)
    ensures Values(lines + [l], name) == if Name(l) == name then Values(lines, name) + [Value(l)] else Values(lines, name)
  {
    assert (lines + [l])[..|lines|] == lines;
  }

  lemma BlockSnoc(lines: seq<Bytes>, l: Bytes)
    ensures Block(lines + [l]) == if l == [] then [] else Block(lines) + [l]
  {
    assert (lines + [l])[..|lines|] == lines;
  }

  lemma EventsSnoc(lines: seq<Bytes>, l: Bytes)
    ensures EventsOf(lines + [l])
         == EventsOf(lines) + if l == [] && Dispatched(lines).Some? then [Dispatched(lines).value] else []
  {
    assert (lines + [l])[..|lines|] == lines;
  }

  lemma BlankName()
    ensures Name([]) == []
  {
  }

  lemma Names()
    ensures EVENT != DATA && EVENT != ID && EVENT != RETRY && DATA != ID && DATA != RETRY && ID != RETRY
    ensures EVENT != [] && DATA != [] && ID != [] && RETRY != []
  {
  }

  lemma ValueLists(values: seq<Bytes>, v: Bytes)
    ensures Last(values + [v], []) == v && Terminated(values + [v]) == Terminated(values) + v + [LF]
    ensures WithoutNul(values + [v]) == if 0 in v then WithoutNul(values) else WithoutNul(values) + [v]
    ensures LastRetry(values + [v]) == if RetryOf(v).Some? then RetryOf(v) else LastRetry(values)
  {
    assert (values + [v])[..|values|] == values;
  }

  /** The frame after one more line that is not blank. */
  function Fed(f: Frame, l: Bytes): Frame {
    var name, value := Name(l), Value(l);
    if name == EVENT then f.(first := false, event := value)
    else if name == DATA then f.(first := false, data := f.data + value + [LF], hasData := true)
    else if name == ID && 0 !in value then f.(first := false, lastId := value)
    else if name == RETRY && RetryOf(value).Some? then f.(first := false, retry := RetryOf(value))
    else f.(first := false)
  }

  lemma FedFollows(lines: seq<Bytes>, l: Bytes)
    requires l != []
    ensures FrameOf(lines + [l]) == Fed(FrameOf(lines), l)
    ensures EventsOf(lines + [l]) == EventsOf(lines)
  {
    hide Name, Value, Values, Block, EventsOf, WithoutNul, LastRetry, RetryOf, Terminated, Dispatched, EVENT, DATA, ID, RETRY,
      Last;
    Names();
    BlockSnoc(lines, l);
    EventsSnoc(lines, l);
    var block, v := Block(lines), Value(l);
    ValuesSnoc(block, l, EVENT);
    ValuesSnoc(block, l, DATA);
    ValuesSnoc(lines, l, ID);
    ValuesSnoc(lines, l, RETRY);
    ValueLists(Values(block, EVENT), v);
    ValueLists(Values(block, DATA), v);
    ValueLists(Values(lines, ID), v);
    ValueLists(Values(lines, RETRY), v);
    if 0 !in v {
      ValueLists(WithoutNul(Values(lines, ID)), v);
    }
  }

  lemma BlankFollows(lines: seq<Bytes>)
    ensures FrameOf(lines + [[]]) == FrameOf(lines).(first := false, event := [], data := [], hasData := false)
    ensures EventsOf(lines + [[]])
         == EventsOf(lines) + if Dispatched(lines).Some? then [Dispatched(lines).value] else []
    ensures FrameOf(lines).hasData <==> Dispatched(lines).Some?
    ensures FrameOf(lines).hasData ==>
              var f := FrameOf(lines);
              && f.data != []
              && Dispatched(lines).value
                 == Event(if f.event == [] then MESSAGE else f.event, f.data[..|f.data| - 1], f.lastId, f.retry)
  {
    hide Name, Value, EventsOf, WithoutNul, LastRetry, RetryOf, EVENT, DATA, ID, RETRY, MESSAGE, JoinLines;
    BlankName();
    Names();
    BlockSnoc(lines, []);
    EventsSnoc(lines, []);
    ValuesSnoc(lines, [], ID);
    ValuesSnoc(lines, [], RETRY);
    if Values(Block(lines), DATA) != [] {
      TerminatedIsJoined(Values(Block(lines), DATA));
    }
  }

  // ----- bytes -----

  /** How one more byte changes the complete lines and what follows them. */
  lemma ByteFollows(s: Bytes, b: Byte)
    ensures if b == LF && EndsInCr(s) then Lines(s + [b]) == Lines(s) && Rest(s + [b]) == Rest(s)
            else if b == CR || b == LF then Lines(s + [b]) == Lines(s) + [Rest(s)] && Rest(s + [b]) == []
            else Lines(s + [b]) == Lines(s) && Rest(s + [b]) == Rest(s) + [b]
    ensures EndsInCr(s + [b]) <==> b == CR
  {
    NormalSnoc(s, b);
    var n, c := Normal(s), if b == CR then LF else b;
    assert (n + [c])[..|n|] == n;
  }

  lemma StrippedSnoc(lines: seq<Bytes>, l: Bytes)
    ensures Stripped(lines + [l]) == Stripped(lines) + [if lines == [] then WithoutBom(l) else l]
  {
  }

  lemma TextSnoc(lines: seq<Bytes>, l: Bytes)
    ensures AllText(lines + [l]) <==> AllText(lines) && Valid(l)
  {
    hide Valid;
    assert (lines + [l])[|lines|] == l;
    forall x | x in lines
      ensures x in lines + [l]
    {
    }
  }

  /** More input does not take back a line. */
  lemma {:induction false} LinesGrow(s: Bytes, more: Bytes)
    ensures Lines(s) <= Lines(s + more)
  {
    hide Lines, Rest;
    if more == [] {
      assert s + more == s;
    } else {
      var init := more[..|more| - 1];
      LinesGrow(s, init);
      assert s + more == (s + init) + [more[|more| - 1]];
      ByteFollows(s + init, more[|more| - 1]);
    }
  }

  class Parser {
    var line: Bytes
    var skipLf: bool
    var firstLine: bool
    var event: Bytes
    var data: Bytes
    var hasData: bool
    var lastId: Bytes
    var retry: Option<nat>
    ghost var fed: Bytes

    ghost function View(): Frame
      reads this
    {
      Frame(firstLine, event, data, hasData, lastId, retry)
    }

    ghost predicate Valid()
      reads this
    {
      && line == Rest(fed) && skipLf == EndsInCr(fed)
      && View() == FrameOf(Stripped(Lines(fed))) && AllText(Lines(fed))
    }

    constructor ()
      ensures Valid() && fed == []
    {
      line, skipLf, firstLine, event, data, hasData, lastId, retry := [], false, true, [], [], false, [], None;
      fed := [];
    }

    /** Feeds a chunk: the events it completes, or an error when it completes a line that is not text. */
    method Feed(bytes: Bytes) returns (result: Result<seq<Event>, string>)
      requires Valid()
      modifies this
      ensures result.Ok? <==> AllText(Lines(old(fed) + bytes))
      ensures result.Ok? ==> Valid() && fed == old(fed) + bytes
      ensures result.Ok? ==> Events(fed) == Events(old(fed)) + result.value
    {
      hide Lines, Rest, FrameOf, EventsOf, Stripped, AllText, EndsInCr;
      var events := [];
      var i := 0;
      assert old(fed) + bytes[..0] == old(fed);
      while i < |bytes|
        invariant 0 <= i <= |bytes| && fed == old(fed) + bytes[..i] && Valid()
        invariant Events(fed) == Events(old(fed)) + events
      {
        var byte := bytes[i];
        i := i + 1;
        ByteFollows(fed, byte);
        assert bytes[..i] == bytes[..i - 1] + [byte];
        assert old(fed) + bytes[..i] == fed + [byte];
        if skipLf {
          skipLf := false;
          if byte == LF {
            fed := fed + [byte];
            continue;
          }
        }
        if byte == CR || byte == LF {
          ghost var lines := Lines(fed);
          var dispatched := Line();
          if dispatched.Err? {
            TextSnoc(lines, Rest(fed));
            ErrorStays(fed + [byte], bytes[i..], old(fed) + bytes);
            return Err(dispatched.error);
          }
          events := events + dispatched.value;
          skipLf := byte == CR;
        } else {
          line := line + [byte];
        }
        fed := fed + [byte];
      }
      assert bytes[..i] == bytes;
      result := Ok(events);
    }

    /** Interprets the line held. */
    method Line() returns (result: Result<seq<Event>, string>)
      requires line == Rest(fed) && View() == FrameOf(Stripped(Lines(fed))) && AllText(Lines(fed))
      modifies `line, `firstLine, `event, `data, `hasData, `lastId, `retry
      ensures result.Ok? <==> Utf8.Valid(old(line))
      ensures result.Ok? ==> line == [] && AllText(Lines(fed) + [old(line)])
      ensures result.Ok? ==> View() == FrameOf(Stripped(Lines(fed) + [old(line)]))
      ensures result.Ok? ==> EventsOf(Stripped(Lines(fed) + [old(line)])) == EventsOf(Stripped(Lines(fed))) + result.value
    {
      hide Lines, Rest, EventsOf, Utf8.Valid, AllText, Name, Value, Block, Values, EVENT, DATA, ID, RETRY, RetryOf, MESSAGE,
        BOM, Dispatched, WithoutBom, Stripped, FrameOf;
      var l := line;
      ghost var lines, stripped := Lines(fed), Stripped(Lines(fed));
      line := [];
      if !ValidText(l) {
        return Err("invalid SSE UTF-8");
      }
      TextSnoc(lines, l);
      StrippedSnoc(lines, l);
      FirstOf(lines);
      if firstLine {
        l := WithoutBom(l);
        firstLine := false;
      }
      if l == [] {
        BlankFollows(stripped);
        if hasData {
          result := Ok([Event(if event == [] then MESSAGE else event, data[..|data| - 1], lastId, retry)]);
        } else {
          result := Ok([]);
        }
        event, data, hasData := [], [], false;
        return;
      }
      FedFollows(stripped, l);
      var field, value := Name(l), Value(l);
      if field == EVENT {
        event := value;
      } else if field == DATA {
        data := data + value + [LF];
        hasData := true;
      } else if field == ID && 0 !in value {
        lastId := value;
      } else if field == RETRY && RetryOf(value).Some? {
        retry := RetryOf(value);
      }
      result := Ok([]);
    }
  }

  predicate ValidText(l: Bytes) {
    Valid(l)
  }

  lemma FirstOf(lines: seq<Bytes>)
    ensures FrameOf(Stripped(lines)).first <==> lines == []
  {
  }

  /** A line that is not text stays in the input, however it goes on. */
  lemma ErrorStays(s: Bytes, more: Bytes, all: Bytes)
    requires s + more == all && !AllText(Lines(s))
    ensures !AllText(Lines(all))
  {
    hide Lines, Valid;
    LinesGrow(s, more);
    var l :| l in Lines(s) && !Valid(l);
    assert l in Lines(all);
  }

  /** Every way of cutting an input into chunks gives its events: the feeds of a parser, one after another. */
  method FeedAll(chunks: seq<Bytes>) returns (result: Result<seq<Event>, string>)
    ensures result.Ok? <==> AllText(Lines(Concat(chunks)))
    ensures result.Ok? ==> result.value == Events(Concat(chunks))
  {
    hide AllText, Lines, Events;
    var parser := new Parser();
    var events := [];
    NoEvents();
    var i := 0;
    assert chunks[..0] == [];
    while i < |chunks|
      invariant 0 <= i <= |chunks| && parser.Valid() && fresh(parser)
      invariant parser.fed == Concat(chunks[..i]) && events == Events(parser.fed)
    {
      assert chunks[..i + 1][..i] == chunks[..i];
      assert Concat(chunks[..i + 1]) == Concat(chunks[..i]) + chunks[i];
      var more := parser.Feed(chunks[i]);
      if more.Err? {
        ConcatGrows(chunks, i + 1);
        ErrorStays(Concat(chunks[..i + 1]), Concat(chunks)[|Concat(chunks[..i + 1])|..], Concat(chunks));
        return more;
      }
      events := events + more.value;
      i := i + 1;
    }
    assert chunks[..i] == chunks;
    TextOf(parser);
    result := Ok(events);
  }

  lemma TextOf(parser: Parser)
    requires parser.Valid()
    ensures AllText(Lines(parser.fed))
  {
  }

  lemma NoEvents()
    ensures Events([]) == []
  {
  }

  lemma {:induction false} ConcatGrows(chunks: seq<Bytes>, k: nat)
    requires k <= |chunks|
    ensures Concat(chunks[..k]) <= Concat(chunks)
  {
    if k == |chunks| {
      assert chunks[..k] == chunks;
    } else {
      ConcatGrows(chunks[..|chunks| - 1], k);
      assert chunks[..|chunks| - 1][..k] == chunks[..k];
    }
  }

  // ----- the size of an event -----

  function Sizes(lines: seq<Bytes>): nat {
    if lines == [] then 0 else Sizes(lines[..|lines| - 1]) + |lines[|lines| - 1]|
  }

  /** The bytes of the event being received, line ends not counted. */
  function CurrentSize(s: Bytes): nat {
    Sizes(Block(Lines(s))) + |Rest(s)|
  }

  lemma SizeFollows(s: Bytes, b: Byte)
    ensures CurrentSize(s + [b])
         == if b == CR || b == LF then
              (if !(b == LF && EndsInCr(s)) && Rest(s) == [] then 0 else CurrentSize(s))
            else CurrentSize(s) + 1
  {
    hide Lines, Rest, Block;
    ByteFollows(s, b);
    BlockSnoc(Lines(s), Rest(s));
    var block := Block(Lines(s));
    assert (block + [Rest(s)])[..|block|] == block;
    assert Sizes([]) == 0;
  }

  lemma AfterCr(s: Bytes)
    requires EndsInCr(s)
    ensures Rest(s) == []
  {
    var init := s[..|s| - 1];
    assert s == init + [CR];
    ByteFollows(init, CR);
  }

  class EventSize {
    const limit: nat
    var size: nat
    var line: nat
    var afterCr: bool
    ghost var fed: Bytes

    ghost predicate Valid()
      reads this
    {
      && size == CurrentSize(fed) && line == |Rest(fed)| && afterCr == EndsInCr(fed)
      && forall k :: 0 <= k <= |fed| ==> CurrentSize(fed[..k]) <= limit
    }

    constructor (limit: nat)
      ensures Valid() && fed == [] && this.limit == limit
    {
      this.limit := limit;
      size, line, afterCr := 0, 0, false;
      fed := [];
    }

    /** Accepts the bytes exactly when no prefix of everything fed leaves an event above the limit. */
    method Feed(bytes: Bytes) returns (ok: bool)
      requires Valid()
      modifies this
      ensures ok <==> forall k :: 0 <= k <= |old(fed) + bytes| ==> CurrentSize((old(fed) + bytes)[..k]) <= limit
      ensures ok ==> Valid() && fed == old(fed) + bytes
    {
      hide CurrentSize, Rest, EndsInCr;
      ghost var all := old(fed) + bytes;
      var i := 0;
      assert all[..|old(fed)|] == old(fed);
      while i < |bytes|
        invariant 0 <= i <= |bytes| && fed == all[..|old(fed)| + i] && Valid()
      {
        var byte := bytes[i];
        ghost var next := fed + [byte];
        i := i + 1;
        assert next == all[..|old(fed)| + i];
        SizeFollows(fed, byte);
        ByteFollows(fed, byte);
        assert CurrentSize(fed) <= limit by { assert fed[..|fed|] == fed; }
        if byte == LF && afterCr {
          AfterCr(fed);
          afterCr := false;
        } else if byte == CR || byte == LF {
          afterCr := byte == CR;
          if line == 0 {
            size := 0;
          }
          line := 0;
        } else {
          afterCr := false;
          line := line + 1;
          size := size + 1;
          if size > limit {
            return false;
          }
        }
        PrefixesOf(fed, byte, limit);
        fed := next;
      }
      assert all[..|old(fed)| + i] == all;
      ok := true;
    }
  }

  lemma PrefixesOf(s: Bytes, b: Byte, limit: nat)
    requires forall k :: 0 <= k <= |s| ==> CurrentSize(s[..k]) <= limit
    requires CurrentSize(s + [b]) <= limit
    ensures forall k :: 0 <= k <= |s + [b]| ==> CurrentSize((s + [b])[..k]) <= limit
  {
    hide CurrentSize;
    forall k | 0 <= k <= |s + [b]|
      ensures CurrentSize((s + [b])[..k]) <= limit
    {
      if k <= |s| {
        assert (s + [b])[..k] == s[..k];
      } else {
        assert (s + [b])[..k] == s + [b];
      }
    }
  }

  /**
   The size check's lines keep a byte order mark, those of the event grammar do not: they are blank at the same places
   unless the mark is all of the first line.
   */
  lemma BlankLinesIff(s: Bytes)
    ensures (forall i :: 0 <= i < |Lines(s)| ==> (Lines(s)[i] == [] <==> Stripped(Lines(s))[i] == []))
       <==> !(Lines(s) != [] && Lines(s)[0] == BOM)
  {
    hide Lines;
    var lines := Lines(s);
    if lines != [] {
      assert Stripped(lines) == [WithoutBom(lines[0])] + lines[1..];
      assert WithoutBom(lines[0]) == [] <==> lines[0] == [] || lines[0] == BOM by {
        if |lines[0]| == 3 {
          assert lines[0][..3] == lines[0];
        }
      }
    }
  }

  /** A byte order mark and a line end: blank to the grammar, three bytes of an event to the size check. */
  lemma MarkAloneDiffers()
    ensures Lines(BOM + [LF]) == [BOM] && Stripped(Lines(BOM + [LF])) == [[]]
    ensures !(forall i :: 0 <= i < |Lines(BOM + [LF])| ==>
                (Lines(BOM + [LF])[i] == [] <==> Stripped(Lines(BOM + [LF]))[i] == []))
    ensures CurrentSize(BOM + [LF]) == 3
  {
    hide Lines, Rest;
    LinesOfRender([BOM], [Lf], []);
    assert Render([BOM], [Lf]) == BOM + [LF] && BOM + [LF] + [] == BOM + [LF];
    BlankLinesIff(BOM + [LF]);
    assert Block([BOM]) == [BOM];
    assert Sizes([BOM]) == 3;
  }
}
