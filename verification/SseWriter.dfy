/** Writing event streams, apart from the grammar that reads them: what is written is read back. */
module SseWriter {
  import opened Common
  import opened Utf8
  import opened SseGrammar
  import opened SseParser

  // ----- names and fields -----

  function Ascii(s: string): Bytes
    requires forall i :: 0 <= i < |s| ==> s[i] < 128 as char
  {
    seq(|s|, i requires 0 <= i < |s| => s[i] as int)
  }

  lemma NamesAreSpelled()
    ensures EVENT == Ascii("event") && DATA == Ascii("data") && ID == Ascii("id") && RETRY == Ascii("retry")
    ensures MESSAGE == Ascii("message") && [LF, CR, COLON, SPACE] == Ascii("\n\r: ")
    ensures BOM == Encode(0xFEFF)
  {
    assert EVENT == Ascii("event");
    assert DATA == Ascii("data");
    assert ID == Ascii("id");
    assert RETRY == Ascii("retry");
    assert MESSAGE == Ascii("message");
    assert [LF, CR, COLON, SPACE] == Ascii("\n\r: ");
  }

  /** A line is a name alone, or a name, a colon, and a value after at most one space. */
  predicate IsField(l: Bytes, name: Bytes, value: Bytes) {
    && COLON !in name
    && ((l == name && value == [])
        || l == name + [COLON, SPACE] + value
        || (l == name + [COLON] + value && (value == [] || value[0] != SPACE)))
  }

  lemma {:induction false} ColonAfter(name: Bytes, more: Bytes)
    requires COLON !in name && (more == [] || more[0] == COLON)
    ensures Colon(name + more) == |name|
  {
    if name == [] {
      assert name + more == more;
    } else {
      assert (name + more)[1..] == name[1..] + more;
      ColonAfter(name[1..], more);
    }
  }

  /** Every line is read as exactly one field. */
  lemma FieldIff(l: Bytes, name: Bytes, value: Bytes)
    ensures Name(l) == name && Value(l) == value <==> IsField(l, name, value)
  {
    hide Name, Value, IsField;
    if Name(l) == name && Value(l) == value {
      ReadIsField(l);
    }
    if IsField(l, name, value) {
      FieldIsRead(l, name, value);
    }
  }

  lemma ReadIsField(l: Bytes)
    ensures IsField(l, Name(l), Value(l))
  {
    var c := Colon(l);
    if c == |l| {
      assert l == l[..c];
    } else {
      var after := l[c + 1..];
      assert l == l[..c] + [COLON] + after;
      if after != [] && after[0] == SPACE {
        assert l == l[..c] + [COLON, SPACE] + after[1..];
      }
    }
  }

  lemma FieldIsRead(l: Bytes, name: Bytes, value: Bytes)
    requires IsField(l, name, value)
    ensures Name(l) == name && Value(l) == value
  {
    var more := l[|name|..];
    assert l == name + more;
    ColonAfter(name, more);
    assert more != [] ==> l[|name| + 1..] == more[1..];
  }

  // ----- reconnection times -----

  function Number(n: nat): (t: Bytes)
    ensures t != []
  {
    if n < 10 then [0x30 + n] else Number(n / 10) + [0x30 + n % 10]
  }

  function Zeros(k: nat): Bytes {
    if k == 0 then [] else Zeros(k - 1) + [0x30]
  }

  lemma {:induction false} DigitsAreNumber(v: Bytes) returns (k: nat)
    requires IsDigits(v)
    ensures v == Zeros(k) + Number(Decimal(v))
  {
    var init, d := v[..|v| - 1], v[|v| - 1] as int - 0x30;
    assert v == init + [0x30 + d];
    if init == [] {
      k := 0;
    } else {
      k := DigitsAreNumber(init);
      if Decimal(init) == 0 {
        k := k + 1;
      }
    }
  }

  lemma DecimalSnoc(v: Bytes, b: Byte)
    requires (forall k :: 0 <= k < |v| ==> 0x30 <= v[k] <= 0x39) && 0x30 <= b <= 0x39
    ensures Decimal(v + [b]) == Decimal(v) * 10 + (b as int - 0x30)
  {
    assert (v + [b])[..|v|] == v;
  }

  lemma {:induction false} NumberIsDigits(k: nat, n: nat)
    ensures IsDigits(Zeros(k) + Number(n)) && Decimal(Zeros(k) + Number(n)) == n
    decreases n, k
  {
    hide Decimal, Zeros;
    if n >= 10 {
      NumberIsDigits(k, n / 10);
      DecimalSnoc(Zeros(k) + Number(n / 10), 0x30 + n % 10);
      assert Zeros(k) + Number(n) == Zeros(k) + Number(n / 10) + [0x30 + n % 10];
    } else {
      ZerosAreNothing(k);
      DecimalSnoc(Zeros(k), 0x30 + n);
    }
  }

  lemma {:induction false} ZerosAreNothing(k: nat)
    ensures (forall i :: 0 <= i < |Zeros(k)| ==> Zeros(k)[i] == 0x30) && Decimal(Zeros(k)) == 0
  {
    if k > 0 {
      ZerosAreNothing(k - 1);
      DecimalSnoc(Zeros(k - 1), 0x30);
    }
  }

  /** A reconnection time is read exactly from its digits, with any zeros before them, when it fits 64 bits. */
  lemma RetryIff(v: Bytes, n: nat)
    ensures RetryOf(v) == Some(n) <==> n <= U64_MAX && exists k :: v == Zeros(k) + Number(n)
  {
    if RetryOf(v) == Some(n) {
      var k := DigitsAreNumber(v);
    }
    if k :| v == Zeros(k) + Number(n) {
      NumberIsDigits(k, n);
    }
  }

  // ----- messages -----

  /** What a sender writes: an event name or none, lines of data, and perhaps an identifier and a reconnection time. */
  datatype Message = Message(name: Bytes, data: seq<Bytes>, id: Option<Bytes>, retry: Option<nat>)

  predicate CanSend(m: Message) {
    && m.data != [] && (m.id.Some? ==> 0 !in m.id.value) && (m.retry.Some? ==> m.retry.value <= U64_MAX)
  }

  function Field(name: Bytes, value: Bytes): Bytes {
    name + [COLON, SPACE] + value
  }

  function DataFields(data: seq<Bytes>): seq<Bytes> {
    if data == [] then [] else DataFields(data[..|data| - 1]) + [Field(DATA, data[|data| - 1])]
  }

  /** The lines of a message, without the blank line that ends it. */
  function Fields(m: Message): seq<Bytes> {
    (if m.name == [] then [] else [Field(EVENT, m.name)]) + DataFields(m.data)
    + (if m.id.Some? then [Field(ID, m.id.value)] else [])
    + (if m.retry.Some? then [Field(RETRY, Number(m.retry.value))] else [])
  }

  function Sent(messages: seq<Message>): seq<Bytes> {
    if messages == [] then [] else Sent(messages[..|messages| - 1]) + Fields(messages[|messages| - 1]) + [[]]
  }

  /** The data of a message with a line feed after every line. */
  function Lined(data: seq<Bytes>): Bytes {
    if data == [] then [] else Lined(data[..|data| - 1]) + data[|data| - 1] + [LF]
  }

  /** The identifier and the reconnection time stay from one message to the next. */
  function LastId(messages: seq<Message>): Bytes {
    if messages == [] then []
    else
      var m := messages[|messages| - 1];
      if m.id.Some? then m.id.value else LastId(messages[..|messages| - 1])
  }

  function LastTime(messages: seq<Message>): Option<nat> {
    if messages == [] then None
    else
      var m := messages[|messages| - 1];
      if m.retry.Some? then m.retry else LastTime(messages[..|messages| - 1])
  }

  /** The events a receiver should see. */
  ghost predicate Received(messages: seq<Message>, events: seq<Event>) {
    && |events| == |messages|
    && forall k :: 0 <= k < |events| ==> IsReceived(messages[..k + 1], messages[k], events[k])
  }

  ghost predicate IsReceived(sent: seq<Message>, m: Message, e: Event) {
    && e.event == (if m.name == [] then Ascii("message") else m.name)
    && e.data + [LF] == Lined(m.data) && e.id == LastId(sent) && e.retry == LastTime(sent)
  }

  lemma FieldFed(lines: seq<Bytes>, name: Bytes, value: Bytes)
    requires COLON !in name
    ensures Name(Field(name, value)) == name && Value(Field(name, value)) == value && Field(name, value) != []
    ensures FrameOf(lines + [Field(name, value)]) == Fed(FrameOf(lines), Field(name, value))
    ensures EventsOf(lines + [Field(name, value)]) == EventsOf(lines)
  {
    hide FrameOf, EventsOf, Fed, Name, Value;
    FieldIff(Field(name, value), name, value);
    FedFollows(lines, Field(name, value));
  }

  lemma NoColons()
    ensures COLON !in EVENT && COLON !in DATA && COLON !in ID && COLON !in RETRY
  {
  }

  lemma LinedNothing()
    ensures Lined([]) == []
  {
  }

  lemma LinedSnoc(data: seq<Bytes>, last: Bytes)
    ensures Lined(data + [last]) == Lined(data) + last + [LF]
  {
    assert (data + [last])[..|data|] == data;
  }

  lemma {:induction false} DataFed(lines: seq<Bytes>, data: seq<Bytes>)
    ensures var f := FrameOf(lines);
            FrameOf(lines + DataFields(data))
            == if data == [] then f else f.(first := false, data := f.data + Lined(data), hasData := true)
    ensures EventsOf(lines + DataFields(data)) == EventsOf(lines)
  {
    hide FrameOf, EventsOf, Name, Value, EVENT, DATA, ID, RETRY, Field, RetryOf, Lined;
    LinedNothing();
    assert FrameOf(lines).data + [] == FrameOf(lines).data;
    if data == [] {
      assert lines + DataFields(data) == lines;
    } else {
      var init, last := data[..|data| - 1], data[|data| - 1];
      DataFed(lines, init);
      NoColons();
      Names();
      FieldFed(lines + DataFields(init), DATA, last);
      LinedSnoc(init, last);
      assert lines + DataFields(data) == (lines + DataFields(init)) + [Field(DATA, last)];
      assert data == init + [last];
      assert FrameOf(lines).data + Lined(data) == FrameOf(lines).data + Lined(init) + last + [LF];
    }
  }

  lemma NameFed(lines: seq<Bytes>, name: Bytes)
    ensures var next := lines + if name == [] then [] else [Field(EVENT, name)];
            && EventsOf(next) == EventsOf(lines)
            && FrameOf(next).(first := false)
               == FrameOf(lines).(first := false, event := if name == [] then FrameOf(lines).event else name)
  {
    hide FrameOf, EventsOf, Name, Value, EVENT, DATA, ID, RETRY, Field, RetryOf;
    NoColons();
    Names();
    assert lines + [] == lines;
    FieldFed(lines, EVENT, name);
  }

  lemma IdFed(lines: seq<Bytes>, id: Option<Bytes>)
    requires id.Some? ==> 0 !in id.value
    ensures var next := lines + if id.Some? then [Field(ID, id.value)] else [];
            && EventsOf(next) == EventsOf(lines)
            && FrameOf(next).(first := false)
               == FrameOf(lines).(first := false, lastId := if id.Some? then id.value else FrameOf(lines).lastId)
  {
    hide FrameOf, EventsOf, Name, Value, EVENT, DATA, ID, RETRY, Field, RetryOf;
    NoColons();
    Names();
    assert lines + [] == lines;
    if id.Some? {
      FieldFed(lines, ID, id.value);
    }
  }

  lemma TimeFed(lines: seq<Bytes>, retry: Option<nat>)
    requires retry.Some? ==> retry.value <= U64_MAX
    ensures var next := lines + if retry.Some? then [Field(RETRY, Number(retry.value))] else [];
            && EventsOf(next) == EventsOf(lines)
            && FrameOf(next).(first := false)
               == FrameOf(lines).(first := false, retry := if retry.Some? then retry else FrameOf(lines).retry)
  {
    hide FrameOf, EventsOf, Name, Value, EVENT, DATA, ID, RETRY, Field, RetryOf, Number;
    NoColons();
    Names();
    assert lines + [] == lines;
    if retry.Some? {
      assert Zeros(0) + Number(retry.value) == Number(retry.value);
      RetryIff(Number(retry.value), retry.value);
      FieldFed(lines, RETRY, Number(retry.value));
    }
  }

  /** The frame a message leaves before its blank line. */
  lemma MessageFed(lines: seq<Bytes>, m: Message)
    requires CanSend(m)
    ensures var f, next := FrameOf(lines), FrameOf(lines + Fields(m));
            && next.event == (if m.name == [] then f.event else m.name)
            && next.data == f.data + Lined(m.data) && next.hasData
            && next.lastId == (if m.id.Some? then m.id.value else f.lastId)
            && next.retry == if m.retry.Some? then m.retry else f.retry
    ensures EventsOf(lines + Fields(m)) == EventsOf(lines)
  {
    hide FrameOf, EventsOf, EVENT, DATA, ID, RETRY, Field, Number, Lined, DataFields;
    var a := lines + if m.name == [] then [] else [Field(EVENT, m.name)];
    var b := a + DataFields(m.data);
    var c := b + if m.id.Some? then [Field(ID, m.id.value)] else [];
    var d := c + if m.retry.Some? then [Field(RETRY, Number(m.retry.value))] else [];
    NameFed(lines, m.name);
    DataFed(a, m.data);
    IdFed(b, m.id);
    TimeFed(c, m.retry);
    assert lines + Fields(m) == d;
  }

  /** What the lines of whole messages leave for the next one. */
  ghost predicate Between(messages: seq<Message>, f: Frame) {
    f.event == [] && f.data == [] && !f.hasData && f.lastId == LastId(messages) && f.retry == LastTime(messages)
  }

  lemma NothingSent()
    ensures Between([], FrameOf([])) && EventsOf([]) == []
  {
  }

  /** Messages that are sent are received, each once and in order. */
  lemma {:induction false} SentIsReceived(messages: seq<Message>)
    requires forall m :: m in messages ==> CanSend(m)
    ensures Received(messages, EventsOf(Sent(messages))) && Between(messages, FrameOf(Sent(messages)))
  {
    hide FrameOf, EventsOf, CanSend, Fields, Dispatched, IsReceived, MESSAGE, Lined;
    if messages == [] {
      NothingSent();
    } else {
      var n := |messages| - 1;
      var init, m := messages[..n], messages[n];
      SentIsReceived(init);
      var lines := Sent(init) + Fields(m);
      MessageFed(Sent(init), m);
      BlankFollows(lines);
      OneReceived(messages, lines);
      var before := EventsOf(Sent(init));
      forall k | 0 <= k < n
        ensures IsReceived(messages[..k + 1], messages[k], before[k])
      {
        assert init[..k + 1] == messages[..k + 1];
      }
      assert messages[..n + 1] == messages;
    }
  }

  lemma {:induction false} OneReceived(messages: seq<Message>, lines: seq<Bytes>)
    requires messages != [] && var m := messages[|messages| - 1]; var f := FrameOf(lines);
             && f.hasData && f.event == m.name && f.data == Lined(m.data)
             && f.lastId == LastId(messages) && f.retry == LastTime(messages)
    ensures Dispatched(lines).Some? && IsReceived(messages, messages[|messages| - 1], Dispatched(lines).value)
  {
    hide FrameOf, EventsOf, Dispatched, Lined, LastId, LastTime;
    BlankFollows(lines);
    NamesAreSpelled();
    var d := FrameOf(lines).data;
    assert d[|d| - 1] == LF && d == d[..|d| - 1] + [LF] by {
      LinedEnds(messages[|messages| - 1].data);
    }
  }

  lemma LinedEnds(data: seq<Bytes>)
    ensures Lined(data) != [] ==> Lined(data)[|Lined(data)| - 1] == LF
  {
  }
  /** A line that starts with no byte order mark. */
  predicate IsPlain(l: Bytes) {
    l == [] || l[0] < 0x80
  }

  lemma {:induction false} DataIsPlain(data: seq<Bytes>)
    ensures forall l :: l in DataFields(data) ==> IsPlain(l)
  {
    if data != [] {
      DataIsPlain(data[..|data| - 1]);
    }
  }

  lemma {:induction false} SentIsPlain(messages: seq<Message>)
    ensures forall l :: l in Sent(messages) ==> IsPlain(l)
  {
    if messages != [] {
      var m := messages[|messages| - 1];
      SentIsPlain(messages[..|messages| - 1]);
      DataIsPlain(m.data);
      assert IsPlain(Field(EVENT, m.name));
      assert m.id.Some? ==> IsPlain(Field(ID, m.id.value));
      assert m.retry.Some? ==> IsPlain(Field(RETRY, Number(m.retry.value)));
    }
  }

  /** Messages that are sent with any line ends arrive, each once and in order. */
  lemma StreamIsReceived(messages: seq<Message>, ends: seq<End>)
    requires (forall m :: m in messages ==> CanSend(m)) && Writable(Sent(messages), ends)
    ensures Received(messages, Events(Render(Sent(messages), ends)))
  {
    hide Received, CanSend, EventsOf, Sent, Lines;
    var lines, input := Sent(messages), Render(Sent(messages), ends);
    LinesOfRender(lines, ends, []);
    assert input + [] == input;
    SentIsReceived(messages);
    SentIsPlain(messages);
    if lines != [] {
      assert lines[0] in lines;
      assert |lines[0]| >= 3 ==> lines[0][..3][0] == lines[0][0];
      assert WithoutBom(lines[0]) == lines[0];
      assert Stripped(lines) == lines;
    }
  }
  /** The lines with a byte order mark before the first. */
  function Marked(lines: seq<Bytes>): seq<Bytes>
    requires lines != []
  {
    [BOM + lines[0]] + lines[1..]
  }

  lemma Regrouped(a: Bytes, b: Bytes, c: Bytes, d: Bytes)
    ensures a + b + c + d == a + (b + c + d)
  {
  }

  lemma MarkedIsWritable(lines: seq<Bytes>, ends: seq<End>)
    requires lines != [] && Writable(lines, ends)
    ensures Writable(Marked(lines), ends)
  {
    assert IsLine(BOM) && lines[0] in lines;
    assert forall l :: l in lines[1..] ==> l in lines;
  }

  lemma {:induction false} RenderMarked(lines: seq<Bytes>, ends: seq<End>)
    requires lines != [] && |lines| == |ends|
    ensures Render(Marked(lines), ends) == BOM + Render(lines, ends)
  {
    hide BOM, End.Written;
    var n := |lines| - 1;
    var end := ends[n].Written();
    if n == 0 {
      assert Render([], []) == [];
      assert Marked(lines)[..0] == [] && lines[..0] == [] && ends[..0] == [];
      assert [] + (BOM + lines[0]) + end == BOM + ([] + lines[0] + end);
    } else {
      RenderMarked(lines[..n], ends[..n]);
      assert Marked(lines)[..n] == Marked(lines[..n]) && Marked(lines)[n] == lines[n];
      Regrouped(BOM, Render(lines[..n], ends[..n]), lines[n], end);
    }
  }

  /** A byte order mark before a stream changes nothing. */
  lemma MarkedStreamIsReceived(messages: seq<Message>, ends: seq<End>)
    requires messages != [] && (forall m :: m in messages ==> CanSend(m)) && Writable(Sent(messages), ends)
    ensures Received(messages, Events(BOM + Render(Sent(messages), ends)))
  {
    hide Received, CanSend, EventsOf, Sent, Lines;
    var lines := Sent(messages);
    SomethingSent(messages);
    RenderMarked(lines, ends);
    MarkedIsWritable(lines, ends);
    var input := BOM + Render(lines, ends);
    LinesOfRender(Marked(lines), ends, []);
    assert input + [] == input;
    SentIsReceived(messages);
    assert WithoutBom(BOM + lines[0]) == lines[0] by {
      assert (BOM + lines[0])[..3] == BOM && (BOM + lines[0])[3..] == lines[0];
    }
    assert Stripped(Marked(lines)) == lines;
  }

  lemma SomethingSent(messages: seq<Message>)
    requires messages != []
    ensures Sent(messages) != []
  {
  }
}
