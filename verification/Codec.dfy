/** Model responses cut into stream events, and events put together into a response. */
module Codec {
  import opened Common
  import opened JsonValues
  import L = LedgerSpec
  import Utf8

  // ----- chunks -----

  /** Bytes of a character in UTF-8. */
  function Utf8Len(c: char): nat {
    var n := c as int;
    if n < 0x80 then 1 else if n < 0x800 then 2 else if n < 0x10000 then 3 else 4
  }

  /** That is the length of its encoding. */
  lemma Utf8LenIs(c: char)
    requires Utf8.IsScalar(c as int)
    ensures Utf8Len(c) == |Utf8.Encode(c as int)|
  {
  }

  function ByteLen(t: string): (n: nat)
    ensures n >= |t|
  {
    if t == "" then 0 else ByteLen(t[..|t| - 1]) + Utf8Len(t[|t| - 1])
  }

  /** Chunks that are full, and the one still open. */
  datatype Cut = Cut(full: seq<string>, open: string)

  function Extended(before: Cut, c: char, size: nat): Cut {
    if before.open != "" && ByteLen(before.open) + Utf8Len(c) > size then Cut(before.full + [before.open], [c])
    else before.(open := before.open + [c])
  }

  function CutText(t: string, size: nat): Cut {
    if t == "" then Cut([], "") else Extended(CutText(t[..|t| - 1], size), t[|t| - 1], size)
  }

  function Chunked(t: string, size: nat): (chunks: seq<string>)
    ensures chunks != []
  {
    CutText(t, size).full + [CutText(t, size).open]
  }

  predicate Fits(chunk: string, size: nat) {
    ByteLen(chunk) <= size || |chunk| == 1
  }

  function AllOf(cut: Cut): string {
    Concat(cut.full) + cut.open
  }

  lemma ExtendedConcat(before: Cut, c: char, size: nat)
    ensures AllOf(Extended(before, c, size)) == AllOf(before) + [c]
  {
    hide ByteLen, Utf8Len, Concat;
    ConcatSnoc(before.full, before.open);
    assert Concat(before.full) + (before.open + [c]) == Concat(before.full) + before.open + [c];
  }

  /** The chunks are the text, in order. */
  lemma {:induction false} ChunksAreText(t: string, size: nat)
    ensures Concat(Chunked(t, size)) == t
  {
    hide Concat, Extended;
    var cut := CutText(t, size);
    ConcatSnoc(cut.full, cut.open);
    if t == "" {
      assert Concat<char>([]) == "" by { NoChunks(); }
    } else {
      var init := t[..|t| - 1];
      ChunksAreText(init, size);
      var before := CutText(init, size);
      ConcatSnoc(before.full, before.open);
      ExtendedConcat(before, t[|t| - 1], size);
      assert t == init + [t[|t| - 1]];
    }
  }

  lemma NoChunks()
    ensures Concat<char>([]) == ""
  {
  }

  /** Every full chunk fits, and was closed because the next character would not have fitted. */
  ghost predicate Tight(cut: Cut, size: nat) {
    && (forall k :: 0 <= k < |cut.full| ==> cut.full[k] != "" && Fits(cut.full[k], size))
    && (cut.full != [] ==> cut.open != "") && (cut.open != "" ==> Fits(cut.open, size))
    && (forall k :: 0 <= k < |cut.full| ==> Overflows(cut.full[k], (cut.full + [cut.open])[k + 1], size))
  }

  predicate Overflows(chunk: string, next: string, size: nat) {
    next != "" && ByteLen(chunk) + Utf8Len(next[0]) > size
  }

  lemma ExtendedTight(before: Cut, c: char, size: nat)
    requires Tight(before, size)
    ensures Tight(Extended(before, c, size), size) && Extended(before, c, size).open != ""
  {
    hide ByteLen, Utf8Len;
    ByteLenSnoc(before.open, c);
    var cut := Extended(before, c, size);
    forall k | 0 <= k < |cut.full|
      ensures Overflows(cut.full[k], (cut.full + [cut.open])[k + 1], size)
    {
      if k < |before.full| {
        assert Overflows(before.full[k], (before.full + [before.open])[k + 1], size);
      }
    }
  }

  /** No chunk is longer than the size unless it is one character, and none of a text is empty or could be longer. */
  lemma {:induction false} ChunksAreTight(t: string, size: nat)
    ensures Tight(CutText(t, size), size) && (t != "" ==> CutText(t, size).open != "")
  {
    hide Tight, Extended;
    if t == "" {
      NothingIsTight(size);
    } else {
      ChunksAreTight(t[..|t| - 1], size);
      ExtendedTight(CutText(t[..|t| - 1], size), t[|t| - 1], size);
    }
  }

  lemma NothingIsTight(size: nat)
    ensures Tight(Cut([], ""), size)
  {
  }

  lemma ByteLenSnoc(t: string, c: char)
    ensures ByteLen(t + [c]) == ByteLen(t) + Utf8Len(c)
  {
    assert (t + [c])[..|t|] == t;
  }

  lemma NoBytes()
    ensures ByteLen("") == 0
  {
  }

  lemma CutSnoc(t: string, i: nat, size: nat)
    requires i < |t|
    ensures CutText(t[..i + 1], size) == Extended(CutText(t[..i], size), t[i], size)
  {
    assert t[..i + 1][..i] == t[..i];
  }

  lemma CutNothing(size: nat)
    ensures CutText("", size) == Cut([], "")
  {
  }

  lemma SliceSnoc(t: string, start: nat, i: nat)
    requires start <= i < |t|
    ensures t[start..i + 1] == t[start..i] + [t[i]]
    ensures t[i..i + 1] == [t[i]] && (t[start..i] == "" <==> start == i)
    ensures ByteLen(t[start..i + 1]) == ByteLen(t[start..i]) + Utf8Len(t[i]) && ByteLen(t[i..i + 1]) == Utf8Len(t[i])
  {
    hide Utf8Len;
    assert t[start..i + 1] == t[start..i] + [t[i]];
    ByteLenSnoc(t[start..i], t[i]);
    assert t[i..i] + [t[i]] == t[i..i + 1];
    ByteLenSnoc(t[i..i], t[i]);
  }

  /** The loop over the characters; `bytes` is the byte length of the open chunk. */
  method Chunks(text: string, size: nat) returns (chunks: seq<string>)
    ensures chunks == Chunked(text, size)
  {
    hide ByteLen, Utf8Len, CutText;
    NoBytes();
    CutNothing(size);
    chunks := [];
    var start, bytes, i := 0, 0, 0;
    while i < |text|
      invariant 0 <= start <= i <= |text| && bytes == ByteLen(text[start..i])
      invariant CutText(text[..i], size) == Cut(chunks, text[start..i])
    {
      var c := text[i];
      CutSnoc(text, i, size);
      SliceSnoc(text, start, i);
      if i > start && bytes + Utf8Len(c) > size {
        chunks := chunks + [text[start..i]];
        start, bytes := i, 0;
      }
      bytes := bytes + Utf8Len(c);
      i := i + 1;
    }
    assert text[..i] == text && text[start..i] == text[start..];
    chunks := chunks + [text[start..]];
  }

  // ----- responses and events -----

  type Usage = L.Usage

  datatype ContentBlock =
    | Text(text: string)
    | Thinking(thinking: string, signature: Option<string>)
    | ToolUse(id: string, name: string, input: Json)
    | Opaque(provider: string, kind: string, raw: Json)
    | ToolResult(useId: string)

  /** `iterations` are the per-iteration usage records, kept as they come. */
  datatype Response = Response(id: Option<string>, model: string, content: seq<ContentBlock>, stop: string, usage: Usage,
                               iterations: seq<Usage>)

  datatype BlockKind = TextBlock | ThinkingBlock | ToolBlock(id: string, name: string)
                     | OpaqueBlock(provider: string, kind: string, raw: Json)

  datatype Event =
    | MessageStart(id: Option<string>, model: string, usage: Usage)
    | BlockStart(index: nat, block: BlockKind)
    | TextDelta(index: nat, text: string)
    | ThinkingDelta(index: nat, text: string)
    | SignatureDelta(index: nat, text: string)
    | ToolInputDelta(index: nat, text: string)
    | BlockStop(index: nat)
    | MessageDelta(stop: Option<string>, usage: Usage)
    | UsageSnapshot(model: string, usage: Usage, iterations: seq<Usage>)
    | MessageStop

  /** How JSON is written and read: any pair where reading gives back what was written. */
  datatype Format = Format(write: Json -> string, parse: string -> Option<Json>)

  ghost predicate Inverse(f: Format) {
    forall v :: f.write(v) != "" && f.parse(f.write(v)) == Some(v)
  }

  // ----- streaming a response -----

  datatype Delta = OfText | OfThinking | OfSignature | OfToolInput

  function DeltaEvent(d: Delta, index: nat, text: string): Event {
    match d
    case OfText => TextDelta(index, text)
    case OfThinking => ThinkingDelta(index, text)
    case OfSignature => SignatureDelta(index, text)
    case OfToolInput => ToolInputDelta(index, text)
  }

  function Deltas(d: Delta, index: nat, chunks: seq<string>): seq<Event> {
    if chunks == [] then [] else Deltas(d, index, chunks[..|chunks| - 1]) + [DeltaEvent(d, index, chunks[|chunks| - 1])]
  }

  predicate Streamable(b: ContentBlock) {
    !b.ToolResult?
  }

  function KindOf(b: ContentBlock): BlockKind
    requires Streamable(b)
  {
    match b
    case Text(_) => TextBlock
    case Thinking(_, _) => ThinkingBlock
    case ToolUse(id, name, _) => ToolBlock(id, name)
    case Opaque(provider, kind, raw) => OpaqueBlock(provider, kind, raw)
  }

  function BlockDeltas(b: ContentBlock, index: nat, size: nat, f: Format): seq<Event>
    requires Streamable(b)
  {
    match b
    case Text(text) => Deltas(OfText, index, Chunked(text, size))
    case Thinking(thinking, signature) =>
      Deltas(OfThinking, index, Chunked(thinking, size))
      + if signature.Some? then Deltas(OfSignature, index, Chunked(signature.value, size)) else []
    case ToolUse(_, _, input) => Deltas(OfToolInput, index, Chunked(f.write(input), size))
    case Opaque(_, _, _) => []
  }

  function BlockEvents(b: ContentBlock, index: nat, size: nat, f: Format): seq<Event>
    requires Streamable(b)
  {
    [BlockStart(index, KindOf(b))] + BlockDeltas(b, index, size, f) + [BlockStop(index)]
  }

  predicate AllStreamable(content: seq<ContentBlock>) {
    forall b :: b in content ==> Streamable(b)
  }

  function ContentEvents(content: seq<ContentBlock>, size: nat, f: Format): seq<Event>
    requires AllStreamable(content)
  {
    if content == [] then []
    else
      var n := |content| - 1;
      ContentEvents(content[..n], size, f) + BlockEvents(content[n], n, size, f)
  }

  function TextBytes(content: seq<ContentBlock>): nat {
    if content == [] then 0
    else TextBytes(content[..|content| - 1]) + if content[|content| - 1].Text? then ByteLen(content[|content| - 1].text) else 0
  }

  /** What the request lends to the defaults: its model and the bytes of its text. */
  datatype Request = Request(model: string, inputBytes: nat)

  function Defaulted(r: Response, q: Request): Response {
    var named := if r.model == "" then r.(model := q.model) else r;
    if r.usage == L.NO_USAGE
    then named.(usage := L.Usage(Max(q.inputBytes / 4, 1), Max(TextBytes(r.content) / 4, 1), 0, 0))
    else named
  }

  /** A quarter of a number of bytes, rounded down, but at least one. */
  predicate IsQuarter(tokens: nat, bytes: nat) {
    if bytes < 8 then tokens == 1 else 4 * tokens <= bytes < 4 * tokens + 4
  }

  /** `r` is `response` with a missing model taken from the request, and missing usage guessed from the texts. */
  ghost predicate IsFilled(response: Response, q: Request, r: Response) {
    && r.id == response.id && r.content == response.content && r.stop == response.stop
    && r.iterations == response.iterations
    && r.model == (if response.model != "" then response.model else q.model)
    && var u, w := response.usage, r.usage;
    if u.input > 0 || u.output > 0 || u.cacheCreation > 0 || u.cacheRead > 0 then w == u
    else
      && IsQuarter(w.input, q.inputBytes) && IsQuarter(w.output, ByteLen(Texts(response.content)))
      && w.cacheCreation == 0 && w.cacheRead == 0
  }

  /** The text blocks one after another. */
  function Texts(content: seq<ContentBlock>): string {
    if content == [] then ""
    else Texts(content[..|content| - 1]) + if content[|content| - 1].Text? then content[|content| - 1].text else ""
  }

  lemma {:induction false} ByteLenConcat(a: string, b: string)
    ensures ByteLen(a + b) == ByteLen(a) + ByteLen(b)
  {
    if b == "" {
      assert a + b == a;
    } else {
      var init := b[..|b| - 1];
      ByteLenConcat(a, init);
      assert (a + b)[..|a + b| - 1] == a + init;
    }
  }

  lemma {:induction false} BytesOfTexts(content: seq<ContentBlock>)
    ensures TextBytes(content) == ByteLen(Texts(content))
  {
    if content != [] {
      var init, last := content[..|content| - 1], content[|content| - 1];
      BytesOfTexts(init);
      ByteLenConcat(Texts(init), if last.Text? then last.text else "");
    }
  }

  lemma QuarterIs(bytes: nat)
    ensures IsQuarter(Max(bytes / 4, 1), bytes)
  {
  }

  /** What stands around the blocks: output tokens, the stop reason and the iterations come at the end only. */
  ghost predicate Frames(r: Response, events: seq<Event>) {
    var n, d := |events|, if r.iterations == [] then 2 else 3;
    && n > d && events[n - 1] == MessageStop
    && events[0] == MessageStart(r.id, r.model, L.Usage(r.usage.input, 0, r.usage.cacheCreation, r.usage.cacheRead))
    && events[n - d] == MessageDelta(Some(r.stop), L.Usage(0, r.usage.output, 0, 0))
    && (r.iterations != [] ==> events[n - 2] == UsageSnapshot(r.model, r.usage, r.iterations))
  }

  lemma StreamIsFramed(r: Response, size: nat, f: Format)
    requires AllStreamable(r.content)
    ensures Frames(r, StreamOf(r, size, f))
  {
    hide ContentEvents;
    assert StreamOf(r, size, f)[0] == MessageStart(r.id, r.model, r.usage.(output := 0));
  }

  lemma DefaultedIsFilled(response: Response, q: Request)
    ensures IsFilled(response, q, Defaulted(response, q))
  {
    hide TextBytes, Texts, ByteLen, Max, IsQuarter;
    BytesOfTexts(response.content);
    QuarterIs(q.inputBytes);
    QuarterIs(TextBytes(response.content));
  }

  /** The events after those of the content. */
  function Ending(r: Response): seq<Event> {
    [MessageDelta(Some(r.stop), L.Usage(0, r.usage.output, 0, 0))]
    + (if r.iterations == [] then [] else [UsageSnapshot(r.model, r.usage, r.iterations)])
    + [MessageStop]
  }

  function StreamOf(r: Response, size: nat, f: Format): seq<Event>
    requires AllStreamable(r.content)
  {
    [MessageStart(r.id, r.model, r.usage.(output := 0))] + ContentEvents(r.content, size, f) + Ending(r)
  }

  method DeltaLoop(d: Delta, index: nat, chunks: seq<string>) returns (events: seq<Event>)
    ensures events == Deltas(d, index, chunks)
  {
    events := [];
    var i := 0;
    while i < |chunks|
      invariant 0 <= i <= |chunks| && events == Deltas(d, index, chunks[..i])
    {
      assert chunks[..i + 1][..i] == chunks[..i];
      events := events + [DeltaEvent(d, index, chunks[i])];
      i := i + 1;
    }
    assert chunks[..i] == chunks;
  }

  /** The deltas of one block. */
  method BlockStream(b: ContentBlock, i: nat, size: nat, f: Format) returns (deltas: seq<Event>)
    requires Streamable(b)
    ensures deltas == BlockDeltas(b, i, size, f)
  {
    hide Chunked, Deltas;
    deltas := [];
    match b {
      case Text(text) =>
        var chunks := Chunks(text, size);
        deltas := DeltaLoop(OfText, i, chunks);
      case Thinking(thinking, signature) =>
        var chunks := Chunks(thinking, size);
        deltas := DeltaLoop(OfThinking, i, chunks);
        if signature.Some? {
          chunks := Chunks(signature.value, size);
          var more := DeltaLoop(OfSignature, i, chunks);
          deltas := deltas + more;
        }
      case ToolUse(_, _, input) =>
        var chunks := Chunks(f.write(input), size);
        deltas := DeltaLoop(OfToolInput, i, chunks);
      case _ =>
    }
  }

  /** The events of a response, its model and usage filled in; tool results cannot be streamed. */
  method ResponseStream(response: Response, request: Request, size: nat, f: Format) returns (result: Result<seq<Event>, string>)
    ensures result.Ok? <==> AllStreamable(response.content)
    ensures result.Ok? ==> result.value == StreamOf(Defaulted(response, request), size, f)
    ensures IsFilled(response, request, Defaulted(response, request))
    ensures result.Ok? ==> Frames(Defaulted(response, request), result.value)
  {
    hide ContentEvents, BlockDeltas, Ending, TextBytes, L.NO_USAGE, IsFilled, Frames;
    DefaultedIsFilled(response, request);
    var r := response;
    if r.model == "" {
      r := r.(model := request.model);
    }
    if r.usage == L.NO_USAGE {
      r := r.(usage := L.Usage(Max(request.inputBytes / 4, 1), Max(TextBytes(r.content) / 4, 1), 0, 0));
    }
    assert r == Defaulted(response, request);
    var events := [MessageStart(r.id, r.model, r.usage.(output := 0))];
    var i := 0;
    NoContent(size, f);
    while i < |r.content|
      invariant 0 <= i <= |r.content| && AllStreamable(r.content[..i])
      invariant events == [MessageStart(r.id, r.model, r.usage.(output := 0))] + ContentEvents(r.content[..i], size, f)
    {
      var b := r.content[i];
      if b.ToolResult? {
        assert b in response.content;
        return Err("tool results cannot be streamed as model output");
      }
      var deltas := BlockStream(b, i, size, f);
      ContentSnoc(r.content[..i + 1], size, f);
      assert r.content[..i + 1][..i] == r.content[..i];
      events := events + [BlockStart(i, KindOf(b))] + deltas + [BlockStop(i)];
      i := i + 1;
    }
    assert r.content[..i] == r.content;
    events := events + [MessageDelta(Some(r.stop), L.Usage(0, r.usage.output, 0, 0))];
    if r.iterations != [] {
      events := events + [UsageSnapshot(r.model, r.usage, r.iterations)];
    }
    EndingIs(r);
    StreamIsFramed(r, size, f);
    result := Ok(events + [MessageStop]);
  }

  lemma NoContent(size: nat, f: Format)
    ensures ContentEvents([], size, f) == []
  {
  }

  lemma ContentSnoc(content: seq<ContentBlock>, size: nat, f: Format)
    requires content != [] && AllStreamable(content[..|content| - 1]) && Streamable(content[|content| - 1])
    ensures AllStreamable(content)
    ensures var n := |content| - 1;
            ContentEvents(content, size, f) == ContentEvents(content[..n], size, f) + BlockEvents(content[n], n, size, f)
  {
    assert content == content[..|content| - 1] + [content[|content| - 1]];
  }

  lemma EndingIs(r: Response)
    ensures Ending(r) == [MessageDelta(Some(r.stop), L.Usage(0, r.usage.output, 0, 0))]
                       + (if r.iterations == [] then [] else [UsageSnapshot(r.model, r.usage, r.iterations)]) + [MessageStop]
  {
  }
}
