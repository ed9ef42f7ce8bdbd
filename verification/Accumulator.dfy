/** Putting stream events together, and the round trip with streaming. */
module Accumulation {
  import opened Common
  import opened JsonValues
  import opened Codec
  import L = LedgerSpec

  datatype Pending = Pending(content: ContentBlock, partialJson: string, closed: bool)

  datatype State = State(header: Option<(Option<string>, string)>, blocks: map<nat, Pending>, usage: Usage,
                         iterations: seq<Usage>, stop: Option<string>, stopped: bool, invalid: seq<nat>)

  const EMPTY: State := State(None, map[], L.NO_USAGE, [], None, false, [])

  function Opened(kind: BlockKind): ContentBlock {
    match kind
    case TextBlock => Text("")
    case ThinkingBlock => Thinking("", None)
    case ToolBlock(id, name) => ToolUse(id, name, Null)
    case OpaqueBlock(provider, kind, raw) => Opaque(provider, kind, raw)
  }

  function Latest(current: nat, latest: nat): nat {
    if latest != 0 then latest else current
  }

  /** Counters that are not zero replace the earlier ones. */
  function Merged(u: Usage, latest: Usage): Usage {
    L.Usage(Latest(u.input, latest.input), Latest(u.output, latest.output), Latest(u.cacheCreation, latest.cacheCreation),
          Latest(u.cacheRead, latest.cacheRead))
  }

  /** The JSON of a tool use when its block stops: an empty object for no text, the text itself when it is not JSON. */
  function InputOf(partial: string, f: Format): Json {
    if partial == "" then Object(map[])
    else if f.parse(partial).Some? then f.parse(partial).value else Str(partial)
  }

  function WithDelta(b: Pending, d: Delta, text: string): Option<Pending> {
    match d
    case OfText => if b.content.Text? then Some(b.(content := Text(b.content.text + text))) else None
    case OfThinking =>
      if b.content.Thinking? then Some(b.(content := b.content.(thinking := b.content.thinking + text))) else None
    case OfSignature =>
      if b.content.Thinking? then
        var s := if b.content.signature.Some? then b.content.signature.value else "";
        Some(b.(content := b.content.(signature := Some(s + text))))
      else None
    case OfToolInput => if b.content.ToolUse? then Some(b.(partialJson := b.partialJson + text)) else None
  }

  function Stopped(b: Pending, f: Format): Pending {
    if b.content.ToolUse? then b.(content := b.content.(input := InputOf(b.partialJson, f)), closed := true)
    else b.(closed := true)
  }

  predicate IsInvalid(b: Pending, f: Format) {
    b.content.ToolUse? && b.partialJson != "" && f.parse(b.partialJson).None?
  }

  predicate IsOpen(st: State, index: nat) {
    index in st.blocks && !st.blocks[index].closed
  }

  function Deltad(st: State, index: nat, d: Delta, text: string): Result<State, string> {
    if !IsOpen(st, index) then Err("unknown or stopped block")
    else
      var b := WithDelta(st.blocks[index], d, text);
      if b.None? then Err("delta for another kind of block") else Ok(st.(blocks := st.blocks[index := b.value]))
  }

  /** What an event does, or why it is rejected. */
  function Pushed(st: State, e: Event, f: Format): Result<State, string> {
    if st.stopped then Err("event after message stop")
    else if st.header.None? && !e.MessageStart? then Err("event before message start")
    else
      match e
      case MessageStart(id, model, usage) =>
        if st.header.Some? then Err("duplicate message start") else Ok(st.(header := Some((id, model)), usage := usage))
      case BlockStart(index, block) =>
        if index in st.blocks then Err("duplicate block index")
        else Ok(st.(blocks := st.blocks[index := Pending(Opened(block), "", false)]))
      case TextDelta(index, text) => Deltad(st, index, OfText, text)
      case ThinkingDelta(index, text) => Deltad(st, index, OfThinking, text)
      case SignatureDelta(index, text) => Deltad(st, index, OfSignature, text)
      case ToolInputDelta(index, text) => Deltad(st, index, OfToolInput, text)
      case BlockStop(index) =>
        if !IsOpen(st, index) then Err("unknown or stopped block")
        else
          var b := st.blocks[index];
          Ok(st.(blocks := st.blocks[index := Stopped(b, f)],
                 invalid := if IsInvalid(b, f) then st.invalid + [index] else st.invalid))
      case MessageDelta(stop, usage) =>
        Ok(st.(stop := if stop.Some? then stop else st.stop, usage := Merged(st.usage, usage)))
      case UsageSnapshot(model, usage, iterations) =>
        Ok(st.(header := Some((st.header.value.0, model)), usage := usage, iterations := iterations))
      case MessageStop =>
        if exists i :: i in st.blocks && !st.blocks[i].closed then Err("message stopped with open blocks")
        else Ok(st.(stopped := true))
  }

  /** The contents of the blocks below an index, in order of index. */
  function ContentsBelow(blocks: map<nat, Pending>, n: nat): seq<ContentBlock> {
    if n == 0 then []
    else ContentsBelow(blocks, n - 1) + if n - 1 in blocks then [blocks[n - 1].content] else []
  }

  predicate Covers(blocks: map<nat, Pending>, n: nat) {
    forall i :: i in blocks ==> i < n
  }

  lemma {:induction false} ContentsStop(blocks: map<nat, Pending>, m: nat, n: nat)
    requires Covers(blocks, m) && m <= n
    ensures ContentsBelow(blocks, n) == ContentsBelow(blocks, m)
    decreases n
  {
    if m < n {
      ContentsStop(blocks, m, n - 1);
    }
  }

  /** The response of a stopped stream. */
  ghost predicate Finished(st: State, r: Response) {
    && st.stopped && st.header.Some? && st.stop.Some?
    && (exists n :: Covers(st.blocks, n) && r.content == ContentsBelow(st.blocks, n))
    && r.id == st.header.value.0 && r.model == st.header.value.1 && r.stop == st.stop.value
    && r.usage == st.usage && r.iterations == st.iterations
  }

  // ----- the round trip -----

  function PushedAll(st: State, events: seq<Event>, f: Format): Result<State, string> {
    if events == [] then Ok(st)
    else
      var before := PushedAll(st, events[..|events| - 1], f);
      if before.Err? then before else Pushed(before.value, events[|events| - 1], f)
  }

  lemma {:induction false} PushedConcat(st: State, a: seq<Event>, b: seq<Event>, f: Format)
    ensures PushedAll(st, a + b, f)
         == if PushedAll(st, a, f).Ok? then PushedAll(PushedAll(st, a, f).value, b, f) else PushedAll(st, a, f)
  {
    hide Pushed;
    if b == [] {
      assert a + b == a;
    } else {
      PushedConcat(st, a, b[..|b| - 1], f);
      assert (a + b)[..|a + b| - 1] == a + b[..|b| - 1];
    }
  }

  lemma PushedOne(st: State, e: Event, f: Format)
    ensures PushedAll(st, [e], f) == Pushed(st, e, f)
  {
    assert [e][..0] == [];
    assert PushedAll(st, [], f) == Ok(st);
  }

  /** A stream that goes on. */
  predicate Going(st: State) {
    !st.stopped && st.header.Some?
  }

  predicate Kind(d: Delta, b: ContentBlock) {
    match d
    case OfText => b.Text?
    case OfThinking => b.Thinking?
    case OfSignature => b.Thinking?
    case OfToolInput => b.ToolUse?
  }

  /** A block with text appended by some deltas. */
  function Appended(b: Pending, d: Delta, text: string): Pending
    requires Kind(d, b.content)
  {
    WithDelta(b, d, text).value
  }

  lemma DeltaPushed(st: State, index: nat, d: Delta, text: string, f: Format)
    requires Going(st) && IsOpen(st, index) && Kind(d, st.blocks[index].content)
    ensures Pushed(st, DeltaEvent(d, index, text), f)
         == Ok(st.(blocks := st.blocks[index := Appended(st.blocks[index], d, text)]))
  {
  }

  lemma AppendedTwice(b: Pending, d: Delta, x: string, y: string)
    requires Kind(d, b.content)
    ensures Kind(d, Appended(b, d, x).content) && Appended(b, d, x).closed == b.closed
    ensures Appended(Appended(b, d, x), d, y) == Appended(b, d, x + y)
  {
    match d
    case OfText => assert b.content.text + (x + y) == b.content.text + x + y;
    case OfThinking => assert b.content.thinking + (x + y) == b.content.thinking + x + y;
    case OfSignature =>
      var s := if b.content.signature.Some? then b.content.signature.value else "";
      assert s + (x + y) == s + x + y;
    case OfToolInput => assert b.partialJson + (x + y) == b.partialJson + x + y;
  }

  /** At least one delta: the block has the deltas' text appended, whatever its chunks were. */
  lemma {:induction false} DeltasPushed(st: State, index: nat, d: Delta, chunks: seq<string>, f: Format)
    requires Going(st) && IsOpen(st, index) && Kind(d, st.blocks[index].content) && chunks != []
    ensures PushedAll(st, Deltas(d, index, chunks), f)
         == Ok(st.(blocks := st.blocks[index := Appended(st.blocks[index], d, Concat(chunks))]))
  {
    hide Pushed, WithDelta, Concat;
    var n := |chunks| - 1;
    var b, last := st.blocks[index], chunks[n];
    var before := Deltas(d, index, chunks[..n]);
    assert chunks == chunks[..n] + [last];
    ConcatSnoc(chunks[..n], last);
    PushedConcat(st, before, [DeltaEvent(d, index, last)], f);
    if n == 0 {
      assert before == [] && Concat<char>([]) == "" by { NoChunks(); }
      PushedOne(st, DeltaEvent(d, index, last), f);
      DeltaPushed(st, index, d, last, f);
      assert "" + last == last;
      assert PushedAll(st, [], f) == Ok(st);
    } else {
      DeltasPushed(st, index, d, chunks[..n], f);
      var text := Concat(chunks[..n]);
      AppendedTwice(b, d, text, last);
      var mid := st.(blocks := st.blocks[index := Appended(b, d, text)]);
      PushedOne(mid, DeltaEvent(d, index, last), f);
      DeltaPushed(mid, index, d, last, f);
      assert mid.blocks[index := Appended(b, d, text + last)] == st.blocks[index := Appended(b, d, text + last)];
    }
  }

  /** A closed block with the content that was streamed. */
  function Done(b: ContentBlock, f: Format): Pending
    requires Streamable(b)
  {
    Pending(b, if b.ToolUse? then f.write(b.input) else "", true)
  }

  lemma BlockDeltasPushed(st: State, b: ContentBlock, index: nat, size: nat, f: Format)
    requires Going(st) && Streamable(b) && index in st.blocks
    requires st.blocks[index] == Pending(Opened(KindOf(b)), "", false)
    ensures PushedAll(st, BlockDeltas(b, index, size, f), f)
         == Ok(st.(blocks := st.blocks[index := Pending(if b.ToolUse? then b.(input := Null) else b,
                                                         if b.ToolUse? then f.write(b.input) else "", false)]))
  {
    hide Pushed, Chunked, PushedAll, Deltas;
    var p := st.blocks[index];
    match b
    case Text(text) =>
      ChunksAreText(text, size);
      DeltasPushed(st, index, OfText, Chunked(text, size), f);
      assert "" + text == text;
    case Thinking(thinking, signature) =>
      ChunksAreText(thinking, size);
      DeltasPushed(st, index, OfThinking, Chunked(thinking, size), f);
      assert "" + thinking == thinking;
      var first := Deltas(OfThinking, index, Chunked(thinking, size));
      if signature.Some? {
        var mid := st.(blocks := st.blocks[index := Pending(Thinking(thinking, None), "", false)]);
        PushedConcat(st, first, Deltas(OfSignature, index, Chunked(signature.value, size)), f);
        ChunksAreText(signature.value, size);
        DeltasPushed(mid, index, OfSignature, Chunked(signature.value, size), f);
        assert "" + signature.value == signature.value;
        assert mid.blocks[index := Pending(b, "", false)] == st.blocks[index := Pending(b, "", false)];
      } else {
        assert first + [] == first;
      }
    case ToolUse(id, name, input) =>
      ChunksAreText(f.write(input), size);
      DeltasPushed(st, index, OfToolInput, Chunked(f.write(input), size), f);
      assert "" + f.write(input) == f.write(input);
    case Opaque(_, _, _) =>
      NothingPushed(st, f);
      assert st.blocks[index := p] == st.blocks;
  }

  lemma NothingPushed(st: State, f: Format)
    ensures PushedAll(st, [], f) == Ok(st)
  {
  }

  /** The events of a block add that block, closed, and nothing else; no tool input is invalid. */
  lemma BlockPushed(st: State, b: ContentBlock, index: nat, size: nat, f: Format)
    requires Inverse(f) && Going(st) && Streamable(b) && index !in st.blocks
    ensures PushedAll(st, BlockEvents(b, index, size, f), f) == Ok(st.(blocks := st.blocks[index := Done(b, f)]))
  {
    hide PushedAll, BlockDeltas;
    var start, deltas, stop := [BlockStart(index, KindOf(b))], BlockDeltas(b, index, size, f), [BlockStop(index)];
    var newBlock := st.(blocks := st.blocks[index := Pending(Opened(KindOf(b)), "", false)]);
    PushedOne(st, start[0], f);
    PushedConcat(st, start, deltas, f);
    BlockDeltasPushed(newBlock, b, index, size, f);
    PushedConcat(st, start + deltas, stop, f);
    var last := PushedAll(st, start + deltas, f).value;
    PushedOne(last, stop[0], f);
    assert last.blocks[index := Done(b, f)] == st.blocks[index := Done(b, f)];
  }

  function DoneBlocks(content: seq<ContentBlock>, f: Format): map<nat, Pending>
    requires AllStreamable(content)
  {
    map i: nat | i < |content| :: Done(content[i], f)
  }

  lemma {:induction false} ContentPushed(st: State, content: seq<ContentBlock>, size: nat, f: Format)
    requires Inverse(f) && Going(st) && st.blocks == map[] && AllStreamable(content)
    ensures PushedAll(st, ContentEvents(content, size, f), f) == Ok(st.(blocks := DoneBlocks(content, f)))
  {
    hide PushedAll, BlockEvents, Inverse;
    if content == [] {
      NothingPushed(st, f);
      assert DoneBlocks(content, f) == map[];
    } else {
      var n := |content| - 1;
      var init := content[..n];
      assert forall b :: b in init ==> b in content;
      ContentPushed(st, init, size, f);
      var mid := st.(blocks := DoneBlocks(init, f));
      PushedConcat(st, ContentEvents(init, size, f), BlockEvents(content[n], n, size, f), f);
      BlockPushed(mid, content[n], n, size, f);
      assert mid.blocks[n := Done(content[n], f)] == DoneBlocks(content, f);
    }
  }

  lemma {:induction false} DoneContents(content: seq<ContentBlock>, f: Format, n: nat)
    requires AllStreamable(content) && n <= |content|
    ensures ContentsBelow(DoneBlocks(content, f), n) == content[..n]
  {
    if n > 0 {
      DoneContents(content, f, n - 1);
    }
  }

  lemma EndingPushed(st: State, r: Response, f: Format)
    requires Going(st) && (forall i :: i in st.blocks ==> st.blocks[i].closed)
    requires st.usage == r.usage.(output := 0) && st.iterations == [] && st.header == Some((r.id, r.model))
    ensures PushedAll(st, Ending(r), f)
         == Ok(st.(stop := Some(r.stop), usage := r.usage, iterations := r.iterations, stopped := true))
  {
    hide PushedAll;
    var delta := MessageDelta(Some(r.stop), L.Usage(0, r.usage.output, 0, 0));
    var snapshot := UsageSnapshot(r.model, r.usage, r.iterations);
    var afterDelta := st.(stop := Some(r.stop), usage := r.usage);
    PushedOne(st, delta, f);
    if r.iterations == [] {
      PushedConcat(st, [delta], [MessageStop], f);
      assert Ending(r) == [delta] + [MessageStop];
      PushedOne(afterDelta, MessageStop, f);
    } else {
      var afterSnapshot := afterDelta.(iterations := r.iterations);
      PushedConcat(st, [delta], [snapshot], f);
      PushedOne(afterDelta, snapshot, f);
      PushedConcat(st, [delta] + [snapshot], [MessageStop], f);
      assert Ending(r) == [delta] + [snapshot] + [MessageStop];
      PushedOne(afterSnapshot, MessageStop, f);
    }
  }

  /**
   Streaming any response without tool results, in chunks of any size, and putting the events together gives the
   response with its model and usage filled in, and no tool input counts as invalid.
   */
  lemma RoundTrip(response: Response, q: Request, size: nat, f: Format)
    requires Inverse(f) && AllStreamable(response.content)
    ensures var r := Defaulted(response, q);
            var st := PushedAll(EMPTY, StreamOf(r, size, f), f);
            && st.Ok? && st.value.invalid == [] && Finished(st.value, r)
            && (forall other :: Finished(st.value, other) ==> other == r)
  {
    hide PushedAll, Ending, ContentEvents, TextBytes, L.NO_USAGE;
    var r := Defaulted(response, q);
    var start := MessageStart(r.id, r.model, r.usage.(output := 0));
    var begun := EMPTY.(header := Some((r.id, r.model)), usage := r.usage.(output := 0));
    PushedOne(EMPTY, start, f);
    var content := ContentEvents(r.content, size, f);
    PushedConcat(EMPTY, [start], content, f);
    ContentPushed(begun, r.content, size, f);
    var mid := begun.(blocks := DoneBlocks(r.content, f));
    PushedConcat(EMPTY, [start] + content, Ending(r), f);
    EndingPushed(mid, r, f);
    var st := mid.(stop := Some(r.stop), usage := r.usage, iterations := r.iterations, stopped := true);
    DoneContents(r.content, f, |r.content|);
    assert r.content[..|r.content|] == r.content;
    assert Covers(st.blocks, |r.content|);
    forall other | Finished(st, other)
      ensures other == r
    {
      var n :| Covers(st.blocks, n) && other.content == ContentsBelow(st.blocks, n);
      ContentsStop(st.blocks, Min(n, |r.content|), Max(n, |r.content|));
    }
  }
}
