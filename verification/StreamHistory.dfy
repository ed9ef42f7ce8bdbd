/** What an accumulated state says of the events it took: read off the events, not off the steps. */
module StreamHistory {
  import opened Common
  import opened JsonValues
  import opened Codec
  import opened Accumulation
  import L = LedgerSpec

  // ----- the last event that gives a value -----

  /** `v` is what the last event that gives a value gives; none when no event does. */
  ghost predicate IsLast<T>(events: seq<Event>, given: Event -> Option<T>, v: Option<T>) {
    if v.None? then forall j :: 0 <= j < |events| ==> given(events[j]).None?
    else
      exists k :: 0 <= k < |events| && given(events[k]) == v && forall j :: k < j < |events| ==> given(events[j]).None?
  }

  lemma LastSnoc<T>(events: seq<Event>, e: Event, given: Event -> Option<T>, v: Option<T>)
    requires IsLast(events, given, v)
    ensures IsLast(events + [e], given, if given(e).Some? then given(e) else v)
  {
    var all := events + [e];
    if given(e).Some? {
      assert given(all[|events|]) == given(e);
    } else if v.Some? {
      var k :| 0 <= k < |events| && given(events[k]) == v && forall j :: k < j < |events| ==> given(events[j]).None?;
      assert given(all[k]) == v;
    }
  }

  /** A start and a snapshot give every counter, a delta only those that are not zero. */
  function CounterGiven(e: Event, n: nat): Option<nat> {
    if e.MessageStart? || e.UsageSnapshot? || (e.MessageDelta? && n != 0) then Some(n) else None
  }

  function InputGiven(e: Event): Option<nat> {
    if e.MessageStart? || e.UsageSnapshot? || e.MessageDelta? then CounterGiven(e, e.usage.input) else None
  }

  function OutputGiven(e: Event): Option<nat> {
    if e.MessageStart? || e.UsageSnapshot? || e.MessageDelta? then CounterGiven(e, e.usage.output) else None
  }

  function CreationGiven(e: Event): Option<nat> {
    if e.MessageStart? || e.UsageSnapshot? || e.MessageDelta? then CounterGiven(e, e.usage.cacheCreation) else None
  }

  function ReadGiven(e: Event): Option<nat> {
    if e.MessageStart? || e.UsageSnapshot? || e.MessageDelta? then CounterGiven(e, e.usage.cacheRead) else None
  }

  function StopGiven(e: Event): Option<string> {
    if e.MessageDelta? then e.stop else None
  }

  function IdGiven(e: Event): Option<Option<string>> {
    if e.MessageStart? then Some(e.id) else None
  }

  function ModelGiven(e: Event): Option<string> {
    if e.MessageStart? || e.UsageSnapshot? then Some(e.model) else None
  }

  function IterationsGiven(e: Event): Option<seq<Usage>> {
    if e.UsageSnapshot? then Some(e.iterations) else None
  }

  predicate Snapshots(events: seq<Event>) {
    exists k :: 0 <= k < |events| && events[k].UsageSnapshot?
  }

  /** Identifier, model, stop reason and iterations are those of the last events that give them. */
  ghost predicate HeaderTold(events: seq<Event>, st: State) {
    && (st.header.None? <==> events == [])
    && (st.header.Some? ==>
          && IsLast(events, IdGiven, Some(st.header.value.0)) && IsLast(events, ModelGiven, Some(st.header.value.1)))
    && IsLast(events, StopGiven, st.stop)
    && (if Snapshots(events) then IsLast(events, IterationsGiven, Some(st.iterations)) else st.iterations == [])
    && (st.stopped <==> MessageStop in events)
  }

  ghost predicate UsageTold(events: seq<Event>, usage: Usage) {
    if events == [] then usage.Total() == 0
    else
      && IsLast(events, InputGiven, Some(usage.input)) && IsLast(events, OutputGiven, Some(usage.output))
      && IsLast(events, CreationGiven, Some(usage.cacheCreation)) && IsLast(events, ReadGiven, Some(usage.cacheRead))
  }

  // ----- blocks -----

  /** What an event adds to the text, thinking, signature or tool input of a block. */
  function Piece(e: Event, index: nat, d: Delta): Option<string> {
    match e
    case TextDelta(i, text) => if d.OfText? && i == index then Some(text) else None
    case ThinkingDelta(i, text) => if d.OfThinking? && i == index then Some(text) else None
    case SignatureDelta(i, text) => if d.OfSignature? && i == index then Some(text) else None
    case ToolInputDelta(i, text) => if d.OfToolInput? && i == index then Some(text) else None
    case _ => None
  }

  /** All that the deltas of a block add, in order, whatever comes between them; none without such a delta. */
  function Text(events: seq<Event>, index: nat, d: Delta): Option<string> {
    if events == [] then None
    else
      var before, piece := Text(events[..|events| - 1], index, d), Piece(events[|events| - 1], index, d);
      if piece.None? then before else if before.None? then piece else Some(before.value + piece.value)
  }

  function OrEmpty(text: Option<string>): string {
    if text.Some? then text.value else ""
  }

  /** The input of a tool use whose deltas wrote `text`. */
  ghost predicate IsInput(input: Json, text: string, f: Format) {
    if text == "" then input == Object(map[])
    else if f.parse(text).Some? then input == f.parse(text).value
    else input == Str(text)
  }

  /** A block of this kind holds what its deltas wrote. */
  ghost predicate BlockTold(events: seq<Event>, index: nat, kind: BlockKind, b: Pending, f: Format) {
    && b.partialJson == OrEmpty(Text(events, index, OfToolInput))
    && (b.closed <==> BlockStop(index) in events)
    && match kind
       case TextBlock => b.content == ContentBlock.Text(OrEmpty(Text(events, index, OfText)))
       case ThinkingBlock =>
         b.content == Thinking(OrEmpty(Text(events, index, OfThinking)), Text(events, index, OfSignature))
       case ToolBlock(id, name) =>
         && b.content.ToolUse? && b.content.id == id && b.content.name == name
         && if b.closed then IsInput(b.content.input, b.partialJson, f) else b.content.input == Null
       case OpaqueBlock(provider, kind, raw) => b.content == Opaque(provider, kind, raw)
  }

  /** The blocks are those that were started; what was never started has no deltas and no stop. */
  ghost predicate BlocksTold(events: seq<Event>, st: State, f: Format) {
    && (forall i :: i in st.blocks ==> IsStarted(events, i))
    && (forall i, kind :: BlockStart(i, kind) in events ==> i in st.blocks && BlockTold(events, i, kind, st.blocks[i], f))
    && (forall i: nat :: i !in st.blocks ==> Untouched(events, i))
    && (forall i: nat :: i in st.invalid <==> i in st.blocks && st.blocks[i].closed && Malformed(st.blocks[i], f))
  }

  ghost predicate IsStarted(events: seq<Event>, index: nat) {
    exists kind: BlockKind :: BlockStart(index, kind) in events
  }

  ghost predicate Untouched(events: seq<Event>, index: nat) {
    BlockStop(index) !in events && forall d :: Text(events, index, d).None?
  }

  /** A tool use whose input is no JSON. */
  predicate Malformed(b: Pending, f: Format) {
    b.content.ToolUse? && b.partialJson != "" && f.parse(b.partialJson).None?
  }

  /** All that an accepted sequence of events says of the state. */
  ghost predicate Told(events: seq<Event>, st: State, f: Format) {
    HeaderTold(events, st) && UsageTold(events, st.usage) && BlocksTold(events, st, f)
  }

  // ----- one more event -----

  lemma GivenNow<T>(events: seq<Event>, e: Event, given: Event -> Option<T>)
    requires given(e).Some?
    ensures IsLast(events + [e], given, given(e))
  {
    assert given((events + [e])[|events|]) == given(e);
  }

  lemma UsageStep(events: seq<Event>, st: State, e: Event, f: Format)
    requires UsageTold(events, st.usage) && Pushed(st, e, f).Ok? && (st.header.None? <==> events == [])
    ensures UsageTold(events + [e], Pushed(st, e, f).value.usage)
  {
    hide IsLast;
    if e.MessageStart? || e.UsageSnapshot? {
      GivenNow(events, e, InputGiven);
      GivenNow(events, e, OutputGiven);
      GivenNow(events, e, CreationGiven);
      GivenNow(events, e, ReadGiven);
    } else {
      LastSnoc(events, e, InputGiven, Some(st.usage.input));
      LastSnoc(events, e, OutputGiven, Some(st.usage.output));
      LastSnoc(events, e, CreationGiven, Some(st.usage.cacheCreation));
      LastSnoc(events, e, ReadGiven, Some(st.usage.cacheRead));
    }
  }

  lemma SnapshotsSnoc(events: seq<Event>, e: Event)
    ensures Snapshots(events + [e]) <==> Snapshots(events) || e.UsageSnapshot?
  {
    var all := events + [e];
    if Snapshots(events) {
      var k :| 0 <= k < |events| && events[k].UsageSnapshot?;
      assert all[k].UsageSnapshot?;
    }
    if e.UsageSnapshot? {
      assert all[|events|].UsageSnapshot?;
    }
  }

  lemma HeaderStep(events: seq<Event>, st: State, e: Event, f: Format)
    requires HeaderTold(events, st) && Pushed(st, e, f).Ok?
    ensures HeaderTold(events + [e], Pushed(st, e, f).value)
  {
    hide IsLast, Snapshots, Deltad, Opened, Stopped, IsInvalid, Merged;
    SnapshotsSnoc(events, e);
    LastSnoc(events, e, StopGiven, st.stop);
    if e.MessageStart? {
      GivenNow(events, e, IdGiven);
      GivenNow(events, e, ModelGiven);
    } else {
      LastSnoc(events, e, IdGiven, Some(st.header.value.0));
      LastSnoc(events, e, ModelGiven, Some(st.header.value.1));
    }
    if e.UsageSnapshot? {
      GivenNow(events, e, IterationsGiven);
    } else if Snapshots(events) {
      LastSnoc(events, e, IterationsGiven, Some(st.iterations));
    }
    if e.TextDelta? || e.ThinkingDelta? || e.SignatureDelta? || e.ToolInputDelta? {
      DeltadKeeps(st, e, f);
    }
  }

  /** Deltas change blocks alone. */
  lemma DeltadKeeps(st: State, e: Event, f: Format)
    requires Pushed(st, e, f).Ok? && (e.TextDelta? || e.ThinkingDelta? || e.SignatureDelta? || e.ToolInputDelta?)
    ensures Pushed(st, e, f).value.(blocks := st.blocks) == st
  {
  }

  lemma TextSnoc(events: seq<Event>, e: Event, index: nat, d: Delta)
    ensures var before, piece := Text(events, index, d), Piece(e, index, d);
            Text(events + [e], index, d)
            == if piece.None? then before else if before.None? then piece else Some(before.value + piece.value)
  {
    assert (events + [e])[..|events|] == events;
  }

  /** A block that was there before takes its own deltas and its stop, and nothing of any other event. */
  lemma BlockStep(events: seq<Event>, st: State, e: Event, i: nat, kind: BlockKind, f: Format)
    requires Pushed(st, e, f).Ok? && i in st.blocks && BlockTold(events, i, kind, st.blocks[i], f)
    ensures i in Pushed(st, e, f).value.blocks
    ensures BlockTold(events + [e], i, kind, Pushed(st, e, f).value.blocks[i], f)
  {
    hide Text;
    TextSnoc(events, e, i, OfText);
    TextSnoc(events, e, i, OfThinking);
    TextSnoc(events, e, i, OfSignature);
    TextSnoc(events, e, i, OfToolInput);
    if e.TextDelta? || e.ThinkingDelta? || e.SignatureDelta? || e.ToolInputDelta? {
      assert "" + e.text == e.text;
    }
  }

  lemma NewBlock(events: seq<Event>, st: State, i: nat, kind: BlockKind, f: Format)
    requires Pushed(st, BlockStart(i, kind), f).Ok? && Untouched(events, i)
    ensures var e, next := BlockStart(i, kind), Pushed(st, BlockStart(i, kind), f).value;
            i in next.blocks && BlockTold(events + [e], i, kind, next.blocks[i], f)
  {
    hide Text;
    TextSnoc(events, BlockStart(i, kind), i, OfText);
    TextSnoc(events, BlockStart(i, kind), i, OfThinking);
    TextSnoc(events, BlockStart(i, kind), i, OfSignature);
    TextSnoc(events, BlockStart(i, kind), i, OfToolInput);
  }

  lemma UntouchedStep(events: seq<Event>, st: State, e: Event, i: nat, f: Format)
    requires Pushed(st, e, f).Ok? && i !in Pushed(st, e, f).value.blocks && (i !in st.blocks ==> Untouched(events, i))
    ensures i !in st.blocks && Untouched(events + [e], i)
  {
    hide Text;
    forall d
      ensures Text(events + [e], i, d).None?
    {
      TextSnoc(events, e, i, d);
    }
  }

  lemma InvalidStep(st: State, e: Event, i: nat, f: Format)
    requires Pushed(st, e, f).Ok?
    requires i in st.invalid <==> i in st.blocks && st.blocks[i].closed && Malformed(st.blocks[i], f)
    ensures var next := Pushed(st, e, f).value;
            i in next.invalid <==> i in next.blocks && next.blocks[i].closed && Malformed(next.blocks[i], f)
  {
  }

  lemma BlocksStep(events: seq<Event>, st: State, e: Event, f: Format)
    requires BlocksTold(events, st, f) && Pushed(st, e, f).Ok?
    ensures BlocksTold(events + [e], Pushed(st, e, f).value, f)
  {
    hide Pushed, BlockTold, Untouched, Malformed;
    var next, all := Pushed(st, e, f).value, events + [e];
    forall i | i in next.blocks
      ensures IsStarted(all, i)
    {
      if i in st.blocks {
        var kind: BlockKind :| BlockStart(i, kind) in events;
        assert BlockStart(i, kind) in all;
      } else {
        NewIsStarted(st, e, i, f);
        assert BlockStart(i, e.block) in all;
      }
    }
    forall i, kind | BlockStart(i, kind) in all
      ensures i in next.blocks && BlockTold(all, i, kind, next.blocks[i], f)
    {
      if BlockStart(i, kind) in events {
        BlockStep(events, st, e, i, kind, f);
      } else {
        StartIsNew(st, i, kind, f);
        NewBlock(events, st, i, kind, f);
      }
    }
    forall i: nat | i !in next.blocks
      ensures Untouched(all, i)
    {
      UntouchedStep(events, st, e, i, f);
    }
    forall i: nat
      ensures i in next.invalid <==> i in next.blocks && next.blocks[i].closed && Malformed(next.blocks[i], f)
    {
      InvalidStep(st, e, i, f);
    }
  }

  lemma NewIsStarted(st: State, e: Event, i: nat, f: Format)
    requires Pushed(st, e, f).Ok? && i in Pushed(st, e, f).value.blocks && i !in st.blocks
    ensures e.BlockStart? && e.index == i
  {
  }

  lemma StartIsNew(st: State, i: nat, kind: BlockKind, f: Format)
    requires Pushed(st, BlockStart(i, kind), f).Ok?
    ensures i !in st.blocks
  {
  }

  // ----- any accepted sequence of events -----

  lemma NothingTold(st: State, f: Format)
    requires st.header.None? && st.blocks == map[] && st.usage.Total() == 0 && st.iterations == [] && st.stop.None?
    requires !st.stopped && st.invalid == []
    ensures Told([], st, f)
  {
  }

  lemma EmptyIsEmpty()
    ensures EMPTY.header.None? && EMPTY.blocks == map[] && EMPTY.iterations == []
    ensures EMPTY.stop.None? && !EMPTY.stopped && EMPTY.invalid == [] && EMPTY.usage == L.NO_USAGE
  {
    hide L.NO_USAGE;
  }

  lemma NoTokens()
    ensures L.NO_USAGE.Total() == 0
  {
  }

  /**
   After any accepted events every usage counter is the last one given, where a delta gives only counters that are not
   zero; header and stop reason are the last ones given; and every block started holds the text of its own deltas in
   order, however blocks are interleaved.
   */
  lemma {:induction false} EventsTell(events: seq<Event>, f: Format)
    requires PushedAll(EMPTY, events, f).Ok?
    ensures Told(events, PushedAll(EMPTY, events, f).value, f)
  {
    hide Pushed, HeaderTold, UsageTold, BlocksTold, EMPTY;
    if events == [] {
      EmptyIsEmpty();
      NoTokens();
      NothingTold(EMPTY, f);
    } else {
      var init, e := events[..|events| - 1], events[|events| - 1];
      EventsTell(init, f);
      var st := PushedAll(EMPTY, init, f).value;
      NothingYet(init, st);
      HeaderStep(init, st, e, f);
      UsageStep(init, st, e, f);
      BlocksStep(init, st, e, f);
      assert events == init + [e];
    }
  }

  lemma NothingYet(events: seq<Event>, st: State)
    requires HeaderTold(events, st)
    ensures st.header.None? <==> events == []
  {
  }
  // ----- which sequences are accepted -----

  /** A block of a kind that takes these deltas was started and not stopped. */
  ghost predicate Takes(events: seq<Event>, index: nat, d: Delta) {
    && BlockStop(index) !in events
    && exists kind: BlockKind :: BlockStart(index, kind) in events && TakesKind(kind, d)
  }

  predicate TakesKind(kind: BlockKind, d: Delta) {
    match d
    case OfText => kind.TextBlock?
    case OfThinking => kind.ThinkingBlock?
    case OfSignature => kind.ThinkingBlock?
    case OfToolInput => kind.ToolBlock?
  }

  /** An event may follow these events. */
  ghost predicate MayFollow(events: seq<Event>, e: Event) {
    && MessageStop !in events && (events == [] <==> e.MessageStart?)
    && match e
       case BlockStart(index, _) => !IsStarted(events, index)
       case TextDelta(index, _) => Takes(events, index, OfText)
       case ThinkingDelta(index, _) => Takes(events, index, OfThinking)
       case SignatureDelta(index, _) => Takes(events, index, OfSignature)
       case ToolInputDelta(index, _) => Takes(events, index, OfToolInput)
       case BlockStop(index) => IsStarted(events, index) && BlockStop(index) !in events
       case MessageStop => forall index: nat :: IsStarted(events, index) ==> BlockStop(index) in events
       case _ => true
  }

  lemma StartedIff(events: seq<Event>, st: State, index: nat, f: Format)
    requires BlocksTold(events, st, f)
    ensures IsStarted(events, index) <==> index in st.blocks
    ensures IsOpen(st, index) <==> IsStarted(events, index) && BlockStop(index) !in events
  {
    hide Untouched, Malformed, Text;
  }

  lemma TakesIff(events: seq<Event>, st: State, index: nat, d: Delta, text: string, f: Format)
    requires BlocksTold(events, st, f)
    ensures Takes(events, index, d) <==> Deltad(st, index, d, text).Ok?
  {
    StartedIff(events, st, index, f);
    hide Untouched, Malformed, Text;
    if IsOpen(st, index) {
      OneKind(events, st, index, d, f);
    }
  }

  lemma OneKind(events: seq<Event>, st: State, index: nat, d: Delta, f: Format)
    requires BlocksTold(events, st, f) && IsOpen(st, index)
    ensures Takes(events, index, d) <==> Kind(d, st.blocks[index].content)
  {
    hide Text;
    var kind: BlockKind :| BlockStart(index, kind) in events;
    assert BlockTold(events, index, kind, st.blocks[index], f);
    assert Kind(d, st.blocks[index].content) ==> TakesKind(kind, d);
  }
  lemma MayFollowIff(events: seq<Event>, st: State, e: Event, f: Format)
    requires HeaderTold(events, st) && BlocksTold(events, st, f)
    ensures Pushed(st, e, f).Ok? <==> MayFollow(events, e)
  {
    hide BlocksTold, IsStarted, Takes, Deltad, IsLast, Snapshots;
    match e
    case BlockStart(index, _) => StartedIff(events, st, index, f);
    case BlockStop(index) => StartedIff(events, st, index, f);
    case TextDelta(index, text) => TakesIff(events, st, index, OfText, text, f);
    case ThinkingDelta(index, text) => TakesIff(events, st, index, OfThinking, text, f);
    case SignatureDelta(index, text) => TakesIff(events, st, index, OfSignature, text, f);
    case ToolInputDelta(index, text) => TakesIff(events, st, index, OfToolInput, text, f);
    case MessageStop => AllStoppedIff(events, st, f);
    case _ =>
  }

  lemma AllStoppedIff(events: seq<Event>, st: State, f: Format)
    requires BlocksTold(events, st, f)
    ensures (forall i :: i in st.blocks ==> st.blocks[i].closed)
            <==> forall index: nat :: IsStarted(events, index) ==> BlockStop(index) in events
  {
    hide BlocksTold, IsStarted;
    forall i: nat
      ensures IsStarted(events, i) <==> i in st.blocks
      ensures IsOpen(st, i) <==> IsStarted(events, i) && BlockStop(i) !in events
    {
      StartedIff(events, st, i, f);
    }
    if index: nat :| IsStarted(events, index) && BlockStop(index) !in events {
      assert IsOpen(st, index);
    }
    if i :| i in st.blocks && !st.blocks[i].closed {
      assert IsOpen(st, i);
    }
  }

  /** A sequence of events is accepted exactly when each may follow those before it. */
  lemma {:induction false} AcceptedIff(events: seq<Event>, f: Format)
    ensures PushedAll(EMPTY, events, f).Ok?
            <==> forall k :: 0 <= k < |events| ==> MayFollow(events[..k], events[k])
  {
    hide Pushed, MayFollow, HeaderTold, UsageTold, BlocksTold, EMPTY;
    if events == [] {
    } else {
      var n := |events| - 1;
      var init := events[..n];
      AcceptedIff(init, f);
      assert forall k :: 0 <= k < n ==> init[..k] == events[..k] && init[k] == events[k];
      if PushedAll(EMPTY, init, f).Ok? {
        EventsTell(init, f);
        MayFollowIff(init, PushedAll(EMPTY, init, f).value, events[n], f);
      }
    }
  }
}
