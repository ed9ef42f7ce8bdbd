/** The accumulator as the object that consumes a stream: its state is what the events so far say. */
module AccumulatorObject {
  import opened Common
  import opened Codec
  import opened Accumulation
  import opened StreamHistory
  import L = LedgerSpec

  lemma FollowsAsTold(events: seq<Event>, st: State, e: Event, f: Format)
    requires Told(events, st, f)
    ensures Pushed(st, e, f).Ok? <==> MayFollow(events, e)
    ensures Pushed(st, e, f).Ok? ==> Told(events + [e], Pushed(st, e, f).value, f)
  {
    hide Pushed, MayFollow, HeaderTold, UsageTold, BlocksTold;
    MayFollowIff(events, st, e, f);
    if Pushed(st, e, f).Ok? {
      NothingYet(events, st);
      HeaderStep(events, st, e, f);
      UsageStep(events, st, e, f);
      BlocksStep(events, st, e, f);
    }
  }

  lemma EmptyTold(f: Format)
    ensures Told([], EMPTY, f)
  {
    hide EMPTY, Told;
    EmptyIsEmpty();
    NoTokens();
    NothingTold(EMPTY, f);
  }

  class Accumulator {
    const f: Format
    var header: Option<(Option<string>, string)>
    var blocks: map<nat, Pending>
    var usage: Usage
    var iterations: seq<Usage>
    var stop: Option<string>
    var stopped: bool
    var invalid: seq<nat>
    /** The events consumed so far. */
    ghost var taken: seq<Event>

    ghost function View(): State
      reads this
    {
      State(header, blocks, usage, iterations, stop, stopped, invalid)
    }

    /** The state is what the consumed events say. */
    ghost predicate Valid()
      reads this
    {
      Told(taken, View(), f)
    }

    constructor (f: Format)
      ensures View() == EMPTY && this.f == f && taken == [] && Valid()
    {
      this.f := f;
      header, blocks, usage, iterations, stop, stopped, invalid := None, map[], L.NO_USAGE, [], None, false, [];
      taken := [];
      new;
      hide Told;
      EmptyTold(f);
    }

    /** Appends to an open block of the right kind. */
    method PushDelta(index: nat, d: Delta, text: string) returns (result: Result<(), string>)
      modifies `blocks
      ensures result.Ok? <==> Deltad(old(View()), index, d, text).Ok?
      ensures result.Ok? ==> View() == Deltad(old(View()), index, d, text).value
      ensures result.Err? ==> View() == old(View()) && result.error == Deltad(old(View()), index, d, text).error
    {
      if index !in blocks || blocks[index].closed {
        return Err("unknown or stopped block");
      }
      var b := WithDelta(blocks[index], d, text);
      if b.None? {
        return Err("delta for another kind of block");
      }
      blocks := blocks[index := b.value];
      result := Ok(());
    }

    /** Consumes an event that may follow those before it; any other is rejected and changes nothing. */
    method Push(e: Event) returns (result: Result<(), string>)
      requires Valid()
      modifies this
      ensures Valid()
      ensures result.Ok? <==> MayFollow(old(taken), e)
      ensures taken == if result.Ok? then old(taken) + [e] else old(taken)
      ensures result.Err? ==> View() == old(View())
      ensures result.Ok? ==> Pushed(old(View()), e, f) == Ok(View())
    {
      hide Told, MayFollow;
      FollowsAsTold(taken, View(), e, f);
      result := Step(e);
      if result.Ok? {
        taken := taken + [e];
      }
    }

    /** The event moves the state as `Pushed` says, and one that does not fit the stream changes nothing. */
    method Step(e: Event) returns (result: Result<(), string>)
      modifies this
      ensures result.Ok? <==> Pushed(old(View()), e, f).Ok?
      ensures result.Ok? ==> View() == Pushed(old(View()), e, f).value
      ensures result.Err? ==> View() == old(View())
      ensures taken == old(taken)
    {
      if stopped {
        return Err("event after message stop");
      }
      if header.None? && !e.MessageStart? {
        return Err("event before message start");
      }
      match e {
        case MessageStart(id, model, u) =>
          if header.Some? {
            return Err("duplicate message start");
          }
          header, usage := Some((id, model)), u;
        case BlockStart(index, block) =>
          if index in blocks {
            return Err("duplicate block index");
          }
          blocks := blocks[index := Pending(Opened(block), "", false)];
        case TextDelta(index, text) =>
          result := PushDelta(index, OfText, text);
          return;
        case ThinkingDelta(index, text) =>
          result := PushDelta(index, OfThinking, text);
          return;
        case SignatureDelta(index, text) =>
          result := PushDelta(index, OfSignature, text);
          return;
        case ToolInputDelta(index, text) =>
          result := PushDelta(index, OfToolInput, text);
          return;
        case BlockStop(index) =>
          if index !in blocks || blocks[index].closed {
            return Err("unknown or stopped block");
          }
          var b := blocks[index];
          if IsInvalid(b, f) {
            invalid := invalid + [index];
          }
          blocks := blocks[index := Stopped(b, f)];
        case MessageDelta(s, u) =>
          if s.Some? {
            stop := s;
          }
          usage := Merged(usage, u);
        case UsageSnapshot(model, u, its) =>
          header, usage, iterations := Some((header.value.0, model)), u, its;
        case MessageStop =>
          if exists i :: i in blocks && !blocks[i].closed {
            return Err("message stopped with open blocks");
          }
          stopped := true;
      }
      result := Ok(());
    }

    /** The complete response, its blocks in order of index. */
    method Finish() returns (result: Result<Response, string>)
      ensures result.Ok? <==> stopped && header.Some? && stop.Some?
      ensures result.Ok? ==> Finished(View(), result.value)
    {
      if !stopped {
        return Err("stream ended before message stop");
      }
      if header.None? {
        return Err("missing message start");
      }
      if stop.None? {
        return Err("missing stop reason");
      }
      var bound, left := 0, blocks.Keys;
      while left != {}
        invariant left <= blocks.Keys && forall i :: i in blocks && i !in left ==> i < bound
        decreases |left|
      {
        var i :| i in left;
        bound := Max(bound, i + 1);
        left := left - {i};
      }
      var content := [];
      var n := 0;
      while n < bound
        invariant 0 <= n <= bound && content == ContentsBelow(blocks, n)
      {
        if n in blocks {
          content := content + [blocks[n].content];
        }
        n := n + 1;
      }
      assert Covers(blocks, bound);
      result := Ok(Response(header.value.0, header.value.1, content, stop.value, usage, iterations));
    }
  }
}
