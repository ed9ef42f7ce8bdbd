/** Order: what one agent sends another arrives in the order of its sends, and the notice about it comes last. */
module MessagingOrder {
  import opened Common
  import opened Envelopes
  import opened MailboxSpec
  import opened Messaging
  import opened MessagingInvariant
  import opened MessagingNotices

  predicate PlainFrom(msgs: seq<Msg>, i: int, s: NodeId) {
    0 <= i < |msgs| && msgs[i].kind.Plain? && msgs[i].env.from == s
  }

  /** The last plain message of a sender before `below`, if any. */
  ghost predicate IsLast(msgs: seq<Msg>, s: NodeId, below: nat, last: Option<nat>) {
    match last
    case None => forall i :: PlainFrom(msgs, i, s) ==> i >= below
    case Some(l) => PlainFrom(msgs, l, s) && l < below && forall i :: PlainFrom(msgs, i, s) && i > l ==> i >= below
  }

  ghost predicate Chains(msgs: seq<Msg>) {
    && (forall i :: 0 <= i < |msgs| && msgs[i].kind.Plain? ==> IsLast(msgs, msgs[i].env.from, i, msgs[i].prev))
    && (forall i :: 0 <= i < |msgs| && !msgs[i].kind.Plain? ==> msgs[i].prev.None?)
  }

  ghost predicate LastSends(st: State) {
    forall s :: 0 <= s < |st.agents| ==> IsLast(st.msgs, s, |st.msgs|, st.agents[s].lastSent)
  }

  /** A send that has gone on from waiting has all of its sender's earlier sends behind it. */
  ghost predicate InTurn(msgs: seq<Msg>) {
    forall j, i {:trigger PlainFrom(msgs, i, msgs[j].env.from)} ::
      0 <= i < j < |msgs| && msgs[j].kind.Plain? && !msgs[j].progress.Waiting? && PlainFrom(msgs, i, msgs[j].env.from)
      ==> msgs[i].Done()
  }

  ghost predicate EndedDone(st: State) {
    forall i :: 0 <= i < |st.msgs| && st.msgs[i].kind.Plain? && st.msgs[i].env.from < |st.agents| ==>
      st.agents[st.msgs[i].env.from].phase.Ended? ==> st.msgs[i].Done()
  }

  /** A notice is about an agent that has ended, after everything that agent sent. */
  ghost predicate NoticesLast(st: State) {
    forall i :: 0 <= i < |st.msgs| && !st.msgs[i].kind.Plain? && st.msgs[i].env.from < |st.agents| ==>
      && st.agents[st.msgs[i].env.from].phase.Ended?
      && forall j :: PlainFrom(st.msgs, j, st.msgs[i].env.from) ==> j < i
  }

  ghost predicate SortedBySender(q: seq<Envelope>) {
    forall k, l :: 0 <= k < l < |q| && q[k].from == q[l].from ==> q[k].id < q[l].id
  }

  ghost predicate Sorted(st: State) {
    forall n :: 0 <= n < |st.agents| ==> SortedBySender(st.agents[n].h.arrived)
  }

  ghost predicate Order(st: State) {
    Chains(st.msgs) && LastSends(st) && InTurn(st.msgs) && EndedDone(st) && NoticesLast(st) && Sorted(st)
  }

  /** Steps change neither what a message is nor what came before it in its chain. */
  ghost predicate Extends(msgs: seq<Msg>, next: seq<Msg>) {
    && |msgs| <= |next|
    && (forall i :: 0 <= i < |msgs| ==> SameMsg(msgs[i], next[i]))
    && (forall i :: 0 <= i < |msgs| && msgs[i].Done() ==> next[i].Done())
  }

  lemma MsgsExtend(st: State, op: Op, limits: Limits)
    requires Enabled(st, op, limits)
    ensures Extends(st.msgs, Step(st, op, limits).msgs)
  {
    hide Step, Enabled;
    MsgsAfter(st, op, limits);
    if Moved(op).Some? {
      MoveAfter(st, op, limits);
    }
  }

  lemma PlainFromSame(msgs: seq<Msg>, next: seq<Msg>, s: NodeId, i: nat)
    requires Extends(msgs, next) && i < |msgs|
    ensures PlainFrom(next, i, s) <==> PlainFrom(msgs, i, s)
  {
    assert SameMsg(msgs[i], next[i]);
  }

  lemma LastExtends(msgs: seq<Msg>, next: seq<Msg>, s: NodeId, below: nat, last: Option<nat>)
    requires Extends(msgs, next) && below <= |msgs|
    ensures IsLast(msgs, s, below, last) ==> IsLast(next, s, below, last)
  {
    hide Extends, PlainFrom;
    if IsLast(msgs, s, below, last) {
      forall i | PlainFrom(next, i, s)
        ensures i < |msgs| ==> PlainFrom(msgs, i, s)
        ensures i >= 0
      {
        IndexOf(next, i, s);
        if i < |msgs| {
          PlainFromSame(msgs, next, s, i);
        }
      }
      if last.Some? {
        IndexOf(msgs, last.value, s);
        PlainFromSame(msgs, next, s, last.value);
      }
    }
  }

  lemma IndexOf(msgs: seq<Msg>, i: int, s: NodeId)
    requires PlainFrom(msgs, i, s)
    ensures 0 <= i < |msgs|
  {
  }

  lemma ChainsKept(st: State, op: Op, limits: Limits)
    requires Enabled(st, op, limits) && Shapes(st) && Chains(st.msgs) && LastSends(st)
    ensures Chains(Step(st, op, limits).msgs)
  {
    hide Step, Enabled, IsLast;
    MsgsExtend(st, op, limits);
    MsgsAfter(st, op, limits);
    var next := Step(st, op, limits);
    if |next.msgs| > |st.msgs| {
      MsgAdded(st, op, limits);
      PrevOfNotice(st, op, limits);
    }
    forall i | 0 <= i < |next.msgs| && next.msgs[i].kind.Plain?
      ensures IsLast(next.msgs, next.msgs[i].env.from, i, next.msgs[i].prev)
    {
      if i < |st.msgs| {
        assert SameMsg(st.msgs[i], next.msgs[i]);
        LastExtends(st.msgs, next.msgs, st.msgs[i].env.from, i, st.msgs[i].prev);
      } else {
        LastExtends(st.msgs, next.msgs, op.from, i, st.agents[op.from].lastSent);
      }
    }
    forall i | 0 <= i < |next.msgs| && !next.msgs[i].kind.Plain?
      ensures next.msgs[i].prev.None?
    {
      if i < |st.msgs| {
        assert SameMsg(st.msgs[i], next.msgs[i]);
      }
    }
  }

  lemma PrevOfNotice(st: State, op: Op, limits: Limits)
    requires Enabled(st, op, limits) && (op.Post? || op.Stage? || op.Send?)
    ensures !op.Send? ==> Step(st, op, limits).msgs[|st.msgs|].prev.None?
  {
  }

  lemma LastSendsKept(st: State, op: Op, limits: Limits)
    requires Enabled(st, op, limits) && Shapes(st) && LastSends(st)
    ensures LastSends(Step(st, op, limits))
  {
    hide Step, Enabled;
    MsgsExtend(st, op, limits);
    MsgsAfter(st, op, limits);
    AgentsAfter(st, op, limits);
    var next := Step(st, op, limits);
    if op.Send? || op.Post? || op.Stage? {
      MsgAdded(st, op, limits);
    }
    forall s | 0 <= s < |next.agents|
      ensures IsLast(next.msgs, s, |next.msgs|, next.agents[s].lastSent)
    {
      forall i | 0 <= i < |st.msgs|
        ensures PlainFrom(next.msgs, i, s) <==> PlainFrom(st.msgs, i, s)
        ensures s >= |st.agents| ==> !PlainFrom(st.msgs, i, s)
      {
        PlainFromSame(st.msgs, next.msgs, s, i);
        assert ShapeOf(st.msgs[i], i, |st.agents|);
      }
      if s < |st.agents| {
        PhaseAfter(st, op, limits, s);
        LastExtends(st.msgs, next.msgs, s, |st.msgs|, st.agents[s].lastSent);
      }
      forall i | PlainFrom(next.msgs, i, s)
        ensures i >= |st.msgs| ==> op.Send? && op.from == s && i == |st.msgs|
        ensures i < |st.msgs| ==> PlainFrom(st.msgs, i, s)
      {
        IndexOf(next.msgs, i, s);
      }
      if op.Send? && op.from == s {
        assert PlainFrom(next.msgs, |st.msgs|, s);
      } else if s < |st.agents| {
        assert IsLast(next.msgs, s, |st.msgs|, st.agents[s].lastSent);
      } else {
        assert next.agents[s].lastSent.None?;
      }
    }
  }

  /** A message whose predecessor is done has all of its sender's earlier messages done. */
  lemma AllBefore(msgs: seq<Msg>, id: nat, i: nat)
    requires Chains(msgs) && InTurn(msgs) && id < |msgs| && msgs[id].kind.Plain?
    requires msgs[id].prev.Some? ==> msgs[id].prev.value < |msgs| && msgs[msgs[id].prev.value].Done()
    requires i < id && PlainFrom(msgs, i, msgs[id].env.from)
    ensures msgs[i].Done()
  {
    assert IsLast(msgs, msgs[id].env.from, id, msgs[id].prev);
    var p := msgs[id].prev.value;
    if i < p {
      assert PlainFrom(msgs, i, msgs[p].env.from);
    }
  }

  lemma Predecessor(st: State, op: Op, limits: Limits)
    requires Enabled(st, op, limits) && op.Announce?
    ensures op.id < |st.msgs| && st.msgs[op.id].progress.Waiting?
    ensures var p := st.msgs[op.id].prev; p.Some? ==> p.value < |st.msgs| && st.msgs[p.value].Done()
  {
  }

  lemma InTurnKept(st: State, op: Op, limits: Limits)
    requires Enabled(st, op, limits) && Shapes(st) && Chains(st.msgs) && InTurn(st.msgs)
    ensures InTurn(Step(st, op, limits).msgs)
  {
    hide Step, Enabled, Chains;
    MsgsExtend(st, op, limits);
    MsgsAfter(st, op, limits);
    var next := Step(st, op, limits);
    if |next.msgs| > |st.msgs| {
      MsgAdded(st, op, limits);
    }
    if Moved(op).Some? {
      MoveAfter(st, op, limits);
    }
    forall j, i | 0 <= i < j < |next.msgs| && next.msgs[j].kind.Plain? && !next.msgs[j].progress.Waiting?
      && PlainFrom(next.msgs, i, next.msgs[j].env.from)
      ensures next.msgs[i].Done()
    {
      assert j < |st.msgs|;
      assert SameMsg(st.msgs[j], next.msgs[j]);
      PlainFromSame(st.msgs, next.msgs, st.msgs[j].env.from, i);
      if op == Announce(j) {
        Predecessor(st, op, limits);
        AllBefore(st.msgs, j, i);
      }
      assert st.msgs[i].Done();
    }
  }

  lemma EndIsDone(st: State, op: Op, limits: Limits, i: nat)
    requires Enabled(st, op, limits) && op.End? && i < |st.msgs|
    ensures st.msgs[i].kind.Plain? && st.msgs[i].env.from == op.node ==> st.msgs[i].Done()
    ensures st.msgs[i].kind.Posted? && st.msgs[i].env.to == op.node ==> st.msgs[i].Done()
  {
  }

  lemma EndedDoneKept(st: State, op: Op, limits: Limits)
    requires Enabled(st, op, limits) && Shapes(st) && EndedDone(st)
    ensures EndedDone(Step(st, op, limits))
  {
    hide Step, Enabled;
    MsgsExtend(st, op, limits);
    MsgsAfter(st, op, limits);
    AgentsAfter(st, op, limits);
    var next := Step(st, op, limits);
    if |next.msgs| > |st.msgs| {
      MsgAdded(st, op, limits);
    }
    forall i | 0 <= i < |next.msgs| && next.msgs[i].kind.Plain? && next.msgs[i].env.from < |next.agents|
      && next.agents[next.msgs[i].env.from].phase.Ended?
      ensures next.msgs[i].Done()
    {
      if i < |st.msgs| {
        assert SameMsg(st.msgs[i], next.msgs[i]) && ShapeOf(st.msgs[i], i, |st.agents|);
        PhaseAfter(st, op, limits, st.msgs[i].env.from);
        if op.End? {
          EndIsDone(st, op, limits, i);
        }
        assert st.msgs[i].Done();
      } else {
        PhaseAfter(st, op, limits, next.msgs[i].env.from);
      }
    }
  }

  lemma NoticesLastKept(st: State, op: Op, limits: Limits)
    requires Enabled(st, op, limits) && Shapes(st) && NoticesLast(st)
    ensures NoticesLast(Step(st, op, limits))
  {
    hide Step, Enabled;
    MsgsExtend(st, op, limits);
    MsgsAfter(st, op, limits);
    AgentsAfter(st, op, limits);
    var next := Step(st, op, limits);
    if |next.msgs| > |st.msgs| {
      MsgAdded(st, op, limits);
    }
    forall i | 0 <= i < |next.msgs| && !next.msgs[i].kind.Plain? && next.msgs[i].env.from < |next.agents|
      ensures next.agents[next.msgs[i].env.from].phase.Ended?
      ensures forall j :: PlainFrom(next.msgs, j, next.msgs[i].env.from) ==> j < i
    {
      var about := next.msgs[i].env.from;
      if i < |st.msgs| {
        assert SameMsg(st.msgs[i], next.msgs[i]) && ShapeOf(st.msgs[i], i, |st.agents|);
      }
      PhaseAfter(st, op, limits, about);
      forall j | PlainFrom(next.msgs, j, about)
        ensures j < i
      {
        if j < |st.msgs| {
          PlainFromSame(st.msgs, next.msgs, about, j);
        }
      }
    }
  }

  /** Whatever arrived before from the same sender has a smaller id than what arrives now. */
  lemma ArrivesLast(st: State, id: nat, n: nat, x: Envelope)
    requires Shapes(st) && Arrivals(st) && Notices(st) && Order(st)
    requires id < |st.msgs| && st.msgs[id].env.to == n < |st.agents|
    requires st.msgs[id].progress.Announced? || st.msgs[id].progress.Skipped?
    requires x in st.agents[n].h.arrived && x.from == st.msgs[id].env.from
    ensures x.id < id
  {
    hide Awaited, Expected, InRange, Skips, Chains, LastSends, Sorted;
    assert ArrivedAt(st.msgs, n, st.agents[n].h.arrived);
    assert Known(st.msgs, n, x);
    var m, y := st.msgs[id], st.msgs[x.id];
    assert ShapeOf(m, id, |st.agents|) && ShapeOf(y, x.id, |st.agents|);
    if m.kind.Plain? {
      assert PlainFrom(st.msgs, id, y.env.from);
    } else if y.kind.Plain? {
      assert PlainFrom(st.msgs, x.id, m.env.from);
    } else {
      NoticesDiffer(st, id, x.id);
    }
  }

  lemma SortedKept(st: State, op: Op, limits: Limits)
    requires Enabled(st, op, limits) && Shapes(st) && Arrivals(st) && Notices(st) && Order(st)
    ensures Sorted(Step(st, op, limits))
  {
    hide Step, Enabled, Arrivals, Notices;
    AgentsAfter(st, op, limits);
    if Moved(op).Some? {
      MoveAfter(st, op, limits);
    }
    var next := Step(st, op, limits);
    forall n | 0 <= n < |next.agents|
      ensures SortedBySender(next.agents[n].h.arrived)
    {
      if n < |st.agents| {
        ArrivedAfter(st, op, limits, n);
        assert SortedBySender(st.agents[n].h.arrived);
        if op.Push? && n == st.msgs[op.id].env.to && !st.agents[n].box.closed {
          var q, e := st.agents[n].h.arrived, st.msgs[op.id].env;
          assert ShapeOf(st.msgs[op.id], op.id, |st.agents|);
          forall k | 0 <= k < |q| && q[k].from == e.from
            ensures q[k].id < e.id
          {
            ArrivesLast(st, op.id, n, q[k]);
          }
        }
      }
      hide Order;
    }
  }

  lemma OrderKept(st: State, op: Op, limits: Limits)
    requires Enabled(st, op, limits) && Shapes(st) && Arrivals(st) && Notices(st) && Order(st)
    ensures Order(Step(st, op, limits))
  {
    hide Step, Enabled, Arrivals, Notices, Shapes, Chains, LastSends, InTurn, EndedDone, NoticesLast, Sorted;
    ChainsKept(st, op, limits);
    LastSendsKept(st, op, limits);
    InTurnKept(st, op, limits);
    EndedDoneKept(st, op, limits);
    NoticesLastKept(st, op, limits);
    SortedKept(st, op, limits);
  }
}
