/** The message protocol over whole runs: exactly-once settlement, order, and the order of delivery records. */
module MessagingRuns {
  import opened Common
  import opened Envelopes
  import opened MailboxSpec
  import opened Messaging
  import opened MessagingInvariant
  import opened MessagingNotices
  import opened MessagingOrder
  import opened MessagingRecords

  // ----- records in order -----

  /** A delivery record comes after the send record, and an undelivered record comes after it when there is one. */
  ghost predicate Precedes(log: seq<Event>) {
    && (forall k :: 0 <= k < |log| && log[k].Delivered? ==> Sent(log[k].id) in log[..k])
    && (forall k :: 0 <= k < |log| && log[k].Sent? ==> Undelivered(log[k].id) !in log[..k])
  }

  lemma SentIsLogged(st: State, i: nat)
    requires Trace(st) && i < |st.msgs| && st.msgs[i].env.to < |st.agents| && st.msgs[i].sent
    ensures Sent(i) in st.log
  {
    assert Traced(st.log, i, st.msgs[i], st.agents[st.msgs[i].env.to]);
  }

  /** Nothing is recorded as undelivered about a message whose task still waits. */
  lemma WaitingIsSilent(st: State, i: nat, limits: Limits)
    requires Shapes(st) && Trace(st) && Arrivals(st) && Custody(st) && Boxes(st, limits)
    requires i < |st.msgs| && st.msgs[i].progress.Waiting?
    ensures Undelivered(i) !in st.log
  {
    hide HandedOut, Told, AgentOk, InOrder, Bounded, OneEntry, Accounted, TurnBounded, Sends, IdsKnown;
    var m := st.msgs[i];
    assert ShapeOf(m, i, |st.agents|);
    assert Traced(st.log, i, m, st.agents[m.env.to]);
    RecordedOnce(st.agents[m.env.to], m.env);
    assert ArrivedAt(st.msgs, m.env.to, st.agents[m.env.to].h.arrived);
    assert m.env !in st.agents[m.env.to].h.arrived;
  }

  lemma PrecedesKept(st: State, op: Op, limits: Limits)
    requires Enabled(st, op, limits) && Shapes(st) && Arrivals(st) && Custody(st) && Boxes(st, limits) && Trace(st)
    requires Precedes(st.log)
    ensures Precedes(Step(st, op, limits).log)
  {
    hide Step, Enabled, Arrivals, Custody, Boxes, Shapes, NewlyHanded, NewlyTold, Traced, Sends, IdsKnown;
    LogAfter(st, op, limits);
    var log, more := st.log, NewEvents(st, op);
    var all: seq<Event> := log + more;
    if op.Announce? {
      MoveAfter(st, op, limits);
      WaitingIsSilent(st, op.id, limits);
    }
    if op.Write? {
      HandedIsSent(st, op, limits);
    }
    forall k | 0 <= k < |all|
      ensures all[k].Delivered? ==> Sent(all[k].id) in all[..k]
      ensures all[k].Sent? ==> Undelivered(all[k].id) !in all[..k]
    {
      if k < |log| {
        assert all[..k] == log[..k];
      } else {
        assert all[..k] == log + more[..k - |log|];
        assert all[k] == more[k - |log|];
      }
    }
  }

  lemma HandedIsSent(st: State, op: Op, limits: Limits)
    requires Enabled(st, op, limits) && op.Write?
    requires Shapes(st) && Arrivals(st) && Custody(st) && Boxes(st, limits) && Trace(st)
    ensures forall k :: 0 <= k < |NewEvents(st, op)| ==>
              NewEvents(st, op)[k].Delivered? && Sent(NewEvents(st, op)[k].id) in st.log
  {
    hide Step, Flat, AgentOk, InOrder, Bounded, OneEntry, Accounted, TurnBounded, Arrivals, Traced;
    NewlyKnown(st, op, op.node);
    var batch := NewlyHanded(st, op, op.node);
    forall k | 0 <= k < |batch|
      ensures Sent(batch[k].id) in st.log
    {
      assert Known(st.msgs, op.node, batch[k]);
      SentIsLogged(st, batch[k].id);
    }
  }

  // ----- the tasks a shutdown joins -----

  /** A staged notice that is not done is still in its node's record chain. */
  ghost predicate StagedUp(st: State) {
    forall i :: 0 <= i < |st.msgs| && st.msgs[i].kind.Staged? && !st.msgs[i].Done() && st.msgs[i].env.to < |st.agents|
      ==> Listed(st.agents[st.msgs[i].env.to], i)
  }

  ghost predicate Listed(a: Agent, i: nat) {
    exists r :: a.written <= r < |a.records| && a.records[r] == Entry(i)
  }

  /** When a node has ended, its children have, and every notice they posted to it is done. */
  ghost predicate EndedTree(st: State) {
    && (forall i :: 0 <= i < |st.msgs| && st.msgs[i].kind.Posted? && st.msgs[i].env.to < |st.agents| ==>
          st.agents[st.msgs[i].env.to].phase.Ended? ==> st.msgs[i].Done())
    && (forall c :: 0 <= c < |st.agents| && st.agents[c].parent.Some? && st.agents[c].parent.value < |st.agents| ==>
          st.agents[st.agents[c].parent.value].phase.Ended? ==>
            st.agents[c].phase.Ended? && (st.agents[c].owned ==> st.agents[c].posted))
  }

  lemma ListedKept(st: State, op: Op, limits: Limits, n: nat, i: nat)
    requires Enabled(st, op, limits) && n < |st.agents| && i < |st.msgs| && Listed(st.agents[n], i)
    requires Moved(op) == Some(i) ==> !Step(st, op, limits).msgs[i].Done()
    ensures Listed(Step(st, op, limits).agents[n], i)
  {
    hide TakenBox, TakenHistory, Pushed, PushNoted, Picked, Affordable, Kin, Notes, TasksDone;
    var a, next := st.agents[n], Step(st, op, limits).agents[n];
    var r :| a.written <= r < |a.records| && a.records[r] == Entry(i);
    assert r < |next.records| && next.records[r] == Entry(i);
    assert next.written <= r;
  }

  lemma StagedIsListed(st: State, op: Op, limits: Limits)
    requires Enabled(st, op, limits) && op.Stage? && op.node < |st.agents| && st.agents[op.node].written <= |st.agents[op.node].records|
    ensures op.node < |Step(st, op, limits).agents| && Listed(Step(st, op, limits).agents[op.node], |st.msgs|)
  {
    var a, next := st.agents[op.node], Step(st, op, limits).agents[op.node];
    assert next.records[|a.records|] == Entry(|st.msgs|);
  }

  lemma StagedUpKept(st: State, op: Op, limits: Limits)
    requires Enabled(st, op, limits) && Shapes(st) && Custody(st) && StagedUp(st)
    ensures StagedUp(Step(st, op, limits))
  {
    hide Step, Enabled, Listed;
    MsgsAfter(st, op, limits);
    AgentsAfter(st, op, limits);
    MsgsExtend(st, op, limits);
    var next := Step(st, op, limits);
    if op.Send? || op.Post? || op.Stage? {
      MsgAdded(st, op, limits);
    }
    forall i | 0 <= i < |next.msgs| && next.msgs[i].kind.Staged? && !next.msgs[i].Done() && next.msgs[i].env.to < |next.agents|
      ensures Listed(next.agents[next.msgs[i].env.to], i)
    {
      if i < |st.msgs| {
        assert SameMsg(st.msgs[i], next.msgs[i]) && ShapeOf(st.msgs[i], i, |st.agents|);
        ListedKept(st, op, limits, st.msgs[i].env.to, i);
      } else {
        assert AgentOk(st.agents[op.node]);
        StagedIsListed(st, op, limits);
      }
    }
  }

  lemma EndJoins(st: State, op: Op, limits: Limits, c: nat)
    requires Enabled(st, op, limits) && op.End? && c < |st.agents|
    ensures op.node < |st.agents|
    ensures st.agents[c].parent == Some(op.node) ==> st.agents[c].phase.Ended? && (st.agents[c].owned ==> st.agents[c].posted)
  {
  }

  lemma ChildrenEnded(st: State, op: Op, limits: Limits, c: nat)
    requires Enabled(st, op, limits) && Shapes(st) && EndedTree(st) && c < |Step(st, op, limits).agents|
    ensures var next := Step(st, op, limits);
            next.agents[c].parent.Some? && next.agents[c].parent.value < |next.agents| ==>
            next.agents[next.agents[c].parent.value].phase.Ended? ==>
              next.agents[c].phase.Ended? && (next.agents[c].owned ==> next.agents[c].posted)
  {
    hide Step, Enabled;
    AgentsAfter(st, op, limits);
    var next := Step(st, op, limits);
    if next.agents[c].parent.Some? && next.agents[c].parent.value < |next.agents| {
      var p := next.agents[c].parent.value;
      if c < |st.agents| {
        assert p < c;
        PhaseAfter(st, op, limits, c);
        PhaseAfter(st, op, limits, p);
        if op.End? {
          EndJoins(st, op, limits, c);
        }
      } else {
        PhaseAfter(st, op, limits, p);
        SpawnIsOpen(st, op, limits);
      }
    }
  }

  lemma SpawnIsOpen(st: State, op: Op, limits: Limits)
    requires Enabled(st, op, limits)
    ensures op.Spawn? ==> op.parent < |st.agents| && WorkOpen(st.agents[op.parent])
  {
  }

  lemma EndedTreeKept(st: State, op: Op, limits: Limits)
    requires Enabled(st, op, limits) && Shapes(st) && EndedTree(st)
    ensures EndedTree(Step(st, op, limits))
  {
    hide Step, Enabled;
    MsgsAfter(st, op, limits);
    MsgsExtend(st, op, limits);
    AgentsAfter(st, op, limits);
    var next := Step(st, op, limits);
    if op.Send? || op.Post? || op.Stage? {
      MsgAdded(st, op, limits);
    }
    forall i | 0 <= i < |next.msgs| && next.msgs[i].kind.Posted? && next.msgs[i].env.to < |next.agents|
      ensures next.agents[next.msgs[i].env.to].phase.Ended? ==> next.msgs[i].Done()
    {
      var n := next.msgs[i].env.to;
      if i < |st.msgs| {
        assert SameMsg(st.msgs[i], next.msgs[i]) && ShapeOf(st.msgs[i], i, |st.agents|);
        PhaseAfter(st, op, limits, n);
        if op.End? {
          EndIsDone(st, op, limits, i);
        }
      } else {
        PhaseAfter(st, op, limits, n);
      }
    }
    forall c | 0 <= c < |next.agents|
      ensures next.agents[c].parent.Some? && next.agents[c].parent.value < |next.agents| ==>
                next.agents[next.agents[c].parent.value].phase.Ended? ==>
                  next.agents[c].phase.Ended? && (next.agents[c].owned ==> next.agents[c].posted)
    {
      ChildrenEnded(st, op, limits, c);
    }
  }

  // ----- the whole invariant -----

  ghost predicate Protocol(st: State, limits: Limits) {
    && Shapes(st) && Boxes(st, limits) && Reservations(st) && Notices(st) && Arrivals(st) && Order(st)
    && Custody(st) && Trace(st) && Precedes(st.log) && StagedUp(st) && EndedTree(st)
  }

  lemma InitMail(limits: Limits)
    ensures Shapes(Init()) && Reservations(Init()) && Notices(Init()) && Boxes(Init(), limits)
  {
    hide Inv;
    InitBoxInv(limits);
  }

  lemma InitOrder()
    ensures Order(Init()) && Arrivals(Init())
  {
  }

  lemma InitRecords()
    ensures Custody(Init()) && Trace(Init()) && Precedes(Init().log) && StagedUp(Init()) && EndedTree(Init())
  {
    hide AgentOk;
    NewAgentOk(None, false);
  }

  lemma InitProtocol(limits: Limits)
    ensures Protocol(Init(), limits)
  {
    hide Init, Shapes, Boxes, Reservations, Notices, Arrivals, Order, Custody, Trace, Precedes, StagedUp, EndedTree;
    InitMail(limits);
    InitOrder();
    InitRecords();
  }

  lemma ProtocolKept(st: State, op: Op, limits: Limits)
    requires Enabled(st, op, limits) && Protocol(st, limits)
    ensures Protocol(Step(st, op, limits), limits)
  {
    hide Enabled, Step, Shapes, Boxes, Reservations, OneNotice, Awaited, Expected, InRange, Skips, Arrivals, Order, Custody,
      Trace, Precedes, StagedUp, EndedTree;
    ShapesKept(st, op, limits);
    BoxesKept(st, op, limits);
    ReservationsKept(st, op, limits);
    NoticesKept(st, op, limits);
    ArrivalsKept(st, op, limits);
    OrderKept(st, op, limits);
    CustodyKept(st, op, limits);
    TraceKept(st, op, limits);
    PrecedesKept(st, op, limits);
    StagedUpKept(st, op, limits);
    EndedTreeKept(st, op, limits);
  }

  lemma {:induction false} RunKeepsProtocol(states: seq<State>, ops: seq<Op>, limits: Limits, i: nat)
    requires Run(states, ops, limits) && i <= |ops|
    ensures Protocol(states[i], limits)
  {
    hide Protocol, Enabled, Step;
    if i == 0 {
      InitProtocol(limits);
    } else {
      RunKeepsProtocol(states, ops, limits, i - 1);
      ProtocolKept(states[i - 1], ops[i - 1], limits);
    }
  }

  // ----- what it means -----

  function Times(log: seq<Event>, e: Event): nat {
    multiset(log)[e]
  }

  /**
   In every state of every run: a message has at most one send record, it is recorded as delivered or as undelivered
   at most once and never both, a delivery record has the send record before it, and a send record is never after an
   undelivered record.
   */
  lemma SettledAtMostOnce(states: seq<State>, ops: seq<Op>, limits: Limits, i: nat, id: nat)
    requires Run(states, ops, limits) && i <= |ops|
    ensures var log := states[i].log;
            && Times(log, Sent(id)) <= 1
            && Times(log, Delivered(id)) + Times(log, Undelivered(id)) <= 1
            && (forall k :: 0 <= k < |log| && log[k] == Delivered(id) ==> Sent(id) in log[..k])
            && (forall k :: 0 <= k < |log| && log[k] == Sent(id) ==> Undelivered(id) !in log[..k])
  {
    RunKeepsProtocol(states, ops, limits, i);
    var st := states[i];
    hide Run, Boxes, Reservations, Notices, Order, StagedUp, EndedTree, Sends, HandedOut, Told, AgentOk;
    if id < |st.msgs| {
      MessageOnce(st, limits, id);
    } else {
      assert Sent(id) !in st.log && Delivered(id) !in st.log && Undelivered(id) !in st.log;
    }
  }

  lemma MessageOnce(st: State, limits: Limits, id: nat)
    requires Protocol(st, limits) && id < |st.msgs|
    ensures Times(st.log, Sent(id)) <= 1
    ensures Times(st.log, Delivered(id)) + Times(st.log, Undelivered(id)) <= 1
    ensures Times(st.log, Delivered(id)) == 1 ==> Times(st.log, Sent(id)) == 1
  {
    hide Reservations, Notices, Order, StagedUp, EndedTree, HandedOut, Told, AgentOk, InOrder, Bounded, OneEntry,
      Accounted, TurnBounded;
    var m := st.msgs[id];
    assert ShapeOf(m, id, |st.agents|);
    var a := st.agents[m.env.to];
    assert Traced(st.log, id, m, a);
    RecordedOnce(a, m.env);
    assert ArrivedAt(st.msgs, m.env.to, a.h.arrived);
    DistinctCount(a.h.arrived, m.env);
  }

  /** Once the root has ended, every agent has. */
  lemma {:induction false} RootEndsLast(st: State, limits: Limits, n: nat)
    requires Protocol(st, limits) && n < |st.agents| && st.agents[0].phase.Ended? && RootOnly(st)
    ensures st.agents[n].phase.Ended?
  {
    hide Boxes, Reservations, Notices, Arrivals, Order, Custody, Trace, Precedes, StagedUp;
    if n > 0 {
      RootEndsLast(st, limits, st.agents[n].parent.value);
    }
  }

  /** Every agent but the first has a parent. */
  ghost predicate RootOnly(st: State) {
    |st.agents| > 0 && forall c :: 0 < c < |st.agents| ==> st.agents[c].parent.Some?
  }

  lemma {:induction false} RunKeepsRoot(states: seq<State>, ops: seq<Op>, limits: Limits, i: nat)
    requires Run(states, ops, limits) && i <= |ops|
    ensures RootOnly(states[i])
  {
    hide Enabled, Step;
    if i > 0 {
      RunKeepsRoot(states, ops, limits, i - 1);
      AgentsAfter(states[i - 1], ops[i - 1], limits);
    }
  }

  /** When the run has ended, every task is done. */
  lemma AllDone(st: State, limits: Limits, id: nat)
    requires Protocol(st, limits) && id < |st.msgs|
    requires forall n :: 0 <= n < |st.agents| ==> st.agents[n].phase.Ended?
    ensures st.msgs[id].Done()
  {
    hide Boxes, Reservations, Notices, Arrivals, Trace, Precedes;
    var m := st.msgs[id];
    assert ShapeOf(m, id, |st.agents|);
    assert AgentOk(st.agents[m.env.to]);
    assert !Listed(st.agents[m.env.to], id);
  }

  /**
   When the root has ended, every message is settled: recorded exactly once as delivered or as undelivered. Those
   recorded as delivered were recorded as sent.
   */
  lemma SettledExactlyOnce(states: seq<State>, ops: seq<Op>, limits: Limits, id: nat)
    requires Run(states, ops, limits) && states[|ops|].agents != [] && states[|ops|].agents[0].phase.Ended?
    requires id < |states[|ops|].msgs|
    ensures var log := states[|ops|].log;
            && Times(log, Delivered(id)) + Times(log, Undelivered(id)) == 1
            && (Times(log, Delivered(id)) == 1 ==> Times(log, Sent(id)) == 1)
  {
    var st := states[|ops|];
    RunKeepsProtocol(states, ops, limits, |ops|);
    RunKeepsRoot(states, ops, limits, |ops|);
    hide Run, Protocol;
    forall n | 0 <= n < |st.agents|
      ensures st.agents[n].phase.Ended?
    {
      RootEndsLast(st, limits, n);
    }
    AllDone(st, limits, id);
    MessageOnce(st, limits, id);
    SettledWhenDone(st, limits, id);
  }

  lemma SettledWhenDone(st: State, limits: Limits, id: nat)
    requires Protocol(st, limits) && id < |st.msgs| && st.msgs[id].Done()
    requires forall n :: 0 <= n < |st.agents| ==> st.agents[n].phase.Ended?
    ensures Times(st.log, Delivered(id)) + Times(st.log, Undelivered(id)) == 1
  {
    hide Reservations, Notices, Order, StagedUp, EndedTree, HandedOut, Told, AgentOk, InOrder, Bounded, OneEntry,
      Accounted, TurnBounded;
    var m := st.msgs[id];
    assert ShapeOf(m, id, |st.agents|);
    var a := st.agents[m.env.to];
    assert Traced(st.log, id, m, a);
    RecordedOnce(a, m.env);
    assert ArrivedAt(st.msgs, m.env.to, a.h.arrived);
    DistinctCount(a.h.arrived, m.env);
    if m.progress.Failed? {
      assert m.env !in a.h.arrived;
    }
  }

  /**
   In every state of every run, what a node was handed of one sender is in the order of the sends (ids grow with
   them), and a notice about that sender, if it is there, comes last.
   */
  lemma HandedInOrder(states: seq<State>, ops: seq<Op>, limits: Limits, i: nat, n: nat, s: NodeId)
    requires Run(states, ops, limits) && i <= |ops| && n < |states[i].agents|
    ensures var got := From(states[i].agents[n].h.taken, s);
            && got <= From(states[i].agents[n].h.arrived, s)
            && (forall k, l :: 0 <= k < l < |got| ==> got[k].id < got[l].id)
            && (forall k :: 0 <= k < |got| - 1 ==> got[k].plain)
  {
    RunKeepsProtocol(states, ops, limits, i);
    var a := states[i].agents[n];
    hide Run, Reservations, Awaited, Expected, InRange, Skips, Custody, Trace, Precedes, StagedUp, EndedTree, Chains,
      LastSends, InTurn, EndedDone, OneEntry, Accounted, TurnBounded, Bounded;
    assert Inv(a.box, a.h, limits.capacity, limits.budget);
    HandedOverInOrder(a.box, a.h, limits.capacity, limits.budget, s);
    SortedFrom(a.h.arrived, s);
    FromMembers(a.h.arrived, s);
    var all, got := From(a.h.arrived, s), From(a.h.taken, s);
    forall k | 0 <= k < |got| - 1
      ensures got[k].plain
    {
      assert all[k] == got[k] && all[k + 1] == got[k + 1];
      assert all[k].id < all[k + 1].id;
      NoticeEnds(states[i], n, all[k], all[k + 1]);
    }
  }

  lemma {:induction false} FromBelow(q: seq<Envelope>, s: NodeId, bound: nat)
    requires forall k :: 0 <= k < |q| && q[k].from == s ==> q[k].id < bound
    ensures forall k :: 0 <= k < |From(q, s)| ==> From(q, s)[k].id < bound
  {
    if q != [] {
      FromBelow(q[..|q| - 1], s, bound);
    }
  }

  lemma {:induction false} FromMembers(q: seq<Envelope>, s: NodeId)
    ensures forall k :: 0 <= k < |From(q, s)| ==> From(q, s)[k] in q && From(q, s)[k].from == s
  {
    if q != [] {
      FromMembers(q[..|q| - 1], s);
    }
  }

  lemma {:induction false} SortedFrom(q: seq<Envelope>, s: NodeId)
    requires SortedBySender(q)
    ensures forall k, l :: 0 <= k < l < |From(q, s)| ==> From(q, s)[k].id < From(q, s)[l].id
  {
    if q != [] {
      var init, last := q[..|q| - 1], q[|q| - 1];
      SortedFrom(init, s);
      if last.from == s {
        FromBelow(init, s, last.id);
      }
    }
  }

  lemma NoticeEnds(st: State, n: nat, x: Envelope, y: Envelope)
    requires Shapes(st) && Arrivals(st) && OneNotice(st.msgs) && NoticesLast(st) && n < |st.agents|
    requires x in st.agents[n].h.arrived && y in st.agents[n].h.arrived && x.from == y.from && x.id < y.id
    ensures x.plain
  {
    assert ArrivedAt(st.msgs, n, st.agents[n].h.arrived);
    assert Known(st.msgs, n, x) && Known(st.msgs, n, y);
    assert ShapeOf(st.msgs[x.id], x.id, |st.agents|) && ShapeOf(st.msgs[y.id], y.id, |st.agents|);
    assert y.plain ==> PlainFrom(st.msgs, y.id, x.from);
    assert !y.plain ==> Notice(st.msgs[y.id], x.from, n);
  }

  /**
   In every state of every run, every mailbox is within its capacity and its turn's budget but for one oversized item,
   has had at most one notice about each agent, and, while it is open, still awaits, queues or has shown every agent
   that is concluded there.
   */
  lemma MailboxesOfRun(states: seq<State>, ops: seq<Op>, limits: Limits, i: nat, n: nat)
    requires Run(states, ops, limits) && i <= |ops| && n < |states[i].agents|
    ensures var a := states[i].agents[n];
            && a.box.plain == CountPlain(a.box.queue) && a.box.plain + a.box.reserved <= limits.capacity
            && (a.box.turn <= limits.budget || |a.h.charges| == 1)
            && (forall j, k :: IsNotice(a.h.arrived, j) && IsNotice(a.h.arrived, k) && a.h.arrived[j].from == a.h.arrived[k].from
                  ==> j == k)
            && (!a.box.closed ==> forall about :: about in a.box.concluded ==>
                  about in a.box.awaiting || HasNotice(a.box.queue, about) || about in a.box.seen)
  {
    RunKeepsProtocol(states, ops, limits, i);
    var a := states[i].agents[n];
    hide Run, InOrder, Shapes, Reservations, Notices, Arrivals, Order, Custody, Trace, Precedes, StagedUp, EndedTree;
    assert Inv(a.box, a.h, limits.capacity, limits.budget);
  }
}
