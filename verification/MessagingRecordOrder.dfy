/**
 The order of delivery records. `docs/agent-messages.md` has them in the recipient's delivery order; that holds
 exactly in the runs where no receive or wait takes messages while a turn-boundary delivery is between its take and
 its record, which are two steps.
 */
module MessagingRecordOrder {
  import opened Common
  import opened Envelopes
  import opened MailboxSpec
  import opened Messaging
  import opened MessagingInvariant
  import opened MessagingOrder
  import opened MessagingRecords
  import opened MessagingRuns

  /** The node's records list its deliveries in the order they were handed over. */
  predicate RecordsInOrder(a: Agent) {
    a.h.taken == Flat(a.records) + InHand(a)
  }

  /** A receive or wait takes messages while the main loop holds a delivery it has not recorded. */
  predicate Overtakes(st: State, op: Op, n: nat) {
    op.TakeDirect? && op.node == n && n < |st.agents| && InHand(st.agents[n]) != []
  }

  /** Some record is about another envelope than was handed over at its place; no later step can mend it. */
  ghost predicate Broken(a: Agent) {
    exists k :: 0 <= k < |Flat(a.records)| && k < |a.h.taken| && Flat(a.records)[k] != a.h.taken[k]
  }

  lemma BrokenIsOutOfOrder(a: Agent)
    requires Broken(a)
    ensures !RecordsInOrder(a)
  {
    var k :| 0 <= k < |Flat(a.records)| && k < |a.h.taken| && Flat(a.records)[k] != a.h.taken[k];
    assert (Flat(a.records) + InHand(a))[k] == Flat(a.records)[k];
  }

  lemma BrokenGrows(a: Agent, next: Agent)
    requires Broken(a) && Flat(a.records) <= Flat(next.records) && a.h.taken <= next.h.taken
    ensures Broken(next)
  {
    var k :| 0 <= k < |Flat(a.records)| && k < |a.h.taken| && Flat(a.records)[k] != a.h.taken[k];
    assert Flat(next.records)[k] == Flat(a.records)[k] && next.h.taken[k] == a.h.taken[k];
  }

  /** What a step adds to what was handed over and to what was recorded. */
  lemma MailAfter(st: State, op: Op, limits: Limits, n: nat) returns (taken: seq<Envelope>)
    requires Enabled(st, op, limits) && n < |st.agents|
    ensures var a, next := st.agents[n], Step(st, op, limits).agents[n];
            && next.h.taken == a.h.taken + taken
            && (if op.TakeTurn? && op.node == n then
                  a.hand.None? && next.hand == Some(taken) && Flat(next.records) == Flat(a.records)
                else if op.Schedule? && op.node == n then
                  taken == [] && next.hand.None? && Flat(next.records) == Flat(a.records) + InHand(a)
                else if op.TakeDirect? && op.node == n then
                  taken != [] && (forall e :: e in taken ==> e in a.box.queue)
                  && next.hand == a.hand && Flat(next.records) == Flat(a.records) + taken
                else
                  taken == [] && next.hand == a.hand && Flat(next.records) == Flat(a.records))
  {
    hide Without, Affordable, Kin, Notes, TasksDone, Flat, Size, CountPlain, NoticeSenders, Costs, Picked;
    var a, next := st.agents[n], Step(st, op, limits).agents[n];
    taken := [];
    assert a.h.taken + [] == a.h.taken;
    match op
    case TakeTurn(node, k) =>
      if n == node {
        EverythingPicked(a.box.queue);
        taken := a.box.queue[..k];
      }
    case Schedule(node) =>
      if n == node {
        FlatSnoc(a.records, Delivery(a.hand.value));
      }
    case TakeDirect(node, pick, k) =>
      if n == node {
        taken := Picked(a.box.queue, pick)[..k];
        FlatSnoc(a.records, Delivery(taken));
        PickedTakes(a.box.queue, pick);
      }
    case Stage(node, about, size) =>
      FlatSnoc(a.records, Entry(|st.msgs|));
      assert Flat(a.records) + [] == Flat(a.records);
    case _ =>
  }

  /** An envelope in hand is not in the queue. */
  lemma HandIsNotQueued(st: State, limits: Limits, n: nat, e: Envelope)
    requires Protocol(st, limits) && n < |st.agents| && e in InHand(st.agents[n])
    ensures e !in st.agents[n].box.queue
  {
    hide Reservations, Notices, StagedUp, EndedTree, Trace, Precedes, Flat, OneEntry, Accounted, TurnBounded, Bounded;
    var a := st.agents[n];
    assert AgentOk(a) && Inv(a.box, a.h, limits.capacity, limits.budget);
    assert ArrivedAt(st.msgs, n, a.h.arrived);
    WhereArrivedIs(a.box, a.h, e);
    DistinctCount(a.h.arrived, e);
    assert multiset(InHand(a))[e] > 0;
    assert multiset(a.h.taken)[e] >= multiset(InHand(a))[e];
    assert multiset(a.box.queue)[e] == 0;
  }

  lemma OrderStep(st: State, op: Op, after: State, limits: Limits, n: nat)
    requires Enabled(st, op, limits) && after == Step(st, op, limits) && Protocol(st, limits)
    requires n < |st.agents| && n < |after.agents|
    ensures var a, next := st.agents[n], after.agents[n];
            && (RecordsInOrder(a) && !Overtakes(st, op, n) ==> RecordsInOrder(next))
            && (RecordsInOrder(a) && Overtakes(st, op, n) ==> Broken(next))
            && (Broken(a) ==> Broken(next))
  {
    hide Enabled, Step, Protocol, Flat;
    var a, next := st.agents[n], after.agents[n];
    var taken := MailAfter(st, op, limits, n);
    if Broken(a) {
      BrokenGrows(a, next);
    }
    if RecordsInOrder(a) && Overtakes(st, op, n) {
      var k := |Flat(a.records)|;
      HandIsNotQueued(st, limits, n, InHand(a)[0]);
      assert Flat(next.records)[k] == taken[0];
      assert next.h.taken[k] == InHand(a)[0];
    }
  }

  ghost predicate NeverOvertaken(states: seq<State>, ops: seq<Op>, n: nat, upTo: nat) {
    forall i :: 0 <= i < upTo && i < |ops| && i < |states| ==> !Overtakes(states[i], ops[i], n)
  }

  lemma {:induction false} OrderSoFar(states: seq<State>, ops: seq<Op>, limits: Limits, n: nat, i: nat)
    requires Run(states, ops, limits) && i <= |ops| && n < |states[i].agents|
    ensures if NeverOvertaken(states, ops, n, i) then RecordsInOrder(states[i].agents[n]) else Broken(states[i].agents[n])
    decreases i
  {
    hide Enabled, Step, Broken, RecordsInOrder, Overtakes, NewAgent, NeverOvertaken, Protocol;
    if i == 0 {
      assert NeverOvertaken(states, ops, n, 0) by { NoneYet(states, ops, n); }
      NewInOrder(None, false);
    } else {
      var st, op := states[i - 1], ops[i - 1];
      RunKeepsProtocol(states, ops, limits, i - 1);
      AgentsAfter(st, op, limits);
      if n < |st.agents| {
        OrderSoFar(states, ops, limits, n, i - 1);
        OrderStep(st, op, states[i], limits, n);
        OneMore(states, ops, n, i - 1);
      } else {
        NewInOrder(Some(op.parent), op.owned);
        NoOneThere(states, ops, limits, n, i);
      }
    }
  }

  lemma NoneYet(states: seq<State>, ops: seq<Op>, n: nat)
    ensures NeverOvertaken(states, ops, n, 0)
  {
  }

  lemma OneMore(states: seq<State>, ops: seq<Op>, n: nat, i: nat)
    requires i < |ops| && i < |states|
    ensures NeverOvertaken(states, ops, n, i + 1) <==> NeverOvertaken(states, ops, n, i) && !Overtakes(states[i], ops[i], n)
  {
    hide Overtakes;
  }

  lemma NewInOrder(parent: Option<NodeId>, owned: bool)
    ensures RecordsInOrder(NewAgent(parent, owned))
  {
  }

  lemma {:induction false} AgentsGrow(states: seq<State>, ops: seq<Op>, limits: Limits, j: nat, i: nat)
    requires Run(states, ops, limits) && j <= i <= |ops|
    ensures |states[j].agents| <= |states[i].agents|
    decreases i
  {
    hide Enabled, Step;
    if j < i {
      AgentsGrow(states, ops, limits, j, i - 1);
      AgentsAfter(states[i - 1], ops[i - 1], limits);
    }
  }

  lemma NoOneThere(states: seq<State>, ops: seq<Op>, limits: Limits, n: nat, i: nat)
    requires Run(states, ops, limits) && 0 < i <= |ops| && n >= |states[i - 1].agents|
    ensures NeverOvertaken(states, ops, n, i)
  {
    hide Enabled, Step, Run;
    forall j | 0 <= j < i && j < |ops| && j < |states|
      ensures !Overtakes(states[j], ops[j], n)
    {
      AgentsGrow(states, ops, limits, j, i - 1);
    }
  }

  /** A node's delivery records are in the order it was handed the messages if and only if nothing overtook one. */
  lemma RecordOrderIff(states: seq<State>, ops: seq<Op>, limits: Limits, n: nat)
    requires Run(states, ops, limits) && n < |states[|ops|].agents|
    ensures RecordsInOrder(states[|ops|].agents[n])
       <==> forall i :: 0 <= i < |ops| ==> !Overtakes(states[i], ops[i], n)
  {
    hide Enabled, Step, Overtakes, RecordsInOrder, Broken;
    OrderSoFar(states, ops, limits, n, |ops|);
    assert NeverOvertaken(states, ops, n, |ops|) <==> forall i :: 0 <= i < |ops| ==> !Overtakes(states[i], ops[i], n);
    if !NeverOvertaken(states, ops, n, |ops|) {
      BrokenIsOutOfOrder(states[|ops|].agents[n]);
    }
  }

  // ----- a run in which a delivery is overtaken -----

  const SMALL: Limits := Limits(10, 10)

  /** A child's message to the root, announced and queued there. */
  lemma SentAndQueued(st: State, limits: Limits) returns (a: State, b: State, next: State)
    requires |st.agents| == 2 && st.agents[1].parent == Some(0) && WorkOpen(st.agents[1])
    requires var p := st.agents[1].lastSent; p.Some? ==> p.value < |st.msgs| && st.msgs[p.value].Done()
    requires var box := st.agents[0].box; !box.closed && box.plain + box.reserved < limits.capacity
    ensures var id := |st.msgs|;
            && Enabled(st, Send(1, 0, 1), limits) && a == Step(st, Send(1, 0, 1), limits)
            && Enabled(a, Announce(id), limits) && b == Step(a, Announce(id), limits)
            && Enabled(b, Push(id), limits) && next == Step(b, Push(id), limits)
            && |next.agents| == 2 && |next.msgs| == id + 1 && next.msgs[id].Done()
            && next.agents[1] == st.agents[1].(lastSent := Some(id))
            && next.agents[0] == st.agents[0].(box := next.agents[0].box, h := next.agents[0].h)
            && next.agents[0].box == st.agents[0].box.(queue := st.agents[0].box.queue + [Envelope(id, 1, 0, true, 1)],
                                                       plain := st.agents[0].box.plain + 1)
  {
    hide TakenBox, TakenHistory, IsDelivery, Picked, TasksDone, Notes, PushNoted;
    a := Step(st, Send(1, 0, 1), limits);
    b := Step(a, Announce(|st.msgs|), limits);
    next := Step(b, Push(|st.msgs|), limits);
  }

  lemma OneFits(e: Envelope, turn: nat, limits: Limits)
    requires turn + e.size <= limits.budget
    ensures Picked([e], Everything) == [e] && IsDelivery([e], 1, turn, limits.budget) && Without([e], Everything, 1) == []
    ensures CountPlain([e]) == (if e.plain then 1 else 0) && Size([e]) == e.size
  {
    EverythingPicked([e]);
    assert [e][..1] == [e] && [e][..0] == [];
    assert Picked([], Everything) == [];
  }

  /** The root takes its only message at a turn boundary. */
  lemma TakenAtTurn(st: State, e: Envelope) returns (next: State)
    requires |st.agents| == 2 && st.agents[0].phase.Running? && st.agents[0].hand.None? && e.plain && e.size == 1
    requires st.agents[0].box.queue == [e] && st.agents[0].box.turn == 0 && st.agents[0].box.plain == 1
    ensures Enabled(st, TakeTurn(0, 1), SMALL) && next == Step(st, TakeTurn(0, 1), SMALL)
    ensures next.agents == st.agents[0 := next.agents[0]] && next.msgs == st.msgs
    ensures next.agents[0].hand == Some([e]) && next.agents[0].phase.Running?
    ensures next.agents[0].box == st.agents[0].box.(queue := [], turn := 1, plain := 0, seen := next.agents[0].box.seen)
  {
    hide Notes, PushNoted, Costs, Affordable, Size, CountPlain, Picked, Without;
    OneFits(e, 0, SMALL);
    next := Step(st, TakeTurn(0, 1), SMALL);
    assert [e][..1] == [e];
  }

  lemma TakesDirectly(st: State, e: Envelope) returns (next: State)
    requires |st.agents| == 2 && st.agents[0].phase.Running? && e.size == 1
    requires st.agents[0].box.queue == [e] && st.agents[0].box.turn == 1
    ensures Enabled(st, TakeDirect(0, Everything, 1), SMALL) && next == Step(st, TakeDirect(0, Everything, 1), SMALL)
    ensures |next.agents| == 2
  {
    hide Notes, PushNoted, Costs, Affordable, Size, CountPlain, Picked, Without;
    OneFits(e, 1, SMALL);
    next := Step(st, TakeDirect(0, Everything, 1), SMALL);
  }

  lemma RootAndChild() returns (st: State)
    ensures Enabled(Init(), Spawn(0, true), SMALL) && st == Step(Init(), Spawn(0, true), SMALL)
    ensures |st.agents| == 2 && st.msgs == [] && st.agents[1] == NewAgent(Some(0), true)
    ensures st.agents[0] == NewAgent(None, false).(box := EMPTY_BOX.(awaiting := {1}))
  {
    hide TakenBox, TakenHistory, IsDelivery, Picked, TasksDone, Notes, PushNoted, Pushed, Kin, IsUp;
    st := Step(Init(), Spawn(0, true), SMALL);
  }

  /** The documented order of delivery records can fail: the second message is recorded before the first. */
  lemma DeliveryCanBeOvertaken() returns (states: seq<State>, ops: seq<Op>)
    ensures Run(states, ops, SMALL)
    ensures |states[|ops|].agents| == 2 && !RecordsInOrder(states[|ops|].agents[0])
  {
    hide Step, Enabled, RecordsInOrder, Init;
    var s0 := Init();
    var s1 := RootAndChild();
    var s2, s3, s4 := SentAndQueued(s1, SMALL);
    var first := Envelope(0, 1, 0, true, 1);
    assert [] + [first] == [first];
    var s5 := TakenAtTurn(s4, first);
    var s6, s7, s8 := SentAndQueued(s5, SMALL);
    var second := Envelope(1, 1, 0, true, 1);
    assert [] + [second] == [second];
    var s9 := TakesDirectly(s8, second);
    states := [s0, s1, s2, s3, s4, s5, s6, s7, s8, s9];
    ops := [Spawn(0, true), Send(1, 0, 1), Announce(0), Push(0), TakeTurn(0, 1), Send(1, 0, 1), Announce(1), Push(1),
            TakeDirect(0, Everything, 1)];
    assert Overtakes(states[8], ops[8], 0);
    RecordOrderIff(states, ops, SMALL, 0);
  }
}
