/**
 The message protocol never deadlocks: from every reachable state the steps that are already owed, of sends, records and
 shutdown, lead to the end of the root.
 */
module MessagingProgress {
  import opened Common
  import opened Envelopes
  import opened MailboxSpec
  import opened Messaging
  import opened MessagingInvariant
  import opened MessagingNotices
  import opened MessagingOrder
  import opened MessagingRecords
  import opened MessagingRuns

  // ----- the notices in a record chain -----

  predicate IsEntry(a: Agent, r: int) {
    a.written <= r < |a.records| && a.records[r].Entry?
  }

  /** A staged notice of the node that is not done yet. */
  predicate Stages(msgs: seq<Msg>, n: nat, id: nat) {
    id < |msgs| && msgs[id].kind.Staged? && msgs[id].env.to == n && !msgs[id].Done()
  }

  /** The notices that a chain still has to write are staged for its node, not done, and each there once. */
  ghost predicate ChainOk(msgs: seq<Msg>, n: nat, a: Agent) {
    && (forall r :: IsEntry(a, r) ==> Stages(msgs, n, a.records[r].id))
    && (forall r, s :: IsEntry(a, r) && IsEntry(a, s) && r < s ==> a.records[r].id != a.records[s].id)
  }

  ghost predicate Chained(st: State) {
    forall n :: 0 <= n < |st.agents| ==> ChainOk(st.msgs, n, st.agents[n])
  }

  /** What a step does to a chain: it grows at the end by one record or moves on by one. */
  lemma ChainAfter(st: State, op: Op, limits: Limits, n: nat)
    requires Enabled(st, op, limits) && n < |st.agents|
    ensures var a, next := st.agents[n], Step(st, op, limits).agents[n];
            && (if op.Stage? && op.node == n then next.records == a.records + [Entry(|st.msgs|)]
                else if (op.Schedule? || op.TakeDirect?) && op.node == n
                then |next.records| == |a.records| + 1 && next.records[..|a.records|] == a.records
                     && next.records[|a.records|].Delivery?
                else next.records == a.records)
            && (next.written == a.written || next.written == a.written + 1)
  {
    hide TakenBox, TakenHistory, Pushed, PushNoted, Picked, IsDelivery, Kin, TasksDone, Notes, IsUp;
  }

  /** A staged notice that becomes done was next in its node's chain, which moves on. */
  lemma DoneMovesOn(st: State, op: Op, limits: Limits, i: nat)
    requires Enabled(st, op, limits) && i < |st.msgs| && st.msgs[i].kind.Staged? && st.msgs[i].env.to < |st.agents|
    requires !st.msgs[i].Done() && i < |Step(st, op, limits).msgs| && Step(st, op, limits).msgs[i].Done()
    ensures var n := st.msgs[i].env.to;
            var a := st.agents[n];
            && a.written < |a.records| && a.records[a.written] == Entry(i)
            && n < |Step(st, op, limits).agents| && Step(st, op, limits).agents[n].written == a.written + 1
  {
    hide TakenBox, TakenHistory, Pushed, PushNoted, Picked, IsDelivery, Kin, TasksDone, Notes;
  }

  lemma EntryKept(st: State, op: Op, limits: Limits, n: nat, r: int)
    requires Enabled(st, op, limits) && Shapes(st) && n < |st.agents| && ChainOk(st.msgs, n, st.agents[n])
    requires var next := Step(st, op, limits).agents[n]; IsEntry(next, r)
    requires st.agents[n].written <= |st.agents[n].records|
    ensures var next := Step(st, op, limits); Stages(next.msgs, n, next.agents[n].records[r].id)
    ensures r < |st.agents[n].records| ==>
              IsEntry(st.agents[n], r) && Step(st, op, limits).agents[n].records[r] == st.agents[n].records[r]
    ensures r >= |st.agents[n].records| ==> Step(st, op, limits).agents[n].records[r].id == |st.msgs|
    ensures r <= |st.agents[n].records|
  {
    hide Step, Enabled;
    ChainAfter(st, op, limits, n);
    MsgsAfter(st, op, limits);
    var a, next := st.agents[n], Step(st, op, limits);
    if r < |a.records| {
      var id := a.records[r].id;
      assert IsEntry(a, r) && Stages(st.msgs, n, id);
      assert SameMsg(st.msgs[id], next.msgs[id]);
      if a.records[a.written].Entry? {
        assert IsEntry(a, a.written);
      }
      if next.msgs[id].Done() {
        DoneMovesOn(st, op, limits, id);
      }
    } else {
      MsgAdded(st, op, limits);
    }
  }

  lemma ChainedKept(st: State, op: Op, limits: Limits)
    requires Enabled(st, op, limits) && Shapes(st) && Custody(st) && Chained(st)
    ensures Chained(Step(st, op, limits))
  {
    hide Step, Enabled, Stages, Flat;
    AgentsAfter(st, op, limits);
    var next := Step(st, op, limits);
    forall n | 0 <= n < |next.agents|
      ensures ChainOk(next.msgs, n, next.agents[n])
    {
      if n < |st.agents| {
        assert AgentOk(st.agents[n]) && ChainOk(st.msgs, n, st.agents[n]);
        forall r | IsEntry(next.agents[n], r)
          ensures Stages(next.msgs, n, next.agents[n].records[r].id)
        {
          EntryKept(st, op, limits, n, r);
        }
        forall r, s | IsEntry(next.agents[n], r) && IsEntry(next.agents[n], s) && r < s
          ensures next.agents[n].records[r].id != next.agents[n].records[s].id
        {
          EntryKept(st, op, limits, n, r);
          EntryKept(st, op, limits, n, s);
          EntryIsOld(st, n, r);
        }
      }
    }
  }

  lemma EntryIsOld(st: State, n: nat, r: int)
    requires n < |st.agents| && ChainOk(st.msgs, n, st.agents[n])
    ensures IsEntry(st.agents[n], r) ==> st.agents[n].records[r].id < |st.msgs|
  {
  }

  // ----- some owed step can always be taken -----

  /** The steps that work already begun still owes; none of them begins any. */
  predicate Owed(op: Op) {
    || op.Announce? || op.Push? || op.Fail? || op.Post? || op.Schedule? || op.Write?
    || op.CloseBox? || op.ReportDropped? || op.CloseWork? || op.End?
  }

  ghost predicate Sound(st: State, limits: Limits) {
    Protocol(st, limits) && Chained(st) && RootOnly(st)
  }

  /** What is needed of a sound state to find a step. */
  ghost predicate Walkable(st: State) {
    Shapes(st) && Chains(st.msgs) && StagedUp(st) && Chained(st) && Custody(st) && Expected(st)
  }

  lemma SoundIsWalkable(st: State, limits: Limits)
    requires Sound(st, limits)
    ensures Walkable(st)
  {
    hide Shapes, Boxes, Reservations, OneNotice, Awaited, Expected, InRange, Skips, Arrivals, Chains, LastSends, InTurn,
      EndedDone, NoticesLast, Sorted, Custody, Trace, Precedes, StagedUp, EndedTree, Chained, RootOnly;
  }

  /** A task that is up and whose predecessor is done takes its next step. */
  lemma MoveUp(st: State, limits: Limits, id: nat) returns (op: Op)
    requires Shapes(st) && id < |st.msgs| && !st.msgs[id].Done() && IsUp(st, id)
    requires var p := st.msgs[id].prev; p.Some? ==> p.value < |st.msgs| && st.msgs[p.value].Done()
    ensures Owed(op) && Enabled(st, op, limits)
  {
    assert ShapeOf(st.msgs[id], id, |st.agents|);
    match st.msgs[id].progress
    case Waiting => op := Announce(id);
    case Announced => op := Push(id);
    case Skipped => op := Push(id);
    case Refused => op := Fail(id);
  }

  /** A record chain with something to write takes its next step. */
  lemma ChainMoves(st: State, limits: Limits, n: nat) returns (op: Op)
    requires Walkable(st) && n < |st.agents| && st.agents[n].written < |st.agents[n].records|
    ensures Owed(op) && Enabled(st, op, limits)
  {
    var a := st.agents[n];
    if a.records[a.written].Delivery? {
      op := Write(n);
    } else {
      var id := a.records[a.written].id;
      assert IsEntry(a, a.written) && Stages(st.msgs, n, id);
      op := MoveUp(st, limits, id);
    }
  }

  /** So does every message: along its sender's chain of sends, or its node's chain of records. */
  lemma {:induction false} MessageMoves(st: State, limits: Limits, id: nat) returns (op: Op)
    requires Walkable(st) && id < |st.msgs| && !st.msgs[id].Done()
    ensures Owed(op) && Enabled(st, op, limits)
    decreases id
  {
    var m := st.msgs[id];
    assert ShapeOf(m, id, |st.agents|);
    if m.kind.Staged? {
      assert Listed(st.agents[m.env.to], id);
      op := ChainMoves(st, limits, m.env.to);
    } else if m.prev.Some? && !(m.prev.value < |st.msgs| && st.msgs[m.prev.value].Done()) {
      assert IsLast(st.msgs, m.env.from, id, m.prev);
      op := MessageMoves(st, limits, m.prev.value);
    } else {
      op := MoveUp(st, limits, id);
    }
  }

  predicate Over(a: Agent) {
    a.phase.Ended? && (a.owned ==> a.posted)
  }

  ghost function Youngest(agents: seq<Agent>): (n: nat)
    requires exists m :: 0 <= m < |agents| && !Over(agents[m])
    ensures n < |agents| && !Over(agents[n]) && forall m :: n < m < |agents| ==> Over(agents[m])
  {
    var last := |agents| - 1;
    if !Over(agents[last]) then last else Youngest(agents[..last])
  }

  lemma JoiningEnds(st: State, limits: Limits, n: nat)
    requires Shapes(st) && n < |st.agents| && st.agents[n].phase.Joining?
    requires st.agents[n].written == |st.agents[n].records|
    requires forall i :: 0 <= i < |st.msgs| ==> st.msgs[i].Done()
    requires forall m :: n < m < |st.agents| ==> Over(st.agents[m])
    ensures Enabled(st, End(n), limits)
  {
  }

  /** With all messages and records done, the youngest agent that is not over moves towards its end. */
  lemma AgentMoves(st: State, limits: Limits) returns (op: Op)
    requires Walkable(st) && exists m :: 0 <= m < |st.agents| && !Over(st.agents[m])
    requires forall i :: 0 <= i < |st.msgs| ==> st.msgs[i].Done()
    requires forall n :: 0 <= n < |st.agents| ==> st.agents[n].written == |st.agents[n].records|
    ensures Owed(op) && Enabled(st, op, limits)
  {
    hide Flat, TasksDone, Listed, IsLast, ChainOk;
    var n := Youngest(st.agents);
    var a := st.agents[n];
    assert AgentOk(a);
    if a.phase.Joining? {
      JoiningEnds(st, limits, n);
    }
    match a.phase
    case Running => op := if a.hand.Some? then Schedule(n) else CloseBox(n);
    case Closed => op := if a.reported < |a.h.dropped| then ReportDropped(n) else CloseWork(n);
    case Joining => op := End(n);
    case Ended => op := Post(n, 1);
  }

  /** While an agent is not over, some owed step can be taken. */
  lemma NeverStuck(st: State, limits: Limits)
    requires Walkable(st) && exists m :: 0 <= m < |st.agents| && !Over(st.agents[m])
    ensures exists op :: Owed(op) && Enabled(st, op, limits)
  {
    hide Enabled, Shapes, Chains, StagedUp, Chained, Expected, Owed, Flat;
    var op;
    if id :| 0 <= id < |st.msgs| && !st.msgs[id].Done() {
      op := MessageMoves(st, limits, id);
    } else if n :| 0 <= n < |st.agents| && st.agents[n].written < |st.agents[n].records| {
      op := ChainMoves(st, limits, n);
    } else {
      forall n | 0 <= n < |st.agents| ensures st.agents[n].written == |st.agents[n].records| {
        assert AgentOk(st.agents[n]);
      }
      op := AgentMoves(st, limits);
    }
  }

  // ----- owed steps run out -----

  function PhaseLeft(p: Phase): nat {
    match p
    case Running => 3
    case Closed => 2
    case Joining => 1
    case Ended => 0
  }

  /** Owed steps of one agent; a queued envelope may yet be dropped, and a notice to post brings a message. */
  function AgentLeft(a: Agent): nat {
    PhaseLeft(a.phase) + (if a.hand.Some? then 2 else 0) + Monus(|a.records|, a.written) + Monus(|a.h.dropped|, a.reported)
    + |a.box.queue| + if a.owned && !a.posted then 4 else 0
  }

  function MsgLeft(m: Msg): nat {
    match m.progress
    case Waiting => 3
    case Announced => 2
    case Skipped => 2
    case Refused => 1
    case Queued => 0
    case Failed => 0
  }

  function AgentsLeft(agents: seq<Agent>): nat {
    if agents == [] then 0 else AgentsLeft(agents[..|agents| - 1]) + AgentLeft(agents[|agents| - 1])
  }

  function MsgsLeft(msgs: seq<Msg>): nat {
    if msgs == [] then 0 else MsgsLeft(msgs[..|msgs| - 1]) + MsgLeft(msgs[|msgs| - 1])
  }

  function Left(st: State): nat {
    AgentsLeft(st.agents) + MsgsLeft(st.msgs)
  }

  lemma {:induction false} AgentsLeftUpdate(agents: seq<Agent>, n: nat, a: Agent)
    requires n < |agents|
    ensures AgentsLeft(agents[n := a]) + AgentLeft(agents[n]) == AgentsLeft(agents) + AgentLeft(a)
    decreases |agents|
  {
    hide AgentLeft;
    var last := |agents| - 1;
    if n == last {
      assert agents[n := a][..last] == agents[..last];
    } else {
      assert agents[n := a][..last] == agents[..last][n := a];
      AgentsLeftUpdate(agents[..last], n, a);
    }
  }

  lemma {:induction false} MsgsLeftUpdate(msgs: seq<Msg>, i: nat, m: Msg)
    requires i < |msgs|
    ensures MsgsLeft(msgs[i := m]) + MsgLeft(msgs[i]) == MsgsLeft(msgs) + MsgLeft(m)
    decreases |msgs|
  {
    hide MsgLeft;
    var last := |msgs| - 1;
    if i == last {
      assert msgs[i := m][..last] == msgs[..last];
    } else {
      assert msgs[i := m][..last] == msgs[..last][i := m];
      MsgsLeftUpdate(msgs[..last], i, m);
    }
  }

  lemma MsgsLeftAppend(msgs: seq<Msg>, m: Msg)
    ensures MsgsLeft(msgs + [m]) == MsgsLeft(msgs) + MsgLeft(m)
  {
    assert (msgs + [m])[..|msgs|] == msgs;
  }

  lemma AnnounceShortens(st: State, op: Op, limits: Limits)
    requires Enabled(st, op, limits) && op.Announce?
    ensures Left(Step(st, op, limits)) < Left(st)
  {
    hide AgentsLeft, MsgsLeft, IsUp;
    MsgsLeftUpdate(st.msgs, op.id, Step(st, op, limits).msgs[op.id]);
  }

  lemma PushShortens(st: State, op: Op, limits: Limits)
    requires Enabled(st, op, limits) && op.Push? && Custody(st)
    ensures Left(Step(st, op, limits)) < Left(st)
  {
    hide AgentsLeft, MsgsLeft, Flat;
    var n, next := st.msgs[op.id].env.to, Step(st, op, limits);
    assert AgentOk(st.agents[n]);
    AgentsLeftUpdate(st.agents, n, next.agents[n]);
    MsgsLeftUpdate(st.msgs, op.id, next.msgs[op.id]);
    assert next.agents == st.agents[n := next.agents[n]] && next.msgs == st.msgs[op.id := next.msgs[op.id]];
  }

  lemma FailShortens(st: State, op: Op, limits: Limits)
    requires Enabled(st, op, limits) && op.Fail? && Custody(st)
    ensures Left(Step(st, op, limits)) < Left(st)
  {
    hide AgentsLeft, MsgsLeft, Flat;
    var n, next := st.msgs[op.id].env.to, Step(st, op, limits);
    assert AgentOk(st.agents[n]);
    AgentsLeftUpdate(st.agents, n, next.agents[n]);
    MsgsLeftUpdate(st.msgs, op.id, next.msgs[op.id]);
    assert next.agents == st.agents[n := next.agents[n]] && next.msgs == st.msgs[op.id := next.msgs[op.id]];
  }

  lemma PostShortens(st: State, op: Op, limits: Limits)
    requires Enabled(st, op, limits) && op.Post?
    ensures Left(Step(st, op, limits)) < Left(st)
  {
    hide AgentsLeft, MsgsLeft;
    var next := Step(st, op, limits);
    AgentsLeftUpdate(st.agents, op.child, next.agents[op.child]);
    MsgsLeftAppend(st.msgs, next.msgs[|st.msgs|]);
    assert next.msgs == st.msgs + [next.msgs[|st.msgs|]];
  }

  lemma AgentShortens(st: State, op: Op, limits: Limits)
    requires Enabled(st, op, limits) && Custody(st)
    requires op.Schedule? || op.Write? || op.CloseBox? || op.ReportDropped? || op.CloseWork? || op.End?
    ensures Left(Step(st, op, limits)) < Left(st)
  {
    hide AgentsLeft, MsgsLeft, Flat, TasksDone, Notes;
    var next := Step(st, op, limits);
    assert AgentOk(st.agents[op.node]);
    AgentsLeftUpdate(st.agents, op.node, next.agents[op.node]);
    assert next.agents == st.agents[op.node := next.agents[op.node]];
  }

  /** Every owed step leaves fewer, so they cannot go on for ever. */
  lemma OwedShortens(st: State, op: Op, limits: Limits)
    requires Owed(op) && Enabled(st, op, limits) && Custody(st)
    ensures Left(Step(st, op, limits)) < Left(st)
  {
    hide Step, Enabled, Left, Custody;
    if op.Announce? {
      AnnounceShortens(st, op, limits);
    } else if op.Push? {
      PushShortens(st, op, limits);
    } else if op.Fail? {
      FailShortens(st, op, limits);
    } else if op.Post? {
      PostShortens(st, op, limits);
    } else {
      AgentShortens(st, op, limits);
    }
  }

  // ----- the root can end -----

  ghost predicate Steps(states: seq<State>, ops: seq<Op>, limits: Limits) {
    && |states| == |ops| + 1
    && forall i :: 0 <= i < |ops| ==> Enabled(states[i], ops[i], limits) && states[i + 1] == Step(states[i], ops[i], limits)
  }

  lemma SoundKept(st: State, op: Op, limits: Limits)
    requires Sound(st, limits) && Enabled(st, op, limits)
    ensures Sound(Step(st, op, limits), limits)
  {
    ProtocolKept(st, op, limits);
    assert Shapes(st) && Custody(st);
    ChainedKept(st, op, limits);
    AgentsAfter(st, op, limits);
    hide Step, Enabled, Protocol, Chained, Shapes, Custody;
  }

  lemma {:induction false} RunIsSound(states: seq<State>, ops: seq<Op>, limits: Limits, i: nat)
    requires Run(states, ops, limits) && i <= |ops|
    ensures Sound(states[i], limits)
  {
    hide Sound, Enabled, Step, Protocol;
    if i == 0 {
      InitProtocol(limits);
      InitIsSound(limits);
    } else {
      RunIsSound(states, ops, limits, i - 1);
      SoundKept(states[i - 1], ops[i - 1], limits);
    }
  }

  lemma InitIsSound(limits: Limits)
    requires Protocol(Init(), limits)
    ensures Sound(Init(), limits)
  {
    hide Protocol;
  }

  lemma {:induction false} Finish(st: State, limits: Limits) returns (states: seq<State>, ops: seq<Op>)
    requires Sound(st, limits)
    ensures Steps(states, ops, limits) && states[0] == st && |ops| <= Left(st)
    ensures forall i :: 0 <= i < |ops| ==> Owed(ops[i])
    ensures states[|ops|].agents != [] && states[|ops|].agents[0].phase.Ended?
    decreases Left(st)
  {
    hide Protocol, Chained, Enabled, Step, Left, Owed;
    if st.agents[0].phase.Ended? {
      states, ops := [st], [];
    } else {
      SoundIsWalkable(st, limits);
      assert !Over(st.agents[0]);
      NeverStuck(st, limits);
      var op :| Owed(op) && Enabled(st, op, limits);
      OwedShortens(st, op, limits);
      SoundKept(st, op, limits);
      hide Sound, Walkable;
      var more, moreOps := Finish(Step(st, op, limits), limits);
      states, ops := [st] + more, [op] + moreOps;
    }
  }

  lemma Joined(states: seq<State>, ops: seq<Op>, more: seq<State>, moreOps: seq<Op>, limits: Limits)
    returns (all: seq<State>, allOps: seq<Op>)
    requires Run(states, ops, limits) && Steps(more, moreOps, limits) && more[0] == states[|ops|]
    ensures all == states + more[1..] && allOps == ops + moreOps && Run(all, allOps, limits)
    ensures all[|allOps|] == more[|moreOps|]
  {
    hide Enabled, Step, Init;
    all, allOps := states + more[1..], ops + moreOps;
    forall k | 0 <= k < |allOps|
      ensures Enabled(all[k], allOps[k], limits) && all[k + 1] == Step(all[k], allOps[k], limits)
    {
      if k >= |ops| {
        assert all[k] == more[k - |ops|] && all[k + 1] == more[k - |ops| + 1];
      }
    }
  }

  /**
   Every run can be continued, by owed steps alone, to one in which the root has ended; then every message is settled,
   recorded exactly once as delivered or as undelivered.
   */
  lemma RootCanEnd(states: seq<State>, ops: seq<Op>, limits: Limits) returns (all: seq<State>, allOps: seq<Op>)
    requires Run(states, ops, limits)
    ensures Run(all, allOps, limits) && states <= all && ops <= allOps
    ensures forall i :: |ops| <= i < |allOps| ==> Owed(allOps[i])
    ensures all[|allOps|].agents != [] && all[|allOps|].agents[0].phase.Ended?
    ensures forall id :: 0 <= id < |all[|allOps|].msgs| ==>
              Times(all[|allOps|].log, Delivered(id)) + Times(all[|allOps|].log, Undelivered(id)) == 1
  {
    hide Enabled, Step, Init, Sound, Owed, Times;
    RunIsSound(states, ops, limits, |ops|);
    var more, moreOps := Finish(states[|ops|], limits);
    all, allOps := Joined(states, ops, more, moreOps, limits);
    forall id | 0 <= id < |all[|allOps|].msgs|
      ensures Times(all[|allOps|].log, Delivered(id)) + Times(all[|allOps|].log, Undelivered(id)) == 1
    {
      SettledExactlyOnce(all, allOps, limits, id);
    }
  }
}
