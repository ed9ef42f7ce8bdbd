/** What every step of the message protocol keeps. */
module MessagingInvariant {
  import opened Common
  import opened Envelopes
  import opened MailboxSpec
  import opened Messaging

  // ----- the invariant -----

  ghost predicate Shapes(st: State) {
    && (forall i :: 0 <= i < |st.msgs| ==> ShapeOf(st.msgs[i], i, |st.agents|))
    && (forall c :: 0 <= c < |st.agents| && st.agents[c].parent.Some? ==> st.agents[c].parent.value < c)
  }

  predicate ShapeOf(m: Msg, i: nat, n: nat) {
    m.env.id == i && m.env.from < n && m.env.to < n && (m.env.plain <==> m.kind.Plain?)
  }

  ghost predicate Boxes(st: State, limits: Limits) {
    forall n :: 0 <= n < |st.agents| ==> Inv(st.agents[n].box, st.agents[n].h, limits.capacity, limits.budget)
  }

  /** An envelope is that of a queued message to this node. */
  predicate Known(msgs: seq<Msg>, n: nat, e: Envelope) {
    e.id < |msgs| && msgs[e.id].env == e && e.to == n && msgs[e.id].progress.Queued?
  }

  ghost predicate ArrivedAt(msgs: seq<Msg>, n: nat, arrived: seq<Envelope>) {
    && (forall k :: 0 <= k < |arrived| ==> Known(msgs, n, arrived[k]))
    && (forall k, l :: 0 <= k < l < |arrived| ==> arrived[k].id != arrived[l].id)
  }

  ghost predicate Arrivals(st: State) {
    && (forall n :: 0 <= n < |st.agents| ==> ArrivedAt(st.msgs, n, st.agents[n].h.arrived))
    && (forall i :: 0 <= i < |st.msgs| && st.msgs[i].progress.Queued? && st.msgs[i].env.to < |st.agents| ==>
          st.msgs[i].env in st.agents[st.msgs[i].env.to].h.arrived)
  }

  /** A plain message to `n` whose reservation is still held. */
  predicate Holds(m: Msg, n: nat) {
    m.kind.Plain? && m.env.to == n && m.progress in {Waiting, Announced, Skipped}
  }

  function Unpushed(msgs: seq<Msg>, n: nat): nat {
    if msgs == [] then 0 else Unpushed(msgs[..|msgs| - 1], n) + if Holds(msgs[|msgs| - 1], n) then 1 else 0
  }

  ghost predicate Reservations(st: State) {
    forall n :: 0 <= n < |st.agents| ==> st.agents[n].box.reserved == Unpushed(st.msgs, n)
  }

  predicate Notice(m: Msg, from: nat, to: nat) {
    !m.kind.Plain? && m.env.from == from && m.env.to == to
  }

  ghost predicate OneNotice(msgs: seq<Msg>) {
    forall i, j :: 0 <= i < j < |msgs| && !msgs[i].kind.Plain? ==> !Notice(msgs[j], msgs[i].env.from, msgs[i].env.to)
  }

  /** A notice on its way is awaited, and one that arrived is concluded. */
  ghost predicate Awaited(st: State) {
    forall i :: 0 <= i < |st.msgs| && !st.msgs[i].kind.Plain? && st.msgs[i].env.to < |st.agents| ==>
      var b := st.agents[st.msgs[i].env.to].box;
      && (st.msgs[i].Pending() ==> st.msgs[i].env.from in b.awaiting)
      && (st.msgs[i].env.from in b.awaiting || st.msgs[i].env.from in b.concluded)
  }

  /** A node-owned child is awaited until its notice is posted, and there is none about it before. */
  ghost predicate Expected(st: State) {
    forall c :: 0 <= c < |st.agents| && st.agents[c].owned && !st.agents[c].posted ==>
      && st.agents[c].parent.Some? && st.agents[c].parent.value < |st.agents|
      && c in st.agents[st.agents[c].parent.value].box.awaiting
      && forall i :: 0 <= i < |st.msgs| ==> !Notice(st.msgs[i], c, st.agents[c].parent.value)
  }

  ghost predicate InRange(st: State) {
    forall n, a :: 0 <= n < |st.agents| && (a in st.agents[n].box.awaiting || a in st.agents[n].box.concluded) ==>
      a < |st.agents|
  }

  ghost predicate Skips(st: State) {
    forall i :: 0 <= i < |st.msgs| && st.msgs[i].progress.Skipped? && st.msgs[i].env.to < |st.agents| ==>
      st.agents[st.msgs[i].env.to].box.closed
  }

  ghost predicate Notices(st: State) {
    OneNotice(st.msgs) && Awaited(st) && Expected(st) && InRange(st) && Skips(st)
  }

  // ----- what a step does to messages and agents -----

  /** The message a step moves on, if any. */
  function Moved(op: Op): Option<nat> {
    match op
    case Announce(id) => Some(id)
    case Push(id) => Some(id)
    case Fail(id) => Some(id)
    case _ => None
  }

  predicate SameMsg(m: Msg, next: Msg) {
    next.env == m.env && next.kind == m.kind && next.prev == m.prev
  }

  lemma MsgsAfter(st: State, op: Op, limits: Limits)
    requires Enabled(st, op, limits)
    ensures var next := Step(st, op, limits);
            && |st.msgs| <= |next.msgs| <= |st.msgs| + 1
            && (forall i :: 0 <= i < |st.msgs| ==> SameMsg(st.msgs[i], next.msgs[i]))
            && (forall i :: 0 <= i < |st.msgs| && Moved(op) != Some(i) ==> next.msgs[i] == st.msgs[i])
            && (|next.msgs| > |st.msgs| ==> op.Send? || op.Post? || op.Stage?)
  {
    hide Pushed, PushNoted, TakenBox, TakenHistory, Picked, IsDelivery, Kin, TasksDone, Notes, IsUp;
  }

  lemma AgentAfter(st: State, op: Op, limits: Limits, n: NodeId)
    requires Enabled(st, op, limits) && n < |st.agents|
    ensures var next := Step(st, op, limits);
            && n < |next.agents|
            && next.agents[n].parent == st.agents[n].parent && next.agents[n].owned == st.agents[n].owned
            && (next.agents[n].posted <==> st.agents[n].posted || (op.Post? && op.child == n))
  {
    hide Pushed, PushNoted, TakenBox, TakenHistory, Picked, IsDelivery, Kin, TasksDone, Notes, IsUp;
  }

  lemma AgentsAfter(st: State, op: Op, limits: Limits)
    requires Enabled(st, op, limits)
    ensures var next := Step(st, op, limits);
            && |next.agents| == |st.agents| + (if op.Spawn? then 1 else 0)
            && (forall n :: 0 <= n < |st.agents| ==>
                  && next.agents[n].parent == st.agents[n].parent && next.agents[n].owned == st.agents[n].owned
                  && (next.agents[n].posted <==> st.agents[n].posted || (op.Post? && op.child == n)))
            && (op.Spawn? ==> op.parent < |st.agents| && next.agents[|st.agents|] == NewAgent(Some(op.parent), op.owned))
  {
    hide Pushed, PushNoted, TakenBox, TakenHistory, Picked, IsDelivery, Kin, TasksDone, Notes, IsUp;
    var next := Step(st, op, limits);
    assert |next.agents| == |st.agents| + if op.Spawn? then 1 else 0;
    assert op.Spawn? ==> op.parent < |st.agents| && next.agents[|st.agents|] == NewAgent(Some(op.parent), op.owned);
    hide Step, Enabled;
    forall n | 0 <= n < |st.agents|
      ensures next.agents[n].parent == st.agents[n].parent && next.agents[n].owned == st.agents[n].owned
      ensures next.agents[n].posted <==> st.agents[n].posted || (op.Post? && op.child == n)
    {
      AgentAfter(st, op, limits, n);
    }
  }

  // ----- what a step keeps -----

  lemma ShapesKept(st: State, op: Op, limits: Limits)
    requires Enabled(st, op, limits) && Shapes(st)
    ensures Shapes(Step(st, op, limits))
  {
    MsgsAfter(st, op, limits);
    AgentsAfter(st, op, limits);
    var next := Step(st, op, limits);
    if |next.msgs| > |st.msgs| {
      hide Kin, TasksDone, IsUp, IsDelivery;
      assert ShapeOf(next.msgs[|st.msgs|], |st.msgs|, |next.agents|);
    }
    hide Step, Enabled;
  }

  lemma {:induction false} UnpushedAppend(msgs: seq<Msg>, m: Msg, n: nat)
    ensures Unpushed(msgs + [m], n) == Unpushed(msgs, n) + if Holds(m, n) then 1 else 0
  {
    assert (msgs + [m])[..|msgs|] == msgs;
  }

  lemma {:induction false} UnpushedUpdate(msgs: seq<Msg>, id: nat, m: Msg, n: nat)
    requires id < |msgs|
    ensures Unpushed(msgs[id := m], n) + (if Holds(msgs[id], n) then 1 else 0)
         == Unpushed(msgs, n) + if Holds(m, n) then 1 else 0
  {
    hide Holds;
    var next, last := msgs[id := m], |msgs| - 1;
    if id == last {
      assert next[..last] == msgs[..last];
    } else {
      assert next[..last] == msgs[..last][id := m];
      UnpushedUpdate(msgs[..last], id, m, n);
    }
  }

  /** A plain message that is about to be queued still holds its reservation. */
  lemma PlainHolds(st: State, id: nat)
    requires Shapes(st) && Reservations(st) && id < |st.msgs| && st.msgs[id].kind.Plain? && st.msgs[id].Pending()
    ensures st.agents[st.msgs[id].env.to].box.reserved > 0
  {
    var m := st.msgs[id];
    UnpushedUpdate(st.msgs, id, m.(progress := Failed), m.env.to);
  }

  /** The reservations a node's mailbox holds after a step. */
  lemma ReservedAfter(st: State, op: Op, limits: Limits, n: nat)
    requires Enabled(st, op, limits) && n < |st.agents|
    ensures var was := st.agents[n].box.reserved;
            Step(st, op, limits).agents[n].box.reserved
            == match op
               case Send(s, to, size) => if n == to then was + 1 else was
               case Push(id) => if n == st.msgs[id].env.to && st.msgs[id].env.plain then Monus(was, 1) else was
               case _ => was
  {
    hide TakenHistory, Picked, Without, IsDelivery, Kin, TasksDone, Notes, IsUp, Size, CountPlain, NoticeSenders;
  }

  lemma ReservationsKept(st: State, op: Op, limits: Limits)
    requires Enabled(st, op, limits) && Shapes(st) && Reservations(st)
    ensures Reservations(Step(st, op, limits))
  {
    var next := Step(st, op, limits);
    MsgsAfter(st, op, limits);
    AgentsAfter(st, op, limits);
    forall n | 0 <= n < |next.agents|
      ensures next.agents[n].box.reserved == Unpushed(next.msgs, n)
    {
      UnpushedAfter(st, op, limits, n);
      if n < |st.agents| {
        ReservedAfter(st, op, limits, n);
        if op.Push? && st.msgs[op.id].kind.Plain? {
          PlainHolds(st, op.id);
        }
      } else {
        NothingToStrangers(st.msgs, n, |st.agents|);
      }
      hide Step, Unpushed;
    }
  }

  lemma {:induction false} NothingToStrangers(msgs: seq<Msg>, n: nat, size: nat)
    requires n >= size && forall i :: 0 <= i < |msgs| ==> msgs[i].env.to < size
    ensures Unpushed(msgs, n) == 0
  {
    if msgs != [] {
      NothingToStrangers(msgs[..|msgs| - 1], n, size);
    }
  }

  lemma UnpushedAfter(st: State, op: Op, limits: Limits, n: nat)
    requires Enabled(st, op, limits) && Shapes(st)
    ensures var was := Unpushed(st.msgs, n);
            Unpushed(Step(st, op, limits).msgs, n)
            == match op
               case Send(s, to, size) => if n == to then was + 1 else was
               case Push(id) => if n == st.msgs[id].env.to && st.msgs[id].kind.Plain? then Monus(was, 1) else was
               case _ => was
  {
    hide Unpushed, Kin, TasksDone, IsUp, IsDelivery, Pushed, PushNoted, TakenBox, TakenHistory, Picked, Notes, Settled;
    var next := Step(st, op, limits);
    if Moved(op).Some? {
      var id := Moved(op).value;
      assert next.msgs == st.msgs[id := next.msgs[id]];
      UnpushedUpdate(st.msgs, id, next.msgs[id], n);
    } else if |next.msgs| > |st.msgs| {
      assert next.msgs == st.msgs + [next.msgs[|st.msgs|]];
      UnpushedAppend(st.msgs, next.msgs[|st.msgs|], n);
    }
  }

  lemma InitBoxInv(limits: Limits)
    ensures Inv(EMPTY_BOX, NO_HISTORY, limits.capacity, limits.budget)
  {
  }

  /** Every mailbox keeps its invariant: the protocol meets what the mailbox asks of its callers. */
  lemma BoxesKept(st: State, op: Op, limits: Limits)
    requires Enabled(st, op, limits) && Boxes(st, limits) && Shapes(st) && Reservations(st) && Notices(st)
    ensures Boxes(Step(st, op, limits), limits)
  {
    AgentsAfter(st, op, limits);
    var next := Step(st, op, limits);
    forall n | 0 <= n < |next.agents|
      ensures Inv(next.agents[n].box, next.agents[n].h, limits.capacity, limits.budget)
    {
      if n < |st.agents| {
        BoxKept(st, op, limits, n);
      } else {
        hide Step;
        InitBoxInv(limits);
      }
    }
  }

  /** A message about to be pushed holds its reservation, or its agent is awaited. */
  lemma PushMeets(st: State, id: nat)
    requires Shapes(st) && Reservations(st) && Notices(st) && id < |st.msgs|
    requires st.msgs[id].progress.Announced? || st.msgs[id].progress.Skipped?
    ensures st.msgs[id].env.to < |st.agents|
    ensures var b, e := st.agents[st.msgs[id].env.to].box, st.msgs[id].env;
            if e.plain then b.reserved > 0 else e.from in b.awaiting
  {
    assert ShapeOf(st.msgs[id], id, |st.agents|);
    if st.msgs[id].kind.Plain? {
      PlainHolds(st, id);
    }
  }

  lemma StrangerIsNotConcluded(st: State, n: nat)
    requires Notices(st) && n < |st.agents|
    ensures |st.agents| !in st.agents[n].box.concluded
  {
  }

  predicate Takes(op: Op) {
    op.TakeTurn? || op.TakeDirect?
  }

  lemma BoxKeptTaking(st: State, op: Op, limits: Limits, n: nat)
    requires Enabled(st, op, limits) && n < |st.agents| && Takes(op)
    requires Inv(st.agents[n].box, st.agents[n].h, limits.capacity, limits.budget)
    ensures var a := Step(st, op, limits).agents[n]; Inv(a.box, a.h, limits.capacity, limits.budget)
  {
    hide Inv, TakenBox, TakenHistory, Picked, IsDelivery;
    var a := st.agents[n];
    if op.TakeTurn? {
      EverythingPicked(st.agents[op.node].box.queue);
      if n == op.node {
        TakeKeepsInv(a.box, a.h, Everything, op.n, limits);
      }
    } else if n == op.node {
      TakeKeepsInv(a.box, a.h, op.pick, op.n, limits);
    }
  }

  lemma BoxKeptTurning(st: State, op: Op, limits: Limits, n: nat)
    requires Enabled(st, op, limits) && n < |st.agents|
    requires op.NewTurn? || op.Charge? || op.Saw? || op.FinishTurn? || op.CloseBox?
    requires Inv(st.agents[n].box, st.agents[n].h, limits.capacity, limits.budget)
    ensures var a := Step(st, op, limits).agents[n]; Inv(a.box, a.h, limits.capacity, limits.budget)
  {
    hide Inv;
    var a, cap, budget := st.agents[n], limits.capacity, limits.budget;
    if n == op.node {
      match op
      case NewTurn(_) => NewTurnKeepsInv(a.box, a.h, cap, budget);
      case Charge(_, cost) => ChargeKeepsInv(a.box, a.h, cost, cap, budget);
      case Saw(_, about) => SawKeepsInv(a.box, a.h, about, cap, budget);
      case FinishTurn(_) => ClosingIsFine(a.box, a.h, cap, budget);
      case CloseBox(_) => CloseKeepsInv(a.box, a.h, cap, budget);
    }
  }

  lemma BoxKeptSending(st: State, op: Op, limits: Limits, n: nat)
    requires Enabled(st, op, limits) && n < |st.agents|
    requires op.Spawn? || op.Send? || op.Stage? || op.Push?
    requires Inv(st.agents[n].box, st.agents[n].h, limits.capacity, limits.budget)
    requires |st.agents| !in st.agents[n].box.concluded
    requires op.Push? ==> var b, e := st.agents[st.msgs[op.id].env.to].box, st.msgs[op.id].env;
                          if e.plain then b.reserved > 0 else e.from in b.awaiting
    ensures var a := Step(st, op, limits).agents[n]; Inv(a.box, a.h, limits.capacity, limits.budget)
  {
    hide Inv, Pushed, PushNoted, Kin;
    var a, cap, budget := st.agents[n], limits.capacity, limits.budget;
    match op
    case Spawn(p, owned) =>
      if owned && n == p {
        ExpectKeepsInv(a.box, a.h, |st.agents|, cap, budget);
      }
    case Send(s, to, size) =>
      if n == to {
        ReserveKeepsInv(a.box, a.h, cap, budget);
      }
    case Stage(node, about, size) =>
      if n == node {
        StageKeepsInv(a.box, a.h, about, cap, budget);
      }
    case Push(id) =>
      if n == st.msgs[id].env.to {
        PushKeepsInv(a.box, a.h, st.msgs[id].env, cap, budget);
      }
  }

  /** Other steps leave every mailbox as it is. */
  lemma BoxKeptQuietly(st: State, op: Op, limits: Limits, n: nat)
    requires Enabled(st, op, limits) && n < |st.agents|
    requires op.Post? || op.Announce? || op.Fail? || op.Schedule? || op.Write? || op.ReportDropped? || op.CloseWork? || op.End?
    ensures var a := Step(st, op, limits).agents[n]; a.box == st.agents[n].box && a.h == st.agents[n].h
  {
    hide Notes, TasksDone, IsUp;
  }

  lemma BoxKept(st: State, op: Op, limits: Limits, n: nat)
    requires Enabled(st, op, limits) && Boxes(st, limits) && Shapes(st) && Reservations(st) && Notices(st)
    requires n < |st.agents|
    ensures n < |Step(st, op, limits).agents|
    ensures var a := Step(st, op, limits).agents[n]; Inv(a.box, a.h, limits.capacity, limits.budget)
  {
    AgentsAfter(st, op, limits);
    if op.Push? {
      PushIsNext(st, op, limits);
      PushMeets(st, op.id);
    }
    StrangerIsNotConcluded(st, n);
    assert Inv(st.agents[n].box, st.agents[n].h, limits.capacity, limits.budget);
    hide Step, Enabled, Inv, Shapes, Boxes, Reservations, Notices;
    match op
    case TakeTurn(_, _) => BoxKeptTaking(st, op, limits, n);
    case TakeDirect(_, _, _) => BoxKeptTaking(st, op, limits, n);
    case Spawn(_, _) => BoxKeptSending(st, op, limits, n);
    case Send(_, _, _) => BoxKeptSending(st, op, limits, n);
    case Stage(_, _, _) => BoxKeptSending(st, op, limits, n);
    case Push(_) => BoxKeptSending(st, op, limits, n);
    case NewTurn(_) => BoxKeptTurning(st, op, limits, n);
    case Charge(_, _) => BoxKeptTurning(st, op, limits, n);
    case Saw(_, _) => BoxKeptTurning(st, op, limits, n);
    case FinishTurn(_) => BoxKeptTurning(st, op, limits, n);
    case CloseBox(_) => BoxKeptTurning(st, op, limits, n);
    case _ => BoxKeptQuietly(st, op, limits, n);
  }

  lemma PushIsNext(st: State, op: Op, limits: Limits)
    requires Enabled(st, op, limits) && op.Push?
    ensures op.id < |st.msgs| && (st.msgs[op.id].progress.Announced? || st.msgs[op.id].progress.Skipped?)
  {
  }

  lemma TakeKeepsInv(b: Box, h: History, pick: Pick, k: nat, limits: Limits)
    requires Inv(b, h, limits.capacity, limits.budget) && IsDelivery(Picked(b.queue, pick), k, b.turn, limits.budget)
    ensures Inv(TakenBox(b, pick, k), TakenHistory(h, Picked(b.queue, pick)[..k]), limits.capacity, limits.budget)
  {
    hide Inv, TakenBox, TakenHistory, HandsOver, Picked, Affordable;
    TakenIsDelivered(b, h, pick, k, limits.capacity, limits.budget);
    DeliveredKeepsInv(b, TakenBox(b, pick, k), h, TakenHistory(h, Picked(b.queue, pick)[..k]), pick, k,
                      limits.capacity, limits.budget);
  }
}
