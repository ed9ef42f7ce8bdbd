/** Records: what was handed over or dropped, and what the trace says about it. */
module MessagingRecords {
  import opened Common
  import opened Envelopes
  import opened MailboxSpec
  import opened Messaging
  import opened MessagingInvariant
  import opened MessagingNotices

  // ----- custody: a taken envelope is in hand or in a record -----

  function Flat(records: seq<Record>): seq<Envelope> {
    if records == [] then []
    else
      var last := records[|records| - 1];
      Flat(records[..|records| - 1]) + if last.Delivery? then last.batch else []
  }

  function InHand(a: Agent): seq<Envelope> {
    if a.hand.Some? then a.hand.value else []
  }

  predicate AgentOk(a: Agent) {
    && multiset(a.h.taken) == multiset(InHand(a)) + multiset(Flat(a.records))
    && a.written <= |a.records| && a.reported <= |a.h.dropped|
    && (!a.phase.Running? ==> a.box.closed && a.hand.None?)
    && (a.phase.Joining? || a.phase.Ended? ==> a.reported == |a.h.dropped|)
    && (a.phase.Ended? ==> a.written == |a.records|)
  }

  ghost predicate Custody(st: State) {
    forall n :: 0 <= n < |st.agents| ==> AgentOk(st.agents[n])
  }

  lemma FlatSnoc(records: seq<Record>, r: Record)
    ensures Flat(records + [r]) == Flat(records) + if r.Delivery? then r.batch else []
  {
    assert (records + [r])[..|records|] == records;
  }

  predicate HandlesMail(op: Op) {
    op.TakeTurn? || op.TakeDirect? || op.Schedule? || op.Stage?
  }

  lemma TakenOk(a: Agent, pick: Pick, k: nat)
    requires AgentOk(a) && k <= |Picked(a.box.queue, pick)|
    ensures var (next, taken) := TakenBy(a, pick, k);
            && (WorkOpen(a) ==> AgentOk(next.(records := next.records + [Delivery(taken)])))
            && (a.phase.Running? && a.hand.None? ==> AgentOk(next.(hand := Some(taken))))
  {
    hide Picked, Without, Size, CountPlain, NoticeSenders, Costs, Flat;
    var taken := Picked(a.box.queue, pick)[..k];
    FlatSnoc(a.records, Delivery(taken));
    assert multiset(a.h.taken + taken) == multiset(a.h.taken) + multiset(taken);
    assert multiset(Flat(a.records) + taken) == multiset(Flat(a.records)) + multiset(taken);
  }

  lemma ScheduledOk(a: Agent)
    requires AgentOk(a) && a.hand.Some?
    ensures AgentOk(a.(hand := None, records := a.records + [Delivery(a.hand.value)]))
  {
    hide Flat;
    FlatSnoc(a.records, Delivery(a.hand.value));
    assert multiset(Flat(a.records) + a.hand.value) == multiset(Flat(a.records)) + multiset(a.hand.value);
  }

  lemma EntryOk(a: Agent, box: Box, id: nat)
    requires AgentOk(a) && WorkOpen(a) && box.closed == a.box.closed
    ensures AgentOk(a.(box := box, records := a.records + [Entry(id)]))
  {
    hide Flat;
    FlatSnoc(a.records, Entry(id));
    assert Flat(a.records) + [] == Flat(a.records);
  }

  lemma AgentOkMail(st: State, op: Op, limits: Limits, n: nat)
    requires Enabled(st, op, limits) && n < |st.agents| && AgentOk(st.agents[n]) && HandlesMail(op)
    ensures AgentOk(Step(st, op, limits).agents[n])
  {
    hide Picked, Affordable, TakenBy, Kin, AgentOk, Flat;
    var a := st.agents[n];
    match op
    case Stage(node, about, size) =>
      if n == node {
        EntryOk(a, a.box.(awaiting := a.box.awaiting + {about}, concluded := a.box.concluded + {about}), |st.msgs|);
      }
    case Schedule(node) =>
      if n == node {
        ScheduledOk(a);
      }
    case TakeDirect(node, pick, k) =>
      if n == node {
        TakenOk(a, pick, k);
      }
    case TakeTurn(node, k) =>
      EverythingPicked(st.agents[node].box.queue);
      if n == node {
        TakenOk(a, Everything, k);
      }
  }

  lemma PushedStaysClosed(b: Box, e: Envelope)
    ensures Pushed(b, e).closed == b.closed
  {
  }

  /** A record chain that moves on over its next record. */
  lemma SettledOk(a: Agent, m: Msg)
    requires AgentOk(a) && (m.kind.Staged? ==> a.written < |a.records|)
    ensures AgentOk(Settled(a, m))
  {
  }

  lemma AgentOkTask(st: State, op: Op, limits: Limits, n: nat)
    requires Enabled(st, op, limits) && n < |st.agents| && AgentOk(st.agents[n]) && (op.Push? || op.Fail?)
    ensures AgentOk(Step(st, op, limits).agents[n])
  {
    hide Kin, TasksDone, Flat, Pushed, Settled, TakenBox, TakenHistory;
    var m, a := st.msgs[op.id], st.agents[n];
    if n == m.env.to {
      PushedStaysClosed(a.box, m.env);
      SettledOk(a, m.(progress := Failed));
      var pushed := m.(progress := if a.box.closed then Refused else Queued);
      SettledOk(a.(box := Pushed(a.box, m.env), h := PushNoted(a.box, a.h, m.env)), pushed);
    }
  }

  predicate ShutsDown(op: Op) {
    op.CloseBox? || op.ReportDropped? || op.CloseWork? || op.End? || op.Write?
  }

  lemma AgentOkShutdown(st: State, op: Op, limits: Limits, n: nat)
    requires Enabled(st, op, limits) && n < |st.agents| && AgentOk(st.agents[n]) && ShutsDown(op)
    ensures AgentOk(Step(st, op, limits).agents[n])
  {
    hide Picked, Without, IsDelivery, Kin, Notes, Flat, TakenBox, TakenHistory, Pushed, PushNoted, Settled, IsUp;
  }

  lemma AgentOkOther(st: State, op: Op, limits: Limits, n: nat)
    requires Enabled(st, op, limits) && n < |st.agents| && AgentOk(st.agents[n])
    requires !HandlesMail(op) && !ShutsDown(op) && !op.Push? && !op.Fail?
    ensures AgentOk(Step(st, op, limits).agents[n])
  {
    hide Picked, Without, IsDelivery, Kin, Notes, Flat, TakenBox, TakenHistory, Pushed, PushNoted, Settled, IsUp, TasksDone;
  }

  lemma AgentOkKept(st: State, op: Op, limits: Limits, n: nat)
    requires Enabled(st, op, limits) && n < |st.agents| && AgentOk(st.agents[n])
    ensures AgentOk(Step(st, op, limits).agents[n])
  {
    hide Step, Enabled, AgentOk;
    if HandlesMail(op) {
      AgentOkMail(st, op, limits, n);
    } else if op.Push? || op.Fail? {
      AgentOkTask(st, op, limits, n);
    } else if ShutsDown(op) {
      AgentOkShutdown(st, op, limits, n);
    } else {
      AgentOkOther(st, op, limits, n);
    }
  }

  lemma CustodyKept(st: State, op: Op, limits: Limits)
    requires Enabled(st, op, limits) && Custody(st)
    ensures Custody(Step(st, op, limits))
  {
    hide Step, Enabled, AgentOk;
    AgentsAfter(st, op, limits);
    var next := Step(st, op, limits);
    forall n | 0 <= n < |next.agents|
      ensures AgentOk(next.agents[n])
    {
      if n < |st.agents| {
        AgentOkKept(st, op, limits, n);
      } else {
        NewAgentOk(Some(op.parent), op.owned);
      }
    }
  }

  lemma NewAgentOk(parent: Option<NodeId>, owned: bool)
    ensures AgentOk(NewAgent(parent, owned))
  {
  }

  // ----- everything that arrived is somewhere, once -----

  lemma {:induction false} FromCount(q: seq<Envelope>, e: Envelope)
    ensures multiset(q)[e] == multiset(From(q, e.from))[e]
  {
    if q != [] {
      var last, init := q[|q| - 1], q[..|q| - 1];
      FromCount(init, e);
      assert q == init + [last];
      assert From(q, e.from) == From(init, e.from) + if last.from == e.from then [last] else [];
    }
  }

  lemma WhereArrivedIs(b: Box, h: History, e: Envelope)
    requires InOrder(b, h)
    ensures multiset(h.arrived)[e] == multiset(h.taken)[e] + multiset(h.dropped)[e] + multiset(b.queue)[e]
  {
    hide From;
    FromCount(h.arrived, e);
    FromCount(h.taken, e);
    FromCount(h.dropped, e);
    FromCount(b.queue, e);
    assert From(h.arrived, e.from) == From(h.taken, e.from) + From(h.dropped, e.from) + From(b.queue, e.from);
  }

  lemma {:induction false} DistinctCount(q: seq<Envelope>, e: Envelope)
    requires forall k, l :: 0 <= k < l < |q| ==> q[k].id != q[l].id
    ensures multiset(q)[e] == if e in q then 1 else 0
  {
    if q != [] {
      var last, init := q[|q| - 1], q[..|q| - 1];
      DistinctCount(init, e);
      assert q == init + [last];
    }
  }

  lemma {:induction false} FlatPrefix(records: seq<Record>, k: nat, e: Envelope)
    requires k <= |records|
    ensures multiset(Flat(records[..k]))[e] <= multiset(Flat(records))[e]
  {
    if k == |records| {
      assert records[..k] == records;
    } else {
      FlatPrefix(records[..|records| - 1], k, e);
      assert records[..|records| - 1][..k] == records[..k];
    }
  }

  lemma PrefixCount(q: seq<Envelope>, k: nat, e: Envelope)
    requires k <= |q|
    ensures multiset(q[..k])[e] <= multiset(q)[e]
  {
    assert q == q[..k] + q[k..];
  }

  /** The delivery records written, and the dropped envelopes recorded. */
  function HandedOut(a: Agent): seq<Envelope> {
    Flat(a.records[..Min(a.written, |a.records|)])
  }

  function Told(a: Agent): seq<Envelope> {
    a.h.dropped[..Min(a.reported, |a.h.dropped|)]
  }

  /** An envelope counts once at most among what was recorded, and only when it arrived. */
  lemma RecordedOnce(a: Agent, e: Envelope)
    requires AgentOk(a) && InOrder(a.box, a.h)
    ensures multiset(HandedOut(a))[e] + multiset(Told(a))[e] <= multiset(a.h.arrived)[e]
    ensures multiset(Flat(a.records))[e] + multiset(a.h.dropped)[e] <= multiset(a.h.arrived)[e]
    ensures a.phase.Ended? ==> multiset(HandedOut(a))[e] + multiset(Told(a))[e] == multiset(a.h.arrived)[e]
  {
    hide Flat, From;
    WhereArrivedIs(a.box, a.h, e);
    FlatPrefix(a.records, a.written, e);
    PrefixCount(a.h.dropped, a.reported, e);
    assert multiset(a.h.taken)[e] == multiset(InHand(a))[e] + multiset(Flat(a.records))[e];
    if a.phase.Ended? {
      assert a.records[..a.written] == a.records && a.h.dropped[..a.reported] == a.h.dropped;
      assert InHand(a) == [];
    }
  }

  // ----- the trace -----

  ghost predicate Sends(msgs: seq<Msg>) {
    forall i :: 0 <= i < |msgs| ==>
      && (msgs[i].progress.Announced? || msgs[i].progress.Queued? ==> msgs[i].sent)
      && (msgs[i].progress.Waiting? || msgs[i].progress.Skipped? ==> !msgs[i].sent)
  }

  ghost predicate IdsKnown(st: State) {
    forall k :: 0 <= k < |st.log| ==> st.log[k].id < |st.msgs|
  }

  /** How often each record about a message is in the trace. */
  predicate Traced(log: seq<Event>, i: nat, m: Msg, a: Agent) {
    && multiset(log)[Sent(i)] == (if m.sent then 1 else 0)
    && multiset(log)[Delivered(i)] == multiset(HandedOut(a))[m.env]
    && multiset(log)[Undelivered(i)] == (if m.progress.Failed? then 1 else 0) + multiset(Told(a))[m.env]
  }

  ghost predicate Trace(st: State) {
    && Sends(st.msgs) && IdsKnown(st)
    && forall i :: 0 <= i < |st.msgs| && st.msgs[i].env.to < |st.agents| ==>
         Traced(st.log, i, st.msgs[i], st.agents[st.msgs[i].env.to])
  }

  lemma SendsKept(st: State, op: Op, limits: Limits)
    requires Enabled(st, op, limits) && Shapes(st) && Skips(st) && Sends(st.msgs)
    ensures Sends(Step(st, op, limits).msgs)
  {
    hide Step, Enabled;
    MsgsAfter(st, op, limits);
    if op.Send? || op.Post? || op.Stage? {
      MsgAdded(st, op, limits);
    }
    if Moved(op).Some? {
      MoveAfter(st, op, limits);
    }
  }

  /** The events a step adds to the trace. */
  function NewEvents(st: State, op: Op): seq<Event> {
    match op
    case Announce(id) => [Sent(id)]
    case Fail(id) => [Undelivered(id)]
    case Write(n) => Notes(NewlyHanded(st, op, n))
    case ReportDropped(n) => if NewlyTold(st, op, n) == [] then [] else [Undelivered(NewlyTold(st, op, n)[0].id)]
    case _ => []
  }

  function NewlyHanded(st: State, op: Op, n: NodeId): seq<Envelope> {
    if op == Write(n) && n < |st.agents| && st.agents[n].written < |st.agents[n].records|
       && st.agents[n].records[st.agents[n].written].Delivery?
    then st.agents[n].records[st.agents[n].written].batch else []
  }

  function NewlyTold(st: State, op: Op, n: NodeId): seq<Envelope> {
    if op == ReportDropped(n) && n < |st.agents| && st.agents[n].reported < |st.agents[n].h.dropped|
    then [st.agents[n].h.dropped[st.agents[n].reported]] else []
  }

  lemma LogAfter(st: State, op: Op, limits: Limits)
    requires Enabled(st, op, limits)
    ensures Step(st, op, limits).log == st.log + NewEvents(st, op)
  {
    hide Pushed, PushNoted, TakenBox, TakenHistory, Picked, IsDelivery, Kin, TasksDone, IsUp;
  }

  lemma HandedAfter(st: State, op: Op, limits: Limits, n: nat)
    requires Enabled(st, op, limits) && n < |st.agents| && AgentOk(st.agents[n])
    ensures HandedOut(Step(st, op, limits).agents[n]) == HandedOut(st.agents[n]) + NewlyHanded(st, op, n)
  {
    hide TakenBox, TakenHistory, Pushed, PushNoted, Picked, IsDelivery, Kin, Notes, TasksDone, Flat;
    var a, next := st.agents[n], Step(st, op, limits).agents[n];
    if next.written == a.written {
      assert a.records[..a.written] == next.records[..a.written];
      assert NewlyHanded(st, op, n) == [];
    } else {
      assert next.records == a.records && next.written == a.written + 1;
      assert a.records[..a.written + 1] == a.records[..a.written] + [a.records[a.written]];
      FlatSnoc(a.records[..a.written], a.records[a.written]);
    }
  }

  lemma DroppedAfter(st: State, op: Op, limits: Limits, n: nat)
    requires Enabled(st, op, limits) && n < |st.agents|
    ensures var a, next := st.agents[n], Step(st, op, limits).agents[n];
            && a.h.dropped <= next.h.dropped
            && next.reported == (if op == ReportDropped(n) then a.reported + 1 else a.reported)
            && (op == ReportDropped(n) ==> next.h.dropped == a.h.dropped && a.reported < |a.h.dropped|)
  {
    hide TakenBox, Pushed, Picked, IsDelivery, Kin, Notes, TasksDone, Flat, Costs, IsUp;
  }

  lemma ToldAfter(st: State, op: Op, limits: Limits, n: nat)
    requires Enabled(st, op, limits) && n < |st.agents| && AgentOk(st.agents[n])
    ensures Told(Step(st, op, limits).agents[n]) == Told(st.agents[n]) + NewlyTold(st, op, n)
  {
    DroppedAfter(st, op, limits, n);
    var a, next := st.agents[n], Step(st, op, limits).agents[n];
    hide Step, Enabled;
    if op != ReportDropped(n) {
      assert a.h.dropped[..a.reported] == next.h.dropped[..a.reported];
    }
  }

  ghost predicate AllKnown(msgs: seq<Msg>, n: nat, q: seq<Envelope>) {
    forall x :: x in q ==> Known(msgs, n, x)
  }

  /** A known envelope has the id of a message only if it is that message's. */
  lemma KnownById(msgs: seq<Msg>, n: nat, x: Envelope, i: nat)
    requires Known(msgs, n, x) && i < |msgs| && msgs[i].env.id == i
    ensures x.id == i <==> x == msgs[i].env && msgs[i].env.to == n
    ensures x.id < |msgs|
  {
  }

  lemma {:induction false} NotesCount(batch: seq<Envelope>, msgs: seq<Msg>, n: nat, i: nat)
    requires AllKnown(msgs, n, batch) && i < |msgs| && msgs[i].env.id == i
    ensures multiset(Notes(batch))[Delivered(i)] == if msgs[i].env.to == n then multiset(batch)[msgs[i].env] else 0
  {
    hide Known;
    if batch != [] {
      var rest := batch[1..];
      assert batch == [batch[0]] + rest;
      NotesCount(rest, msgs, n, i);
      KnownById(msgs, n, batch[0], i);
      assert Notes(batch) == [Delivered(batch[0].id)] + Notes(rest);
    }
  }

  lemma OnlyDeliveries(batch: seq<Envelope>, msgs: seq<Msg>, n: nat, i: nat)
    requires AllKnown(msgs, n, batch)
    ensures multiset(Notes(batch))[Sent(i)] == 0 && multiset(Notes(batch))[Undelivered(i)] == 0
    ensures forall e :: e in Notes(batch) ==> e.id < |msgs|
  {
    assert Sent(i) !in Notes(batch) && Undelivered(i) !in Notes(batch);
    forall e | e in Notes(batch)
      ensures e.id < |msgs|
    {
      var k :| 0 <= k < |Notes(batch)| && Notes(batch)[k] == e;
      assert Known(msgs, n, batch[k]);
    }
  }

  /** What is in records and among the dropped arrived, so it is known. */
  lemma RecordsKnown(st: State, n: nat)
    requires Arrivals(st) && n < |st.agents| && AgentOk(st.agents[n]) && InOrder(st.agents[n].box, st.agents[n].h)
    ensures AllKnown(st.msgs, n, Flat(st.agents[n].records))
    ensures AllKnown(st.msgs, n, st.agents[n].h.dropped)
  {
    hide Flat, From, InOrder, AgentOk, Known;
    var a := st.agents[n];
    assert ArrivedAt(st.msgs, n, a.h.arrived);
    forall x | x in Flat(a.records) || x in a.h.dropped
      ensures Known(st.msgs, n, x)
    {
      RecordedOnce(a, x);
      assert multiset(Flat(a.records))[x] > 0 || multiset(a.h.dropped)[x] > 0;
      assert x in multiset(a.h.arrived);
    }
  }

  lemma {:induction false} FlatHas(records: seq<Record>, k: nat)
    requires k < |records| && records[k].Delivery?
    ensures forall x :: x in records[k].batch ==> x in Flat(records)
  {
    if k < |records| - 1 {
      FlatHas(records[..|records| - 1], k);
    }
  }

  lemma NewlyKnown(st: State, op: Op, n: nat)
    requires Arrivals(st) && n < |st.agents| && AgentOk(st.agents[n]) && InOrder(st.agents[n].box, st.agents[n].h)
    ensures AllKnown(st.msgs, n, NewlyHanded(st, op, n)) && AllKnown(st.msgs, n, NewlyTold(st, op, n))
  {
    hide Flat, From, InOrder, AgentOk, Known;
    RecordsKnown(st, n);
    var a := st.agents[n];
    if NewlyHanded(st, op, n) != [] {
      FlatHas(a.records, a.written);
    }
  }

  ghost predicate Counted(st: State, op: Op, i: nat)
    requires i < |st.msgs|
  {
    var events, n := multiset(NewEvents(st, op)), st.msgs[i].env.to;
    && events[Sent(i)] == (if op == Announce(i) then 1 else 0)
    && events[Delivered(i)] == multiset(NewlyHanded(st, op, n))[st.msgs[i].env]
    && events[Undelivered(i)] == (if op == Fail(i) then 1 else 0) + multiset(NewlyTold(st, op, n))[st.msgs[i].env]
    && forall e :: e in NewEvents(st, op) ==> e.id < |st.msgs|
  }

  lemma CountedWrite(st: State, op: Op, i: nat)
    requires op.Write? && i < |st.msgs| && st.msgs[i].env.id == i && AllKnown(st.msgs, op.node, NewlyHanded(st, op, op.node))
    ensures Counted(st, op, i)
  {
    hide Known, Notes;
    var batch := NewlyHanded(st, op, op.node);
    NotesCount(batch, st.msgs, op.node, i);
    OnlyDeliveries(batch, st.msgs, op.node, i);
  }

  lemma CountedReport(st: State, op: Op, i: nat)
    requires op.ReportDropped? && i < |st.msgs| && st.msgs[i].env.id == i
    requires AllKnown(st.msgs, op.node, NewlyTold(st, op, op.node))
    ensures Counted(st, op, i)
  {
    hide Notes;
    var told := NewlyTold(st, op, op.node);
    if told != [] {
      KnownById(st.msgs, op.node, told[0], i);
    }
  }

  lemma CountedOther(st: State, op: Op, i: nat)
    requires !op.Write? && !op.ReportDropped? && i < |st.msgs|
    requires Moved(op).Some? ==> Moved(op).value < |st.msgs|
    ensures Counted(st, op, i)
  {
  }

  /** The counts of the new events, for a message that was there before the step. */
  lemma EventCounts(st: State, op: Op, limits: Limits, i: nat)
    requires Enabled(st, op, limits) && Shapes(st) && Arrivals(st) && Custody(st) && Boxes(st, limits) && i < |st.msgs|
    ensures Counted(st, op, i)
  {
    assert ShapeOf(st.msgs[i], i, |st.agents|);
    hide Step, Flat, AgentOk, InOrder, Bounded, OneEntry, Accounted, TurnBounded, Arrivals, Kin, IsDelivery, Picked,
      TasksDone, IsUp, Counted, Known, NewlyHanded, NewlyTold, Shapes;
    if op.Write? {
      NewlyKnown(st, op, op.node);
      CountedWrite(st, op, i);
    } else if op.ReportDropped? {
      NewlyKnown(st, op, op.node);
      CountedReport(st, op, i);
    } else {
      CountedOther(st, op, i);
    }
  }

  lemma TraceKeptOld(st: State, op: Op, limits: Limits, i: nat)
    requires Enabled(st, op, limits) && Shapes(st) && Arrivals(st) && Custody(st) && Boxes(st, limits) && Trace(st)
    requires i < |st.msgs|
    ensures var next := Step(st, op, limits);
            && i < |next.msgs| && next.msgs[i].env.to < |next.agents|
            && Traced(next.log, i, next.msgs[i], next.agents[next.msgs[i].env.to])
  {
    hide Step, Enabled, Flat, Arrivals, HandedOut, Told, NewEvents, NewlyHanded, NewlyTold, IdsKnown, Boxes, AgentOk;
    var next, n := Step(st, op, limits), st.msgs[i].env.to;
    assert ShapeOf(st.msgs[i], i, |st.agents|);
    MsgsAfter(st, op, limits);
    AgentsAfter(st, op, limits);
    assert SameMsg(st.msgs[i], next.msgs[i]);
    if Moved(op) == Some(i) {
      MoveAfter(st, op, limits);
    }
    EventCounts(st, op, limits, i);
    LogAfter(st, op, limits);
    HandedAfter(st, op, limits, n);
    ToldAfter(st, op, limits, n);
    assert Traced(st.log, i, st.msgs[i], st.agents[n]);
    assert multiset(next.log) == multiset(st.log) + multiset(NewEvents(st, op));
    assert multiset(HandedOut(st.agents[n]) + NewlyHanded(st, op, n))
        == multiset(HandedOut(st.agents[n])) + multiset(NewlyHanded(st, op, n));
    assert multiset(Told(st.agents[n]) + NewlyTold(st, op, n))
        == multiset(Told(st.agents[n])) + multiset(NewlyTold(st, op, n));
  }

  /** Nothing is recorded about a message that is just added. */
  lemma TracedNew(st: State, op: Op, limits: Limits)
    requires Enabled(st, op, limits) && Shapes(st) && Arrivals(st) && Custody(st) && Boxes(st, limits) && Trace(st)
    requires op.Send? || op.Post? || op.Stage?
    ensures var next, i := Step(st, op, limits), |st.msgs|;
            && i < |next.msgs| && next.msgs[i].env.to < |next.agents|
            && Traced(next.log, i, next.msgs[i], next.agents[next.msgs[i].env.to])
  {
    hide Step, Enabled, Flat, Arrivals, HandedOut, Told, Boxes, AgentOk, NewlyHanded, NewlyTold;
    var next, i := Step(st, op, limits), |st.msgs|;
    MsgAdded(st, op, limits);
    AgentsAfter(st, op, limits);
    LogAfter(st, op, limits);
    var e, n := next.msgs[i].env, next.msgs[i].env.to;
    HandedAfter(st, op, limits, n);
    ToldAfter(st, op, limits, n);
    NothingNew(st, op, n);
    assert next.log == st.log;
    NoStranger(st, limits, n, e);
  }

  lemma NothingNew(st: State, op: Op, n: nat)
    requires op.Send? || op.Post? || op.Stage?
    ensures NewlyHanded(st, op, n) == [] && NewlyTold(st, op, n) == [] && NewEvents(st, op) == []
  {
  }

  lemma NoStranger(st: State, limits: Limits, n: nat, e: Envelope)
    requires Arrivals(st) && Custody(st) && Boxes(st, limits) && n < |st.agents| && e.id >= |st.msgs|
    ensures multiset(HandedOut(st.agents[n]))[e] == 0 && multiset(Told(st.agents[n]))[e] == 0
  {
    hide HandedOut, Told, AgentOk, InOrder, Bounded, OneEntry, Accounted, TurnBounded;
    RecordedOnce(st.agents[n], e);
    assert ArrivedAt(st.msgs, n, st.agents[n].h.arrived);
    assert e !in st.agents[n].h.arrived;
  }

  lemma TraceKept(st: State, op: Op, limits: Limits)
    requires Enabled(st, op, limits) && Shapes(st) && Arrivals(st) && Custody(st) && Boxes(st, limits) && Trace(st)
    requires Skips(st)
    ensures Trace(Step(st, op, limits))
  {
    hide Step, Enabled, Arrivals, Custody, Boxes, Traced, Sends, Shapes, Skips, NewEvents;
    var next := Step(st, op, limits);
    SendsKept(st, op, limits);
    MsgsAfter(st, op, limits);
    LogAfter(st, op, limits);
    forall k | 0 <= k < |next.log|
      ensures next.log[k].id < |next.msgs|
    {
      if k >= |st.log| {
        assert next.log[k] in NewEvents(st, op);
        SomeMsg(st, op, limits);
        EventCounts(st, op, limits, 0);
      }
    }
    forall i | 0 <= i < |next.msgs| && next.msgs[i].env.to < |next.agents|
      ensures Traced(next.log, i, next.msgs[i], next.agents[next.msgs[i].env.to])
    {
      if i < |st.msgs| {
        TraceKeptOld(st, op, limits, i);
      } else {
        TracedNew(st, op, limits);
      }
    }
  }

  lemma SomeMsg(st: State, op: Op, limits: Limits)
    requires Enabled(st, op, limits) && NewEvents(st, op) != []
    requires Arrivals(st) && Custody(st) && Boxes(st, limits)
    ensures |st.msgs| > 0
  {
    hide Step, Flat, AgentOk, InOrder, Bounded, OneEntry, Accounted, TurnBounded, Arrivals, Kin, IsDelivery, Picked,
      TasksDone, IsUp;
    match op
    case Write(n) =>
      NewlyKnown(st, op, n);
      assert Known(st.msgs, n, NewlyHanded(st, op, n)[0]);
    case ReportDropped(n) =>
      NewlyKnown(st, op, n);
      assert Known(st.msgs, n, NewlyTold(st, op, n)[0]);
    case _ =>
  }
}
