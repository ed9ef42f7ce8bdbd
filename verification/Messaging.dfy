/**
 The message protocol of a whole agent tree: sends, terminal notices, deliveries and their records as
 interleaved steps, each one atomic under one lock or one acknowledged trace write.
 */
module Messaging {
  import opened Common
  import opened Envelopes
  import opened MailboxSpec

  /** A plain message, a notice a child's task posts to its parent, or a notice an agent stages for itself. */
  datatype Kind = Plain | Posted | Staged

  /** How far the task that carries a message has come; `Queued` and `Failed` end it. */
  datatype Progress = Waiting | Announced | Skipped | Queued | Refused | Failed

  /** `prev` is the sender's previous send, which a plain message waits for; `sent` tells that its record is written. */
  datatype Msg = Msg(env: Envelope, kind: Kind, progress: Progress, sent: bool, prev: Option<nat>) {
    predicate Done() {
      progress.Queued? || progress.Failed?
    }
    predicate Pending() {
      progress.Waiting? || progress.Announced? || progress.Skipped?
    }
  }

  datatype Event = Sent(id: nat) | Delivered(id: nat) | Undelivered(id: nat)

  /** A node's message records, written one after another: a delivery, or a staged notice to announce and queue. */
  datatype Record = Delivery(batch: seq<Envelope>) | Entry(id: nat)

  datatype Phase = Running | Closed | Joining | Ended

  /**
   `hand` is a delivery that was taken at a turn boundary and not yet handed to the record chain. The records before
   `written` are written, and of the envelopes the close dropped the first `reported` are recorded as undelivered.
   */
  datatype Agent = Agent(parent: Option<NodeId>, owned: bool, posted: bool, phase: Phase, box: Box, h: History,
                         hand: Option<seq<Envelope>>, records: seq<Record>, written: nat, reported: nat,
                         lastSent: Option<nat>)

  datatype State = State(agents: seq<Agent>, msgs: seq<Msg>, log: seq<Event>)

  datatype Limits = Limits(capacity: nat, budget: nat)

  const EMPTY_BOX: Box := Box([], 0, 0, {}, false, 0, {}, {})
  const NO_HISTORY: History := History([], [], [], [], [])

  function NewAgent(parent: Option<NodeId>, owned: bool): Agent {
    Agent(parent, owned, false, Running, EMPTY_BOX, NO_HISTORY, None, [], 0, 0, None)
  }

  function Init(): State {
    State([NewAgent(None, false)], [], [])
  }

  function Notes(batch: seq<Envelope>): (events: seq<Event>)
    ensures |events| == |batch| && forall i :: 0 <= i < |batch| ==> events[i] == Delivered(batch[i].id)
  {
    if batch == [] then [] else [Delivered(batch[0].id)] + Notes(batch[1..])
  }

  // ----- the steps -----

  datatype Op =
    | Spawn(parent: NodeId, owned: bool)
    | Send(from: NodeId, to: NodeId, size: Chars)
    | Post(child: NodeId, size: Chars)
    | Stage(node: NodeId, about: NodeId, size: Chars)
    | Announce(id: nat)
    | Push(id: nat)
    | Fail(id: nat)
    | TakeTurn(node: NodeId, n: nat)
    | Schedule(node: NodeId)
    | TakeDirect(node: NodeId, pick: Pick, n: nat)
    | Write(node: NodeId)
    | NewTurn(node: NodeId)
    | Charge(node: NodeId, cost: Chars)
    | Saw(node: NodeId, about: NodeId)
    | FinishTurn(node: NodeId)
    | CloseBox(node: NodeId)
    | ReportDropped(node: NodeId)
    | CloseWork(node: NodeId)
    | End(node: NodeId)

  predicate Kin(st: State, a: NodeId, b: NodeId)
    requires a < |st.agents| && b < |st.agents|
  {
    && a != b
    && (st.agents[a].parent == Some(b) || st.agents[b].parent == Some(a)
        || (st.agents[a].parent.Some? && st.agents[a].parent == st.agents[b].parent))
  }

  predicate WorkOpen(a: Agent) {
    a.phase.Running? || a.phase.Closed?
  }

  /** A staged notice is carried by its node's record chain, so it moves only when the chain has come to it. */
  predicate IsUp(st: State, id: nat)
    requires id < |st.msgs|
  {
    var m := st.msgs[id];
    m.kind.Staged? ==>
      && m.env.to < |st.agents|
      && var a := st.agents[m.env.to]; a.written < |a.records| && a.records[a.written] == Entry(id)
  }

  /** Every task that the node's shutdown joins is done: its sends, its records, and its children's whole tasks. */
  predicate TasksDone(st: State, n: NodeId)
    requires n < |st.agents|
  {
    && st.agents[n].written == |st.agents[n].records|
    && (forall i :: 0 <= i < |st.msgs| && st.msgs[i].kind.Plain? && st.msgs[i].env.from == n ==> st.msgs[i].Done())
    && (forall i :: 0 <= i < |st.msgs| && st.msgs[i].kind.Posted? && st.msgs[i].env.to == n ==> st.msgs[i].Done())
    && (forall c :: 0 <= c < |st.agents| && st.agents[c].parent == Some(n) ==>
          st.agents[c].phase.Ended? && (st.agents[c].owned ==> st.agents[c].posted))
  }

  predicate Enabled(st: State, op: Op, limits: Limits) {
    match op
    case Spawn(p, owned) => p < |st.agents| && WorkOpen(st.agents[p])
    case Send(s, to, size) =>
      && s < |st.agents| && to < |st.agents| && WorkOpen(st.agents[s]) && Kin(st, s, to)
      && var b := st.agents[to].box; !b.closed && b.plain + b.reserved < limits.capacity
    case Post(c, size) =>
      && c < |st.agents| && st.agents[c].phase.Ended? && st.agents[c].owned && !st.agents[c].posted
      && st.agents[c].parent.Some? && st.agents[c].parent.value < |st.agents|
    case Stage(n, about, size) =>
      && n < |st.agents| && about < |st.agents| && WorkOpen(st.agents[n]) && st.agents[about].phase.Ended?
      && var b := st.agents[n].box; !b.closed && about !in b.awaiting && about !in b.concluded
    case Announce(id) =>
      && id < |st.msgs| && st.msgs[id].progress.Waiting? && IsUp(st, id)
      && var p := st.msgs[id].prev; p.Some? ==> p.value < |st.msgs| && st.msgs[p.value].Done()
    case Push(id) =>
      && id < |st.msgs| && (st.msgs[id].progress.Announced? || st.msgs[id].progress.Skipped?) && IsUp(st, id)
      && st.msgs[id].env.to < |st.agents|
    case Fail(id) =>
      id < |st.msgs| && st.msgs[id].progress.Refused? && IsUp(st, id) && st.msgs[id].env.to < |st.agents|
    case TakeTurn(n, k) =>
      && n < |st.agents| && st.agents[n].phase.Running? && st.agents[n].hand.None?
      && k > 0 && IsDelivery(st.agents[n].box.queue, k, st.agents[n].box.turn, limits.budget)
    case Schedule(n) => n < |st.agents| && st.agents[n].hand.Some?
    case TakeDirect(n, pick, k) =>
      && n < |st.agents| && WorkOpen(st.agents[n])
      && k > 0 && IsDelivery(Picked(st.agents[n].box.queue, pick), k, st.agents[n].box.turn, limits.budget)
    case Write(n) =>
      && n < |st.agents|
      && var a := st.agents[n]; a.written < |a.records| && a.records[a.written].Delivery?
    case NewTurn(n) => n < |st.agents|
    case Saw(n, about) => n < |st.agents|
    case Charge(n, cost) =>
      n < |st.agents| && var b := st.agents[n].box; b.turn == 0 || b.turn + cost <= limits.budget
    case FinishTurn(n) =>
      && n < |st.agents| && st.agents[n].phase.Running?
      && var b := st.agents[n].box; b.queue == [] && b.awaiting == {} && b.reserved == 0
    case CloseBox(n) => n < |st.agents| && st.agents[n].phase.Running? && st.agents[n].hand.None?
    case ReportDropped(n) =>
      n < |st.agents| && st.agents[n].phase.Closed? && st.agents[n].reported < |st.agents[n].h.dropped|
    case CloseWork(n) =>
      n < |st.agents| && st.agents[n].phase.Closed? && st.agents[n].reported == |st.agents[n].h.dropped|
    case End(n) => n < |st.agents| && st.agents[n].phase.Joining? && TasksDone(st, n)
  }

  /** A new message of a task, and the chain of sends it joins. */
  function NewMsg(st: State, from: NodeId, to: NodeId, kind: Kind, size: Chars, progress: Progress, prev: Option<nat>): Msg {
    Msg(Envelope(|st.msgs|, from, to, kind.Plain?, size), kind, progress, false, prev)
  }

  function SetAgent(st: State, n: NodeId, a: Agent): State
    requires n < |st.agents|
  {
    st.(agents := st.agents[n := a])
  }

  function SetMsg(st: State, id: nat, m: Msg): State
    requires id < |st.msgs|
  {
    st.(msgs := st.msgs[id := m])
  }

  /** The record chain goes on once a staged notice is queued or recorded as undelivered. */
  function Settled(a: Agent, m: Msg): Agent {
    if m.kind.Staged? && m.Done() then a.(written := a.written + 1) else a
  }

  function TakenBy(a: Agent, pick: Pick, n: nat): (Agent, seq<Envelope>)
    requires n <= |Picked(a.box.queue, pick)|
  {
    var taken := Picked(a.box.queue, pick)[..n];
    (a.(box := TakenBox(a.box, pick, n), h := TakenHistory(a.h, taken)), taken)
  }

  function Closing(a: Agent): Agent {
    a.(phase := Phase.Closed, box := a.box.(closed := true, plain := 0, queue := []),
       h := a.h.(dropped := a.h.dropped + a.box.queue))
  }

  function Step(st: State, op: Op, limits: Limits): State
    requires Enabled(st, op, limits)
  {
    match op
    case Spawn(p, owned) =>
      var child, a := |st.agents|, st.agents[p];
      var awaiting := if owned then a.box.awaiting + {child} else a.box.awaiting;
      st.(agents := st.agents[p := a.(box := a.box.(awaiting := awaiting))] + [NewAgent(Some(p), owned)])
    case Send(s, to, size) =>
      var m := NewMsg(st, s, to, Plain, size, Waiting, st.agents[s].lastSent);
      var reserved := SetAgent(st, to, st.agents[to].(box := st.agents[to].box.(reserved := st.agents[to].box.reserved + 1)));
      SetAgent(reserved, s, reserved.agents[s].(lastSent := Some(|st.msgs|))).(msgs := st.msgs + [m])
    case Post(c, size) =>
      var p := st.agents[c].parent.value;
      var m := NewMsg(st, c, p, Posted, size, if st.agents[p].box.closed then Skipped else Waiting, None);
      SetAgent(st, c, st.agents[c].(posted := true)).(msgs := st.msgs + [m])
    case Stage(n, about, size) =>
      var a := st.agents[n];
      var m := NewMsg(st, about, n, Staged, size, Waiting, None);
      SetAgent(st, n, a.(box := a.box.(awaiting := a.box.awaiting + {about}, concluded := a.box.concluded + {about}),
                         records := a.records + [Entry(|st.msgs|)])).(msgs := st.msgs + [m])
    case Announce(id) =>
      SetMsg(st, id, st.msgs[id].(progress := Announced, sent := true)).(log := st.log + [Sent(id)])
    case Push(id) =>
      var m, a := st.msgs[id], st.agents[st.msgs[id].env.to];
      var pushed := m.(progress := if a.box.closed then Refused else Queued);
      SetMsg(SetAgent(st, m.env.to, Settled(a.(box := Pushed(a.box, m.env), h := PushNoted(a.box, a.h, m.env)), pushed)),
             id, pushed)
    case Fail(id) =>
      var m := st.msgs[id].(progress := Failed);
      SetMsg(SetAgent(st, m.env.to, Settled(st.agents[m.env.to], m)), id, m).(log := st.log + [Undelivered(id)])
    case TakeTurn(n, k) =>
      EverythingPicked(st.agents[n].box.queue);
      var (a, taken) := TakenBy(st.agents[n], Everything, k);
      SetAgent(st, n, a.(hand := Some(taken)))
    case Schedule(n) =>
      var a := st.agents[n];
      SetAgent(st, n, a.(hand := None, records := a.records + [Delivery(a.hand.value)]))
    case TakeDirect(n, pick, k) =>
      var (a, taken) := TakenBy(st.agents[n], pick, k);
      SetAgent(st, n, a.(records := a.records + [Delivery(taken)]))
    case Write(n) =>
      var a := st.agents[n];
      SetAgent(st, n, a.(written := a.written + 1)).(log := st.log + Notes(a.records[a.written].batch))
    case NewTurn(n) =>
      var a := st.agents[n];
      SetAgent(st, n, a.(box := a.box.(turn := 0), h := a.h.(charges := [])))
    case Charge(n, cost) =>
      var a := st.agents[n];
      SetAgent(st, n, a.(box := a.box.(turn := a.box.turn + cost), h := a.h.(charges := a.h.charges + [cost])))
    case Saw(n, about) =>
      var a := st.agents[n];
      SetAgent(st, n, a.(box := a.box.(seen := a.box.seen + {about})))
    case FinishTurn(n) =>
      var a := st.agents[n];
      SetAgent(st, n, a.(box := a.box.(closed := true)))
    case CloseBox(n) => SetAgent(st, n, Closing(st.agents[n]))
    case ReportDropped(n) =>
      var a := st.agents[n];
      SetAgent(st, n, a.(reported := a.reported + 1)).(log := st.log + [Undelivered(a.h.dropped[a.reported].id)])
    case CloseWork(n) => SetAgent(st, n, st.agents[n].(phase := Joining))
    case End(n) => SetAgent(st, n, st.agents[n].(phase := Ended))
  }

  /** The states a run of steps goes through. */
  ghost predicate Run(states: seq<State>, ops: seq<Op>, limits: Limits) {
    && |states| == |ops| + 1 && states[0] == Init()
    && forall i :: 0 <= i < |ops| ==> Enabled(states[i], ops[i], limits) && states[i + 1] == Step(states[i], ops[i], limits)
  }
}
