/**
 The node lifecycle as a state machine. Every step is what some task does between two waits,
 or under a node's work lock, so a run of the runtime is an arbitrary interleaving of steps.
 */
module Lifecycle {
  import opened Common
  import L = LedgerSpec
  import opened LedgerInvariant

  type NodeId = L.NodeId

  /**
   Running: the agent loop or the leaf call is active. Closing: it has returned and the mailbox
   is closed. Joining: admission is closed and the owned tasks are being joined. Ended: the
   node_end record is written. Released: the slot is released. Finished: the owned task is done.
   */
  datatype Phase = Running | Closing | Joining | Ended | Released | Finished {
    function Rank(): nat {
      match this
      case Running => 0
      case Closing => 1
      case Joining => 2
      case Ended => 3
      case Released => 4
      case Finished => 5
    }
  }

  /** An unsettled reservation and whether its request went out; dropping it settles it. */
  datatype Guard = Guard(id: L.AttemptId, dispatched: bool) {
    function DropCharge(): L.Charge {
      L.Failed(if dispatched then L.Reserved else L.Zero)
    }
  }

  /** What a spawn asks to be admitted: an agent with its own budget limit, if any, or a leaf call. */
  datatype Request = Request(agent: bool, limit: Option<nat>)

  /** `spawning`: a spawn or leaf call holds the node's work lock, past its check that the node is open. */
  datatype Node = Node(leaf: bool, cancelled: bool, closed: bool, spawning: Option<Request>, tasks: set<NodeId>,
                       joining: set<NodeId>, phase: Phase, guard: Option<Guard>)

  datatype Event = NodeEnd(node: NodeId, own: L.Usage, subtree: L.Usage) | SlotReleased(node: NodeId)

  datatype State = State(ledger: L.State, nodes: seq<Node>, log: seq<Event>) {
    ghost function Tree(): L.Tree {
      L.TreeOf(ledger.scopes)
    }
  }

  datatype Op =
    | BeginSpawn(node: NodeId, request: Request)
    | Abandon(node: NodeId)
    | Spawn(parent: NodeId, agent: bool, limit: Option<nat>)
    | Cancel(node: NodeId)
    | Attempt(node: NodeId, prompt: nat, requested: nat)
    | Dispatch(node: NodeId)
    | Settle(node: NodeId, charge: L.Charge)
    | Return(node: NodeId)
    | CloseWork(node: NodeId)
    | Reap(node: NodeId, child: NodeId)
    | Join(node: NodeId, child: NodeId)
    | End(node: NodeId)
    | Release(node: NodeId)
    | Finish(node: NodeId)

  function NewNode(leaf: bool, cancelled: bool): Node {
    Node(leaf, cancelled, false, None, {}, {}, Running, None)
  }

  ghost function Init(limits: L.Limits): State {
    State(L.Init(limits), [NewNode(false, false)], [])
  }

  // ----- steps -----

  /** Cancelling a token reaches every node below it at once. */
  ghost function CancelBelow(st: State, node: NodeId): (nodes: seq<Node>)
    ensures |nodes| == |st.nodes|
    ensures forall n :: 0 <= n < |nodes| ==>
      nodes[n] == if L.Covers(st.Tree(), node, n) then st.nodes[n].(cancelled := true) else st.nodes[n]
  {
    seq(|st.nodes|, n requires 0 <= n < |st.nodes| =>
      if L.Covers(st.Tree(), node, n) then st.nodes[n].(cancelled := true) else st.nodes[n])
  }

  ghost function SetSpawning(st: State, node: NodeId, spawning: Option<Request>): State
    requires node < |st.nodes|
  {
    st.(nodes := st.nodes[node := st.nodes[node].(spawning := spawning)])
  }

  /**
   The second half of a spawn: the admission and taking ownership, under the work lock it has held since its check.
   The child's token descends from its parent's, which may have been cancelled in between.
   */
  ghost function DoSpawn(st: State, parent: NodeId, agent: bool, limit: Option<nat>): State
    requires parent < |st.nodes|
  {
    var (ledger, r) := L.Admit(st.ledger, parent, agent, limit);
    if r.Err? then SetSpawning(st, parent, None)
    else
      var p := st.nodes[parent];
      State(ledger,
            st.nodes[parent := p.(spawning := None, tasks := p.tasks + {r.value})] + [NewNode(!agent, p.cancelled)],
            st.log)
  }

  ghost function DoAttempt(st: State, node: NodeId, prompt: nat, requested: nat): State
    requires node < |st.nodes|
  {
    var (ledger, r) := L.Reserve(st.ledger, node, prompt, requested);
    if r.Err? then st
    else st.(ledger := ledger, nodes := st.nodes[node := st.nodes[node].(guard := Some(Guard(r.value.id, false)))])
  }

  ghost predicate HasGuard(st: State, node: NodeId) {
    && node < |st.nodes| && st.nodes[node].guard.Some?
    && st.nodes[node].guard.value.id in st.ledger.attempts
    && st.ledger.attempts[st.nodes[node].guard.value.id].node < |st.ledger.scopes|
  }

  /** The guard settles: by its owner with the measured charge, or on being dropped. */
  ghost function DoSettle(st: State, node: NodeId, charge: L.Charge): State
    requires HasGuard(st, node)
  {
    st.(ledger := L.Settle(st.ledger, st.nodes[node].guard.value.id, charge),
        nodes := st.nodes[node := st.nodes[node].(guard := None)])
  }

  ghost function SetPhase(st: State, node: NodeId, phase: Phase): State
    requires node < |st.nodes|
  {
    st.(nodes := st.nodes[node := st.nodes[node].(phase := phase)])
  }

  /** The agent loop or leaf call ends, on any path, unwinding included; a guard it still held is dropped. */
  ghost function DoReturn(st: State, node: NodeId): State
    requires node < |st.nodes|
  {
    var dropped := if HasGuard(st, node) then DoSettle(st, node, st.nodes[node].guard.value.DropCharge()) else st;
    SetPhase(dropped, node, Closing)
  }

  /** Under the work lock: refuse new work, close admission, cancel the subtree, take the tasks to join. */
  ghost function DoCloseWork(st: State, node: NodeId): State
    requires node < |st.nodes| == |st.ledger.scopes|
  {
    var nodes := CancelBelow(st, node);
    State(L.CloseAdmission(st.ledger, node),
          nodes[node := nodes[node].(cancelled := true, closed := true, tasks := {},
                                     joining := nodes[node].tasks, phase := Joining)],
          st.log)
  }

  ghost function DoEnd(st: State, node: NodeId): State
    requires node < |st.nodes| == |st.ledger.scopes|
  {
    var scope := st.ledger.scopes[node];
    SetPhase(st, node, Ended).(log := st.log + [NodeEnd(node, scope.own, scope.usage)])
  }

  ghost function DoRelease(st: State, node: NodeId): State
    requires node < |st.nodes| == |st.ledger.scopes|
  {
    SetPhase(st, node, Released).(ledger := L.Shutdown(st.ledger, node), log := st.log + [SlotReleased(node)])
  }

  ghost predicate InPhase(st: State, node: NodeId, phase: Phase) {
    node < |st.nodes| && st.nodes[node].phase == phase
  }

  /**
   When a step can be taken. A spawn checks that its node is open and admits in two steps under the node's work lock, so
   any ancestor may be closed in between. An attempt too is told to stop at any moment, so that neither its reservation
   nor its dispatch can rely on the tests made before them.
   */
  ghost predicate Enabled(st: State, op: Op) {
    match op
    case BeginSpawn(node, request) =>
      && node < |st.nodes| && !st.nodes[node].leaf && st.nodes[node].spawning.None?
      && !st.nodes[node].closed && !st.nodes[node].cancelled
      && (request.limit.Some? ==> request.agent)
    case Abandon(node) => node < |st.nodes| && st.nodes[node].spawning.Some?
    case Spawn(parent, agent, limit) => parent < |st.nodes| && st.nodes[parent].spawning == Some(Request(agent, limit))
    case Cancel(node) => node < |st.nodes|
    case Attempt(node, prompt, requested) => InPhase(st, node, Running) && st.nodes[node].guard.None?
    case Dispatch(node) => HasGuard(st, node)
    case Settle(node, charge) => HasGuard(st, node)
    case Return(node) => InPhase(st, node, Running)
    case CloseWork(node) => InPhase(st, node, Closing) && st.nodes[node].spawning.None?
    case Reap(node, child) => node < |st.nodes| && child in st.nodes[node].tasks && InPhase(st, child, Finished)
    case Join(node, child) => InPhase(st, node, Joining) && child in st.nodes[node].joining && InPhase(st, child, Finished)
    case End(node) => InPhase(st, node, Joining) && st.nodes[node].joining == {}
    case Release(node) => InPhase(st, node, Ended)
    case Finish(node) => InPhase(st, node, Released)
  }

  ghost function Next(st: State, op: Op): State
    requires |st.nodes| == |st.ledger.scopes| && Enabled(st, op)
  {
    match op
    case BeginSpawn(node, request) => SetSpawning(st, node, Some(request))
    case Abandon(node) => SetSpawning(st, node, None)
    case Spawn(parent, agent, limit) => DoSpawn(st, parent, agent, limit)
    case Cancel(node) => st.(nodes := CancelBelow(st, node))
    case Attempt(node, prompt, requested) => DoAttempt(st, node, prompt, requested)
    case Dispatch(node) =>
      st.(nodes := st.nodes[node := st.nodes[node].(guard := Some(Guard(st.nodes[node].guard.value.id, true)))])
    case Settle(node, charge) => DoSettle(st, node, charge)
    case Return(node) => DoReturn(st, node)
    case CloseWork(node) => DoCloseWork(st, node)
    case Reap(node, child) =>
      st.(nodes := st.nodes[node := st.nodes[node].(tasks := st.nodes[node].tasks - {child})])
    case Join(node, child) =>
      st.(nodes := st.nodes[node := st.nodes[node].(joining := st.nodes[node].joining - {child})])
    case End(node) => DoEnd(st, node)
    case Release(node) => DoRelease(st, node)
    case Finish(node) => SetPhase(st, node, Finished)
  }

  // ----- the invariant of every reachable state -----

  ghost function DepthBelow(st: State, parent: Option<NodeId>): nat {
    if parent.Some? && parent.value < |st.ledger.scopes| then st.ledger.scopes[parent.value].depth else 0
  }

  ghost predicate NodeOk(st: State, n: NodeId)
    requires n < |st.nodes| == |st.ledger.scopes|
  {
    var node := st.nodes[n];
    var scope := st.ledger.scopes[n];
    && (scope.alive <==> node.phase.Rank() < Released.Rank())
    && (node.closed <==> node.phase.Rank() >= Joining.Rank())
    && (node.closed ==> node.cancelled && scope.admissionClosed)
    && (node.closed ==> node.tasks == {} && node.spawning.None?)
    && (scope.admissionClosed ==> node.cancelled && node.spawning.None?)
    && (node.spawning.Some? ==> !node.leaf)
    && (node.joining != {} ==> node.phase == Joining)
    && (forall c :: c in node.tasks + node.joining ==> c < |st.nodes| && st.ledger.scopes[c].parent == Some(n))
    && (node.guard.Some? ==>
          && node.phase == Running
          && node.guard.value.id in st.ledger.attempts
          && st.ledger.attempts[node.guard.value.id].node == n)
    && scope.agent == !node.leaf
    && scope.depth == DepthBelow(st, scope.parent) + (if scope.agent && scope.parent.Some? then 1 else 0)
  }

  /** A node is finished or its parent still owns its task; cancellation reaches down. */
  ghost predicate ChildOk(st: State, c: NodeId)
    requires c < |st.nodes| == |st.ledger.scopes|
  {
    var parent := st.ledger.scopes[c].parent;
    parent.Some? && parent.value < |st.nodes| ==>
      && !st.nodes[parent.value].leaf
      && (st.nodes[c].phase == Finished || c in st.nodes[parent.value].tasks || c in st.nodes[parent.value].joining)
      && (st.nodes[parent.value].cancelled ==> st.nodes[c].cancelled)
  }

  /** Every unsettled attempt belongs to a guard. */
  ghost predicate GuardOk(st: State, a: L.AttemptId)
    requires a in st.ledger.attempts
  {
    var n := st.ledger.attempts[a].node;
    n < |st.nodes| && st.nodes[n].guard.Some? && st.nodes[n].guard.value.id == a
  }

  ghost predicate HasEnded(log: seq<Event>, n: NodeId) {
    exists i :: 0 <= i < |log| && log[i].NodeEnd? && log[i].node == n
  }

  /** One record of the log: written once, in its node's phase, and after all it depends on. */
  ghost predicate EventOk(st: State, i: nat)
    requires i < |st.log| && |st.nodes| == |st.ledger.scopes|
  {
    match st.log[i]
    case NodeEnd(n, own, subtree) =>
      && n < |st.nodes| && st.nodes[n].phase.Rank() >= Ended.Rank()
      && own == st.ledger.scopes[n].own && subtree == st.ledger.scopes[n].usage
      && (forall c :: 0 <= c < |st.nodes| && st.ledger.scopes[c].parent == Some(n) ==> SlotReleased(c) in st.log[..i])
      && !HasEnded(st.log[..i], n)
    case SlotReleased(n) =>
      && n < |st.nodes| && st.nodes[n].phase.Rank() >= Released.Rank()
      && HasEnded(st.log[..i], n)
      && SlotReleased(n) !in st.log[..i]
  }

  ghost predicate Logged(st: State, n: NodeId)
    requires n < |st.nodes|
  {
    && (st.nodes[n].phase.Rank() >= Ended.Rank() ==> HasEnded(st.log, n))
    && (st.nodes[n].phase.Rank() >= Released.Rank() ==> SlotReleased(n) in st.log)
  }

  ghost predicate Inv(st: State) {
    && L.Inv(st.ledger)
    && |st.nodes| == |st.ledger.scopes|
    && (forall n :: 0 <= n < |st.nodes| ==> NodeOk(st, n))
    && (forall c :: 0 <= c < |st.nodes| ==> ChildOk(st, c))
    && (forall a :: a in st.ledger.attempts ==> GuardOk(st, a))
    && (forall i :: 0 <= i < |st.log| ==> EventOk(st, i))
    && (forall n :: 0 <= n < |st.nodes| ==> Logged(st, n))
  }
}
