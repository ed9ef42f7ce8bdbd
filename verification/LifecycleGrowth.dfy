/**
 What a node's closing stops. It cancels everything below, but a spawn below that is past its check still admits a node.
 When the subtree of a closed node can still grow, and by how much.
 */
module LifecycleGrowth {
  import opened Common
  import L = LedgerSpec
  import opened LedgerInvariant
  import opened Lifecycle
  import opened LifecycleInvariant
  import opened LifecycleRuns

  ghost function Below(st: State, n: NodeId): set<NodeId> {
    set m | 0 <= m < |st.ledger.scopes| && L.Covers(st.Tree(), n, m)
  }

  /** The nodes below `n` at which a spawn is past its check. */
  ghost function Spawners(st: State, n: NodeId): set<NodeId> {
    set m | 0 <= m < |st.nodes| && st.nodes[m].spawning.Some? && L.Covers(st.Tree(), n, m)
  }

  ghost predicate IsClosed(st: State, n: NodeId) {
    n < |st.nodes| && st.nodes[n].closed
  }

  // ----- one step -----

  lemma {:induction false} CancelReachesDown(st: State, n: NodeId, m: NodeId)
    requires Inv(st) && n < |st.nodes| && st.nodes[n].cancelled && L.Covers(st.Tree(), n, m)
    ensures m < |st.nodes| && st.nodes[m].cancelled
    decreases m
  {
    if m != n {
      CancelReachesDown(st, n, st.Tree()[m].value);
      assert ChildOk(st, m);
    }
  }

  /** Everything at or below a closed node is cancelled, so no spawn begins there. */
  lemma ClosedIsCancelled(st: State, n: NodeId, m: NodeId)
    requires Inv(st) && IsClosed(st, n) && L.Covers(st.Tree(), n, m)
    ensures m < |st.nodes| && st.nodes[m].cancelled
  {
    assert NodeOk(st, n);
    CancelReachesDown(st, n, m);
  }

  /** The admission a step makes, if any. */
  ghost predicate Admits(st: State, op: Op) {
    op.Spawn? && Enabled(st, op) && L.Admit(st.ledger, op.parent, op.agent, op.limit).1.Ok?
  }

  lemma AdmittedTree(st: State, op: Op)
    requires Inv(st) && Admits(st, op)
    ensures var next := Step(st, op);
            && next.Tree() == st.Tree() + [Some(op.parent)]
            && |next.nodes| == |st.nodes| + 1 == |st.ledger.scopes| + 1
            && next.nodes[|st.nodes|].cancelled == st.nodes[op.parent].cancelled
            && next.nodes[|st.nodes|].spawning.None?
            && forall m :: 0 <= m < |st.nodes| ==>
                 next.nodes[m].spawning == if m == op.parent then None else st.nodes[m].spawning
  {
    hide L.Inv, NodeOk, ChildOk, GuardOk, EventOk, Logged;
  }

  lemma UnadmittedTree(st: State, op: Op)
    requires Inv(st) && !Admits(st, op)
    ensures Step(st, op).Tree() == st.Tree() && |Step(st, op).nodes| == |st.nodes|
  {
    hide NodeOk, ChildOk, GuardOk, EventOk, Logged;
    if op.Spawn? {
      hide L.Inv;
    } else {
      OtherTree(st, op);
    }
  }

  /** A step other than an admission lets no spawn begin at a cancelled node. */
  lemma UnadmittedSpawning(st: State, op: Op, m: NodeId)
    requires Inv(st) && !Admits(st, op) && m < |st.nodes| && st.nodes[m].cancelled
    requires m < |Step(st, op).nodes| && Step(st, op).nodes[m].spawning.Some?
    ensures Step(st, op).nodes[m].spawning == st.nodes[m].spawning
  {
    hide L.Inv, L.Reserve, L.Settle, NodeOk, ChildOk, GuardOk, EventOk, Logged;
  }

  lemma AdmittedCovers(st: State, op: Op, n: NodeId, m: NodeId)
    requires Inv(st) && Admits(st, op) && n < |st.nodes|
    ensures L.Covers(Step(st, op).Tree(), n, m)
       <==> if m == |st.nodes| then L.Covers(st.Tree(), n, op.parent) else L.Covers(st.Tree(), n, m)
  {
    AdmittedTree(st, op);
    var tree, next := st.Tree(), Step(st, op).Tree();
    assert |tree| == |st.nodes| && op.parent < |tree|;
    hide Step, Inv, Admits;
    assert next == tree + [Some(op.parent)];
    if m < |tree| {
      L.CoversExtend(tree, Some(op.parent), n, m);
    }
    L.CoversExtend(tree, Some(op.parent), n, op.parent);
    assert next[|tree|] == Some(op.parent);
  }

  lemma AdmissionBelow(st: State, op: Op, n: NodeId)
    requires Inv(st) && n < |st.nodes| && Admits(st, op)
    ensures var next := Step(st, op);
            && Below(next, n) == Below(st, n) + (if L.Covers(st.Tree(), n, op.parent) then {|st.nodes|} else {})
            && Spawners(next, n) == Spawners(st, n) - {op.parent}
  {
    AdmittedTree(st, op);
    SameSize(st);
    var next := Step(st, op);
    SameSize(next);
    hide Step, Inv, Admits, L.Covers;
    forall m: NodeId
      ensures L.Covers(next.Tree(), n, m)
         <==> if m == |st.nodes| then L.Covers(st.Tree(), n, op.parent) else L.Covers(st.Tree(), n, m)
    {
      AdmittedCovers(st, op, n, m);
    }
  }

  /**
   A step adds a node below a closed node exactly when it is the admission of a spawn that was past its check at a node
   further down. The new node is cancelled from the start.
   */
  lemma StepGrows(st: State, op: Op, n: NodeId)
    requires Inv(st) && IsClosed(st, n)
    ensures var next := Step(st, op);
            && IsClosed(next, n)
            && (Below(next, n) != Below(st, n) <==> Admits(st, op) && op.parent in Spawners(st, n))
            && Below(st, n) <= Below(next, n)
            && (Below(next, n) != Below(st, n) ==>
                  && op.parent != n
                  && Below(next, n) == Below(st, n) + {|st.nodes|}
                  && next.nodes[|st.nodes|].cancelled
                  && Spawners(next, n) == Spawners(st, n) - {op.parent})
            && Spawners(next, n) <= Spawners(st, n)
            && (forall m :: m in Spawners(next, n) ==> next.nodes[m].spawning == st.nodes[m].spawning)
  {
    var next := Step(st, op);
    StepKeepsClosed(st, op, n);
    assert NodeOk(st, n) && |st.nodes| == |st.ledger.scopes|;
    if Admits(st, op) {
      AdmissionBelow(st, op, n);
      AdmittedTree(st, op);
      if L.Covers(st.Tree(), n, op.parent) {
        ClosedIsCancelled(st, n, op.parent);
      }
      hide Step, Inv;
      assert |st.nodes| !in Below(st, n);
    } else {
      UnadmittedTree(st, op);
      forall m | m in Spawners(next, n)
        ensures m in Spawners(st, n) && next.nodes[m].spawning == st.nodes[m].spawning
      {
        ClosedIsCancelled(st, n, m);
        UnadmittedSpawning(st, op, m);
      }
    }
  }

  // ----- a whole run -----

  lemma {:induction false} GrowthOfRun(st: State, ops: seq<Op>, n: NodeId)
    requires Inv(st) && IsClosed(st, n)
    ensures var end := Run(st, ops);
            && IsClosed(end, n) && Below(st, n) <= Below(end, n) && Spawners(end, n) <= Spawners(st, n)
            && |Below(end, n)| + |Spawners(end, n)| <= |Below(st, n)| + |Spawners(st, n)|
    decreases |ops|
  {
    if ops != [] {
      var next := Step(st, ops[0]);
      StepGrows(st, ops[0], n);
      GrowthOfRun(next, ops[1..], n);
      hide Step, Inv, Below, Spawners, Admits;
      if Below(next, n) == Below(st, n) {
        SubsetSize(Spawners(next, n), Spawners(st, n));
      }
    }
  }

  lemma BelowIsCancelled(st: State, n: NodeId)
    requires Inv(st) && IsClosed(st, n)
    ensures forall m :: m in Below(st, n) ==> m < |st.nodes| && st.nodes[m].cancelled
  {
    hide Inv;
    forall m | m in Below(st, n) ensures m < |st.nodes| && st.nodes[m].cancelled {
      ClosedIsCancelled(st, n, m);
    }
  }

  /**
   After a node's work is closed its subtree gains, over any run, at most one node for each spawn below it that was past
   its check then, and whatever it holds is cancelled. With no such spawn it never changes again.
   */
  lemma ClosedSubtreeIsBounded(st: State, ops: seq<Op>, n: NodeId)
    requires Inv(st) && IsClosed(st, n)
    ensures var end := Run(st, ops);
            && Below(st, n) <= Below(end, n)
            && |Below(end, n) - Below(st, n)| <= |Spawners(st, n)|
            && (forall m :: m in Below(end, n) ==> m < |end.nodes| && end.nodes[m].cancelled)
            && (Spawners(st, n) == {} ==> Below(end, n) == Below(st, n))
  {
    hide Run, Inv, Below, Spawners, IsClosed;
    var end := Run(st, ops);
    GrowthOfRun(st, ops, n);
    BelowIsCancelled(end, n);
    var added := Below(end, n) - Below(st, n);
    assert Below(end, n) == Below(st, n) + added;
  }

  /** A node that has closed its own work never gains another child. */
  lemma ClosedHasNoNewChild(st: State, op: Op, n: NodeId, c: NodeId)
    requires Inv(st) && IsClosed(st, n)
    requires var next := Step(st, op); c < |next.ledger.scopes| && next.ledger.scopes[c].parent == Some(n)
    ensures c < |st.ledger.scopes| && st.ledger.scopes[c].parent == Some(n)
  {
    var next := Step(st, op);
    assert NodeOk(st, n) && next.Tree()[c] == Some(n);
    if Admits(st, op) {
      AdmittedTree(st, op);
    } else {
      UnadmittedTree(st, op);
    }
    hide Step, Inv;
    assert c < |st.Tree()| && st.Tree()[c] == Some(n);
  }

  // ----- when it can still grow -----

  /**
   Room for what is asked for at `d`, a leaf call as long as calls are left, an agent once every reservation is settled
   and every agent off its path has ended.
   */
  ghost predicate HasRoom(ledger: L.State, d: NodeId, request: Request) {
    && d < |ledger.scopes| < L.NODE_IDS
    && request.limit != Some(0)
    && (forall s :: 0 <= s < |ledger.scopes| && L.Covers(L.TreeOf(ledger.scopes), s, d) ==>
          !ledger.scopes[s].budget.closed && ledger.scopes[s].budget.used < ledger.scopes[s].budget.limit)
    && (if request.agent then HasAgentRoom(ledger, ledger.scopes[d].depth + 1)
        else ledger.llm < ledger.limits.maxLlmCalls)
  }

  predicate HasAgentRoom(ledger: L.State, depth: nat) {
    && depth <= ledger.limits.maxDepth
    && depth < ledger.limits.maxAgentsLive
    && ledger.total < ledger.limits.maxAgentsTotal
  }

  /** A node that still spawns can be admitted to, and its parent is an agent that is alive as well. */
  lemma AliveParent(st: State, d: NodeId)
    requires Inv(st) && 0 < d < |st.nodes| && st.ledger.scopes[d].alive
    ensures var p := st.Tree()[d];
            && p.Some? && p.value < d && !st.nodes[p.value].leaf && st.ledger.scopes[p.value].alive
  {
    var p := st.Tree()[d].value;
    assert NodeOk(st, d) && NodeOk(st, p) && ChildOk(st, d);
  }

  /** The agents on the path of a live agent, itself included, are live. */
  lemma {:induction false} PathIsLive(st: State, d: NodeId)
    requires Inv(st) && d < |st.nodes| && !st.nodes[d].leaf && st.ledger.scopes[d].alive
    ensures st.ledger.scopes[d].depth + 1 <= L.Sum(d + 1, L.LiveAgents(st.ledger.scopes))
  {
    assert NodeOk(st, d);
    if d > 0 {
      AliveParent(st, d);
      var p := st.Tree()[d].value;
      PathIsLive(st, p);
      SumGrows(p + 1, d, L.LiveAgents(st.ledger.scopes));
    } else {
      assert st.Tree()[0].None?;
    }
  }

  /** When nothing else is live, they are all that is. */
  lemma {:induction false} OnlyPathIsLive(st: State, d: NodeId)
    requires Inv(st) && d < |st.nodes| && !st.nodes[d].leaf && st.ledger.scopes[d].alive
    requires forall m :: 0 <= m <= d && !L.Covers(st.Tree(), m, d) ==> !st.ledger.scopes[m].alive
    ensures L.Sum(d + 1, L.LiveAgents(st.ledger.scopes)) <= st.ledger.scopes[d].depth + 1
  {
    var w := L.LiveAgents(st.ledger.scopes);
    assert NodeOk(st, d);
    if d > 0 {
      AliveParent(st, d);
      var p := st.Tree()[d].value;
      OnlyPathIsLive(st, p);
      forall m | p < m < d ensures !st.ledger.scopes[m].alive {
        if L.Covers(st.Tree(), m, d) {
          L.CoversBounds(st.Tree(), m, p);
        }
      }
      SumSame(p + 1, d, w);
    } else {
      assert L.Sum(0, w) == 0;
    }
  }

  /** A live agent leaves room for one more only beyond the agents on its path. */
  lemma PathWithinLive(st: State, d: NodeId)
    requires Inv(st) && d < |st.nodes| && !st.nodes[d].leaf && st.ledger.scopes[d].alive
    ensures st.ledger.scopes[d].depth + 1 <= st.ledger.live
  {
    assert st.ledger.live == L.Sum(|st.ledger.scopes|, L.LiveAgents(st.ledger.scopes));
    PathIsLive(st, d);
    hide Inv;
    SumGrows(d + 1, |st.ledger.scopes|, L.LiveAgents(st.ledger.scopes));
  }

  lemma AdmissionHasRoom(st: State, op: Op)
    requires Inv(st) && Admits(st, op)
    ensures HasRoom(st.ledger, op.parent, Request(op.agent, op.limit))
  {
    var ledger, d := st.ledger, op.parent;
    SpawningIsOpen(st, d);
    PathWithinLive(st, d);
    hide Inv;
    forall s | 0 <= s < |ledger.scopes| && L.Covers(L.TreeOf(ledger.scopes), s, d)
      ensures ledger.scopes[s].budget.Remaining() >= 1
    {
    }
  }

  /** What a ledger step never gives back. */
  ghost predicate Later(ledger: L.State, next: L.State) {
    && next.limits == ledger.limits && ledger.total <= next.total && ledger.llm <= next.llm
    && |ledger.scopes| <= |next.scopes|
    && forall s :: 0 <= s < |ledger.scopes| ==>
         var a, b := ledger.scopes[s], next.scopes[s];
         && b.parent == a.parent && b.depth == a.depth && b.budget.limit == a.budget.limit
         && a.budget.used <= b.budget.used && (a.budget.closed ==> b.budget.closed)
  }

  lemma {:induction false} SamePath(ledger: L.State, next: L.State, s: NodeId, d: NodeId)
    requires Later(ledger, next) && d < |ledger.scopes|
    ensures L.Covers(L.TreeOf(next.scopes), s, d) == L.Covers(L.TreeOf(ledger.scopes), s, d)
    decreases d
  {
    var up := ledger.scopes[d].parent;
    if s != d && up.Some? && up.value < d {
      SamePath(ledger, next, s, up.value);
    }
  }

  lemma LaterHasLess(ledger: L.State, next: L.State, d: NodeId, request: Request)
    requires Later(ledger, next) && d < |ledger.scopes| && HasRoom(next, d, request)
    ensures HasRoom(ledger, d, request)
  {
    forall s | 0 <= s < |ledger.scopes| && L.Covers(L.TreeOf(ledger.scopes), s, d)
      ensures !ledger.scopes[s].budget.closed && ledger.scopes[s].budget.used < ledger.scopes[s].budget.limit
    {
      SamePath(ledger, next, s, d);
    }
  }

  lemma AdmitIsLater(ledger: L.State, parent: NodeId, agent: bool, limit: Option<nat>)
    ensures Later(ledger, L.Admit(ledger, parent, agent, limit).0)
  {
    hide L.AdmitError;
  }

  lemma ReserveIsLater(ledger: L.State, node: NodeId, prompt: nat, requested: nat)
    ensures Later(ledger, L.Reserve(ledger, node, prompt, requested).0)
  {
    hide L.ReserveError, L.Cap;
  }

  lemma SettleIsLater(ledger: L.State, id: L.AttemptId, charge: L.Charge)
    requires id in ledger.attempts && ledger.attempts[id].node < |ledger.scopes|
    ensures Later(ledger, L.Settle(ledger, id, charge))
  {
  }

  lemma StepIsLater(st: State, op: Op)
    requires Inv(st)
    ensures Later(st.ledger, Step(st, op).ledger)
  {
    hide Inv, Later, L.Admit, L.Reserve, L.Settle, CancelBelow;
    if !Enabled(st, op) {
      SameIsLater(st.ledger);
      return;
    }
    SameSize(st);
    match op
    case Spawn(parent, agent, limit) => AdmitIsLater(st.ledger, parent, agent, limit); SameIsLater(st.ledger);
    case Attempt(node, prompt, requested) => ReserveIsLater(st.ledger, node, prompt, requested); SameIsLater(st.ledger);
    case Settle(node, charge) => SettleIsLater(st.ledger, st.nodes[node].guard.value.id, charge);
    case Return(node) =>
      SameIsLater(st.ledger);
      if HasGuard(st, node) {
        SettleIsLater(st.ledger, st.nodes[node].guard.value.id, st.nodes[node].guard.value.DropCharge());
      }
    case CloseWork(node) => FlagsAreLater(st.ledger, node);
    case Release(node) => FlagsAreLater(st.ledger, node);
    case _ => SameIsLater(st.ledger);
  }

  lemma SameIsLater(ledger: L.State)
    ensures Later(ledger, ledger)
  {
  }

  lemma FlagsAreLater(ledger: L.State, node: NodeId)
    requires node < |ledger.scopes|
    ensures Later(ledger, L.CloseAdmission(ledger, node)) && Later(ledger, L.Shutdown(ledger, node))
  {
  }

  /** A run in which the subtree grows starts where a spawn below is past its check and has room. */
  lemma {:induction false} GrowthNeedsRoom(st: State, ops: seq<Op>, n: NodeId) returns (d: NodeId)
    requires Inv(st) && IsClosed(st, n) && Below(Run(st, ops), n) != Below(st, n)
    ensures d in Spawners(st, n) && HasRoom(st.ledger, d, st.nodes[d].spawning.value)
    decreases |ops|
  {
    var op, next := ops[0], Step(st, ops[0]);
    StepGrows(st, op, n);
    hide Below;
    if Below(next, n) != Below(st, n) {
      d := op.parent;
      AdmissionHasRoom(st, op);
    } else {
      d := GrowthNeedsRoom(next, ops[1..], n);
      StepIsLater(st, op);
      SameSize(st);
      hide Step, Inv, HasRoom, Later;
      LaterHasLess(st.ledger, next.ledger, d, st.nodes[d].spawning.value);
    }
  }

  // ----- making room -----

  /** `next` is a state in which `d` still spawns, on the same tree and with the same budgets spent. */
  ghost predicate Waits(st: State, next: State, d: NodeId) {
    && d < |st.nodes| == |next.nodes| && next.nodes[d].spawning == st.nodes[d].spawning && st.nodes[d].spawning.Some?
    && next.Tree() == st.Tree() && SameSpent(st.ledger, next.ledger)
  }

  ghost predicate SameSpent(ledger: L.State, next: L.State) {
    && next.limits == ledger.limits && next.total == ledger.total && next.llm == ledger.llm
    && |next.scopes| == |ledger.scopes|
    && forall s :: 0 <= s < |ledger.scopes| ==> SameSpentScope(ledger.scopes[s], next.scopes[s])
  }

  ghost predicate SameSpentScope(a: L.Scope, b: L.Scope) {
    && b.parent == a.parent && b.depth == a.depth && b.budget.limit == a.budget.limit
    && b.budget.used == a.budget.used && b.budget.closed == a.budget.closed
  }

  lemma WaitsTwice(st: State, middle: State, end: State, d: NodeId)
    requires Waits(st, middle, d) && Waits(middle, end, d)
    ensures Waits(st, end, d)
  {
  }

  lemma SameSpentRoom(ledger: L.State, next: L.State, d: NodeId, request: Request)
    requires SameSpent(ledger, next) && HasRoom(ledger, d, request)
    ensures HasRoom(next, d, request)
  {
    assert L.TreeOf(next.scopes) == L.TreeOf(ledger.scopes);
  }

  lemma {:induction false} RunConcat(st: State, a: seq<Op>, b: seq<Op>)
    requires Inv(st)
    ensures Run(st, a + b) == Run(Run(st, a), b)
    decreases |a|
  {
    hide Step, Inv;
    if a == [] {
      assert a + b == b;
    } else {
      RunConcat(Step(st, a[0]), a[1..], b);
      assert (a + b)[1..] == a[1..] + b;
    }
  }

  lemma BookedAtNothing(scope: L.Scope, tokens: nat, usage: L.Usage)
    requires L.Within(scope.budget) && usage.Total() == 0
    ensures SameSpentScope(scope, L.Apply(L.Book(tokens, usage), scope))
  {
  }

  /** A settlement at nothing closes no scope and spends nothing. */
  lemma PaidNothing(ledger: L.State, next: L.State, id: L.AttemptId, usage: L.Usage, s: NodeId)
    requires Paid(ledger, next, id, usage) && usage.Total() == 0
    requires s < |ledger.scopes| && L.Within(ledger.scopes[s].budget)
    ensures SameSpentScope(ledger.scopes[s], next.scopes[s])
  {
    BookedAtNothing(ledger.scopes[s], ledger.attempts[id].tokens, usage);
    hide L.Apply, L.Within;
  }

  lemma SettleIsPaid(ledger: L.State, id: L.AttemptId, charge: L.Charge)
    requires id in ledger.attempts && ledger.attempts[id].node < |ledger.scopes|
    ensures var next := L.Settle(ledger, id, charge);
            && Paid(ledger, next, id, L.ChargeUsage(ledger.attempts[id].tokens, charge))
            && next.limits == ledger.limits && next.total == ledger.total && next.llm == ledger.llm
            && next.attempts == ledger.attempts - {id}
  {
    hide L.OnPath, L.ChargeUsage;
  }

  lemma SettledAtNothing(ledger: L.State, id: L.AttemptId, charge: L.Charge)
    requires L.Inv(ledger) && id in ledger.attempts
    requires L.ChargeUsage(ledger.attempts[id].tokens, charge).Total() == 0
    ensures SameSpent(ledger, L.Settle(ledger, id, charge))
  {
    hide L.OnPath, L.ChargeUsage, L.Settle, L.Within, SameSpentScope;
    SettleIsPaid(ledger, id, charge);
    var usage := L.ChargeUsage(ledger.attempts[id].tokens, charge);
    var next := L.Settle(ledger, id, charge);
    forall s | 0 <= s < |ledger.scopes| ensures SameSpentScope(ledger.scopes[s], next.scopes[s]) {
      PaidNothing(ledger, next, id, usage, s);
    }
  }

  lemma ZeroIsNothing(tokens: nat)
    ensures L.ChargeUsage(tokens, L.Failed(L.Zero)).Total() == 0
  {
  }

  lemma OwnerHolds(st: State, a: L.AttemptId)
    requires Inv(st) && a in st.ledger.attempts
    ensures var node := st.ledger.attempts[a].node; HasGuard(st, node) && st.nodes[node].guard.value.id == a
    ensures L.Inv(st.ledger)
  {
    assert GuardOk(st, a) && NodeOk(st, st.ledger.attempts[a].node);
  }

  lemma SettleWaits(st: State, a: L.AttemptId, charge: L.Charge, d: NodeId) returns (op: Op)
    requires Inv(st) && d < |st.nodes| && st.nodes[d].spawning.Some? && a in st.ledger.attempts
    requires L.ChargeUsage(st.ledger.attempts[a].tokens, charge).Total() == 0
    ensures Waits(st, Step(st, op), d)
    ensures Step(st, op).ledger.attempts == st.ledger.attempts - {a}
  {
    hide L.Settle, L.ChargeUsage, SameSpent, Inv, Paid, DoReturn, DoCloseWork, DoSpawn, DoAttempt, DoEnd, DoRelease;
    var node := st.ledger.attempts[a].node;
    op := Settle(node, charge);
    OwnerHolds(st, a);
    SettledAtNothing(st.ledger, a, charge);
    SettleIsPaid(st.ledger, a, charge);
    OtherTree(st, op);
  }

  lemma StaysAsItIs(st: State, d: NodeId)
    requires Inv(st) && d < |st.nodes| && st.nodes[d].spawning.Some?
    ensures Waits(st, st, d) && Run(st, []) == st
  {
    hide Inv;
  }

  lemma StillThere(st: State, next: State, d: NodeId)
    requires Waits(st, next, d) && d < |st.nodes| && st.nodes[d].spawning.Some?
    ensures d < |next.nodes| && next.nodes[d].spawning.Some?
  {
  }

  /** Every outstanding attempt can be settled at nothing. */
  lemma {:induction false} SettleAll(st: State, d: NodeId) returns (ops: seq<Op>)
    requires Inv(st) && d < |st.nodes| && st.nodes[d].spawning.Some?
    ensures Waits(st, Run(st, ops), d) && Run(st, ops).ledger.attempts == map[]
    decreases |st.ledger.attempts|
  {
    hide Waits, Step, Inv, L.ChargeUsage;
    if st.ledger.attempts == map[] {
      ops := [];
      StaysAsItIs(st, d);
    } else {
      var a :| a in st.ledger.attempts;
      ZeroIsNothing(st.ledger.attempts[a].tokens);
      var op := SettleWaits(st, a, L.Failed(L.Zero), d);
      var next := Step(st, op);
      assert |next.ledger.attempts| < |st.ledger.attempts| by {
        assert next.ledger.attempts.Keys == st.ledger.attempts.Keys - {a};
      }
      StillThere(st, next, d);
      var rest := SettleAll(next, d);
      ops := [op] + rest;
      assert ops[1..] == rest;
      WaitsTwice(st, next, Run(next, rest), d);
    }
  }

  ghost predicate OthersFinished(st: State, d: NodeId) {
    forall m :: 0 <= m < |st.nodes| && !L.Covers(st.Tree(), m, d) ==> st.nodes[m].phase == Finished
  }

  /** The youngest unfinished node off the path of `d`. */
  ghost function Other(st: State, d: NodeId, bound: nat): (m: NodeId)
    requires bound <= |st.nodes|
    requires exists m :: 0 <= m < bound && !L.Covers(st.Tree(), m, d) && st.nodes[m].phase != Finished
    ensures m < bound && !L.Covers(st.Tree(), m, d) && st.nodes[m].phase != Finished
    ensures forall c :: m < c < bound && !L.Covers(st.Tree(), c, d) ==> st.nodes[c].phase == Finished
  {
    if !L.Covers(st.Tree(), bound - 1, d) && st.nodes[bound - 1].phase != Finished then bound - 1
    else Other(st, d, bound - 1)
  }

  /** A shutdown step, with nothing outstanding, leaves all that is spent as it was. */
  lemma AdvanceSpends(st: State, op: Op)
    requires Inv(st) && st.ledger.attempts == map[] && Advances(op) && Enabled(st, op)
    ensures SameSpent(st.ledger, Step(st, op).ledger) && Step(st, op).ledger.attempts == map[]
  {
    hide Inv, L.Settle, CancelBelow, DoSpawn, DoAttempt;
    SameSize(st);
  }

  lemma AdvanceSpares(st: State, op: Op, d: NodeId)
    requires Inv(st) && d < |st.nodes| && st.nodes[d].spawning.Some? && Advances(op) && op.node != d && Enabled(st, op)
    ensures var next := Step(st, op); |next.nodes| == |st.nodes| && next.nodes[d].spawning == st.nodes[d].spawning
  {
    hide Inv, L.Settle, DoSpawn, DoAttempt, L.CloseAdmission, L.Shutdown;
    SameSize(st);
  }

  /** A shutdown step of another node lets the spawn at `d` wait. */
  lemma AdvanceWaits(st: State, op: Op, d: NodeId)
    requires Inv(st) && d < |st.nodes| && st.nodes[d].spawning.Some? && st.ledger.attempts == map[]
    requires Advances(op) && op.node != d && Enabled(st, op)
    ensures Waits(st, Step(st, op), d) && Step(st, op).ledger.attempts == map[]
  {
    OtherTree(st, op);
    AdvanceSpends(st, op);
    AdvanceSpares(st, op, d);
    hide Inv, Step, SameSpent;
  }

  lemma OtherMoves(st: State, d: NodeId) returns (op: Op)
    requires Inv(st) && d < |st.nodes| && st.nodes[d].spawning.Some? && !OthersFinished(st, d)
    ensures Advances(op) && op.node != d && Enabled(st, op)
  {
    SameSize(st);
    var m := Other(st, d, |st.nodes|);
    forall c | m < c < |st.nodes| && st.ledger.scopes[c].parent == Some(m) ensures st.nodes[c].phase == Finished {
      assert st.Tree()[c] == Some(m) && L.Covers(st.Tree(), m, c);
      if L.Covers(st.Tree(), c, d) {
        L.CoversTransitive(st.Tree(), m, c, d);
      }
    }
    op := CanMove(st, m);
  }

  lemma {:induction false} FinishOthers(st: State, d: NodeId) returns (ops: seq<Op>)
    requires Inv(st) && d < |st.nodes| && st.nodes[d].spawning.Some? && st.ledger.attempts == map[]
    ensures var end := Run(st, ops);
            Waits(st, end, d) && end.ledger.attempts == map[] && OthersFinished(end, d)
    decreases AllLeft(st.nodes)
  {
    if OthersFinished(st, d) {
      ops := [];
    } else {
      var op := OtherMoves(st, d);
      AdvanceWaits(st, op, d);
      AdvanceShortens(st, op);
      var next := Step(st, op);
      assert d < |next.nodes| && next.nodes[d].spawning.Some?;
      hide Waits, OthersFinished, Step, Inv;
      var rest := FinishOthers(next, d);
      ops := [op] + rest;
      assert ops[1..] == rest;
      WaitsTwice(st, next, Run(next, rest), d);
    }
  }

  lemma NothingReserved(ledger: L.State, s: NodeId)
    requires L.Inv(ledger) && ledger.attempts == map[] && s < |ledger.scopes|
    ensures ledger.scopes[s].budget.reserved == 0
  {
    SumZero(ledger.nextAttempt, L.Held(ledger.scopes, ledger.attempts, s));
    assert L.Conserved(ledger, s);
  }

  lemma RoomIsHeadroom(ledger: L.State, d: NodeId, request: Request)
    requires L.Inv(ledger) && ledger.attempts == map[] && HasRoom(ledger, d, request)
    ensures L.Headroom(ledger.scopes, d, 1)
  {
    forall s | 0 <= s < |ledger.scopes| && L.Covers(L.TreeOf(ledger.scopes), s, d)
      ensures 1 <= ledger.scopes[s].budget.Remaining()
    {
      NothingReserved(ledger, s);
    }
  }

  lemma SpawningIsOpen(st: State, d: NodeId)
    requires Inv(st) && d < |st.nodes| && st.nodes[d].spawning.Some?
    ensures L.IsOpen(st.ledger, d) && !st.nodes[d].leaf && st.ledger.scopes[d].alive
  {
    assert NodeOk(st, d);
  }

  /** What the spawn at `d` asks for. */
  ghost predicate Asks(st: State, d: NodeId, request: Request) {
    d < |st.nodes| && st.nodes[d].spawning == Some(request)
  }

  /** With nothing reserved a leaf call is admitted while its limit allows. */
  lemma LeafAdmitted(st: State, d: NodeId, request: Request)
    requires Inv(st) && Asks(st, d, request) && !request.agent && st.ledger.attempts == map[]
    requires HasRoom(st.ledger, d, request)
    ensures Admits(st, Spawn(d, request.agent, request.limit))
  {
    hide Inv, L.Headroom;
    SpawningIsOpen(st, d);
    LedgerOfInv(st);
    RoomIsHeadroom(st.ledger, d, request);
  }

  lemma LedgerOfInv(st: State)
    requires Inv(st)
    ensures L.Inv(st.ledger)
  {
  }

  /** With everything off the path of `d` ended, the live agents are those of the path. */
  lemma OthersEnded(st: State, d: NodeId)
    requires Inv(st) && d < |st.nodes| && !st.nodes[d].leaf && st.ledger.scopes[d].alive && OthersFinished(st, d)
    ensures st.ledger.live <= st.ledger.scopes[d].depth + 1
  {
    var scopes := st.ledger.scopes;
    forall m | 0 <= m < |scopes| && !L.Covers(st.Tree(), m, d) ensures !scopes[m].alive {
      assert NodeOk(st, m);
    }
    OnlyPathIsLive(st, d);
    assert st.ledger.live == L.Sum(|scopes|, L.LiveAgents(scopes));
    hide Inv, NodeOk, OthersFinished;
    forall m | d < m < |scopes| ensures !scopes[m].alive {
      if L.Covers(st.Tree(), m, d) {
        L.CoversBounds(st.Tree(), m, d);
      }
    }
    SumSame(d + 1, |scopes|, L.LiveAgents(scopes));
  }

  /** Then an agent is admitted while depth and total allow. */
  lemma AgentAdmitted(st: State, d: NodeId, request: Request)
    requires Inv(st) && Asks(st, d, request) && request.agent && st.ledger.attempts == map[]
    requires OthersFinished(st, d) && HasRoom(st.ledger, d, request)
    ensures Admits(st, Spawn(d, request.agent, request.limit))
  {
    hide Inv, L.Headroom, OthersFinished;
    SpawningIsOpen(st, d);
    LedgerOfInv(st);
    RoomIsHeadroom(st.ledger, d, request);
    OthersEnded(st, d);
  }

  lemma WaitsAsks(st: State, next: State, d: NodeId, request: Request)
    requires Waits(st, next, d) && Asks(st, d, request) && HasRoom(st.ledger, d, request)
    ensures Asks(next, d, request) && HasRoom(next.ledger, d, request)
  {
    hide SameSpent, HasRoom;
    SameSpentRoom(st.ledger, next.ledger, d, request);
  }

  /** A spawn below that is past its check and has room for what it asks admits its node in some run. */
  lemma RoomGivesGrowth(st: State, n: NodeId, d: NodeId, request: Request) returns (ops: seq<Op>)
    requires Inv(st) && IsClosed(st, n) && d in Spawners(st, n)
    requires Asks(st, d, request) && HasRoom(st.ledger, d, request)
    ensures Below(Run(st, ops), n) != Below(st, n)
  {
    hide Step, Inv, Run, Admits, HasRoom, SameSpent, IsClosed, Spawners, Waits;
    var before := SettleAll(st, d);
    var settled := Run(st, before);
    WaitsAsks(st, settled, d, request);
    if request.agent {
      var finishing := FinishOthers(settled, d);
      var end := Run(settled, finishing);
      RunConcat(st, before, finishing);
      before := before + finishing;
      WaitsAsks(settled, end, d, request);
      WaitsTwice(st, settled, end, d);
      AgentAdmitted(end, d, request);
    } else {
      LeafAdmitted(settled, d, request);
    }
    ops := AndThen(st, before, Spawn(d, request.agent, request.limit), n, d);
  }

  lemma AndThen(st: State, before: seq<Op>, op: Op, n: NodeId, d: NodeId) returns (ops: seq<Op>)
    requires Inv(st) && IsClosed(st, n) && d in Spawners(st, n) && op.Spawn? && op.parent == d
    requires Waits(st, Run(st, before), d) && Admits(Run(st, before), op)
    ensures Below(Run(st, ops), n) != Below(st, n)
  {
    var end := Run(st, before);
    GrowthOfRun(st, before, n);
    assert d in Spawners(end, n);
    StepGrows(end, op, n);
    hide Step, Inv, Admits, Waits;
    RunConcat(st, before, [op]);
    ops := before + [op];
    assert [op][1..] == [] && Run(Step(end, op), []) == Step(end, op);
  }

  /**
   Below a closed node some run still adds a node if and only if a spawn there is past its check and has room for what it
   asks: node identifiers, and calls or agents, are not exhausted and no scope on its path is closed or has used up its
   limit.
   */
  lemma GrowsIff(st: State, n: NodeId)
    requires Inv(st) && IsClosed(st, n)
    ensures (exists ops :: Below(Run(st, ops), n) != Below(st, n))
       <==> (exists d :: d in Spawners(st, n) && HasRoom(st.ledger, d, st.nodes[d].spawning.value))
  {
    if ops :| Below(Run(st, ops), n) != Below(st, n) {
      var d := GrowthNeedsRoom(st, ops, n);
    }
    if d :| d in Spawners(st, n) && HasRoom(st.ledger, d, st.nodes[d].spawning.value) {
      var ops := RoomGivesGrowth(st, n, d, st.nodes[d].spawning.value);
    }
  }

  // ----- it does happen -----

  /** The smallest limits that let the root have an agent below it that makes a call. */
  predicate Roomy(limits: L.Limits) {
    && limits.budgetTokens > 0 && limits.maxDepth > 0 && limits.maxAgentsLive > 1 && limits.maxAgentsTotal > 1
    && limits.maxLlmCalls > 0
  }

  lemma RootAdmits(st: State)
    requires Inv(st) && |st.ledger.scopes| == 1 && st.nodes[0].spawning == Some(AN_AGENT)
    requires st.ledger.live == 1 && st.ledger.total == 1 && Roomy(st.ledger.limits)
    requires st.ledger.scopes[0].depth == 0 && st.ledger.scopes[0].budget.Remaining() > 0
    ensures Admits(st, Spawn(0, true, None))
  {
    SpawningIsOpen(st, 0);
    hide Inv;
    forall s | 0 <= s < 1 && L.Covers(st.Tree(), s, 0) ensures 1 <= st.ledger.scopes[s].budget.Remaining() {
    }
  }

  const AN_AGENT: Request := Request(true, None)
  const A_CALL: Request := Request(false, None)

  /** The root and one agent below it, at which a leaf call is past its check; nothing is spent or reserved. */
  ghost predicate Two(st: State) {
    && Inv(st) && |st.nodes| == 2
    && st.nodes[1].spawning == Some(A_CALL) && st.nodes[0].spawning.None? && st.nodes[0].guard.None?
    && st.ledger.scopes[1].parent == Some(0)
    && st.ledger.llm == 0 && st.ledger.limits.maxLlmCalls > 0
    && forall s :: 0 <= s < 2 ==> !st.ledger.scopes[s].budget.closed && st.ledger.scopes[s].budget.used < st.ledger.scopes[s].budget.limit
  }

  lemma RootSpawns(limits: L.Limits)
    requires Roomy(limits)
    ensures var st := Reached(limits, [BeginSpawn(0, AN_AGENT), Spawn(0, true, None), BeginSpawn(1, A_CALL)]);
            Two(st) && InPhase(st, 0, Running)
  {
    var st := Init(limits);
    LifecycleInvariant.InitHasInv(limits);
    var first := Step(st, BeginSpawn(0, AN_AGENT));
    RootAdmits(first);
    var second := Step(first, Spawn(0, true, None));
    var third := Step(second, BeginSpawn(1, A_CALL));
    hide Inv;
    ThreeSteps(st, BeginSpawn(0, AN_AGENT), Spawn(0, true, None), BeginSpawn(1, A_CALL));
  }

  lemma ThreeSteps(st: State, a: Op, b: Op, c: Op)
    requires Inv(st)
    ensures Run(st, [a, b, c]) == Step(Step(Step(st, a), b), c)
  {
    hide Step, Inv;
    assert [a, b, c][1..] == [b, c] && [b, c][1..] == [c] && [c][1..] == [];
    assert Run(st, [a, b, c]) == Run(Step(st, a), [b, c]);
    assert Run(Step(st, a), [b, c]) == Run(Step(Step(st, a), b), [c]);
  }

  lemma RootReturns(st: State)
    requires Two(st) && InPhase(st, 0, Running)
    ensures Two(Step(st, Return(0))) && InPhase(Step(st, Return(0)), 0, Closing)
  {
    var next := Step(st, Return(0));
    assert next == SetPhase(st, 0, Closing);
    hide Inv, Step;
  }

  lemma RootClosesWork(st: State)
    requires Two(st) && InPhase(st, 0, Closing)
    ensures Two(Step(st, CloseWork(0))) && IsClosed(Step(st, CloseWork(0)), 0)
  {
    var next := Step(st, CloseWork(0));
    assert |st.nodes| == |st.ledger.scopes|;
    assert next == DoCloseWork(st, 0);
    hide Inv, Step, L.Covers;
  }

  lemma RootCloses(st: State)
    requires Two(st) && InPhase(st, 0, Running)
    ensures var end := Run(st, [Return(0), CloseWork(0)]);
            Two(end) && IsClosed(end, 0)
  {
    RootReturns(st);
    RootClosesWork(Step(st, Return(0)));
    hide Inv, Step;
    assert [Return(0), CloseWork(0)][1..] == [CloseWork(0)] && [CloseWork(0)][1..] == [];
    assert Run(Step(st, Return(0)), [CloseWork(0)]) == Step(Step(st, Return(0)), CloseWork(0));
  }

  lemma TwoHasRoom(st: State)
    requires Two(st)
    ensures 1 in Spawners(st, 0) && Asks(st, 1, A_CALL) && HasRoom(st.ledger, 1, A_CALL)
  {
    assert |st.nodes| == |st.ledger.scopes|;
    hide Inv;
    assert st.Tree()[1] == Some(0);
    assert L.Covers(st.Tree(), 0, 1);
  }

  lemma RootClosed(limits: L.Limits) returns (ops: seq<Op>)
    requires Roomy(limits)
    ensures Two(Reached(limits, ops)) && IsClosed(Reached(limits, ops), 0)
  {
    hide Two, Step, IsClosed, Init, Inv, InPhase;
    var opening, closing := [BeginSpawn(0, AN_AGENT), Spawn(0, true, None), BeginSpawn(1, A_CALL)], [Return(0), CloseWork(0)];
    RootSpawns(limits);
    RootCloses(Reached(limits, opening));
    LifecycleInvariant.InitHasInv(limits);
    ops := opening + closing;
    RunConcat(Init(limits), opening, closing);
  }

  /** Under any such limits a run closes the root and then still admits a node below it. */
  lemma ClosedRootStillGrows(limits: L.Limits) returns (before: seq<Op>, after: seq<Op>)
    requires Roomy(limits)
    ensures var st := Reached(limits, before);
            IsClosed(st, 0) && Below(Run(st, after), 0) != Below(st, 0)
  {
    hide Two, Run, Inv, Reached, Below, Spawners, HasRoom, IsClosed;
    before := RootClosed(limits);
    TwoHasRoom(Reached(limits, before));
    after := RoomGivesGrowth(Reached(limits, before), 0, 1, A_CALL);
  }
}
