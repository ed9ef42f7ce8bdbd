/** Every lifecycle step keeps the invariant. */
module LifecycleInvariant {
  import opened Common
  import L = LedgerSpec
  import opened LedgerInvariant
  import opened Lifecycle

  lemma InitHasInv(limits: L.Limits)
    ensures Inv(Init(limits))
  {
    LedgerInvariant.InitHasInv(limits);
  }

  /** Nothing changes in the log or in what its records say. */
  ghost predicate SameBooks(st: State, next: State) {
    && next.log == st.log
    && |st.nodes| == |st.ledger.scopes| == |next.nodes| == |next.ledger.scopes|
    && (forall n :: 0 <= n < |st.nodes| ==>
          && next.ledger.scopes[n].parent == st.ledger.scopes[n].parent
          && next.nodes[n].phase.Rank() >= st.nodes[n].phase.Rank())
    && (forall n :: 0 <= n < |st.nodes| && st.nodes[n].phase.Rank() >= Ended.Rank() ==>
          && next.ledger.scopes[n].own == st.ledger.scopes[n].own
          && next.ledger.scopes[n].usage == st.ledger.scopes[n].usage)
  }

  lemma SameBooksEvent(st: State, next: State, i: nat)
    requires SameBooks(st, next) && i < |st.log| && EventOk(st, i)
    ensures EventOk(next, i)
  {
  }

  lemma SameBooksLog(st: State, next: State)
    requires Inv(st) && SameBooks(st, next)
    requires forall n :: 0 <= n < |next.nodes| && next.nodes[n].phase.Rank() >= Ended.Rank() ==>
      next.nodes[n].phase == st.nodes[n].phase
        || (st.nodes[n].phase == Released && next.nodes[n].phase == Finished)
    ensures forall i :: 0 <= i < |next.log| ==> EventOk(next, i)
    ensures forall n :: 0 <= n < |next.nodes| ==> Logged(next, n)
  {
    hide L.Inv, NodeOk, ChildOk, GuardOk;
    forall n | 0 <= n < |next.nodes| ensures Logged(next, n) {
      assert Logged(st, n);
    }
    forall i | 0 <= i < |next.log| ensures EventOk(next, i) {
      hide SameBooks, Logged, EventOk;
      SameBooksEvent(st, next, i);
    }
  }

  /** Whatever child of `n` is not finished is a task that `node` owns. */
  ghost predicate Owns(st: State, n: NodeId, node: Node)
    requires |st.nodes| == |st.ledger.scopes|
  {
    forall c :: 0 <= c < |st.nodes| && st.ledger.scopes[c].parent == Some(n) && st.nodes[c].phase != Finished ==>
      c in node.tasks || c in node.joining
  }

  lemma NodeOwns(st: State, n: NodeId)
    requires Inv(st) && n < |st.nodes|
    ensures Owns(st, n, st.nodes[n])
  {
    forall c | 0 <= c < |st.nodes| && st.ledger.scopes[c].parent == Some(n) && st.nodes[c].phase != Finished
      ensures c in st.nodes[n].tasks || c in st.nodes[n].joining
    {
      assert ChildOk(st, c);
    }
  }

  /** A step that changes one node only, and nothing its phase or its attempt depends on. */
  ghost predicate OneChanged(st: State, next: State, n: NodeId) {
    && n < |st.nodes| == |next.nodes| == |st.ledger.scopes|
    && next == st.(nodes := st.nodes[n := next.nodes[n]])
    && next.nodes[n].leaf == st.nodes[n].leaf && next.nodes[n].cancelled == st.nodes[n].cancelled
    && next.nodes[n].phase.Rank() >= st.nodes[n].phase.Rank()
    && (next.nodes[n].phase.Rank() >= Ended.Rank() ==>
          next.nodes[n].phase == st.nodes[n].phase || (st.nodes[n].phase == Released && next.nodes[n].phase == Finished))
    && Owns(st, n, next.nodes[n])
    && (st.nodes[n].guard.Some? ==>
          next.nodes[n].guard.Some? && next.nodes[n].guard.value.id == st.nodes[n].guard.value.id)
  }

  lemma OneChangedNode(st: State, next: State, n: NodeId, m: NodeId)
    requires OneChanged(st, next, n) && m < |st.nodes| && m != n && NodeOk(st, m)
    ensures NodeOk(next, m)
  {
  }

  lemma OneChangedChild(st: State, next: State, n: NodeId, c: NodeId)
    requires OneChanged(st, next, n) && c < |st.nodes| && c != n && ChildOk(st, c)
    ensures ChildOk(next, c)
  {
  }

  lemma OneNode(st: State, next: State, n: NodeId)
    requires Inv(st) && OneChanged(st, next, n)
    requires NodeOk(next, n) && ChildOk(next, n)
    ensures Inv(next)
  {
    hide L.Inv, NodeOk, ChildOk, EventOk, Logged;
    forall m | 0 <= m < |next.nodes| && m != n ensures NodeOk(next, m) && ChildOk(next, m) {
      OneChangedNode(st, next, n, m);
      OneChangedChild(st, next, n, m);
    }
    forall a | a in next.ledger.attempts ensures GuardOk(next, a) {
      assert GuardOk(st, a);
    }
    SameBooksLog(st, next);
  }

  lemma DispatchKeepsInv(st: State, node: NodeId)
    requires Inv(st) && Enabled(st, Dispatch(node))
    ensures Inv(Next(st, Dispatch(node)))
  {
    hide L.Inv, EventOk, GuardOk, Logged;
    assert NodeOk(st, node) && ChildOk(st, node);
    NodeOwns(st, node);
    var next := Next(st, Dispatch(node));
    assert NodeOk(next, node) && ChildOk(next, node);
    hide Inv, NodeOk, ChildOk;
    OneNode(st, next, node);
  }

  lemma LockKeepsInv(st: State, node: NodeId, spawning: Option<Request>)
    requires Inv(st) && Enabled(st, if spawning.Some? then BeginSpawn(node, spawning.value) else Abandon(node))
    ensures Inv(SetSpawning(st, node, spawning))
  {
    hide L.Inv, EventOk, GuardOk, Logged;
    assert NodeOk(st, node) && ChildOk(st, node);
    NodeOwns(st, node);
    var next := SetSpawning(st, node, spawning);
    assert NodeOk(next, node) && ChildOk(next, node);
    hide Inv, NodeOk, ChildOk;
    OneNode(st, next, node);
  }

  lemma JoinKeepsInv(st: State, op: Op)
    requires op.Join? || op.Reap?
    requires Inv(st) && Enabled(st, op)
    ensures Inv(Next(st, op))
  {
    hide L.Inv, EventOk, GuardOk, Logged;
    assert NodeOk(st, op.node) && ChildOk(st, op.node);
    NodeOwns(st, op.node);
    var next := Next(st, op);
    assert NodeOk(next, op.node) && ChildOk(next, op.node);
    hide Inv, NodeOk, ChildOk;
    OneNode(st, next, op.node);
  }

  lemma FinishKeepsInv(st: State, node: NodeId)
    requires Inv(st) && Enabled(st, Finish(node))
    ensures Inv(Next(st, Finish(node)))
  {
    hide L.Inv, EventOk, GuardOk, Logged;
    assert NodeOk(st, node) && ChildOk(st, node);
    NodeOwns(st, node);
    var next := Next(st, Finish(node));
    assert NodeOk(next, node) && ChildOk(next, node);
    hide Inv, NodeOk, ChildOk;
    OneNode(st, next, node);
  }

  lemma CancelKeepsInv(st: State, node: NodeId)
    requires Inv(st) && Enabled(st, Cancel(node))
    ensures Inv(Next(st, Cancel(node)))
  {
    hide L.Inv, NodeOk, ChildOk, GuardOk, EventOk, Logged;
    TreeOfInv(st);
    var next := Next(st, Cancel(node));
    forall n | 0 <= n < |next.nodes| ensures NodeOk(next, n) && ChildOk(next, n) {
      CancelledNode(st, node, n);
      CancelledChild(st, node, n);
    }
    forall a | a in next.ledger.attempts ensures GuardOk(next, a) {
      CancelledGuard(st, node, a);
    }
    SameBooksLog(st, next);
  }

  lemma TreeOfInv(st: State)
    requires Inv(st)
    ensures L.IsTree(st.Tree()) && |st.nodes| == |st.ledger.scopes|
  {
  }

  lemma CancelledNode(st: State, node: NodeId, n: NodeId)
    requires node < |st.nodes| && n < |st.nodes| == |st.ledger.scopes| && NodeOk(st, n)
    ensures NodeOk(Next(st, Cancel(node)), n)
  {
  }

  lemma CancelledChild(st: State, node: NodeId, c: NodeId)
    requires node < |st.nodes| && c < |st.nodes| == |st.ledger.scopes| && ChildOk(st, c) && L.IsTree(st.Tree())
    ensures ChildOk(Next(st, Cancel(node)), c)
  {
  }

  lemma CancelledGuard(st: State, node: NodeId, a: L.AttemptId)
    requires node < |st.nodes| == |st.ledger.scopes| && a in st.ledger.attempts && GuardOk(st, a)
    ensures GuardOk(Next(st, Cancel(node)), a)
  {
  }

  // ----- the subtree of a node that has ended -----

  /** When a node has ended, everything below it is finished. */
  lemma {:induction false} EndedSubtree(st: State, n: NodeId, m: NodeId)
    requires Inv(st) && n < |st.nodes| && st.nodes[n].phase.Rank() >= Ended.Rank()
    requires L.Covers(st.Tree(), n, m) && m != n
    ensures m < |st.nodes| && st.nodes[m].phase == Finished
    decreases m
  {
    var up := st.Tree()[m].value;
    if up != n {
      EndedSubtree(st, n, up);
    }
    assert NodeOk(st, up) && ChildOk(st, m);
  }

  /** A node that still runs lies below no node that has ended. */
  lemma RunningIsNotBelowEnded(st: State, n: NodeId, m: NodeId)
    requires Inv(st) && n < |st.nodes| && st.nodes[n].phase.Rank() >= Ended.Rank()
    requires m < |st.nodes| && st.nodes[m].phase == Running
    ensures !L.Covers(st.Tree(), n, m)
  {
    if L.Covers(st.Tree(), n, m) && m != n {
      EndedSubtree(st, n, m);
    }
  }

  // ----- attempts -----

  /** What a reservation or a settlement of `node` leaves alone in the other nodes' scopes. */
  ghost predicate SameScopes(st: State, next: State) {
    && |st.nodes| == |st.ledger.scopes| == |next.nodes| == |next.ledger.scopes|
    && forall n :: 0 <= n < |st.nodes| ==>
         var a, b := st.ledger.scopes[n], next.ledger.scopes[n];
         && b.parent == a.parent && b.depth == a.depth && b.alive == a.alive && b.agent == a.agent
         && (a.admissionClosed ==> b.admissionClosed)
         && (b.admissionClosed && !a.admissionClosed ==> st.nodes[n].cancelled && st.nodes[n].spawning.None?)
  }

  /** A step of the ledger on behalf of `node`, which at most changes its guard. */
  ghost predicate GuardStep(st: State, next: State, node: NodeId) {
    && node < |st.nodes|
    && SameScopes(st, next)
    && next.log == st.log
    && (forall n :: 0 <= n < |st.nodes| ==> next.nodes[n] == st.nodes[n].(guard := next.nodes[n].guard))
    && (forall n :: 0 <= n < |st.nodes| && n != node ==> next.nodes[n].guard == st.nodes[n].guard)
    && (forall a :: a in st.ledger.attempts && st.ledger.attempts[a].node != node ==>
          a in next.ledger.attempts && next.ledger.attempts[a] == st.ledger.attempts[a])
    && (forall a :: a in next.ledger.attempts ==>
          if next.ledger.attempts[a].node == node
          then next.nodes[node].guard.Some? && next.nodes[node].guard.value.id == a
          else a in st.ledger.attempts && st.ledger.attempts[a] == next.ledger.attempts[a])
    && (next.nodes[node].guard.Some? ==>
          var a := next.nodes[node].guard.value.id;
          a in next.ledger.attempts && next.ledger.attempts[a].node == node && st.nodes[node].phase == Running)
  }

  lemma GuardStepNode(st: State, next: State, node: NodeId, n: NodeId)
    requires GuardStep(st, next, node) && n < |st.nodes| && NodeOk(st, n)
    ensures NodeOk(next, n)
  {
  }

  lemma GuardStepKeepsInv(st: State, next: State, node: NodeId)
    requires Inv(st) && GuardStep(st, next, node) && L.Inv(next.ledger)
    requires forall n :: 0 <= n < |st.nodes| && st.nodes[n].phase.Rank() >= Ended.Rank() ==>
      && next.ledger.scopes[n].own == st.ledger.scopes[n].own
      && next.ledger.scopes[n].usage == st.ledger.scopes[n].usage
    ensures Inv(next)
  {
    forall n | 0 <= n < |next.nodes| ensures NodeOk(next, n) {
      GuardStepNode(st, next, node, n);
    }
    forall c | 0 <= c < |next.nodes| ensures ChildOk(next, c) {
      assert ChildOk(st, c);
    }
    forall a | a in next.ledger.attempts ensures GuardOk(next, a) {
      if next.ledger.attempts[a].node != node {
        assert GuardOk(st, a);
      }
    }
    SameBooksLog(st, next);
  }

  lemma AttemptKeepsScopes(st: State, node: NodeId, prompt: nat, requested: nat)
    requires Inv(st) && Enabled(st, Attempt(node, prompt, requested))
    requires L.CanReserve(st.ledger, node, prompt, requested)
    ensures SameScopes(st, Next(st, Attempt(node, prompt, requested)))
  {
    hide L.Inv, NodeOk, ChildOk, GuardOk, EventOk, Logged, L.Cap;
    ReserveFits(st.ledger, node, prompt, requested);
  }

  /** An attempt that is granted adds the node's only unsettled attempt. */
  lemma AttemptTakes(st: State, node: NodeId, prompt: nat, requested: nat)
    requires Inv(st) && Enabled(st, Attempt(node, prompt, requested))
    requires L.CanReserve(st.ledger, node, prompt, requested)
    ensures var next, id := Next(st, Attempt(node, prompt, requested)), st.ledger.nextAttempt;
            && id !in st.ledger.attempts && id in next.ledger.attempts && next.ledger.attempts[id].node == node
            && next.ledger.attempts == st.ledger.attempts[id := next.ledger.attempts[id]]
            && next.nodes == st.nodes[node := st.nodes[node].(guard := Some(Guard(id, false)))]
            && next.log == st.log
  {
    ReserveFits(st.ledger, node, prompt, requested);
    assert L.AttemptsKnown(st.ledger);
    hide L.Inv, NodeOk, ChildOk, GuardOk, EventOk, Logged, L.Cap, L.OnPath;
  }

  lemma GuardTaken(st: State, next: State, node: NodeId, id: L.AttemptId)
    requires SameScopes(st, next) && next.log == st.log && node < |st.nodes|
    requires id in next.ledger.attempts && next.ledger.attempts[id].node == node && st.nodes[node].phase == Running
    requires next.ledger.attempts == st.ledger.attempts[id := next.ledger.attempts[id]] && id !in st.ledger.attempts
    requires next.nodes == st.nodes[node := st.nodes[node].(guard := Some(Guard(id, false)))]
    requires forall a :: a in st.ledger.attempts ==> st.ledger.attempts[a].node != node
    ensures GuardStep(st, next, node)
  {
    hide SameScopes;
  }

  lemma GuardGone(st: State, next: State, node: NodeId, id: L.AttemptId)
    requires SameScopes(st, next) && next.log == st.log && node < |st.nodes|
    requires next.ledger.attempts == st.ledger.attempts - {id}
    requires id in st.ledger.attempts && st.ledger.attempts[id].node == node
    requires next.nodes == st.nodes[node := st.nodes[node].(guard := None)]
    requires forall a :: a in st.ledger.attempts && st.ledger.attempts[a].node == node ==> a == id
    ensures GuardStep(st, next, node)
  {
    hide SameScopes;
  }

  /** A node without a guard has no attempt. */
  lemma NoAttempt(st: State, node: NodeId)
    requires Inv(st) && node < |st.nodes| && st.nodes[node].guard.None?
    ensures forall a :: a in st.ledger.attempts ==> st.ledger.attempts[a].node != node
  {
    hide L.Inv, NodeOk, ChildOk, EventOk, Logged;
    forall a | a in st.ledger.attempts ensures st.ledger.attempts[a].node != node {
      assert GuardOk(st, a);
    }
  }

  lemma AttemptIsGuardStep(st: State, node: NodeId, prompt: nat, requested: nat)
    requires Inv(st) && Enabled(st, Attempt(node, prompt, requested))
    requires L.CanReserve(st.ledger, node, prompt, requested)
    ensures GuardStep(st, Next(st, Attempt(node, prompt, requested)), node)
  {
    hide Inv, SameScopes, GuardStep, Next, L.CanReserve;
    TreeOfInv(st);
    AttemptKeepsScopes(st, node, prompt, requested);
    AttemptTakes(st, node, prompt, requested);
    NoAttempt(st, node);
    GuardTaken(st, Next(st, Attempt(node, prompt, requested)), node, st.ledger.nextAttempt);
  }

  lemma AttemptKeepsInv(st: State, node: NodeId, prompt: nat, requested: nat)
    requires Inv(st) && Enabled(st, Attempt(node, prompt, requested))
    ensures Inv(Next(st, Attempt(node, prompt, requested)))
  {
    hide NodeOk, ChildOk, GuardOk, EventOk, Logged, L.Inv, L.Headroom, L.Cap;
    if L.CanReserve(st.ledger, node, prompt, requested) {
      ReserveKeepsInv(st.ledger, node, prompt, requested);
      ReserveFits(st.ledger, node, prompt, requested);
      AttemptIsGuardStep(st, node, prompt, requested);
      GuardStepKeepsInv(st, Next(st, Attempt(node, prompt, requested)), node);
    }
  }

  lemma SettleKeepsScopes(st: State, node: NodeId, charge: L.Charge)
    requires Inv(st) && Enabled(st, Settle(node, charge))
    ensures SameScopes(st, Next(st, Settle(node, charge)))
  {
    hide L.Inv, NodeOk, ChildOk, GuardOk, EventOk, Logged;
  }

  /** A settlement takes the node's only unsettled attempt away. */
  lemma SettleTakes(st: State, node: NodeId, charge: L.Charge)
    requires Inv(st) && Enabled(st, Settle(node, charge))
    ensures var next, id := Next(st, Settle(node, charge)), st.nodes[node].guard.value.id;
            && next.ledger.attempts == st.ledger.attempts - {id}
            && next.nodes == st.nodes[node := st.nodes[node].(guard := None)]
            && next.log == st.log
  {
    hide L.Inv, NodeOk, ChildOk, GuardOk, EventOk, Logged, L.OnPath;
  }

  /** The attempt of a node's guard is the only one the node has. */
  lemma OnlyAttempt(st: State, node: NodeId)
    requires Inv(st) && HasGuard(st, node)
    ensures st.ledger.attempts[st.nodes[node].guard.value.id].node == node
    ensures forall a :: a in st.ledger.attempts && st.ledger.attempts[a].node == node ==> a == st.nodes[node].guard.value.id
  {
    hide L.Inv, ChildOk, EventOk, Logged;
    assert NodeOk(st, node);
    forall a | a in st.ledger.attempts && st.ledger.attempts[a].node == node
      ensures a == st.nodes[node].guard.value.id
    {
      assert GuardOk(st, a);
    }
  }

  lemma SettleIsGuardStep(st: State, node: NodeId, charge: L.Charge)
    requires Inv(st) && Enabled(st, Settle(node, charge))
    ensures GuardStep(st, Next(st, Settle(node, charge)), node)
  {
    hide Inv, SameScopes, GuardStep, Next;
    TreeOfInv(st);
    SettleKeepsScopes(st, node, charge);
    SettleTakes(st, node, charge);
    OnlyAttempt(st, node);
    GuardGone(st, Next(st, Settle(node, charge)), node, st.nodes[node].guard.value.id);
  }

  /** No settlement reaches the books of a node that has ended. */
  lemma SettleSparesEnded(st: State, node: NodeId, charge: L.Charge, n: NodeId)
    requires Inv(st) && Enabled(st, Settle(node, charge))
    requires n < |st.nodes| && st.nodes[n].phase.Rank() >= Ended.Rank()
    ensures Next(st, Settle(node, charge)).ledger.scopes[n] == st.ledger.scopes[n]
  {
    assert NodeOk(st, node);
    RunningIsNotBelowEnded(st, n, node);
  }

  lemma SettleKeepsInv(st: State, node: NodeId, charge: L.Charge)
    requires Inv(st) && Enabled(st, Settle(node, charge))
    ensures Inv(Next(st, Settle(node, charge)))
  {
    var next := Next(st, Settle(node, charge));
    LedgerInvariant.SettleKeepsInv(st.ledger, st.nodes[node].guard.value.id, charge);
    SettleIsGuardStep(st, node, charge);
    forall n | 0 <= n < |st.nodes| && st.nodes[n].phase.Rank() >= Ended.Rank()
      ensures next.ledger.scopes[n] == st.ledger.scopes[n]
    {
      SettleSparesEnded(st, node, charge, n);
    }
    GuardStepKeepsInv(st, next, node);
  }

  /** A running node without a guard moves on to closing. */
  lemma ClosingKeepsInv(st: State, node: NodeId)
    requires Inv(st) && InPhase(st, node, Running) && st.nodes[node].guard.None?
    ensures Inv(SetPhase(st, node, Closing))
  {
    hide L.Inv;
    assert NodeOk(st, node) && ChildOk(st, node);
    NodeOwns(st, node);
    var next := SetPhase(st, node, Closing);
    assert NodeOk(next, node) && ChildOk(next, node);
    hide Inv, NodeOk, ChildOk;
    OneNode(st, next, node);
  }

  /** A node's guard is one it can settle. */
  lemma GuardIsHeld(st: State, node: NodeId)
    requires Inv(st) && node < |st.nodes|
    ensures HasGuard(st, node) <==> st.nodes[node].guard.Some?
  {
    assert NodeOk(st, node);
  }

  lemma ReturnKeepsInv(st: State, node: NodeId)
    requires Inv(st) && Enabled(st, Return(node))
    ensures Inv(Next(st, Return(node)))
  {
    GuardIsHeld(st, node);
    hide Inv, L.Settle;
    if HasGuard(st, node) {
      var charge := st.nodes[node].guard.value.DropCharge();
      SettleKeepsInv(st, node, charge);
      ClosingKeepsInv(DoSettle(st, node, charge), node);
    } else {
      ClosingKeepsInv(st, node);
    }
  }

  // ----- shutdown -----

  /** Closing admission alone, on the way to closing the node's work. */
  lemma AdmissionKeepsInv(st: State, node: NodeId)
    requires Inv(st) && node < |st.nodes| && st.nodes[node].cancelled && st.nodes[node].spawning.None?
    ensures Inv(st.(ledger := L.CloseAdmission(st.ledger, node)))
  {
    var next := st.(ledger := L.CloseAdmission(st.ledger, node));
    CloseAdmissionKeepsInv(st.ledger, node);
    assert NodeOk(st, node);
    forall a | a in st.ledger.attempts && st.ledger.attempts[a].node == node
      ensures st.nodes[node].guard.Some? && st.nodes[node].guard.value.id == a
    {
      assert GuardOk(st, a);
    }
    GuardStepKeepsInv(st, next, node);
  }

  /** A node whose admission is closed and whose subtree is cancelled closes its work. */
  lemma RefusingKeepsInv(st: State, node: NodeId)
    requires Inv(st) && InPhase(st, node, Closing) && st.nodes[node].spawning.None?
    requires st.ledger.scopes[node].admissionClosed && st.nodes[node].cancelled
    ensures Inv(st.(nodes := st.nodes[node := st.nodes[node].(closed := true, tasks := {}, joining := st.nodes[node].tasks,
                                                              phase := Joining)]))
  {
    hide L.Inv;
    assert NodeOk(st, node) && ChildOk(st, node);
    NodeOwns(st, node);
    var next := st.(nodes := st.nodes[node := st.nodes[node].(closed := true, tasks := {}, joining := st.nodes[node].tasks,
                                                              phase := Joining)]);
    assert NodeOk(next, node) && ChildOk(next, node);
    hide Inv, NodeOk, ChildOk;
    OneNode(st, next, node);
  }

  lemma CloseWorkKeepsInv(st: State, node: NodeId)
    requires Inv(st) && Enabled(st, CloseWork(node))
    ensures Inv(Next(st, CloseWork(node)))
  {
    SameSize(st);
    hide Inv;
    CancelKeepsInv(st, node);
    var cancelled := Next(st, Cancel(node));
    AdmissionKeepsInv(cancelled, node);
    var refusing := cancelled.(ledger := L.CloseAdmission(cancelled.ledger, node));
    assert L.Covers(st.Tree(), node, node);
    RefusingKeepsInv(refusing, node);
    assert refusing.nodes[node].(cancelled := true) == refusing.nodes[node];
  }

  lemma SameSize(st: State)
    requires Inv(st)
    ensures |st.nodes| == |st.ledger.scopes|
  {
  }

  // ----- spawning -----

  /** `next` has one more node, owned by `parent`; everything else is as it was. */
  ghost predicate Spawned(st: State, next: State, parent: NodeId, scope: L.Scope) {
    && parent < |st.nodes| == |st.ledger.scopes|
    && st.nodes[parent].spawning.Some?
    && next.ledger.scopes == st.ledger.scopes + [scope]
    && next.ledger.attempts == st.ledger.attempts
    && scope.parent == Some(parent) && scope.alive && !scope.admissionClosed
    && scope.depth == st.ledger.scopes[parent].depth + (if scope.agent then 1 else 0)
    && var p := st.nodes[parent];
    && next.nodes == st.nodes[parent := p.(spawning := None, tasks := p.tasks + {|st.nodes|})]
                     + [NewNode(!scope.agent, p.cancelled)]
    && next.log == st.log
  }

  lemma SpawnIsSpawned(st: State, parent: NodeId, agent: bool, limit: Option<nat>)
    requires Inv(st) && Enabled(st, Spawn(parent, agent, limit))
    requires L.Admit(st.ledger, parent, agent, limit).1.Ok?
    ensures Spawned(st, Next(st, Spawn(parent, agent, limit)), parent, L.NewScope(st.ledger, parent, agent, limit))
  {
  }

  lemma SpawnedNode(st: State, next: State, parent: NodeId, scope: L.Scope, n: NodeId)
    requires Inv(st) && Spawned(st, next, parent, scope) && n < |next.nodes|
    ensures NodeOk(next, n)
  {
    if n < |st.nodes| {
      assert NodeOk(st, n);
    }
  }

  lemma SpawnedOldChild(st: State, next: State, parent: NodeId, scope: L.Scope, c: NodeId)
    requires Spawned(st, next, parent, scope) && c < |st.nodes| && ChildOk(st, c)
    requires st.ledger.scopes[c].parent.Some? ==> st.ledger.scopes[c].parent.value < |st.nodes|
    ensures ChildOk(next, c)
  {
  }

  lemma SpawnedChild(st: State, next: State, parent: NodeId, scope: L.Scope, c: NodeId)
    requires Inv(st) && Spawned(st, next, parent, scope) && c < |next.nodes|
    ensures ChildOk(next, c)
  {
    assert L.IsTree(st.Tree());
    hide L.Inv, EventOk, GuardOk, Logged;
    assert NodeOk(st, parent);
    if c < |st.nodes| {
      assert ChildOk(st, c) && (c > 0 ==> st.Tree()[c].value < c);
      hide ChildOk, NodeOk, Spawned, Inv;
      SpawnedOldChild(st, next, parent, scope, c);
    }
  }

  lemma SpawnedEvent(st: State, next: State, parent: NodeId, scope: L.Scope, i: nat)
    requires Inv(st) && Spawned(st, next, parent, scope) && i < |st.log|
    ensures EventOk(next, i)
  {
    assert EventOk(st, i) && NodeOk(st, parent);
  }

  lemma SpawnKeepsInv(st: State, parent: NodeId, agent: bool, limit: Option<nat>)
    requires Inv(st) && Enabled(st, Spawn(parent, agent, limit))
    ensures Inv(Next(st, Spawn(parent, agent, limit)))
  {
    var next := Next(st, Spawn(parent, agent, limit));
    if L.Admit(st.ledger, parent, agent, limit).1.Ok? {
      AdmitKeepsInv(st.ledger, parent, agent, limit);
      SpawnIsSpawned(st, parent, agent, limit);
      var scope := L.NewScope(st.ledger, parent, agent, limit);
      SpawnedKeepsInv(st, next, parent, scope);
    } else {
      LockKeepsInv(st, parent, None);
    }
  }

  lemma SpawnedKeepsInv(st: State, next: State, parent: NodeId, scope: L.Scope)
    requires Inv(st) && Spawned(st, next, parent, scope) && L.Inv(next.ledger)
    ensures Inv(next)
  {
    forall n | 0 <= n < |next.nodes| ensures NodeOk(next, n) {
      SpawnedNode(st, next, parent, scope, n);
    }
    forall c | 0 <= c < |next.nodes| ensures ChildOk(next, c) {
      SpawnedChild(st, next, parent, scope, c);
    }
    forall a | a in next.ledger.attempts ensures GuardOk(next, a) {
      assert GuardOk(st, a);
    }
    forall i | 0 <= i < |next.log| ensures EventOk(next, i) {
      SpawnedEvent(st, next, parent, scope, i);
    }
    forall n | 0 <= n < |next.nodes| ensures Logged(next, n) {
      if n < |st.nodes| {
        assert Logged(st, n);
      }
    }
  }

  // ----- the two records of a node -----

  /** The log grows by `event`, whose node moves on to the phase the event stands for. */
  ghost predicate Recorded(st: State, next: State, node: NodeId, event: Event) {
    && node < |st.nodes| == |st.ledger.scopes| == |next.nodes| == |next.ledger.scopes|
    && event.node == node
    && next.log == st.log + [event]
    && next.nodes == st.nodes[node := st.nodes[node].(phase := next.nodes[node].phase)]
    && next.nodes[node].phase.Rank() >= st.nodes[node].phase.Rank()
    && next.ledger.attempts == st.ledger.attempts
    && (forall n :: 0 <= n < |st.nodes| ==>
          var a, b := st.ledger.scopes[n], next.ledger.scopes[n];
          b.parent == a.parent && b.depth == a.depth && b.own == a.own && b.usage == a.usage
          && b.agent == a.agent && b.admissionClosed == a.admissionClosed && (n != node ==> b.alive == a.alive))
  }

  lemma RecordedEvent(st: State, next: State, node: NodeId, event: Event, i: nat)
    requires Inv(st) && Recorded(st, next, node, event) && i < |st.log|
    ensures EventOk(next, i)
  {
    assert EventOk(st, i);
    assert next.log[..i] == st.log[..i];
  }

  lemma RecordedLogged(st: State, next: State, node: NodeId, event: Event, n: NodeId)
    requires Inv(st) && Recorded(st, next, node, event) && n < |st.nodes| && n != node
    ensures Logged(next, n)
  {
    assert Logged(st, n);
    if HasEnded(st.log, n) {
      var i :| 0 <= i < |st.log| && st.log[i].NodeEnd? && st.log[i].node == n;
      assert next.log[i] == st.log[i];
    }
  }

  lemma RecordedNode(st: State, next: State, node: NodeId, event: Event, n: NodeId)
    requires Inv(st) && Recorded(st, next, node, event) && n < |next.nodes|
    requires st.nodes[node].phase != Finished
    ensures n != node ==> NodeOk(next, n)
    ensures ChildOk(next, n)
  {
    hide L.Inv, EventOk, Logged, GuardOk;
    assert NodeOk(st, n) && ChildOk(st, n);
  }

  lemma RecordedKeepsInv(st: State, next: State, node: NodeId, event: Event)
    requires Inv(st) && Recorded(st, next, node, event) && L.Inv(next.ledger)
    requires NodeOk(next, node) && EventOk(next, |st.log|) && Logged(next, node)
    requires st.nodes[node].phase != Finished
    ensures Inv(next)
  {
    forall a | a in next.ledger.attempts ensures GuardOk(next, a) {
      assert GuardOk(st, a);
    }
    hide NodeOk, ChildOk, GuardOk, L.Inv, EventOk, Logged;
    forall n | 0 <= n < |next.nodes| ensures NodeOk(next, n) && ChildOk(next, n) {
      RecordedNode(st, next, node, event, n);
    }
    forall i | 0 <= i < |next.log| ensures EventOk(next, i) {
      if i < |st.log| {
        RecordedEvent(st, next, node, event, i);
      }
    }
    forall n | 0 <= n < |next.nodes| ensures Logged(next, n) {
      if n != node {
        RecordedLogged(st, next, node, event, n);
      }
    }
  }

  /** When a node ends, the slots of all its children are released already. */
  lemma ChildrenReleased(st: State, node: NodeId, c: NodeId)
    requires Inv(st) && Enabled(st, End(node)) && c < |st.nodes| && st.ledger.scopes[c].parent == Some(node)
    ensures SlotReleased(c) in st.log
  {
    assert ChildOk(st, c) && NodeOk(st, node) && Logged(st, c);
  }

  lemma EndedOnce(st: State, node: NodeId)
    requires Inv(st) && node < |st.nodes| && st.nodes[node].phase.Rank() < Ended.Rank()
    ensures !HasEnded(st.log, node)
  {
    forall i | 0 <= i < |st.log| && st.log[i].NodeEnd? ensures st.log[i].node != node {
      assert EventOk(st, i);
    }
  }

  lemma ReleasedOnce(st: State, node: NodeId)
    requires Inv(st) && node < |st.nodes| && st.nodes[node].phase.Rank() < Released.Rank()
    ensures SlotReleased(node) !in st.log
  {
    forall i | 0 <= i < |st.log| ensures st.log[i] != SlotReleased(node) {
      assert EventOk(st, i);
    }
  }

  lemma EndIsRecorded(st: State, node: NodeId)
    requires Inv(st) && Enabled(st, End(node))
    ensures var scope, next := st.ledger.scopes[node], Next(st, End(node));
            && Recorded(st, next, node, NodeEnd(node, scope.own, scope.usage))
            && NodeOk(next, node) && Logged(next, node)
  {
    hide L.Inv, ChildOk, GuardOk, EventOk;
    var next := Next(st, End(node));
    assert NodeOk(st, node);
    assert next.log[|st.log|].NodeEnd?;
  }

  lemma EndEvent(st: State, node: NodeId)
    requires Inv(st) && Enabled(st, End(node))
    ensures EventOk(Next(st, End(node)), |st.log|)
  {
    hide L.Inv, NodeOk, ChildOk, GuardOk, Logged;
    var next := Next(st, End(node));
    assert next.log[..|st.log|] == st.log;
    EndedOnce(st, node);
    forall c | 0 <= c < |st.nodes| && st.ledger.scopes[c].parent == Some(node) ensures SlotReleased(c) in st.log {
      ChildrenReleased(st, node, c);
    }
  }

  lemma EndKeepsInv(st: State, node: NodeId)
    requires Inv(st) && Enabled(st, End(node))
    ensures Inv(Next(st, End(node)))
  {
    hide NodeOk, ChildOk, GuardOk, EventOk, Logged, Recorded, L.Inv;
    EndIsRecorded(st, node);
    EndEvent(st, node);
    var scope := st.ledger.scopes[node];
    RecordedKeepsInv(st, Next(st, End(node)), node, NodeEnd(node, scope.own, scope.usage));
  }

  lemma ReleaseIsRecorded(st: State, node: NodeId)
    requires Inv(st) && Enabled(st, Release(node))
    ensures var next := Next(st, Release(node));
            && Recorded(st, next, node, SlotReleased(node))
            && NodeOk(next, node) && Logged(next, node)
  {
    hide L.Inv, ChildOk, GuardOk, EventOk;
    var next := Next(st, Release(node));
    assert NodeOk(st, node) && Logged(st, node);
    var i :| 0 <= i < |st.log| && st.log[i].NodeEnd? && st.log[i].node == node;
    assert next.log[i] == st.log[i];
    assert next.log[|st.log|] == SlotReleased(node);
  }

  lemma ReleaseEvent(st: State, node: NodeId)
    requires Inv(st) && Enabled(st, Release(node))
    ensures EventOk(Next(st, Release(node)), |st.log|)
  {
    hide L.Inv, NodeOk, ChildOk, GuardOk;
    var next := Next(st, Release(node));
    assert Logged(st, node);
    assert next.log[..|st.log|] == st.log;
    ReleasedOnce(st, node);
  }

  lemma ReleaseKeepsInv(st: State, node: NodeId)
    requires Inv(st) && Enabled(st, Release(node))
    ensures Inv(Next(st, Release(node)))
  {
    hide NodeOk, ChildOk, GuardOk, EventOk, Logged, Recorded, L.Inv, L.Shutdown;
    ShutdownKeepsInv(st.ledger, node);
    ReleaseIsRecorded(st, node);
    ReleaseEvent(st, node);
    RecordedKeepsInv(st, Next(st, Release(node)), node, SlotReleased(node));
  }

  lemma NextKeepsInv(st: State, op: Op)
    requires Inv(st) && Enabled(st, op)
    ensures Inv(Next(st, op))
  {
    match op
    case BeginSpawn(node, request) => LockKeepsInv(st, node, Some(request));
    case Abandon(node) => LockKeepsInv(st, node, None);
    case Spawn(parent, agent, limit) => SpawnKeepsInv(st, parent, agent, limit);
    case Cancel(node) => CancelKeepsInv(st, node);
    case Attempt(node, prompt, requested) => AttemptKeepsInv(st, node, prompt, requested);
    case Dispatch(node) => DispatchKeepsInv(st, node);
    case Settle(node, charge) => SettleKeepsInv(st, node, charge);
    case Return(node) => ReturnKeepsInv(st, node);
    case CloseWork(node) => CloseWorkKeepsInv(st, node);
    case Reap(node, child) => JoinKeepsInv(st, op);
    case Join(node, child) => JoinKeepsInv(st, op);
    case End(node) => EndKeepsInv(st, node);
    case Release(node) => ReleaseKeepsInv(st, node);
    case Finish(node) => FinishKeepsInv(st, node);
  }
}
