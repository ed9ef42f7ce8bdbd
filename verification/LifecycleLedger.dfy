/** Every run of the lifecycle is a run of the ledger: what is proved of ledger runs holds of the agents that use it. */
module LifecycleLedger {
  import opened Common
  import L = LedgerSpec
  import R = LedgerRuns
  import opened Lifecycle
  import opened LifecycleInvariant
  import opened LifecycleRuns

  /**
   What a lifecycle step does to the ledger: a spawn admits, an attempt reserves, its owner settles it with a charge, a
   guard that is dropped settles in full once its request was dispatched and at nothing before, closing work closes the
   admission and a release gives the slot back.
   */
  ghost function LedgerOps(st: State, op: Op): seq<R.Op> {
    if !Enabled(st, op) then []
    else
      match op
      case Spawn(parent, agent, limit) => [R.OpAdmit(parent, agent, limit)]
      case Attempt(node, prompt, requested) => [R.OpReserve(node, prompt, requested)]
      case Settle(node, charge) => [R.OpSettle(st.nodes[node].guard.value.id, charge)]
      case Return(node) =>
        var guard := st.nodes[node].guard;
        if guard.None? then []
        else [R.OpSettle(guard.value.id, L.Failed(if guard.value.dispatched then L.Reserved else L.Zero))]
      case CloseWork(node) => [R.OpCloseAdmission(node)]
      case Release(node) => [R.OpShutdown(node)]
      case _ => []
  }

  lemma RunOne(st: L.State, op: R.Op)
    requires L.Inv(st)
    ensures R.Run(st, [op]) == R.Step(st, op)
  {
    assert [op][1..] == [];
    assert R.Run(R.Step(st, op), []) == R.Step(st, op);
  }

  lemma GuardIsHeld(st: State, node: NodeId)
    requires Inv(st) && node < |st.nodes| && st.nodes[node].guard.Some?
    ensures HasGuard(st, node)
  {
    assert NodeOk(st, node);
  }

  /** One step, and the ledger's part of it. */
  lemma StepOnLedger(st: State, op: Op)
    requires Inv(st)
    ensures Step(st, op).ledger == R.Run(st.ledger, LedgerOps(st, op))
  {
    hide L.Inv, L.Admit, L.Reserve, L.Settle, L.CloseAdmission, L.Shutdown, NodeOk, ChildOk, GuardOk, EventOk, Logged;
    if Enabled(st, op) {
      match op
      case Spawn(parent, agent, limit) =>
        RunOne(st.ledger, R.OpAdmit(parent, agent, limit));
        RefusedAdmission(st.ledger, parent, agent, limit);
      case Attempt(node, prompt, requested) =>
        RunOne(st.ledger, R.OpReserve(node, prompt, requested));
        RefusedChangesNothing(st.ledger, node, prompt, requested);
      case Settle(node, charge) => RunOne(st.ledger, R.OpSettle(st.nodes[node].guard.value.id, charge));
      case Return(node) =>
        if st.nodes[node].guard.Some? {
          GuardIsHeld(st, node);
          RunOne(st.ledger, LedgerOps(st, op)[0]);
        }
      case CloseWork(node) => RunOne(st.ledger, R.OpCloseAdmission(node));
      case Release(node) => RunOne(st.ledger, R.OpShutdown(node));
      case _ =>
    }
  }

  lemma RefusedChangesNothing(st: L.State, node: NodeId, prompt: nat, requested: nat)
    ensures L.Reserve(st, node, prompt, requested).1.Err? ==> L.Reserve(st, node, prompt, requested).0 == st
  {
  }

  lemma RefusedAdmission(st: L.State, parent: NodeId, agent: bool, limit: Option<nat>)
    ensures L.Admit(st, parent, agent, limit).1.Err? ==> L.Admit(st, parent, agent, limit).0 == st
  {
    hide L.AdmitError, L.NewScope;
  }

  /** The operations of a run on the ledger. */
  ghost function LedgerRun(st: State, ops: seq<Op>): seq<R.Op>
    requires Inv(st)
    decreases |ops|
  {
    if ops == [] then [] else LedgerOps(st, ops[0]) + LedgerRun(Step(st, ops[0]), ops[1..])
  }

  lemma {:induction false} RunConcat(st: L.State, a: seq<R.Op>, b: seq<R.Op>)
    requires L.Inv(st)
    ensures R.Run(st, a + b) == R.Run(R.Run(st, a), b)
    decreases |a|
  {
    hide R.Step, L.Inv;
    if a == [] {
      assert a + b == b;
    } else {
      RunConcat(R.Step(st, a[0]), a[1..], b);
      assert (a + b)[1..] == a[1..] + b;
    }
  }

  lemma {:induction false} RunOnLedger(st: State, ops: seq<Op>)
    requires Inv(st)
    ensures Run(st, ops).ledger == R.Run(st.ledger, LedgerRun(st, ops))
    decreases |ops|
  {
    hide Step, Inv, LedgerOps, R.Step;
    if ops != [] {
      StepOnLedger(st, ops[0]);
      RunOnLedger(Step(st, ops[0]), ops[1..]);
      LedgerHasInv(st);
      RunConcat(st.ledger, LedgerOps(st, ops[0]), LedgerRun(Step(st, ops[0]), ops[1..]));
    }
  }

  lemma LedgerHasInv(st: State)
    requires Inv(st)
    ensures L.Inv(st.ledger)
  {
  }

  /** Whatever the agents do, their ledger is one that ledger operations reach. */
  lemma LifecycleIsLedgerRun(limits: L.Limits, ops: seq<Op>)
    ensures Inv(Init(limits))
    ensures LifecycleRuns.Reached(limits, ops).ledger == R.Reached(limits, LedgerRun(Init(limits), ops))
  {
    LifecycleInvariant.InitHasInv(limits);
    RunOnLedger(Init(limits), ops);
  }
  /**
   A child spawned with a limit of its own keeps to it whatever the agents do: while its scope is open, what it has used
   and holds is within the limit; once a settlement closed it, it never uses more than the limit and the excess of the
   attempts outstanding before that settlement.
   */
  lemma ChildKeepsItsLimit(st: State, parent: NodeId, limit: nat, ops: seq<Op>) returns (closing: nat)
    requires Inv(st) && Enabled(st, Spawn(parent, true, Some(limit)))
    requires L.Admit(st.ledger, parent, true, Some(limit)).1.Ok?
    ensures var s, start := |st.nodes|, Step(st, Spawn(parent, true, Some(limit)));
            var end, below := Run(start, ops).ledger, LedgerRun(start, ops);
            && s < |end.scopes|
            && (!end.scopes[s].budget.closed ==> end.scopes[s].budget.used + end.scopes[s].budget.reserved <= limit)
            && (end.scopes[s].budget.closed ==>
                  && closing < |below| && R.IsClosing(start.ledger, below, s, closing)
                  && R.UsesAtMost(end, s, limit, L.Outstanding(R.Run(start.ledger, below[..closing]), s)))
  {
    hide Step, L.Inv, L.Admit, Run, R.Run, R.IsClosing, R.UsesAtMost, NodeOk, ChildOk, GuardOk, EventOk, Logged, LedgerRun, R.Step;
    var op := Spawn(parent, true, Some(limit));
    var start := Step(st, op);
    StepOnLedger(st, op);
    RunOne(st.ledger, R.OpAdmit(parent, true, Some(limit)));
    RunOnLedger(start, ops);
    closing := R.AskedBound(st.ledger, parent, true, limit, LedgerRun(start, ops));
  }
}
