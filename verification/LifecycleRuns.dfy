/** Structured concurrency, over every interleaving of lifecycle steps. */
module LifecycleRuns {
  import opened Common
  import L = LedgerSpec
  import opened LedgerInvariant
  import opened Lifecycle
  import opened LifecycleInvariant

  /** One step of the schedule; a step that is not enabled is not taken. */
  ghost function Step(st: State, op: Op): (next: State)
    requires Inv(st)
    ensures Inv(next)
  {
    if Enabled(st, op) then NextKeepsInv(st, op); Next(st, op) else st
  }

  ghost function Run(st: State, ops: seq<Op>): (next: State)
    requires Inv(st)
    ensures Inv(next)
    decreases |ops|
  {
    if ops == [] then st else Run(Step(st, ops[0]), ops[1..])
  }

  ghost function Reached(limits: L.Limits, ops: seq<Op>): (st: State)
    ensures Inv(st)
  {
    LifecycleInvariant.InitHasInv(limits);
    Run(Init(limits), ops)
  }

  // ----- safety -----

  /** The end and the release of every strict descendant precede the end of a node. */
  lemma {:induction false} DescendantsEndFirst(st: State, i: nat, d: NodeId)
    requires Inv(st) && i < |st.log| && st.log[i].NodeEnd?
    requires L.Covers(st.Tree(), st.log[i].node, d) && d != st.log[i].node
    ensures SlotReleased(d) in st.log[..i] && HasEnded(st.log[..i], d)
    decreases d
  {
    var up := st.Tree()[d].value;
    assert EventOk(st, i);
    L.CoversBounds(st.Tree(), st.log[i].node, d);
    if up != st.log[i].node {
      DescendantsEndFirst(st, i, up);
      var k :| 0 <= k < i && st.log[..i][k].NodeEnd? && st.log[..i][k].node == up;
      assert EventOk(st, k);
      assert SlotReleased(d) in st.log[..k];
    }
    var j :| 0 <= j < i && st.log[j] == SlotReleased(d);
    assert EventOk(st, j);
    var e :| 0 <= e < j && st.log[..j][e].NodeEnd? && st.log[..j][e].node == d;
    assert st.log[..i][e] == st.log[..j][e];
  }

  /** In every run, whatever ends below a node has ended and released its slot before that node ends. */
  lemma ChildrenEndBeforeParents(limits: L.Limits, ops: seq<Op>, i: nat, d: NodeId)
    requires i < |Reached(limits, ops).log| && Reached(limits, ops).log[i].NodeEnd?
    requires var st := Reached(limits, ops); L.Covers(st.Tree(), st.log[i].node, d) && d != st.log[i].node
    ensures var log := Reached(limits, ops).log; SlotReleased(d) in log[..i] && HasEnded(log[..i], d)
  {
    DescendantsEndFirst(Reached(limits, ops), i, d);
  }

  /** An alive scope has only alive ancestors, and the live count is the number of alive agents. */
  lemma AliveAncestors(limits: L.Limits, ops: seq<Op>, a: NodeId, n: NodeId)
    requires var st := Reached(limits, ops);
             L.Covers(st.Tree(), a, n) && st.ledger.scopes[n].alive
    ensures var st := Reached(limits, ops);
            && a < |st.ledger.scopes| && st.ledger.scopes[a].alive
            && st.ledger.live == L.Sum(|st.ledger.scopes|, L.LiveAgents(st.ledger.scopes))
  {
    var st := Reached(limits, ops);
    L.CoversBounds(st.Tree(), a, n);
    hide Reached, ChildOk, GuardOk, EventOk, Logged;
    assert NodeOk(st, a) && NodeOk(st, n);
    if !st.ledger.scopes[a].alive {
      EndedSubtree(st, a, n);
    }
  }

  /** Once a node has ended, no attempt is outstanding anywhere in its subtree and nothing is reserved. */
  lemma EndedHoldsNothing(st: State, n: NodeId)
    requires Inv(st) && n < |st.nodes| && st.nodes[n].phase.Rank() >= Ended.Rank()
    ensures L.Outstanding(st.ledger, n) == {}
    ensures st.ledger.scopes[n].budget.reserved == 0
  {
    forall a | a in st.ledger.attempts ensures !L.Covers(st.Tree(), n, st.ledger.attempts[a].node) {
      var m := st.ledger.attempts[a].node;
      assert GuardOk(st, a) && NodeOk(st, m);
      RunningIsNotBelowEnded(st, n, m);
    }
    SumZero(st.ledger.nextAttempt, L.Held(st.ledger.scopes, st.ledger.attempts, n));
    assert L.Conserved(st.ledger, n);
  }

  /** The usage in a node_end record is the node's final usage: no later step changes it. */
  lemma RecordedUsageIsFinal(limits: L.Limits, ops: seq<Op>, i: nat)
    requires i < |Reached(limits, ops).log| && Reached(limits, ops).log[i].NodeEnd?
    ensures var st := Reached(limits, ops);
            var end := st.log[i];
            && end.node < |st.ledger.scopes|
            && end.own == st.ledger.scopes[end.node].own
            && end.subtree == st.ledger.scopes[end.node].usage
            && L.Outstanding(st.ledger, end.node) == {}
            && st.ledger.scopes[end.node].budget.reserved == 0
            && st.ledger.scopes[end.node].budget.used == end.subtree.Total()
  {
    var st := Reached(limits, ops);
    assert EventOk(st, i);
    EndedHoldsNothing(st, st.log[i].node);
    assert L.Conserved(st.ledger, st.log[i].node);
  }

  // ----- what steps do to the tree -----

  lemma StepKeepsClosed(st: State, op: Op, n: NodeId)
    requires Inv(st) && n < |st.nodes| && st.nodes[n].closed
    ensures var next := Step(st, op); n < |next.nodes| && next.nodes[n].closed
  {
    hide L.Admit, L.Reserve, L.Settle, L.CloseAdmission, L.Shutdown, L.Inv, EventOk, GuardOk;
    assert NodeOk(st, n);
  }

  lemma OtherTree(st: State, op: Op)
    requires Inv(st) && !op.Spawn?
    ensures Step(st, op).Tree() == st.Tree()
  {
    var next := Step(st, op);
    if Enabled(st, op) {
      if op.Return? && HasGuard(st, op.node) {
        var dropped := DoSettle(st, op.node, st.nodes[op.node].guard.value.DropCharge());
        assert dropped.Tree() == st.Tree();
        assert next.ledger == dropped.ledger;
      } else if op.Attempt? || op.Settle? || op.CloseWork? || op.Release? {
        assert |next.ledger.scopes| == |st.ledger.scopes|;
      } else {
        assert next.ledger == st.ledger;
      }
    }
  }

  // ----- shutdown completes -----

  /** Steps a node still has to take before it is finished. */
  ghost function Left(node: Node): nat {
    Finished.Rank() - node.phase.Rank() + |node.tasks| + |node.joining| + if node.spawning.Some? then 1 else 0
  }

  ghost function AllLeft(nodes: seq<Node>): nat {
    if nodes == [] then 0 else AllLeft(nodes[..|nodes| - 1]) + Left(nodes[|nodes| - 1])
  }

  lemma {:induction false} OneLess(nodes: seq<Node>, n: NodeId, node: Node)
    requires n < |nodes| && Left(node) < Left(nodes[n])
    ensures AllLeft(nodes[n := node]) < AllLeft(nodes)
    decreases |nodes|
  {
    var last := |nodes| - 1;
    if n == last {
      assert nodes[n := node][..last] == nodes[..last];
    } else {
      assert nodes[n := node][..last] == nodes[..last][n := node];
      OneLess(nodes[..last], n, node);
    }
  }

  /** The steps that take a node towards its end. */
  ghost predicate Advances(op: Op) {
    op.Abandon? || op.Return? || op.CloseWork? || op.Reap? || op.Join? || op.End? || op.Release? || op.Finish?
  }

  ghost predicate AllFinished(st: State) {
    forall n :: 0 <= n < |st.nodes| ==> st.nodes[n].phase == Finished
  }

  /** A node whose children are finished can move on by itself. */
  lemma CanMove(st: State, n: NodeId) returns (op: Op)
    requires Inv(st) && n < |st.nodes| && st.nodes[n].phase != Finished
    requires forall c :: n < c < |st.nodes| && st.ledger.scopes[c].parent == Some(n) ==> st.nodes[c].phase == Finished
    ensures Advances(op) && op.node == n && Enabled(st, op)
  {
    assert NodeOk(st, n);
    match st.nodes[n].phase
    case Running => op := Return(n);
    case Closing => op := if st.nodes[n].spawning.Some? then Abandon(n) else CloseWork(n);
    case Joining =>
      if c :| c in st.nodes[n].joining {
        assert c in st.nodes[n].tasks + st.nodes[n].joining;
        assert st.Tree()[c] == Some(n);
        op := Join(n, c);
      } else {
        op := End(n);
      }
    case Ended => op := Release(n);
    case Released => op := Finish(n);
  }

  /** The youngest unfinished node can always move: all its children are finished. */
  lemma NeverStuck(st: State)
    requires Inv(st) && !AllFinished(st)
    ensures exists op :: Advances(op) && Enabled(st, op)
  {
    var op := CanMove(st, Youngest(st));
  }

  ghost function Youngest(st: State): (n: NodeId)
    requires !AllFinished(st)
    ensures n < |st.nodes| && st.nodes[n].phase != Finished
    ensures forall m :: n < m < |st.nodes| ==> st.nodes[m].phase == Finished
  {
    YoungestBelow(st, |st.nodes|)
  }

  ghost function YoungestBelow(st: State, bound: nat): (n: NodeId)
    requires bound <= |st.nodes|
    requires exists m :: 0 <= m < bound && st.nodes[m].phase != Finished
    ensures n < bound && st.nodes[n].phase != Finished
    ensures forall m :: n < m < bound ==> st.nodes[m].phase == Finished
  {
    if st.nodes[bound - 1].phase != Finished then bound - 1 else YoungestBelow(st, bound - 1)
  }

  lemma ClosingMovesLess(st: State, node: NodeId)
    requires Inv(st) && Enabled(st, CloseWork(node))
    ensures AllLeft(Next(st, CloseWork(node)).nodes) < AllLeft(st.nodes)
  {
    var nodes := CancelBelow(st, node);
    SameLeft(st.nodes, nodes);
    assert NodeOk(st, node);
    OneLess(nodes, node, Next(st, CloseWork(node)).nodes[node]);
  }

  lemma ReturnMovesLess(st: State, node: NodeId)
    requires Inv(st) && Enabled(st, Return(node))
    ensures AllLeft(Next(st, Return(node)).nodes) < AllLeft(st.nodes)
  {
    var nodes := DoReturn(st, node).nodes;
    assert nodes == st.nodes[node := nodes[node]];
    OneLess(st.nodes, node, nodes[node]);
  }

  lemma PhaseMovesLess(st: State, op: Op)
    requires Inv(st) && Enabled(st, op) && (op.End? || op.Release? || op.Finish?)
    ensures AllLeft(Next(st, op).nodes) < AllLeft(st.nodes)
  {
    OneLess(st.nodes, op.node, Next(st, op).nodes[op.node]);
  }

  lemma AbandonMovesLess(st: State, node: NodeId)
    requires Inv(st) && Enabled(st, Abandon(node))
    ensures AllLeft(Next(st, Abandon(node)).nodes) < AllLeft(st.nodes)
  {
    OneLess(st.nodes, node, Next(st, Abandon(node)).nodes[node]);
  }

  lemma JoinMovesLess(st: State, op: Op)
    requires Inv(st) && Enabled(st, op) && (op.Reap? || op.Join?)
    ensures AllLeft(Next(st, op).nodes) < AllLeft(st.nodes)
  {
    OneLess(st.nodes, op.node, Next(st, op).nodes[op.node]);
  }

  /** Every such step brings the end nearer, so shutdown cannot go on for ever. */
  lemma AdvanceShortens(st: State, op: Op)
    requires Inv(st) && Advances(op) && Enabled(st, op)
    ensures AllLeft(Step(st, op).nodes) < AllLeft(st.nodes)
  {
    match op
    case CloseWork(n) => ClosingMovesLess(st, n);
    case Abandon(n) => AbandonMovesLess(st, n);
    case Return(n) => ReturnMovesLess(st, n);
    case Reap(n, child) => JoinMovesLess(st, op);
    case Join(n, child) => JoinMovesLess(st, op);
    case End(n) => PhaseMovesLess(st, op);
    case Release(n) => PhaseMovesLess(st, op);
    case Finish(n) => PhaseMovesLess(st, op);
  }

  lemma {:induction false} SameLeft(a: seq<Node>, b: seq<Node>)
    requires |a| == |b| && forall n :: 0 <= n < |a| ==> Left(a[n]) == Left(b[n])
    ensures AllLeft(a) == AllLeft(b)
    decreases |a|
  {
    if a != [] {
      SameLeft(a[..|a| - 1], b[..|b| - 1]);
    }
  }

  /** From every reachable state some schedule finishes every node, and then nothing is held or live. */
  lemma {:induction false} ShutdownCompletes(st: State) returns (ops: seq<Op>)
    requires Inv(st)
    ensures AllFinished(Run(st, ops))
    ensures |ops| <= AllLeft(st.nodes)
    ensures Run(st, ops).ledger.live == 0
    ensures Run(st, ops).ledger.scopes[0].budget.reserved == 0
    decreases AllLeft(st.nodes)
  {
    if AllFinished(st) {
      ops := [];
      EndedHoldsNothing(st, 0);
      forall n | 0 <= n < |st.nodes| ensures !st.ledger.scopes[n].alive {
        assert NodeOk(st, n);
      }
      SumZero(|st.ledger.scopes|, L.LiveAgents(st.ledger.scopes));
    } else {
      NeverStuck(st);
      var op :| Advances(op) && Enabled(st, op);
      AdvanceShortens(st, op);
      var rest := ShutdownCompletes(Step(st, op));
      ops := [op] + rest;
      assert ops[1..] == rest;
    }
  }
}
