/** What holds after any interleaving of ledger operations: one operation is one atomic step. */
module LedgerRuns {
  import opened Common
  import opened LedgerSpec
  import opened LedgerInvariant

  datatype Op =
    | OpAdmit(parent: NodeId, agent: bool, limit: Option<nat>)
    | OpReserve(node: NodeId, prompt: nat, requested: nat)
    | OpSettle(id: AttemptId, charge: Charge)
    | OpCloseAdmission(node: NodeId)
    | OpShutdown(node: NodeId)

  /** One operation. A settlement names an unsettled attempt and a shutdown a known node; others do nothing. */
  ghost function Step(st: State, op: Op): (next: State)
    requires Inv(st)
    ensures Inv(next)
  {
    match op
    case OpAdmit(parent, agent, limit) =>
      AdmitKeepsInv(st, parent, agent, limit);
      Admit(st, parent, agent, limit).0
    case OpReserve(node, prompt, requested) =>
      ReserveKeepsInv(st, node, prompt, requested);
      Reserve(st, node, prompt, requested).0
    case OpSettle(id, charge) =>
      if id in st.attempts then SettleKeepsInv(st, id, charge); Settle(st, id, charge) else st
    case OpCloseAdmission(node) =>
      if node < |st.scopes| then CloseAdmissionKeepsInv(st, node); CloseAdmission(st, node) else st
    case OpShutdown(node) =>
      if node < |st.scopes| then ShutdownKeepsInv(st, node); Shutdown(st, node) else st
  }

  ghost function Run(st: State, ops: seq<Op>): (next: State)
    requires Inv(st)
    ensures Inv(next)
    decreases |ops|
  {
    if ops == [] then st else Run(Step(st, ops[0]), ops[1..])
  }

  /** A fresh ledger after any sequence of operations. */
  ghost function Reached(limits: Limits, ops: seq<Op>): (st: State)
    ensures Inv(st)
  {
    InitHasInv(limits);
    Run(Init(limits), ops)
  }

  // ----- a closed scope -----

  /** What no operation takes back of a scope. */
  ghost predicate KeepsScope(before: Scope, next: Scope) {
    && next.parent == before.parent && next.budget.limit == before.budget.limit
    && (before.budget.closed ==> next.budget.closed)
    && before.budget.used <= next.budget.used
  }

  lemma TakenKeepsScope(st: State, next: State, node: NodeId, tokens: nat, s: NodeId)
    requires Taken(st, next, node, tokens) && s < |st.scopes|
    ensures |next.scopes| == |st.scopes| && KeepsScope(st.scopes[s], next.scopes[s])
  {
  }

  lemma PaidKeepsScope(st: State, next: State, id: AttemptId, usage: Usage, s: NodeId)
    requires Paid(st, next, id, usage) && s < |st.scopes|
    ensures |next.scopes| == |st.scopes| && KeepsScope(st.scopes[s], next.scopes[s])
  {
  }

  /** Tokens taken that fit every scope on the path. */
  ghost predicate FitTaken(st: State, next: State, node: NodeId, tokens: nat) {
    Taken(st, next, node, tokens) && Headroom(st.scopes, node, tokens) && tokens > 0
  }

  /** One of the changes a step can be. */
  ghost predicate IsMove(st: State, next: State) {
    || next == st
    || (exists scope :: Grown(st, next, scope))
    || (exists node, tokens :: FitTaken(st, next, node, tokens))
    || (exists id, usage :: Paid(st, next, id, usage))
    || SameBooks(st, next)
  }

  lemma AdmitIsMove(st: State, parent: NodeId, agent: bool, limit: Option<nat>)
    ensures IsMove(st, Admit(st, parent, agent, limit).0)
  {
    if Admit(st, parent, agent, limit).1.Ok? {
      AdmitGrows(st, parent, agent, limit);
    }
    hide NewScope, Grown, AdmitError, FitTaken, Paid, SameBooks;
  }

  lemma ReserveIsMove(st: State, node: NodeId, prompt: nat, requested: nat)
    ensures IsMove(st, Reserve(st, node, prompt, requested).0)
  {
    hide Cap, OnPath, Headroom, Take;
    if CanReserve(st, node, prompt, requested) {
      ReserveFits(st, node, prompt, requested);
      var (next, r) := Reserve(st, node, prompt, requested);
      assert FitTaken(st, next, node, r.value.tokens);
    }
  }

  lemma SettleIsMove(st: State, id: AttemptId, charge: Charge)
    requires id in st.attempts && st.attempts[id].node < |st.scopes|
    ensures IsMove(st, Settle(st, id, charge))
  {
    hide OnPath, ChargeUsage;
    assert Paid(st, Settle(st, id, charge), id, ChargeUsage(st.attempts[id].tokens, charge));
  }

  lemma EndIsMove(st: State, node: NodeId)
    requires node < |st.scopes|
    ensures IsMove(st, CloseAdmission(st, node)) && IsMove(st, Shutdown(st, node))
  {
  }

  lemma StepIsMove(st: State, op: Op)
    requires Inv(st)
    ensures IsMove(st, Step(st, op))
  {
    AttemptsOfInv(st);
    NoMove(st);
    hide Inv, IsMove, Admit, Reserve, Settle, CloseAdmission, Shutdown;
    match op
    case OpAdmit(parent, agent, limit) => AdmitIsMove(st, parent, agent, limit);
    case OpReserve(node, prompt, requested) => ReserveIsMove(st, node, prompt, requested);
    case OpSettle(id, charge) =>
      if id in st.attempts {
        SettleIsMove(st, id, charge);
      }
    case OpCloseAdmission(node) =>
      if node < |st.scopes| {
        EndIsMove(st, node);
      }
    case OpShutdown(node) =>
      if node < |st.scopes| {
        EndIsMove(st, node);
      }
  }

  lemma AttemptsOfInv(st: State)
    requires Inv(st)
    ensures AttemptsKnown(st)
  {
  }

  lemma NoMove(st: State)
    ensures IsMove(st, st)
  {
  }

  lemma MoveKeepsScope(st: State, next: State, s: NodeId)
    requires IsMove(st, next) && s < |st.scopes|
    ensures |st.scopes| <= |next.scopes| && KeepsScope(st.scopes[s], next.scopes[s])
  {
    hide Taken, Paid;
    if node: NodeId, tokens: nat :| FitTaken(st, next, node, tokens) {
      TakenKeepsScope(st, next, node, tokens, s);
    } else if id: AttemptId, usage :| Paid(st, next, id, usage) {
      PaidKeepsScope(st, next, id, usage, s);
    }
  }

  lemma StepKeepsScope(st: State, op: Op, s: NodeId)
    requires Inv(st) && s < |st.scopes|
    ensures |st.scopes| <= |Step(st, op).scopes| && KeepsScope(st.scopes[s], Step(st, op).scopes[s])
  {
    hide Step, Inv, IsMove;
    StepIsMove(st, op);
    MoveKeepsScope(st, Step(st, op), s);
  }

  /** Nothing below a closed scope is admitted or reserved any more. */
  lemma ClosedRefuses(st: State, s: NodeId, node: NodeId)
    requires Inv(st) && s < |st.scopes| && st.scopes[s].budget.closed
    requires Covers(TreeOf(st.scopes), s, node)
    ensures forall prompt: nat, requested: nat :: !CanReserve(st, node, prompt, requested)
    ensures forall agent, limit :: Admit(st, node, agent, limit).1.Err?
  {
    forall tokens: nat | tokens > 0 ensures !Headroom(st.scopes, node, tokens) {
      assert st.scopes[s].budget.Remaining() == 0;
    }
  }

  /** Once closed, a scope stays closed and refuses everything at or below it, whatever happens next. */
  lemma {:induction false} ClosedForever(st: State, ops: seq<Op>, s: NodeId)
    requires Inv(st) && s < |st.scopes| && st.scopes[s].budget.closed
    ensures var end := Run(st, ops);
            && s < |end.scopes| && end.scopes[s].budget.closed
            && end.scopes[s].budget.limit == st.scopes[s].budget.limit
            && (forall node, prompt: nat, requested: nat :: Covers(TreeOf(end.scopes), s, node) ==>
                  !CanReserve(end, node, prompt, requested))
            && (forall node, agent, limit :: Covers(TreeOf(end.scopes), s, node) ==>
                  Admit(end, node, agent, limit).1.Err?)
    decreases |ops|
  {
    if ops == [] {
      forall node | Covers(TreeOf(st.scopes), s, node)
        ensures forall prompt: nat, requested: nat :: !CanReserve(st, node, prompt, requested)
        ensures forall agent, limit :: Admit(st, node, agent, limit).1.Err?
      {
        ClosedRefuses(st, s, node);
      }
    } else {
      StepKeepsScope(st, ops[0], s);
      ClosedForever(Step(st, ops[0]), ops[1..], s);
    }
  }

  // ----- the overshoot bound -----

  /** `s` is closed and has passed its limit by no more than the excess of `ids`, which include all it still waits for. */
  ghost predicate Bounded(st: State, s: NodeId, ids: set<AttemptId>) {
    && s < |st.scopes|
    && var budget := st.scopes[s].budget;
    && budget.closed
    && budget.used + budget.reserved <= budget.limit + Sum(st.nextAttempt, Excess(st.settled, ids))
    && Outstanding(st, s) <= ids
  }

  lemma PaidExcess(st: State, next: State, id: AttemptId, usage: Usage, ids: set<AttemptId>)
    requires AttemptsKnown(st) && Paid(st, next, id, usage)
    ensures Sum(next.nextAttempt, Excess(next.settled, ids))
         == Sum(st.nextAttempt, Excess(st.settled, ids))
            + (if id in ids then Monus(usage.Total(), st.attempts[id].tokens) else 0)
  {
    SumChange(st.nextAttempt, Excess(st.settled, ids), Excess(next.settled, ids), id);
  }

  lemma PaidBounded(st: State, next: State, id: AttemptId, usage: Usage, s: NodeId, ids: set<AttemptId>)
    requires AttemptsKnown(st) && Paid(st, next, id, usage) && s < |st.scopes| && Conserved(st, s)
    requires Bounded(st, s, ids)
    ensures Bounded(next, s, ids)
  {
    PaidKeepsTree(st, next, id, usage);
    PaidExcess(st, next, id, usage, ids);
    if Covers(TreeOf(st.scopes), s, st.attempts[id].node) {
      HeldByAncestors(st, id, s);
      assert id in Outstanding(st, s);
    }
  }

  lemma TakenBounded(st: State, next: State, node: NodeId, tokens: nat, s: NodeId, ids: set<AttemptId>)
    requires AttemptsKnown(st) && Taken(st, next, node, tokens) && s < |st.scopes|
    requires Headroom(st.scopes, node, tokens) && tokens > 0
    requires Bounded(st, s, ids)
    ensures Bounded(next, s, ids)
  {
    OnPathKeepsTree(st.scopes, node, Hold(tokens));
    assert st.scopes[s].budget.Remaining() == 0;
    assert !Covers(TreeOf(st.scopes), s, node);
    SumGrows(st.nextAttempt, next.nextAttempt, Excess(st.settled, ids));
  }

  lemma GrownBounded(st: State, next: State, scope: Scope, s: NodeId, ids: set<AttemptId>)
    requires IsTree(TreeOf(st.scopes)) && AttemptsKnown(st) && Grown(st, next, scope)
    requires Bounded(st, s, ids)
    ensures Bounded(next, s, ids)
  {
    GrownTree(st, next, scope);
    forall a | a in Outstanding(next, s) ensures a in ids {
      assert SameCover(st.scopes, next.scopes, s, st.attempts[a].node);
      assert a in Outstanding(st, s);
    }
  }

  lemma SameBooksBounded(st: State, next: State, s: NodeId, ids: set<AttemptId>)
    requires SameBooks(st, next) && Bounded(st, s, ids)
    ensures Bounded(next, s, ids)
  {
    assert TreeOf(next.scopes) == TreeOf(st.scopes);
  }

  lemma MoveBounded(st: State, next: State, s: NodeId, ids: set<AttemptId>)
    requires IsMove(st, next) && IsTree(TreeOf(st.scopes)) && AttemptsKnown(st) && Bounded(st, s, ids)
    requires s < |st.scopes| && Conserved(st, s)
    ensures Bounded(next, s, ids)
  {
    hide Taken, Paid, Grown, SameBooks, Bounded, Conserved, AttemptsKnown;
    if next == st {
    } else if scope :| Grown(st, next, scope) {
      GrownBounded(st, next, scope, s, ids);
    } else if node: NodeId, tokens: nat :| FitTaken(st, next, node, tokens) {
      TakenBounded(st, next, node, tokens, s, ids);
    } else if id: AttemptId, usage :| Paid(st, next, id, usage) {
      PaidBounded(st, next, id, usage, s, ids);
    } else {
      SameBooksBounded(st, next, s, ids);
    }
  }

  lemma StepBounded(st: State, op: Op, s: NodeId, ids: set<AttemptId>)
    requires Inv(st) && Bounded(st, s, ids)
    ensures Bounded(Step(st, op), s, ids)
  {
    hide Step, IsMove, Conserved, AttemptsKnown, IsTree;
    StepIsMove(st, op);
    MoveBounded(st, Step(st, op), s, ids);
  }

  lemma {:induction false} RunBounded(st: State, ops: seq<Op>, s: NodeId, ids: set<AttemptId>)
    requires Inv(st) && Bounded(st, s, ids)
    ensures Bounded(Run(st, ops), s, ids)
    decreases |ops|
  {
    if ops != [] {
      StepBounded(st, ops[0], s, ids);
      RunBounded(Step(st, ops[0]), ops[1..], s, ids);
    }
  }

  lemma PaidCloses(st: State, next: State, id: AttemptId, usage: Usage, s: NodeId)
    requires AttemptsKnown(st) && Paid(st, next, id, usage) && s < |st.scopes| && Conserved(st, s)
    requires Within(st.scopes[s].budget) && !st.scopes[s].budget.closed && next.scopes[s].budget.closed
    ensures id in Outstanding(st, s)
    ensures Bounded(next, s, Outstanding(st, s))
  {
    PaidKeepsTree(st, next, id, usage);
    PaidExcess(st, next, id, usage, Outstanding(st, s));
    HeldByAncestors(st, id, s);
  }

  /** Only the settlement of an attempt below it closes a scope. */
  lemma FirstClosure(st: State, op: Op, s: NodeId)
    requires Inv(st) && s < |st.scopes| && !st.scopes[s].budget.closed
    requires Step(st, op).scopes[s].budget.closed
    ensures op.OpSettle? && op.id in Outstanding(st, s)
    ensures Bounded(Step(st, op), s, Outstanding(st, s))
  {
    hide Bounded, ChargeUsage, Cap, NewScope, Headroom;
    assert op.OpSettle? && op.id in st.attempts;
    PaidCloses(st, Step(st, op), op.id, ChargeUsage(st.attempts[op.id].tokens, op.charge), s);
  }

  /**
   The overshoot bound. A scope that is open after `before` and closed one operation later
   never uses more than its limit plus the excess of the attempts outstanding at that moment.
   */
  lemma OvershootBound(limits: Limits, before: seq<Op>, op: Op, after: seq<Op>, s: NodeId)
    requires s < |Reached(limits, before).scopes|
    requires !Reached(limits, before).scopes[s].budget.closed
    requires Step(Reached(limits, before), op).scopes[s].budget.closed
    ensures var open := Reached(limits, before);
            var end := Run(Step(open, op), after);
            && open.scopes[s].budget.used + open.scopes[s].budget.reserved <= open.scopes[s].budget.limit
            && s < |end.scopes|
            && end.scopes[s].budget.limit == open.scopes[s].budget.limit
            && end.scopes[s].budget.used
               <= open.scopes[s].budget.limit + Sum(end.nextAttempt, Excess(end.settled, Outstanding(open, s)))
  {
    var open := Reached(limits, before);
    FirstClosure(open, op, s);
    StepKeepsScope(open, op, s);
    RunBounded(Step(open, op), after, s, Outstanding(open, s));
    ClosedForever(Step(open, op), after, s);
  }

  // ----- what a scope's own limit means for it -----

  /** The step of a run that closes a scope. */
  lemma {:induction false} ClosingStep(st: State, ops: seq<Op>, s: NodeId) returns (k: nat)
    requires Inv(st) && s < |st.scopes| && !st.scopes[s].budget.closed
    requires s < |Run(st, ops).scopes| && Run(st, ops).scopes[s].budget.closed
    ensures k < |ops| && IsClosing(st, ops, s, k)
    ensures Run(st, ops) == Run(Step(Run(st, ops[..k]), ops[k]), ops[k + 1..])
    decreases |ops|
  {
    hide Step, Inv;
    StepKeepsScope(st, ops[0], s);
    var next, rest := Step(st, ops[0]), ops[1..];
    if next.scopes[s].budget.closed {
      k := 0;
      assert ops[..0] == [] && Run(st, []) == st;
    } else {
      k := ClosingStep(next, rest, s);
      assert ops[..k + 1][1..] == rest[..k] && ops[..k + 1][0] == ops[0];
      assert rest[k + 1..] == ops[k + 2..];
      k := k + 1;
    }
  }

  /** The scope is open after `k` steps and closed by the next. */
  ghost predicate IsClosing(st: State, ops: seq<Op>, s: NodeId, k: nat)
    requires Inv(st) && k < |ops|
  {
    var open := Run(st, ops[..k]);
    && s < |open.scopes| && !open.scopes[s].budget.closed
    && s < |Step(open, ops[k]).scopes| && Step(open, ops[k]).scopes[s].budget.closed
  }

  lemma {:induction false} RunKeepsScope(st: State, ops: seq<Op>, s: NodeId)
    requires Inv(st) && s < |st.scopes|
    ensures |st.scopes| <= |Run(st, ops).scopes| && KeepsScope(st.scopes[s], Run(st, ops).scopes[s])
    decreases |ops|
  {
    hide Step, Inv;
    if ops != [] {
      StepKeepsScope(st, ops[0], s);
      RunKeepsScope(Step(st, ops[0]), ops[1..], s);
    }
  }

  /** The scope has used at most `limit` and what the attempts of `ids` were charged beyond what they held. */
  ghost predicate UsesAtMost(st: State, s: NodeId, limit: nat, ids: set<AttemptId>) {
    && s < |st.scopes|
    && st.scopes[s].budget.used <= limit + Sum(st.nextAttempt, Excess(st.settled, ids))
  }

  lemma BoundedUses(st: State, s: NodeId, ids: set<AttemptId>)
    requires Bounded(st, s, ids)
    ensures UsesAtMost(st, s, st.scopes[s].budget.limit, ids)
  {
  }

  lemma ClosedUses(st: State, ops: seq<Op>, s: NodeId) returns (k: nat)
    requires Inv(st) && s < |st.scopes| && !st.scopes[s].budget.closed
    requires s < |Run(st, ops).scopes| && Run(st, ops).scopes[s].budget.closed
    ensures k < |ops| && IsClosing(st, ops, s, k)
    ensures UsesAtMost(Run(st, ops), s, Run(st, ops).scopes[s].budget.limit, Outstanding(Run(st, ops[..k]), s))
  {
    hide Step, Inv, Run, Bounded, UsesAtMost, Outstanding;
    k := ClosingStep(st, ops, s);
    var open := Run(st, ops[..k]);
    FirstClosure(open, ops[k], s);
    RunBounded(Step(open, ops[k]), ops[k + 1..], s, Outstanding(open, s));
    BoundedUses(Run(st, ops), s, Outstanding(open, s));
  }

  /**
   A child admitted with a limit of its own keeps to it over any run, whatever its parent's limit: while it is open what it
   has used and holds is within the limit, and once a step closed it, it never uses more than the limit and the excess of
   the attempts outstanding before that step.
   */
  lemma AskedBound(st: State, parent: NodeId, agent: bool, limit: nat, ops: seq<Op>) returns (closing: nat)
    requires Inv(st) && Admit(st, parent, agent, Some(limit)).1.Ok?
    ensures var s, start := |st.scopes|, Step(st, OpAdmit(parent, agent, Some(limit)));
            var end := Run(start, ops);
            && s < |start.scopes| && s < |end.scopes|
            && (!end.scopes[s].budget.closed ==> end.scopes[s].budget.used + end.scopes[s].budget.reserved <= limit)
            && (end.scopes[s].budget.closed ==>
                  && closing < |ops| && IsClosing(start, ops, s, closing)
                  && UsesAtMost(end, s, limit, Outstanding(Run(start, ops[..closing]), s)))
  {
    hide Step, Inv, Admit, Run, Outstanding, IsClosing;
    var s, start := |st.scopes|, Step(st, OpAdmit(parent, agent, Some(limit)));
    AdmittedIs(st, parent, agent, limit);
    RunKeepsScope(start, ops, s);
    WithinOf(Run(start, ops), s);
    closing := 0;
    if Run(start, ops).scopes[s].budget.closed {
      closing := ClosedUses(start, ops, s);
    }
  }

  lemma AdmittedIs(st: State, parent: NodeId, agent: bool, limit: nat)
    requires Inv(st) && Admit(st, parent, agent, Some(limit)).1.Ok?
    ensures var next := Step(st, OpAdmit(parent, agent, Some(limit)));
            && |next.scopes| == |st.scopes| + 1
            && next.scopes[|st.scopes|].budget.limit <= limit && !next.scopes[|st.scopes|].budget.closed
  {
    hide Inv, AdmitError, Headroom;
  }

  lemma WithinOf(st: State, s: NodeId)
    requires Inv(st) && s < |st.scopes|
    ensures Within(st.scopes[s].budget)
  {
  }

  /** After any run: conservation at every scope, in the terms of the attempts and the tree. */
  lemma SubtreeConservation(limits: Limits, ops: seq<Op>, s: NodeId)
    requires s < |Reached(limits, ops).scopes|
    ensures var st := Reached(limits, ops);
            var scope := st.scopes[s];
            && scope.budget.reserved == Sum(st.nextAttempt, Held(st.scopes, st.attempts, s))
            && scope.budget.used == Sum(st.nextAttempt, Charged(st.scopes, st.settled, s))
            && scope.budget.used == scope.usage.Total()
            && (forall c: Counter :: scope.usage.Get(c) == Sum(|st.scopes|, OwnIn(st.scopes, s, c)))
            && (!scope.budget.closed ==> scope.budget.used + scope.budget.reserved <= scope.budget.limit)
  {
    assert Conserved(Reached(limits, ops), s);
  }
}
