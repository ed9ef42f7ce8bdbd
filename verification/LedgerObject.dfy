/** The ledger as the object the runtime shares: every method is one step under its lock. */
module LedgerObject {
  import opened Common
  import opened LedgerSpec
  import opened LedgerInvariant

  /** The scopes from a node up to the root, each once. */
  ghost predicate IsPath(tree: Tree, node: NodeId, path: seq<NodeId>) {
    && (forall s :: s in path <==> Covers(tree, s, node))
    && (forall i :: 0 <= i < |path| ==> path[i] < |tree|)
    && (forall i, j :: 0 <= i < j < |path| ==> path[j] < path[i])
  }

  /** The scopes of `before` with the first `k` scopes of `path` changed. */
  ghost predicate ChangedUpTo(before: seq<Scope>, now: seq<Scope>, path: seq<NodeId>, k: nat, change: Change)
    requires k <= |path|
  {
    && |now| == |before|
    && forall s :: 0 <= s < |before| ==>
         now[s] == if s in path[..k] then Apply(change, before[s]) else before[s]
  }

  lemma WholePathChanged(before: seq<Scope>, now: seq<Scope>, node: NodeId, path: seq<NodeId>, change: Change)
    requires IsPath(TreeOf(before), node, path) && ChangedUpTo(before, now, path, |path|, change)
    ensures now == OnPath(before, node, change)
  {
    assert path[..|path|] == path;
  }

  /** The live count never runs out before the live agents do. */
  lemma SomeAgentIsLive(st: State, node: NodeId)
    requires Counted(st) && node < |st.scopes| && st.scopes[node].alive && st.scopes[node].agent
    ensures st.live > 0
  {
    SumAtLeast(|st.scopes|, LiveAgents(st.scopes), node);
  }

  /** The least headroom on a path decides what fits every scope on it. */
  lemma LeastDecides(scopes: seq<Scope>, node: NodeId, path: seq<NodeId>, least: nat)
    requires IsPath(TreeOf(scopes), node, path)
    requires forall i :: 0 <= i < |path| ==> least <= scopes[path[i]].budget.Remaining()
    requires exists i :: 0 <= i < |path| && least == scopes[path[i]].budget.Remaining()
    ensures forall tokens: nat :: Headroom(scopes, node, tokens) <==> tokens <= least
  {
    var i :| 0 <= i < |path| && least == scopes[path[i]].budget.Remaining();
    assert path[i] in path;
    forall s | 0 <= s < |scopes| && Covers(TreeOf(scopes), s, node)
      ensures least <= scopes[s].budget.Remaining()
    {
      assert s in path;
    }
  }

  lemma TreeOfInv(st: State)
    requires Inv(st)
    ensures IsTree(TreeOf(st.scopes))
  {
  }

  lemma RefusedIs(st: State, node: NodeId, prompt: nat, requested: nat)
    requires ReserveError(st, node, prompt, requested).Some?
    ensures Reserve(st, node, prompt, requested) == (st, Err(ReserveError(st, node, prompt, requested).value))
  {
  }

  lemma GrantedIs(st: State, node: NodeId, prompt: nat, requested: nat)
    requires ReserveError(st, node, prompt, requested).None?
    ensures CanReserve(st, node, prompt, requested) && node < |st.scopes|
    ensures var cap := Cap(st, node, prompt, requested);
            && Headroom(st.scopes, node, prompt + cap) && prompt + cap > 0
            && Reserve(st, node, prompt, requested)
               == (Take(st, node, prompt + cap), Ok(Reservation(st.nextAttempt, prompt + cap, cap)))
  {
    hide Take, Headroom;
    ReserveFits(st, node, prompt, requested);
  }

  /** What a reservation does, said of the scopes on the path alone. */
  lemma ReserveMeans(st: State, node: NodeId, prompt: nat, requested: nat)
    ensures var (next, r) := Reserve(st, node, prompt, requested);
            && (r.Ok? <==>
                  requested > 0 && IsOpen(st, node) && FitsPath(st.scopes, node, prompt + Min(MIN_OUTPUT_TOKENS, requested)))
            && (r.Err? ==> next == st)
            && (r.Ok? ==>
                  && HoldsOnPath(st.scopes, next.scopes, node, r.value.tokens)
                  && r.value.tokens == prompt + r.value.maxTokens
                  && Min(MIN_OUTPUT_TOKENS, requested) <= r.value.maxTokens <= requested
                  && (r.value.maxTokens < requested ==> !FitsPath(st.scopes, node, r.value.tokens + 1)))
  {
    if ReserveError(st, node, prompt, requested).None? {
      ReserveFits(st, node, prompt, requested);
      hide Cap;
    }
  }

  /** No scope on the path is closed, and in each `tokens` fit between what is spent or held and the limit. */
  ghost predicate FitsPath(scopes: seq<Scope>, node: NodeId, tokens: nat) {
    forall s :: 0 <= s < |scopes| && Covers(TreeOf(scopes), s, node) ==>
      var budget := scopes[s].budget;
      tokens == 0 || (!budget.closed && budget.used + budget.reserved + tokens <= budget.limit)
  }

  /** Every scope on the path holds `tokens` more; nothing else is different. */
  ghost predicate HoldsOnPath(before: seq<Scope>, after: seq<Scope>, node: NodeId, tokens: nat) {
    && |after| == |before|
    && forall s :: 0 <= s < |before| ==>
         if Covers(TreeOf(before), s, node)
         then after[s] == before[s].(budget := before[s].budget.(reserved := before[s].budget.reserved + tokens))
         else after[s] == before[s]
  }

  // ----- what an admission and a settlement do, said of the state alone -----

  /** The parent is known and open, no rule of its kind is broken, and every scope on the path has a token left. */
  ghost predicate MayAdmit(st: State, parent: NodeId, agent: bool, limit: Option<nat>) {
    && parent < |st.scopes| && st.scopes[parent].alive && !st.scopes[parent].admissionClosed
    && (agent ==>
          && st.scopes[parent].depth < st.limits.maxDepth
          && st.live < st.limits.maxAgentsLive && st.total < st.limits.maxAgentsTotal)
    && (!agent ==> st.llm < st.limits.maxLlmCalls)
    && limit != Some(0) && FitsPath(st.scopes, parent, 1) && |st.scopes| < NODE_IDS
  }

  /** An admission breaks the rule that this error reports. */
  ghost predicate Breaks(st: State, parent: NodeId, agent: bool, limit: Option<nat>, error: Error) {
    if error == UnknownParent then parent >= |st.scopes|
    else
      && parent < |st.scopes|
      && match error
         case Cancelled => !st.scopes[parent].alive || st.scopes[parent].admissionClosed
         case LimitExceeded(Depth) => agent && st.scopes[parent].depth >= st.limits.maxDepth
         case LimitExceeded(AgentsLive) => agent && st.live >= st.limits.maxAgentsLive
         case LimitExceeded(AgentsTotal) => agent && st.total >= st.limits.maxAgentsTotal
         case LimitExceeded(LlmCalls) => !agent && st.llm >= st.limits.maxLlmCalls
         case ZeroBudget => limit == Some(0)
         case BudgetExceeded => !FitsPath(st.scopes, parent, 1)
         case IdsExhausted => |st.scopes| >= NODE_IDS
         case _ => false
  }

  /** The errors of an admission, in the order of the checks. */
  const ADMIT_ERRORS: seq<Error> :=
    [UnknownParent, Cancelled, LimitExceeded(Depth), LimitExceeded(AgentsLive), LimitExceeded(AgentsTotal),
     LimitExceeded(LlmCalls), ZeroBudget, BudgetExceeded, IdsExhausted]

  function Place(error: Error): nat {
    match error
    case Cancelled => 1
    case LimitExceeded(Depth) => 2
    case LimitExceeded(AgentsLive) => 3
    case LimitExceeded(AgentsTotal) => 4
    case LimitExceeded(LlmCalls) => 5
    case ZeroBudget => 6
    case BudgetExceeded => 7
    case IdsExhausted => 8
    case _ => 0
  }

  /** `error` reports the first rule that an admission breaks. */
  ghost predicate FirstBroken(st: State, parent: NodeId, agent: bool, limit: Option<nat>, error: Error) {
    exists k :: 0 <= k < |ADMIT_ERRORS| && error == ADMIT_ERRORS[k] && Breaks(st, parent, agent, limit, error)
                && forall j :: 0 <= j < k ==> !Breaks(st, parent, agent, limit, ADMIT_ERRORS[j])
  }

  ghost predicate IsZero(u: Usage) {
    u.input == 0 && u.output == 0 && u.cacheCreation == 0 && u.cacheRead == 0
  }

  /** One more scope below `parent`, its limit the smaller of what was asked, or the whole budget, and the parent's. */
  ghost predicate Adds(before: State, after: State, parent: NodeId, agent: bool, limit: Option<nat>)
    requires parent < |before.scopes|
  {
    && |after.scopes| == |before.scopes| + 1
    && (forall s :: 0 <= s < |before.scopes| ==> after.scopes[s] == before.scopes[s])
    && var p, child := before.scopes[parent], after.scopes[|before.scopes|];
    && child.parent == Some(parent) && child.agent == agent && child.alive && !child.admissionClosed
    && child.depth == (if agent then p.depth + 1 else p.depth)
    && child.budget.limit <= p.budget.limit && child.budget.used == child.budget.reserved == 0 && !child.budget.closed
    && (child.budget.limit < p.budget.limit ==>
          child.budget.limit == if limit.Some? then limit.value else before.limits.budgetTokens)
    && (limit.Some? ==> child.budget.limit <= limit.value)
    && (limit.None? ==> child.budget.limit <= before.limits.budgetTokens)
    && IsZero(child.usage) && IsZero(child.own)
    && after.total == (if agent then before.total + 1 else before.total)
    && after.live == (if agent then before.live + 1 else before.live)
    && after.llm == (if agent then before.llm else before.llm + 1)
    && after.limits == before.limits && after.nextAttempt == before.nextAttempt
    && after.attempts == before.attempts && after.settled == before.settled
  }

  lemma BrokenIs(st: State, parent: NodeId, agent: bool, limit: Option<nat>)
    ensures AdmitError(st, parent, agent, limit).None? <==> MayAdmit(st, parent, agent, limit)
    ensures AdmitError(st, parent, agent, limit).Some? ==>
              FirstBroken(st, parent, agent, limit, AdmitError(st, parent, agent, limit).value)
  {
    HeadroomFits(st.scopes, parent);
    hide FitsPath, Headroom;
    var error := AdmitError(st, parent, agent, limit);
    if error.Some? {
      var k := Place(error.value);
      assert error.value == ADMIT_ERRORS[k] && Breaks(st, parent, agent, limit, error.value);
      assert forall j :: 0 <= j < k ==> !Breaks(st, parent, agent, limit, ADMIT_ERRORS[j]);
    }
  }

  lemma HeadroomFits(scopes: seq<Scope>, node: NodeId)
    ensures Headroom(scopes, node, 1) <==> FitsPath(scopes, node, 1)
  {
  }

  /** What an admission does, said of the rules and the scopes. */
  lemma AdmitMeans(st: State, parent: NodeId, agent: bool, limit: Option<nat>)
    ensures var (next, r) := LedgerSpec.Admit(st, parent, agent, limit);
            && (r.Ok? <==> MayAdmit(st, parent, agent, limit))
            && (r.Ok? ==> parent < |st.scopes| && AdmitError(st, parent, agent, limit).None?)
            && (r.Err? ==> next == st && FirstBroken(st, parent, agent, limit, r.error))
            && (r.Ok? ==> r.value == |st.scopes| && Adds(st, next, parent, agent, limit))
  {
    BrokenIs(st, parent, agent, limit);
    hide FitsPath, Headroom, FirstBroken, AdmitError;
  }

  /** Nothing but one scope and the live count is different. */
  ghost predicate SameElsewhere(before: State, after: State, node: NodeId) {
    && |after.scopes| == |before.scopes|
    && (forall s :: 0 <= s < |before.scopes| && s != node ==> after.scopes[s] == before.scopes[s])
    && after.limits == before.limits && after.total == before.total && after.llm == before.llm
    && after.nextAttempt == before.nextAttempt && after.attempts == before.attempts && after.settled == before.settled
  }

  /** The four counters together. */
  ghost function Tokens(u: Usage): nat {
    u.input + u.output + u.cacheCreation + u.cacheRead
  }

  ghost predicate GrowsBy(before: Usage, after: Usage, u: Usage) {
    && after.input == before.input + u.input && after.output == before.output + u.output
    && after.cacheCreation == before.cacheCreation + u.cacheCreation && after.cacheRead == before.cacheRead + u.cacheRead
  }

  /** One scope on the path of an attempt before and after it gives up `tokens` and is charged `u`. */
  ghost predicate Charges(before: Scope, after: Scope, tokens: nat, u: Usage, its: bool) {
    && after.parent == before.parent && after.depth == before.depth && after.agent == before.agent
    && after.alive == before.alive && after.admissionClosed == before.admissionClosed
    && after.budget.limit == before.budget.limit
    && after.budget.reserved + tokens == before.budget.reserved
    && after.budget.used == before.budget.used + Tokens(u)
    && (after.budget.closed <==>
          before.budget.closed || after.budget.used + after.budget.reserved > before.budget.limit)
    && GrowsBy(before.usage, after.usage, u)
    && if its then GrowsBy(before.own, after.own, u) else after.own == before.own
  }

  /** The attempt is gone; every scope on its path, and no other, moves its tokens to what `u` charges. */
  ghost predicate Settles(before: State, after: State, id: AttemptId, u: Usage)
    requires id in before.attempts
  {
    var attempt := before.attempts[id];
    && |after.scopes| == |before.scopes|
    && (forall s :: 0 <= s < |before.scopes| ==>
          if Covers(TreeOf(before.scopes), s, attempt.node)
          then Charges(before.scopes[s], after.scopes[s], attempt.tokens, u, s == attempt.node)
          else after.scopes[s] == before.scopes[s])
    && after.attempts == before.attempts - {id}
    && after.settled == before.settled[id := Settled(attempt.node, attempt.tokens, u)]
    && after.limits == before.limits && after.nextAttempt == before.nextAttempt
    && after.total == before.total && after.live == before.live && after.llm == before.llm
  }

  /** `u` is what an attempt that held `tokens` is charged. */
  ghost predicate IsChargeFor(charge: Charge, tokens: nat, u: Usage) {
    match charge
    case Measured(measured) => u == measured
    case Failed(Zero) => IsZero(u)
    case Failed(Reserved) => IsAllInput(tokens, u)
  }

  ghost predicate IsAllInput(tokens: nat, u: Usage) {
    u.input == tokens && u.output == 0 && u.cacheCreation == 0 && u.cacheRead == 0
  }

  lemma AttemptKnown(st: State, id: AttemptId)
    requires Inv(st) && id in st.attempts
    ensures st.attempts[id].node < |st.scopes|
  {
  }

  /** What paying an attempt does to one scope. */
  lemma PayCharges(st: State, id: AttemptId, u: Usage, s: NodeId)
    requires Inv(st) && id in st.attempts && st.attempts[id].node < |st.scopes| && s < |st.scopes|
    ensures var attempt, next := st.attempts[id], LedgerSpec.Pay(st, id, u);
            if Covers(TreeOf(st.scopes), s, attempt.node)
            then Charges(st.scopes[s], next.scopes[s], attempt.tokens, u, s == attempt.node)
            else next.scopes[s] == st.scopes[s]
  {
    assert AttemptsKnown(st) && Conserved(st, s);
    hide Inv, Conserved;
    CoversItself(TreeOf(st.scopes), st.attempts[id].node);
    if Covers(TreeOf(st.scopes), s, st.attempts[id].node) {
      HeldByAncestors(st, id, s);
    }
  }

  lemma CoversItself(tree: Tree, n: NodeId)
    requires n < |tree|
    ensures Covers(tree, n, n)
  {
  }

  /** What a settlement does, said of the scopes on the attempt's path and of what it reports. */
  lemma SettleMeans(st: State, id: AttemptId, charge: Charge)
    requires Inv(st) && id in st.attempts && st.attempts[id].node < |st.scopes|
    ensures var next := LedgerSpec.Settle(st, id, charge);
            && id in next.settled && IsChargeFor(charge, st.attempts[id].tokens, next.settled[id].usage)
            && Settles(st, next, id, next.settled[id].usage)
            && next.settled[id].Charged() == Tokens(next.settled[id].usage)
            && next.settled[id].Excess() == Monus(Tokens(next.settled[id].usage), st.attempts[id].tokens)
  {
    hide Inv, ChargeUsage, IsChargeFor, OnPath, Charges, Monus;
    ChargeIs(st.attempts[id].tokens, charge);
    forall s | 0 <= s < |st.scopes| {
      PayCharges(st, id, ChargeUsage(st.attempts[id].tokens, charge), s);
    }
  }

  lemma ChargeIs(tokens: nat, charge: Charge)
    ensures IsChargeFor(charge, tokens, ChargeUsage(tokens, charge))
  {
  }

  class Ledger {
    const limits: Limits
    var scopes: seq<Scope>
    var total: nat
    var live: nat
    var llm: nat
    var nextAttempt: AttemptId
    var attempts: map<AttemptId, Attempt>
    /** What every settled attempt was charged. */
    ghost var settled: map<AttemptId, Settled>

    ghost function View(): State
      reads this
    {
      State(limits, scopes, total, live, llm, nextAttempt, attempts, settled)
    }

    ghost predicate Valid()
      reads this
    {
      Inv(View())
    }

    constructor (limits: Limits)
      ensures Valid() && View() == Init(limits)
    {
      this.limits := limits;
      scopes := [Scope(None, 0, true, true, false, Budget(limits.budgetTokens, 0, 0, false), NO_USAGE, NO_USAGE)];
      total, live, llm := 1, 1, 0;
      nextAttempt, attempts, settled := 0, map[], map[];
      new;
      assert View() == Init(limits);
      InitHasInv(limits);
    }

    method Path(node: NodeId) returns (path: seq<NodeId>)
      requires IsTree(TreeOf(scopes)) && node < |scopes|
      ensures IsPath(TreeOf(scopes), node, path) && path != []
    {
      path := [];
      var next: Option<NodeId> := Some(node);
      ghost var tree := TreeOf(scopes);
      while next.Some?
        invariant next.Some? ==> next.value < |scopes| && forall i :: 0 <= i < |path| ==> next.value < path[i]
        invariant forall i :: 0 <= i < |path| ==> path[i] < |scopes|
        invariant forall i, j :: 0 <= i < j < |path| ==> path[j] < path[i]
        invariant forall s :: s in path || (next.Some? && Covers(tree, s, next.value)) <==> Covers(tree, s, node)
        invariant next == Some(node) || path != []
        decreases if next.Some? then next.value + 1 else 0
      {
        path := path + [next.value];
        next := scopes[next.value].parent;
      }
    }

    /** Why an admission is refused, the rules checked in this order. */
    method Refusal(parent: NodeId, agent: bool, limit: Option<nat>) returns (error: Option<Error>)
      requires IsTree(TreeOf(scopes))
      ensures error == AdmitError(View(), parent, agent, limit)
    {
      if parent >= |scopes| {
        return Some(UnknownParent);
      }
      var p := scopes[parent];
      if !p.alive || p.admissionClosed {
        return Some(Cancelled);
      }
      var depth := p.depth + (if agent then 1 else 0);
      if agent && depth > limits.maxDepth {
        return Some(LimitExceeded(Depth));
      }
      if agent && live >= limits.maxAgentsLive {
        return Some(LimitExceeded(AgentsLive));
      }
      if agent && total >= limits.maxAgentsTotal {
        return Some(LimitExceeded(AgentsTotal));
      }
      if !agent && llm >= limits.maxLlmCalls {
        return Some(LimitExceeded(LlmCalls));
      }
      if limit == Some(0) {
        return Some(ZeroBudget);
      }
      var path := Path(parent);
      var least := Least(path);
      LeastDecides(scopes, parent, path, least);
      if least == 0 {
        return Some(BudgetExceeded);
      }
      error := if |scopes| >= NODE_IDS then Some(IdsExhausted) else None;
    }

    /** Admits a child of `parent`, or says which rule refuses it. */
    method Admit(parent: NodeId, agent: bool, limit: Option<nat>) returns (r: Result<NodeId, Error>)
      requires Valid()
      modifies this
      ensures (View(), r) == LedgerSpec.Admit(old(View()), parent, agent, limit)
      ensures r.Ok? <==> MayAdmit(old(View()), parent, agent, limit)
      ensures r.Err? ==> View() == old(View()) && FirstBroken(View(), parent, agent, limit, r.error)
      ensures r.Ok? ==> r.value == |old(scopes)| && Adds(old(View()), View(), parent, agent, limit)
      ensures Valid()
    {
      hide MayAdmit, FirstBroken, Adds, AdmitError, LedgerSpec.Inv;
      TreeOfInv(View());
      AdmitMeans(View(), parent, agent, limit);
      AdmitKeepsInv(View(), parent, agent, limit);
      var error := Refusal(parent, agent, limit);
      if error.Some? {
        return Err(error.value);
      }
      var p := scopes[parent];
      r := Ok(|scopes|);
      var budget := Min(if limit.Some? then limit.value else limits.budgetTokens, p.budget.limit);
      scopes := scopes + [Scope(Some(parent), p.depth + (if agent then 1 else 0), agent, true, false,
                                Budget(budget, 0, 0, false), NO_USAGE, NO_USAGE)];
      if agent {
        total, live := total + 1, live + 1;
      } else {
        llm := llm + 1;
      }
      assert View() == LedgerSpec.Admit(old(View()), parent, agent, limit).0;
    }

    /** The least remaining headroom among the scopes of a path. */
    method Least(path: seq<NodeId>) returns (least: nat)
      requires path != [] && forall i :: 0 <= i < |path| ==> path[i] < |scopes|
      ensures forall i :: 0 <= i < |path| ==> least <= scopes[path[i]].budget.Remaining()
      ensures exists i :: 0 <= i < |path| && least == scopes[path[i]].budget.Remaining()
    {
      least := scopes[path[0]].budget.Remaining();
      for k := 1 to |path|
        invariant forall i :: 0 <= i < k ==> least <= scopes[path[i]].budget.Remaining()
        invariant exists i :: 0 <= i < k && least == scopes[path[i]].budget.Remaining()
      {
        least := Min(least, scopes[path[k]].budget.Remaining());
      }
    }

    /** Applies a change to every scope of a path. */
    method ChangePath(node: NodeId, path: seq<NodeId>, change: Change)
      requires IsPath(TreeOf(scopes), node, path)
      modifies this`scopes
      ensures scopes == OnPath(old(scopes), node, change)
    {
      ghost var before := scopes;
      for k := 0 to |path|
        invariant ChangedUpTo(before, scopes, path, k, change)
      {
        assert path[..k + 1] == path[..k] + [path[k]];
        var id := path[k];
        scopes := scopes[id := Apply(change, scopes[id])];
      }
      WholePathChanged(before, scopes, node, path, change);
    }

    /** The output cap a reservation would get, or why it is refused. */
    method Offer(node: NodeId, prompt: nat, requested: nat) returns (cap: Result<nat, Error>)
      requires IsTree(TreeOf(scopes))
      ensures cap.Err? <==> ReserveError(View(), node, prompt, requested).Some?
      ensures cap.Err? ==> ReserveError(View(), node, prompt, requested) == Some(cap.error)
      ensures cap.Ok? ==> cap.value == Cap(View(), node, prompt, requested)
    {
      if requested == 0 {
        return Err(ZeroRequest);
      }
      if node >= |scopes| || !scopes[node].alive || scopes[node].admissionClosed {
        return Err(ShutDown);
      }
      var path := Path(node);
      var headroom := Least(path);
      LeastDecides(scopes, node, path, headroom);
      var fitting := Min(requested, Monus(headroom, prompt));
      if fitting < Min(MIN_OUTPUT_TOKENS, requested) || headroom < prompt {
        return Err(BudgetExhausted);
      }
      CapUnique(View(), node, prompt, requested, fitting, Cap(View(), node, prompt, requested));
      cap := Ok(fitting);
    }

    method Hold(node: NodeId, tokens: nat) returns (id: AttemptId)
      requires IsTree(TreeOf(scopes)) && node < |scopes|
      modifies this
      ensures View() == Take(old(View()), node, tokens) && id == old(nextAttempt)
    {
      var path := Path(node);
      ChangePath(node, path, LedgerSpec.Hold(tokens));
      id := nextAttempt;
      nextAttempt := nextAttempt + 1;
      attempts := attempts[id := Attempt(node, tokens)];
    }

    /** Either every scope on the path holds the granted tokens, or no scope holds more than before. */
    method Reserve(node: NodeId, prompt: nat, requested: nat) returns (r: Result<Reservation, Error>)
      requires Valid()
      modifies this
      ensures (View(), r) == LedgerSpec.Reserve(old(View()), node, prompt, requested)
      ensures r.Ok? <==>
                requested > 0 && IsOpen(old(View()), node)
                && FitsPath(old(scopes), node, prompt + Min(MIN_OUTPUT_TOKENS, requested))
      ensures r.Err? ==> View() == old(View())
      ensures r.Ok? ==>
                && HoldsOnPath(old(scopes), scopes, node, r.value.tokens)
                && r.value.tokens == prompt + r.value.maxTokens
                && Min(MIN_OUTPUT_TOKENS, requested) <= r.value.maxTokens <= requested
                && (r.value.maxTokens < requested ==> !FitsPath(old(scopes), node, r.value.tokens + 1))
      ensures Valid()
    {
      hide LedgerSpec.Reserve, Take, Cap, ReserveError, Headroom, CanReserve, LedgerSpec.Inv, FitsPath, HoldsOnPath, IsOpen;
      ReserveMeans(View(), node, prompt, requested);
      TreeOfInv(View());
      var cap := Offer(node, prompt, requested);
      if cap.Err? {
        RefusedIs(View(), node, prompt, requested);
        return Err(cap.error);
      }
      GrantedIs(View(), node, prompt, requested);
      var id := Hold(node, prompt + cap.value);
      TakenKeepsInv(old(View()), View(), node, prompt + cap.value);
      r := Ok(Reservation(id, prompt + cap.value, cap.value));
    }

    /** What an attempt that holds `tokens` is charged. */
    static method Bill(tokens: nat, charge: Charge) returns (charged: nat, usage: Usage)
      ensures usage == ChargeUsage(tokens, charge) && charged == usage.Total()
    {
      match charge {
        case Measured(measured) => charged, usage := measured.Total(), measured;
        case Failed(Zero) => charged, usage := 0, NO_USAGE;
        case Failed(Reserved) => charged, usage := tokens, Usage(tokens, 0, 0, 0);
      }
    }

    /** Moves what an attempt holds on its path to what it is charged. */
    method Pay(id: AttemptId, usage: Usage)
      requires IsTree(TreeOf(scopes)) && id in attempts && attempts[id].node < |scopes|
      modifies this
      ensures View() == LedgerSpec.Pay(old(View()), id, usage) && id in settled && settled[id].usage == usage
    {
      var attempt := attempts[id];
      attempts := attempts - {id};
      var path := Path(attempt.node);
      ChangePath(attempt.node, path, Book(attempt.tokens, usage));
      scopes := scopes[attempt.node := scopes[attempt.node].(own := scopes[attempt.node].own.Plus(usage))];
      settled := settled[id := Settled(attempt.node, attempt.tokens, usage)];
    }

    /** Settles a reservation; settling the same one again is impossible, its attempt is gone. */
    method Settle(id: AttemptId, charge: Charge) returns (settlement: Settlement)
      requires Valid() && id in attempts
      modifies this
      ensures View() == LedgerSpec.Settle(old(View()), id, charge)
      ensures Valid()
      ensures id in settled && IsChargeFor(charge, old(attempts[id].tokens), settled[id].usage)
      ensures Settles(old(View()), View(), id, settled[id].usage)
      ensures settlement.charged == Tokens(settled[id].usage)
      ensures settlement.excess == Monus(settlement.charged, old(attempts[id].tokens))
    {
      hide Settles, IsChargeFor, LedgerSpec.Inv, LedgerSpec.Pay, ChargeUsage;
      AttemptKnown(View(), id);
      SettleMeans(View(), id, charge);
      SettleKeepsInv(View(), id, charge);
      TreeOfInv(View());
      var tokens := attempts[id].tokens;
      var charged, usage := Bill(tokens, charge);
      Pay(id, usage);
      settlement := Settlement(charged, Monus(charged, tokens));
    }

    method CloseAdmission(node: NodeId)
      requires Valid() && node < |scopes|
      modifies this
      ensures View() == LedgerSpec.CloseAdmission(old(View()), node)
      ensures scopes[node] == old(scopes[node]).(admissionClosed := true) && SameElsewhere(old(View()), View(), node)
      ensures live == old(live)
      ensures Valid()
    {
      CloseAdmissionKeepsInv(View(), node);
      scopes := scopes[node := scopes[node].(admissionClosed := true)];
    }

    /** Releases the node's slot; releasing it again changes nothing. */
    method Shutdown(node: NodeId)
      requires Valid() && node < |scopes|
      modifies this
      ensures View() == LedgerSpec.Shutdown(old(View()), node)
      ensures scopes[node] == old(scopes[node]).(alive := false) && SameElsewhere(old(View()), View(), node)
      ensures live == old(live) - if old(scopes[node].alive && scopes[node].agent) then 1 else 0
      ensures Valid()
    {
      ShutdownKeepsInv(View(), node);
      var scope := scopes[node];
      if scope.alive {
        scopes := scopes[node := scope.(alive := false)];
        if scope.agent {
          SomeAgentIsLive(old(View()), node);
          live := live - 1;
        }
      }
    }
  }

  predicate ArePositive(limits: Limits) {
    && limits.budgetTokens > 0 && limits.maxDepth > 0 && limits.maxAgentsLive > 0 && limits.maxAgentsTotal > 0
    && limits.maxLlmCalls > 0
  }

  /** A new ledger for limits that are all positive. */
  method NewLedger(limits: Limits) returns (r: Result<Ledger, string>)
    ensures r.Ok? <==> limits.budgetTokens > 0 && limits.maxDepth > 0 && limits.maxAgentsLive > 0
                       && limits.maxAgentsTotal > 0 && limits.maxLlmCalls > 0
    ensures r.Ok? ==> fresh(r.value) && r.value.Valid() && r.value.View() == Init(limits)
  {
    if !ArePositive(limits) {
      return Err("limits must be positive integers");
    }
    var ledger := new Ledger(limits);
    r := Ok(ledger);
  }
}
