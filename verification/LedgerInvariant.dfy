/** Every ledger operation keeps the invariant, and what that gives over whole runs. */
module LedgerInvariant {
  import opened Common
  import opened LedgerSpec

  // ----- totals -----

  lemma {:induction false} SumEqual(n: nat, v: Weight, w: Weight)
    requires forall i: nat :: i < n ==> At(v, i) == At(w, i)
    ensures Sum(n, v) == Sum(n, w)
  {
    if n > 0 {
      SumEqual(n - 1, v, w);
    }
  }

  /** Changing what one index adds changes the total by the difference. */
  lemma {:induction false} SumChange(n: nat, v: Weight, w: Weight, k: nat)
    requires k < n
    requires forall i: nat :: i < n && i != k ==> At(v, i) == At(w, i)
    ensures Sum(n, w) + At(v, k) == Sum(n, v) + At(w, k)
  {
    if k == n - 1 {
      SumEqual(n - 1, v, w);
    } else {
      SumChange(n - 1, v, w, k);
    }
  }

  lemma {:induction false} SumZero(n: nat, w: Weight)
    requires forall i: nat :: i < n ==> At(w, i) == 0
    ensures Sum(n, w) == 0
  {
    if n > 0 {
      SumZero(n - 1, w);
    }
  }

  lemma {:induction false} SumAtLeast(n: nat, w: Weight, k: nat)
    requires k < n
    ensures At(w, k) <= Sum(n, w)
  {
    if k < n - 1 {
      SumAtLeast(n - 1, w, k);
    }
  }

  lemma {:induction false} SumGrows(m: nat, n: nat, w: Weight)
    requires m <= n
    ensures Sum(m, w) <= Sum(n, w)
  {
    if m < n {
      SumGrows(m, n - 1, w);
    }
  }

  lemma {:induction false} SumSame(m: nat, n: nat, w: Weight)
    requires m <= n && forall i: nat :: m <= i < n ==> At(w, i) == 0
    ensures Sum(n, w) == Sum(m, w)
  {
    if m < n {
      SumSame(m, n - 1, w);
    }
  }

  // ----- what leaves the books of a scope alone -----

  ghost predicate SameCover(scopes: seq<Scope>, next: seq<Scope>, s: NodeId, n: NodeId) {
    Covers(TreeOf(next), s, n) == Covers(TreeOf(scopes), s, n)
  }

  lemma HeldSame(st: State, next: State, s: NodeId, n: nat)
    requires forall a :: a in st.attempts && a < n ==> SameCover(st.scopes, next.scopes, s, st.attempts[a].node)
    requires forall a: nat :: a < n ==> (a in next.attempts <==> a in st.attempts)
    requires forall a: nat :: a < n && a in st.attempts ==> next.attempts[a] == st.attempts[a]
    ensures Sum(n, Held(next.scopes, next.attempts, s)) == Sum(n, Held(st.scopes, st.attempts, s))
  {
    SumEqual(n, Held(next.scopes, next.attempts, s), Held(st.scopes, st.attempts, s));
  }

  lemma ChargedSame(st: State, next: State, s: NodeId, n: nat)
    requires next.settled == st.settled
    requires forall a :: a in st.settled ==> SameCover(st.scopes, next.scopes, s, st.settled[a].node)
    ensures Sum(n, Charged(next.scopes, next.settled, s)) == Sum(n, Charged(st.scopes, st.settled, s))
  {
    SumEqual(n, Charged(next.scopes, next.settled, s), Charged(st.scopes, st.settled, s));
  }

  lemma OwnSame(scopes: seq<Scope>, next: seq<Scope>, s: NodeId, c: Counter, n: nat)
    requires n <= |scopes| && n <= |next|
    requires forall i :: 0 <= i < n ==> next[i].own == scopes[i].own
    requires forall i :: 0 <= i < n ==> SameCover(scopes, next, s, i)
    ensures Sum(n, OwnIn(next, s, c)) == Sum(n, OwnIn(scopes, s, c))
  {
    forall i: nat | i < n ensures At(OwnIn(next, s, c), i) == At(OwnIn(scopes, s, c), i) {
      assert SameCover(scopes, next, s, i);
    }
    SumEqual(n, OwnIn(next, s, c), OwnIn(scopes, s, c));
  }

  // ----- admission -----

  /** `next` is `st` with one more scope, whose books are empty. */
  ghost predicate Grown(st: State, next: State, scope: Scope) {
    && next.scopes == st.scopes + [scope]
    && next.attempts == st.attempts && next.settled == st.settled && next.nextAttempt == st.nextAttempt
    && scope.parent.Some? && scope.parent.value < |st.scopes|
    && IsEmpty(scope)
  }

  /** Nothing is spent, reserved or used at a scope. */
  ghost predicate IsEmpty(scope: Scope) {
    && scope.budget.used == 0 && scope.budget.reserved == 0
    && scope.usage.Total() == 0 && scope.own.Total() == 0
  }

  /** Admission leaves ancestry among the earlier scopes alone, and puts none of them below the new one. */
  lemma GrownTree(st: State, next: State, scope: Scope)
    requires IsTree(TreeOf(st.scopes)) && Grown(st, next, scope)
    ensures IsTree(TreeOf(next.scopes))
    ensures forall s, n :: 0 <= n < |st.scopes| ==> SameCover(st.scopes, next.scopes, s, n)
    ensures forall n :: 0 <= n < |st.scopes| ==> !Covers(TreeOf(next.scopes), |st.scopes|, n)
  {
    var tree := TreeOf(st.scopes);
    assert TreeOf(next.scopes) == tree + [scope.parent];
    forall s, n | 0 <= n < |st.scopes| ensures SameCover(st.scopes, next.scopes, s, n) {
      CoversExtend(tree, scope.parent, s, n);
    }
    forall n | 0 <= n < |st.scopes| ensures !Covers(TreeOf(next.scopes), |tree|, n) {
      if Covers(TreeOf(next.scopes), |tree|, n) {
        CoversBounds(TreeOf(next.scopes), |tree|, n);
      }
    }
  }

  lemma GrownConservesOld(st: State, next: State, scope: Scope, s: NodeId)
    requires IsTree(TreeOf(st.scopes)) && AttemptsKnown(st) && Grown(st, next, scope)
    requires s < |st.scopes| && Conserved(st, s)
    ensures Conserved(next, s)
  {
    GrownTree(st, next, scope);
    HeldSame(st, next, s, st.nextAttempt);
    ChargedSame(st, next, s, st.nextAttempt);
    forall c: Counter ensures Sum(|next.scopes|, OwnIn(next.scopes, s, c)) == Sum(|st.scopes|, OwnIn(st.scopes, s, c)) {
      OwnSame(st.scopes, next.scopes, s, c, |st.scopes|);
    }
  }

  /** A scope nothing was ever charged to: empty books are the right ones. */
  lemma EmptyBooks(st: State, s: NodeId)
    requires s < |st.scopes|
    requires st.scopes[s].budget.used == 0 && st.scopes[s].budget.reserved == 0
    requires st.scopes[s].usage.Total() == 0 && st.scopes[s].own.Total() == 0
    requires forall n :: 0 <= n < |st.scopes| && n != s ==> !Covers(TreeOf(st.scopes), s, n)
    requires forall a :: a in st.attempts ==> !Covers(TreeOf(st.scopes), s, st.attempts[a].node)
    requires forall a :: a in st.settled ==>
      st.settled[a].node != s && !Covers(TreeOf(st.scopes), s, st.settled[a].node)
    ensures Conserved(st, s)
  {
    SumZero(st.nextAttempt, Held(st.scopes, st.attempts, s));
    SumZero(st.nextAttempt, Charged(st.scopes, st.settled, s));
    forall c: Counter
      ensures Sum(st.nextAttempt, SettledBy(st.settled, s, c)) == 0
      ensures Sum(|st.scopes|, OwnIn(st.scopes, s, c)) == 0
    {
      SumZero(st.nextAttempt, SettledBy(st.settled, s, c));
      SumZero(|st.scopes|, OwnIn(st.scopes, s, c));
    }
  }

  lemma GrownConservesNew(st: State, next: State, scope: Scope)
    requires IsTree(TreeOf(st.scopes)) && AttemptsKnown(st) && Grown(st, next, scope)
    ensures Conserved(next, |st.scopes|)
  {
    GrownTree(st, next, scope);
    EmptyBooks(next, |st.scopes|);
  }

  lemma GrownCounts(st: State, next: State, scope: Scope)
    requires Counted(st) && next.scopes == st.scopes + [scope] && scope.alive
    requires next.total == st.total + (if scope.agent then 1 else 0)
    requires next.live == st.live + (if scope.agent then 1 else 0)
    requires next.llm == st.llm + (if scope.agent then 0 else 1)
    ensures Counted(next)
  {
    SumEqual(|st.scopes|, Agents(st.scopes), Agents(next.scopes));
    SumEqual(|st.scopes|, LiveAgents(st.scopes), LiveAgents(next.scopes));
    SumEqual(|st.scopes|, Leaves(st.scopes), Leaves(next.scopes));
  }

  lemma GrownConserves(st: State, next: State, scope: Scope, s: NodeId)
    requires Inv(st) && Grown(st, next, scope) && s < |next.scopes|
    ensures Conserved(next, s)
  {
    if s < |st.scopes| {
      GrownConservesOld(st, next, scope, s);
    } else {
      GrownConservesNew(st, next, scope);
    }
  }

  lemma GrownKeepsInv(st: State, next: State, scope: Scope)
    requires Inv(st) && Grown(st, next, scope) && Counted(next) && !scope.budget.closed
    requires scope.budget.limit <= st.scopes[scope.parent.value].budget.limit
    ensures Inv(next)
  {
    GrownTree(st, next, scope);
    forall s | 0 <= s < |next.scopes| ensures Conserved(next, s) {
      GrownConserves(st, next, scope, s);
    }
  }

  lemma NewScopeIsEmpty(st: State, parent: NodeId, agent: bool, limit: Option<nat>)
    requires parent < |st.scopes|
    ensures var scope := NewScope(st, parent, agent, limit);
            scope.parent == Some(parent) && IsEmpty(scope) && !scope.budget.closed && scope.alive && scope.agent == agent
            && scope.budget.limit <= st.scopes[parent].budget.limit
  {
  }

  lemma AdmitGrows(st: State, parent: NodeId, agent: bool, limit: Option<nat>)
    requires Admit(st, parent, agent, limit).1.Ok?
    ensures Grown(st, Admit(st, parent, agent, limit).0, NewScope(st, parent, agent, limit))
  {
    hide NewScope, IsEmpty;
    assert parent < |st.scopes|;
    NewScopeIsEmpty(st, parent, agent, limit);
  }

  lemma AdmitKeepsInv(st: State, parent: NodeId, agent: bool, limit: Option<nat>)
    requires Inv(st)
    ensures Inv(Admit(st, parent, agent, limit).0)
  {
    hide NewScope, IsEmpty, Grown;
    var (next, result) := Admit(st, parent, agent, limit);
    if result.Ok? {
      var scope := NewScope(st, parent, agent, limit);
      assert parent < |st.scopes|;
      NewScopeIsEmpty(st, parent, agent, limit);
      AdmitGrows(st, parent, agent, limit);
      GrownCounts(st, next, scope);
      GrownKeepsInv(st, next, scope);
    }
  }

  // ----- reservation -----

  lemma HeadroomShrinks(scopes: seq<Scope>, node: NodeId, fewer: nat, more: nat)
    requires fewer <= more && Headroom(scopes, node, more)
    ensures Headroom(scopes, node, fewer)
  {
  }

  lemma CapUnique(st: State, node: NodeId, prompt: nat, requested: nat, a: nat, b: nat)
    requires IsCap(st, node, prompt, requested, a) && IsCap(st, node, prompt, requested, b)
    ensures a == b
  {
  }

  /** A granted cap is useful: at least the smallest output, unless less was requested. */
  lemma CapIsUseful(st: State, node: NodeId, prompt: nat, requested: nat)
    requires CanReserve(st, node, prompt, requested)
    ensures 0 < Min(MIN_OUTPUT_TOKENS, requested) <= Cap(st, node, prompt, requested) <= requested
  {
    var cap := Cap(st, node, prompt, requested);
    if cap < Min(MIN_OUTPUT_TOKENS, requested) {
      HeadroomShrinks(st.scopes, node, prompt + cap + 1, prompt + Min(MIN_OUTPUT_TOKENS, requested));
    }
  }

  /** A granted reservation holds the prompt and the largest cap that fits every scope on the path. */
  lemma ReserveFits(st: State, node: NodeId, prompt: nat, requested: nat)
    requires CanReserve(st, node, prompt, requested)
    ensures var (next, r) := Reserve(st, node, prompt, requested);
            && r.Ok?
            && IsCap(st, node, prompt, requested, r.value.maxTokens)
            && 0 < Min(MIN_OUTPUT_TOKENS, requested) <= r.value.maxTokens
            && r.value.tokens == prompt + r.value.maxTokens
            && Taken(st, next, node, r.value.tokens)
  {
    CapIsUseful(st, node, prompt, requested);
  }

  /** `next` is `st` with one more attempt, held by every scope on its path. */
  ghost predicate Taken(st: State, next: State, node: NodeId, tokens: nat) {
    node < |st.scopes| && next == Take(st, node, tokens)
  }

  lemma OnPathKeepsTree(scopes: seq<Scope>, node: NodeId, change: Change)
    ensures TreeOf(OnPath(scopes, node, change)) == TreeOf(scopes)
  {
  }

  lemma TakenConserves(st: State, next: State, node: NodeId, tokens: nat, s: NodeId)
    requires AttemptsKnown(st) && Taken(st, next, node, tokens)
    requires s < |st.scopes| && Conserved(st, s)
    ensures Conserved(next, s)
  {
    OnPathKeepsTree(st.scopes, node, Hold(tokens));
    HeldSame(st, next, s, st.nextAttempt);
    ChargedSame(st, next, s, st.nextAttempt);
    forall c: Counter
      ensures Sum(next.nextAttempt, SettledBy(next.settled, s, c)) == Sum(st.nextAttempt, SettledBy(st.settled, s, c))
      ensures Sum(|st.scopes|, OwnIn(next.scopes, s, c)) == Sum(|st.scopes|, OwnIn(st.scopes, s, c))
    {
      OwnSame(st.scopes, next.scopes, s, c, |st.scopes|);
    }
  }

  lemma TakenWithin(st: State, next: State, node: NodeId, tokens: nat, s: NodeId)
    requires Taken(st, next, node, tokens) && Headroom(st.scopes, node, tokens) && tokens > 0
    requires s < |st.scopes| && Within(st.scopes[s].budget)
    ensures Within(next.scopes[s].budget)
  {
  }

  lemma SameFlagsCount(st: State, next: State)
    requires Counted(st) && |next.scopes| == |st.scopes|
    requires next.total == st.total && next.live == st.live && next.llm == st.llm
    requires forall n :: 0 <= n < |st.scopes| ==>
      next.scopes[n].agent == st.scopes[n].agent && next.scopes[n].alive == st.scopes[n].alive
    ensures Counted(next)
  {
    SumEqual(|st.scopes|, Agents(st.scopes), Agents(next.scopes));
    SumEqual(|st.scopes|, LiveAgents(st.scopes), LiveAgents(next.scopes));
    SumEqual(|st.scopes|, Leaves(st.scopes), Leaves(next.scopes));
  }

  lemma TakenKeepsInv(st: State, next: State, node: NodeId, tokens: nat)
    requires Inv(st) && Taken(st, next, node, tokens)
    requires Headroom(st.scopes, node, tokens) && tokens > 0
    ensures Inv(next)
  {
    OnPathKeepsTree(st.scopes, node, Hold(tokens));
    forall s | 0 <= s < |next.scopes| ensures Conserved(next, s) && Within(next.scopes[s].budget) {
      TakenConserves(st, next, node, tokens, s);
      TakenWithin(st, next, node, tokens, s);
    }
    SameFlagsCount(st, next);
  }

  lemma ReserveKeepsInv(st: State, node: NodeId, prompt: nat, requested: nat)
    requires Inv(st)
    ensures Inv(Reserve(st, node, prompt, requested).0)
  {
    if CanReserve(st, node, prompt, requested) {
      ReserveFits(st, node, prompt, requested);
      var (next, r) := Reserve(st, node, prompt, requested);
      TakenKeepsInv(st, next, node, r.value.tokens);
    }
  }

  // ----- settlement -----

  /** What an unsettled attempt holds is part of what every ancestor has reserved. */
  lemma HeldByAncestors(st: State, id: AttemptId, s: NodeId)
    requires AttemptsKnown(st) && id in st.attempts && s < |st.scopes| && Conserved(st, s)
    requires Covers(TreeOf(st.scopes), s, st.attempts[id].node)
    ensures st.attempts[id].tokens <= st.scopes[s].budget.reserved
  {
    SumAtLeast(st.nextAttempt, Held(st.scopes, st.attempts, s), id);
  }

  /** `next` is `st` with attempt `id` settled for `usage`. */
  ghost predicate Paid(st: State, next: State, id: AttemptId, usage: Usage) {
    && id in st.attempts && st.attempts[id].node < |st.scopes| == |next.scopes|
    && var node := st.attempts[id].node;
    && var booked := OnPath(st.scopes, node, Book(st.attempts[id].tokens, usage));
    && next.scopes == booked[node := booked[node].(own := booked[node].own.Plus(usage))]
    && next.nextAttempt == st.nextAttempt
    && next.attempts == st.attempts - {id}
    && next.settled == st.settled[id := Settled(node, st.attempts[id].tokens, usage)]
  }

  lemma PaidKeepsTree(st: State, next: State, id: AttemptId, usage: Usage)
    requires Paid(st, next, id, usage)
    ensures TreeOf(next.scopes) == TreeOf(st.scopes)
  {
  }

  /** The tokens and the charge move on exactly the scopes of the path. */
  lemma PaidMoves(st: State, next: State, id: AttemptId, usage: Usage, s: NodeId)
    requires AttemptsKnown(st) && Paid(st, next, id, usage)
    ensures var on := Covers(TreeOf(st.scopes), s, st.attempts[id].node);
            && Sum(st.nextAttempt, Held(next.scopes, next.attempts, s)) + (if on then st.attempts[id].tokens else 0)
               == Sum(st.nextAttempt, Held(st.scopes, st.attempts, s))
            && Sum(st.nextAttempt, Charged(next.scopes, next.settled, s))
               == Sum(st.nextAttempt, Charged(st.scopes, st.settled, s)) + (if on then usage.Total() else 0)
  {
    PaidKeepsTree(st, next, id, usage);
    SumChange(st.nextAttempt, Held(st.scopes, st.attempts, s), Held(next.scopes, next.attempts, s), id);
    SumChange(st.nextAttempt, Charged(st.scopes, st.settled, s), Charged(next.scopes, next.settled, s), id);
  }

  lemma PaidOwn(st: State, next: State, id: AttemptId, usage: Usage, s: NodeId, c: Counter)
    requires AttemptsKnown(st) && Paid(st, next, id, usage) && s < |st.scopes| && Conserved(st, s)
    ensures next.scopes[s].own.Get(c) == Sum(st.nextAttempt, SettledBy(next.settled, s, c))
  {
    SumChange(st.nextAttempt, SettledBy(st.settled, s, c), SettledBy(next.settled, s, c), id);
  }

  lemma PaidUsage(st: State, next: State, id: AttemptId, usage: Usage, s: NodeId, c: Counter)
    requires AttemptsKnown(st) && Paid(st, next, id, usage) && s < |st.scopes| && Conserved(st, s)
    ensures next.scopes[s].usage.Get(c) == Sum(|st.scopes|, OwnIn(next.scopes, s, c))
  {
    hide Sum, AttemptsKnown;
    PaidKeepsTree(st, next, id, usage);
    SumChange(|st.scopes|, OwnIn(st.scopes, s, c), OwnIn(next.scopes, s, c), st.attempts[id].node);
  }

  lemma PaidConserves(st: State, next: State, id: AttemptId, usage: Usage, s: NodeId)
    requires AttemptsKnown(st) && Paid(st, next, id, usage) && s < |st.scopes| && Conserved(st, s)
    ensures Conserved(next, s)
  {
    if Covers(TreeOf(st.scopes), s, st.attempts[id].node) {
      HeldByAncestors(st, id, s);
    }
    PaidMoves(st, next, id, usage, s);
    forall c: Counter
      ensures next.scopes[s].own.Get(c) == Sum(st.nextAttempt, SettledBy(next.settled, s, c))
      ensures next.scopes[s].usage.Get(c) == Sum(|st.scopes|, OwnIn(next.scopes, s, c))
    {
      PaidOwn(st, next, id, usage, s, c);
      PaidUsage(st, next, id, usage, s, c);
    }
  }

  lemma SettleKeepsInv(st: State, id: AttemptId, charge: Charge)
    requires Inv(st) && id in st.attempts
    ensures Inv(Settle(st, id, charge))
  {
    var next := Settle(st, id, charge);
    var usage := ChargeUsage(st.attempts[id].tokens, charge);
    PaidKeepsTree(st, next, id, usage);
    forall s | 0 <= s < |next.scopes| ensures Conserved(next, s) {
      PaidConserves(st, next, id, usage, s);
    }
    SameFlagsCount(st, next);
  }

  // ----- shutdown -----

  /** A state whose scopes differ from those of `st` only in their flags. */
  ghost predicate SameBooks(st: State, next: State) {
    && next.attempts == st.attempts && next.settled == st.settled && next.nextAttempt == st.nextAttempt
    && |next.scopes| == |st.scopes|
    && (forall n :: 0 <= n < |st.scopes| ==>
          && next.scopes[n].parent == st.scopes[n].parent
          && next.scopes[n].agent == st.scopes[n].agent
          && next.scopes[n].budget == st.scopes[n].budget
          && next.scopes[n].usage == st.scopes[n].usage
          && next.scopes[n].own == st.scopes[n].own)
  }

  lemma SameBooksConserved(st: State, next: State, s: NodeId)
    requires SameBooks(st, next) && s < |st.scopes| && Conserved(st, s)
    ensures Conserved(next, s)
  {
    assert TreeOf(next.scopes) == TreeOf(st.scopes);
    HeldSame(st, next, s, st.nextAttempt);
    ChargedSame(st, next, s, st.nextAttempt);
    forall c: Counter ensures Sum(|st.scopes|, OwnIn(next.scopes, s, c)) == Sum(|st.scopes|, OwnIn(st.scopes, s, c)) {
      OwnSame(st.scopes, next.scopes, s, c, |st.scopes|);
    }
  }

  lemma ShutdownCounts(st: State, node: NodeId)
    requires Counted(st) && node < |st.scopes|
    ensures Counted(Shutdown(st, node))
  {
    var next := Shutdown(st, node);
    SumEqual(|st.scopes|, Agents(st.scopes), Agents(next.scopes));
    SumEqual(|st.scopes|, Leaves(st.scopes), Leaves(next.scopes));
    SumChange(|st.scopes|, LiveAgents(st.scopes), LiveAgents(next.scopes), node);
  }

  lemma CloseAdmissionKeepsInv(st: State, node: NodeId)
    requires Inv(st) && node < |st.scopes|
    ensures Inv(CloseAdmission(st, node))
  {
    var next := CloseAdmission(st, node);
    assert TreeOf(next.scopes) == TreeOf(st.scopes);
    forall s | 0 <= s < |next.scopes| ensures Conserved(next, s) {
      SameBooksConserved(st, next, s);
    }
    SameFlagsCount(st, next);
  }

  lemma ShutdownKeepsInv(st: State, node: NodeId)
    requires Inv(st) && node < |st.scopes|
    ensures Inv(Shutdown(st, node))
  {
    var next := Shutdown(st, node);
    assert TreeOf(next.scopes) == TreeOf(st.scopes);
    forall s | 0 <= s < |next.scopes| ensures Conserved(next, s) {
      SameBooksConserved(st, next, s);
    }
    ShutdownCounts(st, node);
  }

  lemma FreshHasInv(st: State)
    requires |st.scopes| == 1 && st.attempts == map[] && st.settled == map[]
    requires st.total == 1 && st.live == 1 && st.llm == 0
    requires var root := st.scopes[0];
             && root.parent.None? && root.agent && root.alive
             && root.budget.used == 0 && root.budget.reserved == 0 && !root.budget.closed
             && root.usage.Total() == 0 && root.own.Total() == 0
    ensures Inv(st)
  {
    FreshCounts(st, |st.scopes| - 1);
    EmptyBooks(st, 0);
  }

  lemma FreshCounts(st: State, n: nat)
    requires |st.scopes| == n + 1 && n == 0 && st.scopes[n].agent && st.scopes[n].alive
    requires st.total == 1 && st.live == 1 && st.llm == 0
    ensures Counted(st)
  {
    assert Sum(n, Agents(st.scopes)) == 0 && Sum(n, LiveAgents(st.scopes)) == 0 && Sum(n, Leaves(st.scopes)) == 0;
  }

  lemma InitHasInv(limits: Limits)
    ensures Inv(Init(limits))
  {
    FreshHasInv(Init(limits));
  }
}
