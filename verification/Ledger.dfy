/**
 The budget ledger as values: scopes in a tree, reservations and settlements that touch
 every ancestor, and what each operation does to the whole state.
 */
module LedgerSpec {
  import opened Common

  type NodeId = nat
  type AttemptId = nat

  /** Smallest output cap a reservation may be reduced to. */
  const MIN_OUTPUT_TOKENS: nat := 4096
  /** Node identifiers are 32 bits wide. */
  const NODE_IDS: nat := 0x1_0000_0000

  datatype Counter = Input | Output | CacheCreation | CacheRead

  datatype Usage = Usage(input: nat, output: nat, cacheCreation: nat, cacheRead: nat) {
    function Total(): nat {
      input + output + cacheCreation + cacheRead
    }

    function Get(c: Counter): nat {
      match c
      case Input => input
      case Output => output
      case CacheCreation => cacheCreation
      case CacheRead => cacheRead
    }

    function Plus(other: Usage): Usage {
      Usage(input + other.input, output + other.output,
            cacheCreation + other.cacheCreation, cacheRead + other.cacheRead)
    }
  }

  const NO_USAGE := Usage(0, 0, 0, 0)

  datatype Budget = Budget(limit: nat, used: nat, reserved: nat, closed: bool) {
    function Remaining(): nat {
      if closed then 0 else Monus(limit, used + reserved)
    }
  }

  datatype Scope = Scope(parent: Option<NodeId>, depth: nat, agent: bool, alive: bool,
                         admissionClosed: bool, budget: Budget, usage: Usage, own: Usage)

  datatype Limits = Limits(budgetTokens: nat, maxDepth: nat, maxAgentsLive: nat,
                           maxAgentsTotal: nat, maxLlmCalls: nat)

  datatype Attempt = Attempt(node: NodeId, tokens: nat)

  /** What a settlement charged; kept as history, the source keeps only the totals. */
  datatype Settled = Settled(node: NodeId, tokens: nat, usage: Usage) {
    function Charged(): nat {
      usage.Total()
    }

    /** How far the charge goes beyond what the attempt held. */
    function Excess(): nat {
      Monus(usage.Total(), tokens)
    }
  }

  datatype Reservation = Reservation(id: AttemptId, tokens: nat, maxTokens: nat)
  datatype Settlement = Settlement(charged: nat, excess: nat)
  datatype Policy = Zero | Reserved
  datatype Charge = Measured(usage: Usage) | Failed(policy: Policy)

  datatype Exceeded = Depth | AgentsLive | AgentsTotal | LlmCalls
  datatype Error = UnknownParent | Cancelled | LimitExceeded(limit: Exceeded) | ZeroBudget
                 | BudgetExceeded | IdsExhausted | ZeroRequest | ShutDown | BudgetExhausted

  datatype State = State(limits: Limits, scopes: seq<Scope>, total: nat, live: nat, llm: nat,
                         nextAttempt: AttemptId, attempts: map<AttemptId, Attempt>,
                         settled: map<AttemptId, Settled>)

  // ----- the scope tree -----

  /** The parent of every scope; a parent is admitted before its children. */
  type Tree = seq<Option<NodeId>>

  ghost predicate IsTree(tree: Tree) {
    && |tree| > 0
    && tree[0].None?
    && forall n :: 0 < n < |tree| ==> tree[n].Some? && tree[n].value < n
  }

  /** `scope` is `n` or one of its ancestors. */
  ghost predicate Covers(tree: Tree, scope: NodeId, n: NodeId) {
    && n < |tree|
    && (scope == n || (tree[n].Some? && tree[n].value < n && Covers(tree, scope, tree[n].value)))
  }

  ghost function TreeOf(scopes: seq<Scope>): (tree: Tree)
    ensures |tree| == |scopes|
    ensures forall n :: 0 <= n < |scopes| ==> tree[n] == scopes[n].parent
  {
    seq(|scopes|, n requires 0 <= n < |scopes| => scopes[n].parent)
  }

  lemma {:induction false} CoversBounds(tree: Tree, scope: NodeId, n: NodeId)
    requires Covers(tree, scope, n)
    ensures scope <= n < |tree|
    decreases n
  {
    if scope != n {
      CoversBounds(tree, scope, tree[n].value);
    }
  }

  lemma {:induction false} CoversTransitive(tree: Tree, a: NodeId, b: NodeId, c: NodeId)
    requires Covers(tree, a, b) && Covers(tree, b, c)
    ensures Covers(tree, a, c)
    decreases c
  {
    if b != c {
      CoversTransitive(tree, a, b, tree[c].value);
    }
  }

  /** Admitting a scope changes nothing among the scopes admitted before. */
  lemma {:induction false} CoversExtend(tree: Tree, parent: Option<NodeId>, scope: NodeId, n: NodeId)
    requires n < |tree|
    ensures Covers(tree + [parent], scope, n) == Covers(tree, scope, n)
    decreases n
  {
    if scope != n && tree[n].Some? && tree[n].value < n {
      CoversExtend(tree, parent, scope, tree[n].value);
    }
  }

  // ----- the operations, as what they do to the whole state -----

  ghost function Init(limits: Limits): State {
    State(limits, [Scope(None, 0, true, true, false, Budget(limits.budgetTokens, 0, 0, false),
                         NO_USAGE, NO_USAGE)],
          1, 1, 0, 0, map[], map[])
  }

  /** Every scope on the path from `node` to the root can still dispatch `tokens`. */
  ghost predicate Headroom(scopes: seq<Scope>, node: NodeId, tokens: nat) {
    forall s :: 0 <= s < |scopes| && Covers(TreeOf(scopes), s, node)
                ==> tokens <= scopes[s].budget.Remaining()
  }

  ghost predicate IsOpen(st: State, node: NodeId) {
    node < |st.scopes| && st.scopes[node].alive && !st.scopes[node].admissionClosed
  }

  /** The first limit an admission would break, in the order they are checked. */
  function LimitBroken(st: State, depth: nat, agent: bool): Option<Exceeded> {
    if agent && depth > st.limits.maxDepth then Some(Depth)
    else if agent && st.live >= st.limits.maxAgentsLive then Some(AgentsLive)
    else if agent && st.total >= st.limits.maxAgentsTotal then Some(AgentsTotal)
    else if !agent && st.llm >= st.limits.maxLlmCalls then Some(LlmCalls)
    else None
  }

  ghost function AdmitError(st: State, parent: NodeId, agent: bool, limit: Option<nat>): Option<Error> {
    if parent >= |st.scopes| then Some(UnknownParent)
    else if !IsOpen(st, parent) then Some(Cancelled)
    else
      var depth := st.scopes[parent].depth + (if agent then 1 else 0);
      var broken := LimitBroken(st, depth, agent);
      if broken.Some? then Some(LimitExceeded(broken.value))
      else if limit == Some(0) then Some(ZeroBudget)
      else if !Headroom(st.scopes, parent, 1) then Some(BudgetExceeded)
      else if |st.scopes| >= NODE_IDS then Some(IdsExhausted)
      else None
  }

  function NewScope(st: State, parent: NodeId, agent: bool, limit: Option<nat>): Scope
    requires parent < |st.scopes|
  {
    var wanted := if limit.Some? then limit.value else st.limits.budgetTokens;
    Scope(Some(parent), st.scopes[parent].depth + (if agent then 1 else 0), agent, true, false,
          Budget(Min(wanted, st.scopes[parent].budget.limit), 0, 0, false), NO_USAGE, NO_USAGE)
  }

  ghost function Admit(st: State, parent: NodeId, agent: bool, limit: Option<nat>): (r: (State, Result<NodeId, Error>)) {
    var error := AdmitError(st, parent, agent, limit);
    if error.Some? then (st, Err(error.value))
    else
      var one := if agent then 1 else 0;
      (st.(scopes := st.scopes + [NewScope(st, parent, agent, limit)],
           total := st.total + one, live := st.live + one, llm := st.llm + 1 - one),
       Ok(|st.scopes|))
  }

  /** What a reservation or a settlement does to one scope on its path. */
  datatype Change = Hold(tokens: nat) | Book(tokens: nat, usage: Usage)

  /** A settlement closes a scope for good when it passes the limit. */
  function Apply(change: Change, scope: Scope): Scope {
    var budget := scope.budget;
    match change
    case Hold(tokens) =>
      scope.(budget := budget.(reserved := budget.reserved + tokens))
    case Book(tokens, usage) =>
      var reserved := Monus(budget.reserved, tokens);
      var used := budget.used + usage.Total();
      scope.(budget := Budget(budget.limit, used, reserved, budget.closed || used + reserved > budget.limit),
             usage := scope.usage.Plus(usage))
  }

  /** `change` applied to the scopes on the path from `node` to the root, and to no other. */
  ghost function OnPath(scopes: seq<Scope>, node: NodeId, change: Change): (r: seq<Scope>)
    ensures |r| == |scopes|
    ensures forall s :: 0 <= s < |scopes| ==>
      r[s] == if Covers(TreeOf(scopes), s, node) then Apply(change, scopes[s]) else scopes[s]
  {
    seq(|scopes|, s requires 0 <= s < |scopes| =>
      if Covers(TreeOf(scopes), s, node) then Apply(change, scopes[s]) else scopes[s])
  }

  ghost predicate CanReserve(st: State, node: NodeId, prompt: nat, requested: nat) {
    && requested > 0
    && IsOpen(st, node)
    && Headroom(st.scopes, node, prompt + Min(MIN_OUTPUT_TOKENS, requested))
  }

  /** One more attempt of `node`, its tokens reserved on the whole path. */
  ghost function Take(st: State, node: NodeId, tokens: nat): State {
    st.(scopes := OnPath(st.scopes, node, Hold(tokens)),
        nextAttempt := st.nextAttempt + 1,
        attempts := st.attempts[st.nextAttempt := Attempt(node, tokens)])
  }

  /** The largest output cap up to the request that still fits every scope on the path. */
  ghost predicate IsCap(st: State, node: NodeId, prompt: nat, requested: nat, cap: nat) {
    && cap <= requested
    && Headroom(st.scopes, node, prompt + cap)
    && (cap < requested ==> !Headroom(st.scopes, node, prompt + cap + 1))
  }

  lemma {:induction false} CapExists(st: State, node: NodeId, prompt: nat, requested: nat, fitting: nat)
    requires fitting <= requested && Headroom(st.scopes, node, prompt + fitting)
    ensures exists cap: nat :: IsCap(st, node, prompt, requested, cap)
    decreases requested - fitting
  {
    if fitting < requested && Headroom(st.scopes, node, prompt + fitting + 1) {
      CapExists(st, node, prompt, requested, fitting + 1);
    } else {
      assert IsCap(st, node, prompt, requested, fitting);
    }
  }

  ghost function Cap(st: State, node: NodeId, prompt: nat, requested: nat): (cap: nat)
    requires CanReserve(st, node, prompt, requested)
    ensures IsCap(st, node, prompt, requested, cap)
  {
    CapExists(st, node, prompt, requested, Min(MIN_OUTPUT_TOKENS, requested));
    var cap: nat :| IsCap(st, node, prompt, requested, cap);
    cap
  }

  ghost function ReserveError(st: State, node: NodeId, prompt: nat, requested: nat): Option<Error> {
    if requested == 0 then Some(ZeroRequest)
    else if !IsOpen(st, node) then Some(ShutDown)
    else if !CanReserve(st, node, prompt, requested) then Some(BudgetExhausted)
    else None
  }

  ghost function Reserve(st: State, node: NodeId, prompt: nat, requested: nat): (State, Result<Reservation, Error>) {
    var error := ReserveError(st, node, prompt, requested);
    if error.Some? then (st, Err(error.value))
    else
      var cap := Cap(st, node, prompt, requested);
      (Take(st, node, prompt + cap), Ok(Reservation(st.nextAttempt, prompt + cap, cap)))
  }

  function ChargeUsage(tokens: nat, charge: Charge): Usage {
    match charge
    case Measured(usage) => usage
    case Failed(Zero) => NO_USAGE
    case Failed(Reserved) => Usage(tokens, 0, 0, 0)
  }

  /** An attempt leaves its path for what it is charged. */
  ghost function Pay(st: State, id: AttemptId, usage: Usage): State
    requires id in st.attempts && st.attempts[id].node < |st.scopes|
  {
    var attempt := st.attempts[id];
    var scopes := OnPath(st.scopes, attempt.node, Book(attempt.tokens, usage));
    var node := scopes[attempt.node];
    st.(scopes := scopes[attempt.node := node.(own := node.own.Plus(usage))],
        attempts := st.attempts - {id},
        settled := st.settled[id := Settled(attempt.node, attempt.tokens, usage)])
  }

  ghost function Settle(st: State, id: AttemptId, charge: Charge): State
    requires id in st.attempts && st.attempts[id].node < |st.scopes|
  {
    Pay(st, id, ChargeUsage(st.attempts[id].tokens, charge))
  }

  ghost function CloseAdmission(st: State, node: NodeId): State
    requires node < |st.scopes|
  {
    st.(scopes := st.scopes[node := st.scopes[node].(admissionClosed := true)])
  }

  ghost function Shutdown(st: State, node: NodeId): State
    requires node < |st.scopes|
  {
    var scope := st.scopes[node];
    st.(scopes := st.scopes[node := scope.(alive := false)],
        live := if scope.alive && scope.agent then Monus(st.live, 1) else st.live)
  }

  // ----- what the counters mean -----

  /** What one attempt or one scope adds to a total. */
  datatype Weight =
    | Held(scopes: seq<Scope>, attempts: map<AttemptId, Attempt>, s: NodeId)
    | Charged(scopes: seq<Scope>, settled: map<AttemptId, Settled>, s: NodeId)
    | Excess(settled: map<AttemptId, Settled>, ids: set<AttemptId>)
    | OwnIn(scopes: seq<Scope>, s: NodeId, c: Counter)
    | SettledBy(settled: map<AttemptId, Settled>, n: NodeId, c: Counter)
    | Agents(scopes: seq<Scope>)
    | LiveAgents(scopes: seq<Scope>)
    | Leaves(scopes: seq<Scope>)

  ghost function At(w: Weight, i: nat): nat {
    match w
    case Held(scopes, attempts, s) =>
      if i in attempts && Covers(TreeOf(scopes), s, attempts[i].node) then attempts[i].tokens else 0
    case Charged(scopes, settled, s) =>
      if i in settled && Covers(TreeOf(scopes), s, settled[i].node) then settled[i].Charged() else 0
    case Excess(settled, ids) =>
      if i in settled && i in ids then settled[i].Excess() else 0
    case OwnIn(scopes, s, c) =>
      if i < |scopes| && Covers(TreeOf(scopes), s, i) then scopes[i].own.Get(c) else 0
    case SettledBy(settled, n, c) =>
      if i in settled && settled[i].node == n then settled[i].usage.Get(c) else 0
    case Agents(scopes) =>
      if i < |scopes| && scopes[i].agent then 1 else 0
    case LiveAgents(scopes) =>
      if i < |scopes| && scopes[i].agent && scopes[i].alive then 1 else 0
    case Leaves(scopes) =>
      if i < |scopes| && !scopes[i].agent then 1 else 0
  }

  ghost function Sum(n: nat, w: Weight): nat {
    if n == 0 then 0 else Sum(n - 1, w) + At(w, n - 1)
  }

  /** Attempts outstanding in the subtree of `s`. */
  ghost function Outstanding(st: State, s: NodeId): set<AttemptId> {
    set a | a in st.attempts && Covers(TreeOf(st.scopes), s, st.attempts[a].node)
  }

  // ----- the invariant of every reachable ledger -----

  ghost predicate Counted(st: State) {
    && st.total == Sum(|st.scopes|, Agents(st.scopes))
    && st.live == Sum(|st.scopes|, LiveAgents(st.scopes))
    && st.llm == Sum(|st.scopes|, Leaves(st.scopes))
  }

  ghost predicate AttemptsKnown(st: State) {
    && st.attempts.Keys !! st.settled.Keys
    && (forall a :: a in st.attempts ==> a < st.nextAttempt && st.attempts[a].node < |st.scopes|)
    && (forall a :: a in st.settled ==> a < st.nextAttempt && st.settled[a].node < |st.scopes|)
  }

  /** Conservation at one scope. */
  ghost predicate Conserved(st: State, s: NodeId)
    requires s < |st.scopes|
  {
    var scope := st.scopes[s];
    && scope.budget.reserved == Sum(st.nextAttempt, Held(st.scopes, st.attempts, s))
    && scope.budget.used == Sum(st.nextAttempt, Charged(st.scopes, st.settled, s))
    && (forall c: Counter :: scope.usage.Get(c) == Sum(|st.scopes|, OwnIn(st.scopes, s, c)))
    && (forall c: Counter :: scope.own.Get(c) == Sum(st.nextAttempt, SettledBy(st.settled, s, c)))
    && scope.usage.Total() == scope.budget.used
  }

  ghost predicate Within(budget: Budget) {
    !budget.closed ==> budget.used + budget.reserved <= budget.limit
  }

  ghost predicate LimitsNest(scopes: seq<Scope>) {
    forall n :: 0 <= n < |scopes| && scopes[n].parent.Some? && scopes[n].parent.value < |scopes|
                ==> scopes[n].budget.limit <= scopes[scopes[n].parent.value].budget.limit
  }

  ghost predicate Inv(st: State) {
    && IsTree(TreeOf(st.scopes))
    && AttemptsKnown(st)
    && Counted(st)
    && LimitsNest(st.scopes)
    && (forall s :: 0 <= s < |st.scopes| ==> Within(st.scopes[s].budget))
    && (forall s :: 0 <= s < |st.scopes| ==> Conserved(st, s))
  }
}
