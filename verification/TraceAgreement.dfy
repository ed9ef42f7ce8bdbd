/** The rebuilt tree depends on the records and not on their order, and its usage is the ledger's. */
module TraceAgreement {
  import opened Common
  import opened Forest
  import opened TraceTree
  import L = LedgerSpec

  // ----- any order of the records -----

  /** What there is one record of at most: a node's start, an attempt's end, a node's end. */
  function Key(r: Record): Option<(nat, nat)> {
    match r
    case NodeStart(node, _, _) => Some((0, node))
    case AttemptEnd(_, attempt, _, _) => Some((1, attempt))
    case NodeEnd(node, _, _, _) => Some((2, node))
    case _ => None
  }

  predicate WellFormed(rs: seq<Record>) {
    forall i, j :: 0 <= i < j < |rs| && Key(rs[i]).Some? ==> Key(rs[i]) != Key(rs[j])
  }

  function Removed(rs: seq<Record>, j: nat): seq<Record>
    requires j < |rs|
  {
    rs[..j] + rs[j + 1..]
  }

  lemma RemovedMultiset(rs: seq<Record>, j: nat)
    requires j < |rs|
    ensures multiset(rs) == multiset(Removed(rs, j)) + multiset{rs[j]}
  {
    assert rs == rs[..j] + [rs[j]] + rs[j + 1..];
  }

  /** Two records of a multiset stand at two places. */
  lemma TwoPlaces(rs: seq<Record>, x: Record, y: Record) returns (i: nat, j: nat)
    requires multiset{x, y} <= multiset(rs)
    ensures i < |rs| && j < |rs| && i != j && rs[i] == x && rs[j] == y
  {
    assert x in multiset(rs);
    i :| 0 <= i < |rs| && rs[i] == x;
    RemovedMultiset(rs, i);
    var rest := Removed(rs, i);
    assert multiset(rest)[y] >= 1;
    assert y in multiset(rest);
    var k :| 0 <= k < |rest| && rest[k] == y;
    j := if k < i then k else k + 1;
  }

  lemma PairWithin(rs: seq<Record>, i: nat, j: nat)
    requires i < j < |rs|
    ensures multiset{rs[i], rs[j]} <= multiset(rs)
  {
    assert rs == rs[..i] + [rs[i]] + rs[i + 1..j] + [rs[j]] + rs[j + 1..];
  }

  lemma PermutedWellFormed(a: seq<Record>, b: seq<Record>)
    requires multiset(a) == multiset(b) && WellFormed(a)
    ensures WellFormed(b)
  {
    forall i, j | 0 <= i < j < |b| && Key(b[i]).Some?
      ensures Key(b[i]) != Key(b[j])
    {
      PairWithin(b, i, j);
      var k, l := TwoPlaces(a, b[i], b[j]);
      hide Key;
      assert Key(a[Min(k, l)]).Some? ==> Key(a[Min(k, l)]) != Key(a[Max(k, l)]);
    }
  }

  lemma {:induction false} TurnsCount(rs: seq<Record>, id: NodeId)
    ensures Turns(rs, id) == multiset(rs)[Assistant(id)]
  {
    if rs != [] {
      var init, r := rs[..|rs| - 1], rs[|rs| - 1];
      TurnsCount(init, id);
      assert rs == init + [r];
    }
  }

  lemma WellFormedInit(rs: seq<Record>)
    requires WellFormed(rs) && rs != []
    ensures WellFormed(rs[..|rs| - 1])
    ensures var r := rs[|rs| - 1]; Key(r).Some? ==> forall i :: 0 <= i < |rs| - 1 ==> Key(rs[i]) != Key(r)
  {
    hide Key;
  }

  /** A node's only start record says how it starts. */
  lemma {:induction false} StartIs(rs: seq<Record>, r: Record)
    requires WellFormed(rs) && r in rs && r.NodeStart?
    ensures r.node in Starts(rs) && Starts(rs)[r.node] == Node(r.parent, r.info, None, 0, L.NO_USAGE)
  {
    hide L.NO_USAGE;
    var init, last := rs[..|rs| - 1], rs[|rs| - 1];
    WellFormedInit(rs);
    if last != r {
      StartIs(init, r);
      var i :| 0 <= i < |init| && init[i] == r;
      assert Key(last).Some? ==> Key(rs[i]) != Key(last);
    }
  }

  /** A node's only end record is its last. */
  lemma {:induction false} EndIs(rs: seq<Record>, r: Record)
    requires WellFormed(rs) && r in rs && r.NodeEnd?
    ensures LastEnd(rs, r.node) == Some(r)
  {
    var init, last := rs[..|rs| - 1], rs[|rs| - 1];
    WellFormedInit(rs);
    if last != r {
      EndIs(init, r);
      var i :| 0 <= i < |init| && init[i] == r;
      assert Key(last).Some? ==> Key(rs[i]) != Key(last);
    }
  }

  lemma {:induction false} EndIsThere(rs: seq<Record>, id: NodeId)
    ensures LastEnd(rs, id).Some? ==> LastEnd(rs, id).value in rs && LastEnd(rs, id).value.node == id
  {
    if rs != [] {
      EndIsThere(rs[..|rs| - 1], id);
    }
  }

  /** What one record charges a node. */
  function ChargeAt(r: Record, id: NodeId, c: L.Counter): nat {
    if r.AttemptEnd? && r.node == id then ChargeOf(r).Get(c) else 0
  }

  function ChargeSum(rs: seq<Record>, id: NodeId, c: L.Counter): nat {
    if rs == [] then 0 else ChargeSum(rs[..|rs| - 1], id, c) + ChargeAt(rs[|rs| - 1], id, c)
  }

  lemma {:induction false} ChargedIsSum(rs: seq<Record>, id: NodeId, c: L.Counter)
    requires WellFormed(rs)
    ensures Charged(rs, id).Get(c) == ChargeSum(rs, id, c)
  {
    if rs != [] {
      var init, r := rs[..|rs| - 1], rs[|rs| - 1];
      WellFormedInit(rs);
      ChargedIsSum(init, id, c);
      assert r.AttemptEnd? ==> !SeenAttempt(init, r.attempt);
    }
  }

  lemma {:induction false} SumWithout(rs: seq<Record>, j: nat, id: NodeId, c: L.Counter)
    requires j < |rs|
    ensures ChargeSum(rs, id, c) == ChargeSum(Removed(rs, j), id, c) + ChargeAt(rs[j], id, c)
  {
    hide ChargeAt;
    var n := |rs| - 1;
    if j == n {
      assert Removed(rs, j) == rs[..n];
    } else {
      SumWithout(rs[..n], j, id, c);
      var rest := Removed(rs, j);
      assert rest[..|rest| - 1] == Removed(rs[..n], j);
      assert rest[|rest| - 1] == rs[n];
    }
  }

  lemma Cancel(p: multiset<Record>, q: multiset<Record>, x: Record)
    requires p + multiset{x} == q + multiset{x}
    ensures p == q
  {
    forall y
      ensures p[y] == q[y]
    {
      assert (p + multiset{x})[y] == (q + multiset{x})[y];
    }
  }

  lemma {:induction false} SumPermuted(a: seq<Record>, b: seq<Record>, id: NodeId, c: L.Counter)
    requires multiset(a) == multiset(b)
    ensures ChargeSum(a, id, c) == ChargeSum(b, id, c)
    decreases |a|
  {
    hide ChargeAt;
    if a == [] {
      assert |multiset(a)| == 0 && |multiset(b)| == |b|;
    } else {
      var n := |a| - 1;
      assert a[n] in multiset(b);
      var j :| 0 <= j < |b| && b[j] == a[n];
      RemovedMultiset(b, j);
      RemovedMultiset(a, n);
      assert Removed(a, n) == a[..n];
      Cancel(multiset(a[..n]), multiset(Removed(b, j)), a[n]);
      SumPermuted(a[..n], Removed(b, j), id, c);
      SumWithout(b, j, id, c);
    }
  }

  lemma SameCharged(a: seq<Record>, b: seq<Record>, id: NodeId)
    requires multiset(a) == multiset(b) && WellFormed(a) && WellFormed(b)
    ensures Charged(a, id) == Charged(b, id)
  {
    forall c: L.Counter
      ensures Charged(a, id).Get(c) == Charged(b, id).Get(c)
    {
      ChargedIsSum(a, id, c);
      ChargedIsSum(b, id, c);
      SumPermuted(a, b, id, c);
    }
    assert Charged(a, id).Get(L.Input) == Charged(b, id).Get(L.Input);
    assert Charged(a, id).Get(L.Output) == Charged(b, id).Get(L.Output);
    assert Charged(a, id).Get(L.CacheCreation) == Charged(b, id).Get(L.CacheCreation);
    assert Charged(a, id).Get(L.CacheRead) == Charged(b, id).Get(L.CacheRead);
  }

  lemma SameMembers(a: seq<Record>, b: seq<Record>, r: Record)
    requires multiset(a) == multiset(b)
    ensures r in a <==> r in b
  {
    assert r in a <==> r in multiset(a);
    assert r in b <==> r in multiset(b);
  }

  lemma SameEnd(a: seq<Record>, b: seq<Record>, id: NodeId)
    requires multiset(a) == multiset(b) && WellFormed(a) && WellFormed(b)
    ensures LastEnd(a, id) == LastEnd(b, id)
  {
    EndIsThere(a, id);
    EndIsThere(b, id);
    if LastEnd(a, id).Some? {
      SameMembers(a, b, LastEnd(a, id).value);
      EndIs(b, LastEnd(a, id).value);
    }
    if LastEnd(b, id).Some? {
      SameMembers(a, b, LastEnd(b, id).value);
      EndIs(a, LastEnd(b, id).value);
    }
  }

  lemma SameStart(a: seq<Record>, b: seq<Record>, id: NodeId)
    requires multiset(a) == multiset(b) && WellFormed(a) && WellFormed(b) && id in Starts(a)
    ensures id in Starts(b) && Starts(a)[id] == Starts(b)[id]
  {
    hide Starts, L.NO_USAGE;
    assert Started(a, id);
    var i :| IsStart(a, i, id);
    SameMembers(a, b, a[i]);
    StartIs(a, a[i]);
    StartIs(b, a[i]);
  }

  /** A well-formed trace gives the same nodes, so the same forest, in whatever order its records come. */
  lemma OrderIsIrrelevant(a: seq<Record>, b: seq<Record>)
    requires multiset(a) == multiset(b) && WellFormed(a)
    ensures WellFormed(b) && NodesOf(a) == NodesOf(b) && UniqueStarts(a) && UniqueStarts(b)
  {
    PermutedWellFormed(a, b);
    StartsUnique(a);
    StartsUnique(b);
    hide Starts, Charged, LastEnd, Turns;
    forall id | id in Starts(a) || id in Starts(b)
      ensures id in Starts(a) && id in Starts(b) && NodesOf(a)[id] == NodesOf(b)[id]
    {
      if id in Starts(a) {
        SameStart(a, b, id);
      } else {
        SameStart(b, a, id);
      }
      TurnsCount(a, id);
      TurnsCount(b, id);
      SameCharged(a, b, id);
      SameEnd(a, b, id);
    }
  }

  lemma StartsUnique(rs: seq<Record>)
    requires WellFormed(rs)
    ensures UniqueStarts(rs)
  {
    forall i, j | 0 <= i < j < |rs| && rs[i].NodeStart? && rs[j].NodeStart?
      ensures rs[i].node != rs[j].node
    {
      assert Key(rs[i]) != Key(rs[j]);
    }
  }

  // ----- the usage of a subtree -----

  function OwnSum(nodes: Nodes, ids: seq<NodeId>, c: L.Counter): nat {
    if ids == [] then 0
    else OwnSum(nodes, ids[..|ids| - 1], c) + if ids[|ids| - 1] in nodes then nodes[ids[|ids| - 1]].own.Get(c) else 0
  }

  lemma {:induction false} OwnSumConcat(nodes: Nodes, a: seq<NodeId>, b: seq<NodeId>, c: L.Counter)
    ensures OwnSum(nodes, a + b, c) == OwnSum(nodes, a, c) + OwnSum(nodes, b, c)
  {
    if b == [] {
      assert a + b == a;
    } else {
      OwnSumConcat(nodes, a, b[..|b| - 1], c);
      assert (a + b)[..|a + b| - 1] == a + b[..|b| - 1];
    }
  }

  lemma {:induction false} SubtreeIsSum(nodes: Nodes, id: NodeId, bound: nat, c: L.Counter)
    requires IsForest(nodes) && id in nodes
    ensures var t := TreeOf(nodes, id, bound); t.subtree.Get(c) == OwnSum(nodes, Ids(t), c)
    decreases Room(nodes, id), 1, 0
  {
    hide Climb, Rooted, Depth, AllIds, TreesOf;
    TreeIs(nodes, id, bound);
    var kids := ChildrenBelow(nodes, Some(id), bound);
    var trees := TreesOf(nodes, id, kids, bound);
    TotalsAreSum(nodes, id, kids, bound, nodes[id].own, c);
    OwnSumConcat(nodes, [id], AllIds(trees), c);
    assert [id][..0] == [];
  }

  lemma {:induction false} TotalsAreSum(nodes: Nodes, parent: NodeId, kids: seq<NodeId>, bound: nat, own: L.Usage, c: L.Counter)
    requires IsForest(nodes) && Kids(nodes, parent, kids)
    ensures var trees := TreesOf(nodes, parent, kids, bound);
            Totals(own, trees).Get(c) == own.Get(c) + OwnSum(nodes, AllIds(trees), c)
    decreases Room(nodes, parent), 0, |kids|
  {
    hide Climb, Rooted, Depth, TreeOf, Ids;
    if kids == [] {
      NoTrees(nodes, parent, bound);
    } else {
      var n := |kids| - 1;
      var init, last := kids[..n], kids[n];
      TreesSnoc(nodes, parent, kids, n, bound);
      assert kids[..n + 1] == kids;
      TotalsAreSum(nodes, parent, init, bound, own, c);
      ChildRoom(nodes, last);
      SubtreeIsSum(nodes, last, bound, c);
      var before, t := TreesOf(nodes, parent, init, bound), TreeOf(nodes, last, bound);
      TotalsSnoc(own, before, t);
      AllIdsSnoc(before, t);
      OwnSumConcat(nodes, AllIds(before), Ids(t), c);
      hide TreesOf, Totals, AllIds;
      PlusGets(Totals(own, before), t.subtree, c);
    }
  }

  lemma PlusGets(a: L.Usage, b: L.Usage, c: L.Counter)
    ensures a.Plus(b).Get(c) == a.Get(c) + b.Get(c)
  {
  }

  /** Every id as often as it comes, times its own usage. */
  function Weighted(nodes: Nodes, ids: seq<NodeId>, c: L.Counter, n: nat): nat {
    if n == 0 then 0
    else Weighted(nodes, ids, c, n - 1)
         + if n - 1 in nodes then multiset(ids)[n - 1] * nodes[n - 1].own.Get(c) else 0
  }

  lemma OneMoreTime(ids: seq<NodeId>, x: NodeId, y: NodeId, own: nat)
    ensures multiset(ids + [x])[y] * own == multiset(ids)[y] * own + if x == y then own else 0
  {
    var k := multiset(ids)[y];
    assert multiset(ids + [x])[y] == k + if x == y then 1 else 0;
    assert (k + 1) * own == k * own + own;
  }

  lemma {:induction false} WeightedSnoc(nodes: Nodes, ids: seq<NodeId>, x: NodeId, c: L.Counter, n: nat)
    ensures Weighted(nodes, ids + [x], c, n)
         == Weighted(nodes, ids, c, n) + if x < n && x in nodes then nodes[x].own.Get(c) else 0
  {
    if n > 0 {
      WeightedSnoc(nodes, ids, x, c, n - 1);
      if n - 1 in nodes {
        OneMoreTime(ids, x, n - 1, nodes[n - 1].own.Get(c));
      }
    }
  }

  lemma {:induction false} WeightedNone(nodes: Nodes, c: L.Counter, n: nat)
    ensures Weighted(nodes, [], c, n) == 0
  {
    if n > 0 {
      WeightedNone(nodes, c, n - 1);
    }
  }

  lemma {:induction false} OwnSumIsWeighted(nodes: Nodes, ids: seq<NodeId>, c: L.Counter, n: nat)
    requires Covers(nodes, n)
    ensures OwnSum(nodes, ids, c) == Weighted(nodes, ids, c, n)
  {
    hide Weighted;
    if ids == [] {
      WeightedNone(nodes, c, n);
    } else {
      var init, x := ids[..|ids| - 1], ids[|ids| - 1];
      OwnSumIsWeighted(nodes, init, c, n);
      WeightedSnoc(nodes, init, x, c, n);
      assert ids == init + [x];
    }
  }

  // ----- agreement with the ledger -----

  /** The nodes are the ledger's scopes: same parents, same own usage. */
  ghost predicate Matches(nodes: Nodes, scopes: seq<L.Scope>) {
    && (forall id: NodeId :: id in nodes <==> id < |scopes|)
    && (forall id :: id in nodes ==> nodes[id].parent == scopes[id].parent && nodes[id].own == scopes[id].own)
  }

  /** A complete trace: every scope started, and every node's end tells its own usage. */
  ghost predicate Complete(rs: seq<Record>, scopes: seq<L.Scope>) {
    && (forall id: NodeId :: id in Starts(rs) <==> id < |scopes|)
    && (forall id: NodeId :: id < |scopes| ==> Starts(rs)[id].parent == scopes[id].parent)
    && (forall id: NodeId :: id < |scopes| ==> LastEnd(rs, id).Some? && LastEnd(rs, id).value.own == scopes[id].own)
  }

  lemma CompleteMatches(rs: seq<Record>, scopes: seq<L.Scope>)
    requires Complete(rs, scopes)
    ensures Matches(NodesOf(rs), scopes)
  {
    hide Starts, LastEnd, Turns, Charged;
  }

  lemma {:induction false} ScopesAreRooted(nodes: Nodes, scopes: seq<L.Scope>, id: NodeId)
    requires L.IsTree(L.TreeOf(scopes)) && Matches(nodes, scopes) && id in nodes
    ensures Rooted(nodes, id)
    decreases id
  {
    var tree := L.TreeOf(scopes);
    assert tree[id] == nodes[id].parent;
    assert Climb(nodes, Some(id), 0) == Some(id);
    assert Climb(nodes, Some(id), 1) == nodes[id].parent;
    if nodes[id].parent.Some? {
      var p := nodes[id].parent.value;
      assert p < id;
      ScopesAreRooted(nodes, scopes, p);
      var k: nat :| Climb(nodes, Some(p), k) == None;
      ClimbAdds(nodes, Some(id), 1, k);
    }
  }

  lemma ScopesAreForest(nodes: Nodes, scopes: seq<L.Scope>)
    requires L.IsTree(L.TreeOf(scopes)) && Matches(nodes, scopes)
    ensures IsForest(nodes)
  {
    forall id | id in nodes
      ensures Rooted(nodes, id)
    {
      ScopesAreRooted(nodes, scopes, id);
    }
    forall id | id in nodes && nodes[id].parent.Some?
      ensures nodes[id].parent.value in nodes
    {
      assert L.TreeOf(scopes)[id] == nodes[id].parent;
    }
  }

  /** Being under a node is being covered by its scope. */
  lemma {:induction false} UnderIsCovered(nodes: Nodes, scopes: seq<L.Scope>, m: NodeId, s: NodeId)
    requires L.IsTree(L.TreeOf(scopes)) && Matches(nodes, scopes) && m in nodes && s in nodes
    ensures Under(nodes, m, s) <==> L.Covers(L.TreeOf(scopes), s, m)
    decreases m
  {
    hide Climb;
    var tree := L.TreeOf(scopes);
    assert tree[m] == nodes[m].parent;
    if m == s {
      SelfUnder(nodes, m);
    } else if nodes[m].parent.Some? {
      var p := nodes[m].parent.value;
      UnderIsCovered(nodes, scopes, p, s);
      UnderViaParent(nodes, m, s);
    } else {
      UnderViaParent(nodes, m, s);
    }
  }

  lemma UnderViaParent(nodes: Nodes, m: NodeId, s: NodeId)
    requires m in nodes && m != s
    ensures Under(nodes, m, s) <==> nodes[m].parent.Some? && Under(nodes, nodes[m].parent.value, s)
  {
    assert Climb(nodes, Some(m), 0) == Some(m);
    assert Climb(nodes, Some(m), 1) == nodes[m].parent;
    if Under(nodes, m, s) {
      var k: nat :| Climb(nodes, Some(m), k) == Some(s);
      ClimbAdds(nodes, Some(m), 1, k - 1);
      ClimbFromNone(nodes, k - 1);
    }
    if nodes[m].parent.Some? && Under(nodes, nodes[m].parent.value, s) {
      var k: nat :| Climb(nodes, nodes[m].parent, k) == Some(s);
      ClimbAdds(nodes, Some(m), 1, k);
    }
  }

  lemma {:induction false} WeightedIsLedgerSum(nodes: Nodes, scopes: seq<L.Scope>, s: NodeId, ids: seq<NodeId>, c: L.Counter, n: nat)
    requires L.IsTree(L.TreeOf(scopes)) && Matches(nodes, scopes) && s in nodes && n <= |scopes|
    requires forall m :: m in nodes ==> multiset(ids)[m] == if Under(nodes, m, s) then 1 else 0
    ensures Weighted(nodes, ids, c, n) == L.Sum(n, L.OwnIn(scopes, s, c))
  {
    hide Under, L.Covers;
    if n > 0 {
      WeightedIsLedgerSum(nodes, scopes, s, ids, c, n - 1);
      UnderIsCovered(nodes, scopes, n - 1, s);
    }
  }

  /**
   The tree rebuilt from a complete trace of a ledger run: it exists, and every node's own and subtree usage are the
   ledger's.
   */
  lemma UsageAgrees(rs: seq<Record>, st: L.State, s: NodeId)
    requires L.Inv(st) && Complete(rs, st.scopes) && s < |st.scopes|
    ensures IsForest(NodesOf(rs)) && s in NodesOf(rs)
    ensures var t := TreeOf(NodesOf(rs), s, |st.scopes|);
            t.node.own == st.scopes[s].own && t.subtree == st.scopes[s].usage
  {
    var nodes, scopes, n := NodesOf(rs), st.scopes, |st.scopes|;
    CompleteMatches(rs, scopes);
    assert L.IsTree(L.TreeOf(scopes)) && L.Conserved(st, s);
    ScopesAreForest(nodes, scopes);
    hide NodesOf, L.Inv, L.IsTree, Climb, Rooted, Depth, TreeOf;
    TreeIs(nodes, s, n);
    var t := TreeOf(nodes, s, n);
    forall c: L.Counter
      ensures t.subtree.Get(c) == scopes[s].usage.Get(c)
    {
      SubtreeIsSum(nodes, s, n, c);
      OwnSumIsWeighted(nodes, Ids(t), c, n);
      forall m | m in nodes
        ensures multiset(Ids(t))[m] == if Under(nodes, m, s) then 1 else 0
      {
        TreeHoldsUnder(nodes, s, n, m);
      }
      WeightedIsLedgerSum(nodes, scopes, s, Ids(t), c, n);
    }
    SameUsage(t.subtree, scopes[s].usage);
  }

  lemma SameUsage(a: L.Usage, b: L.Usage)
    requires forall c: L.Counter :: a.Get(c) == b.Get(c)
    ensures a == b
  {
    assert a.Get(L.Input) == b.Get(L.Input) && a.Get(L.Output) == b.Get(L.Output);
    assert a.Get(L.CacheCreation) == b.Get(L.CacheCreation) && a.Get(L.CacheRead) == b.Get(L.CacheRead);
  }
}
