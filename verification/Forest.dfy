/** A forest from a map of nodes and their parents: every node is placed once, under its parent. */
module Forest {
  import opened Common
  import L = LedgerSpec

  type NodeId = L.NodeId

  /** What is known of a node: its parent and start record, its status, turns and own usage. */
  datatype Node = Node(parent: Option<NodeId>, info: string, status: Option<string>, turns: nat, own: L.Usage)

  type Nodes = map<NodeId, Node>

  datatype Tree = Tree(id: NodeId, node: Node, subtree: L.Usage, children: seq<Tree>)

  // ----- ancestry -----

  /** The node some steps up, or none past a root. */
  function Climb(nodes: Nodes, from: Option<NodeId>, k: nat): Option<NodeId> {
    if k == 0 then from
    else
      var below := Climb(nodes, from, k - 1);
      if below.Some? && below.value in nodes then nodes[below.value].parent else None
  }

  ghost predicate Rooted(nodes: Nodes, id: NodeId) {
    exists k: nat :: Climb(nodes, Some(id), k) == None
  }

  predicate ParentsPresent(nodes: Nodes) {
    forall id :: id in nodes && nodes[id].parent.Some? ==> nodes[id].parent.value in nodes
  }

  /** Every parent is there and every chain of parents ends. */
  ghost predicate IsForest(nodes: Nodes) {
    ParentsPresent(nodes) && forall id :: id in nodes ==> Rooted(nodes, id)
  }

  lemma {:induction false} ClimbAdds(nodes: Nodes, from: Option<NodeId>, j: nat, k: nat)
    ensures Climb(nodes, from, j + k) == Climb(nodes, Climb(nodes, from, j), k)
    decreases k
  {
    if k > 0 {
      ClimbAdds(nodes, from, j, k - 1);
    }
  }

  lemma {:induction false} ClimbFromNone(nodes: Nodes, k: nat)
    ensures Climb(nodes, None, k) == None
  {
    if k > 0 {
      ClimbFromNone(nodes, k - 1);
    }
  }

  /** Climbing stays inside while parents are present. */
  lemma {:induction false} ClimbInside(nodes: Nodes, id: NodeId, k: nat)
    requires ParentsPresent(nodes) && id in nodes
    ensures var up := Climb(nodes, Some(id), k); up.Some? ==> up.value in nodes
  {
    if k > 0 {
      ClimbInside(nodes, id, k - 1);
    }
  }

  lemma {:induction false} Repeats(nodes: Nodes, x: Option<NodeId>, p: nat, q: nat)
    requires Climb(nodes, x, p) == x
    ensures Climb(nodes, x, q * p) == x
    decreases q
  {
    if q > 0 {
      Repeats(nodes, x, p, q - 1);
      ClimbAdds(nodes, x, (q - 1) * p, p);
      assert (q - 1) * p + p == q * p;
    }
  }

  lemma TimesGrows(k: nat, p: nat)
    requires p > 0
    ensures k * p >= k
  {
    assert k * p - k == k * (p - 1);
  }

  /** A chain that ends stays ended. */
  lemma StaysEnded(nodes: Nodes, x: Option<NodeId>, k: nat, more: nat)
    requires Climb(nodes, x, k) == None
    ensures Climb(nodes, x, k + more) == None
  {
    ClimbAdds(nodes, x, k, more);
    ClimbFromNone(nodes, more);
  }

  lemma NeverEnds(nodes: Nodes, x: Option<NodeId>, p: nat, k: nat)
    requires x.Some? && p > 0 && Climb(nodes, x, p) == x
    ensures Climb(nodes, x, k).Some?
  {
    hide Climb;
    if Climb(nodes, x, k) == None {
      var n := k * p;
      Repeats(nodes, x, p, k);
      TimesGrows(k, p);
      StaysEnded(nodes, x, k, n - k);
    }
  }

  /** A chain that comes back to a node never ends. */
  lemma CycleIsNotRooted(nodes: Nodes, id: NodeId, i: nat, j: nat)
    requires i < j && Climb(nodes, Some(id), i).Some? && Climb(nodes, Some(id), i) == Climb(nodes, Some(id), j)
    ensures !Rooted(nodes, id)
  {
    hide Climb;
    var x, p := Climb(nodes, Some(id), i), j - i;
    ClimbAdds(nodes, Some(id), i, p);
    forall k: nat
      ensures Climb(nodes, Some(id), k).Some?
    {
      if Climb(nodes, Some(id), k) == None {
        StaysEnded(nodes, Some(id), k, i);
        ClimbAdds(nodes, Some(id), i, k);
        NeverEnds(nodes, x, p, k);
      }
    }
  }

  ghost function Depth(nodes: Nodes, id: NodeId): (d: nat)
    requires Rooted(nodes, id)
    ensures Climb(nodes, Some(id), d) == None && d > 0
    ensures forall k :: 0 <= k < d ==> Climb(nodes, Some(id), k).Some?
  {
    var k: nat :| Climb(nodes, Some(id), k) == None;
    Least(nodes, id, k)
  }

  ghost function Least(nodes: Nodes, id: NodeId, k: nat): (d: nat)
    requires Climb(nodes, Some(id), k) == None
    ensures d <= k && Climb(nodes, Some(id), d) == None && d > 0
    ensures forall j :: 0 <= j < d ==> Climb(nodes, Some(id), j).Some?
  {
    if Climb(nodes, Some(id), k - 1) == None then Least(nodes, id, k - 1)
    else
      assert forall j :: 0 <= j < k ==> Climb(nodes, Some(id), j).Some? by { AllBelow(nodes, id, k - 1); }
      k
  }

  lemma {:induction false} AllBelow(nodes: Nodes, id: NodeId, k: nat)
    requires Climb(nodes, Some(id), k).Some?
    ensures forall j :: 0 <= j <= k ==> Climb(nodes, Some(id), j).Some?
  {
    forall j | 0 <= j <= k
      ensures Climb(nodes, Some(id), j).Some?
    {
      ClimbAdds(nodes, Some(id), j, k - j);
      ClimbFromNone(nodes, k - j);
    }
  }

  lemma DepthUnique(nodes: Nodes, id: NodeId, d: nat)
    requires Rooted(nodes, id) && Climb(nodes, Some(id), d) == None && (d == 0 || Climb(nodes, Some(id), d - 1).Some?)
    ensures Depth(nodes, id) == d
  {
    if d > 0 {
      AllBelow(nodes, id, d - 1);
    }
  }

  /** Every step up is one less deep. */
  lemma DepthOfAncestor(nodes: Nodes, m: NodeId, k: nat, id: NodeId)
    requires Rooted(nodes, m) && Climb(nodes, Some(m), k) == Some(id)
    ensures Rooted(nodes, id) && k < Depth(nodes, m) && Depth(nodes, id) == Depth(nodes, m) - k
  {
    var d := Depth(nodes, m);
    if k >= d {
      ClimbAdds(nodes, Some(m), d, k - d);
      ClimbFromNone(nodes, k - d);
    }
    ClimbAdds(nodes, Some(m), k, d - k);
    ClimbAdds(nodes, Some(m), k, d - k - 1);
    assert Climb(nodes, Some(id), d - k) == None;
    DepthUnique(nodes, id, d - k);
  }

  lemma ParentDepth(nodes: Nodes, id: NodeId)
    requires IsForest(nodes) && id in nodes
    ensures Rooted(nodes, id)
    ensures nodes[id].parent.Some? ==>
              var p := nodes[id].parent.value;
              p in nodes && Rooted(nodes, p) && Depth(nodes, id) == Depth(nodes, p) + 1
  {
    if nodes[id].parent.Some? {
      assert Climb(nodes, Some(id), 0) == Some(id);
      assert Climb(nodes, Some(id), 1) == nodes[id].parent;
      DepthOfAncestor(nodes, id, 1, nodes[id].parent.value);
    }
  }

  ghost predicate OnChain(nodes: Nodes, id: NodeId, k: nat, x: NodeId) {
    exists j: nat :: j < k && Climb(nodes, Some(id), j) == Some(x)
  }

  lemma OnChainStep(nodes: Nodes, id: NodeId, k: nat, x: NodeId)
    requires k > 0
    ensures OnChain(nodes, id, k, x) <==> OnChain(nodes, id, k - 1, x) || Climb(nodes, Some(id), k - 1) == Some(x)
  {
    hide Climb;
    if OnChain(nodes, id, k, x) {
      var j: nat :| j < k && Climb(nodes, Some(id), j) == Some(x);
      assert j < k - 1 ==> OnChain(nodes, id, k - 1, x);
    }
  }

  /** A chain of distinct nodes is no longer than the map. */
  lemma {:induction false} ChainSet(nodes: Nodes, id: NodeId, k: nat) returns (s: set<NodeId>)
    requires IsForest(nodes) && id in nodes && k <= Depth(nodes, id)
    ensures |s| == k && s <= nodes.Keys
    ensures forall x: nat :: x in s <==> OnChain(nodes, id, k, x)
  {
    hide Climb;
    if k == 0 {
      s := {};
    } else {
      forall y: nat
        ensures OnChain(nodes, id, k, y) <==> OnChain(nodes, id, k - 1, y) || Climb(nodes, Some(id), k - 1) == Some(y)
      {
        OnChainStep(nodes, id, k, y);
      }
      var before := ChainSet(nodes, id, k - 1);
      var x := Climb(nodes, Some(id), k - 1).value;
      ClimbInside(nodes, id, k - 1);
      if x in before {
        var j :| 0 <= j < k - 1 && Climb(nodes, Some(id), j) == Some(x);
        CycleIsNotRooted(nodes, id, j, k - 1);
      }
      s := before + {x};
    }
  }

  lemma DepthBounded(nodes: Nodes, id: NodeId)
    requires IsForest(nodes) && id in nodes
    ensures Rooted(nodes, id) && Depth(nodes, id) <= |nodes|
  {
    var s := ChainSet(nodes, id, Depth(nodes, id));
    SubsetSize(s, nodes.Keys);
  }

  // ----- the trees -----

  /** The nodes below `n` with this parent, in order of id. */
  function ChildrenBelow(nodes: Nodes, parent: Option<NodeId>, n: nat): (kids: seq<NodeId>)
    ensures forall k :: k in kids <==> k < n && k in nodes && nodes[k].parent == parent
    ensures forall i, j :: 0 <= i < j < |kids| ==> kids[i] < kids[j]
  {
    if n == 0 then []
    else
      var before := ChildrenBelow(nodes, parent, n - 1);
      if n - 1 in nodes && nodes[n - 1].parent == parent then
        assert forall i :: 0 <= i < |before| ==> before[i] in before;
        before + [n - 1]
      else before
  }

  predicate Covers(nodes: Nodes, n: nat) {
    forall id :: id in nodes ==> id < n
  }

  lemma {:induction false} SameChildren(nodes: Nodes, parent: Option<NodeId>, m: nat, n: nat)
    requires Covers(nodes, m) && m <= n
    ensures ChildrenBelow(nodes, parent, n) == ChildrenBelow(nodes, parent, m)
    decreases n
  {
    if m < n {
      SameChildren(nodes, parent, m, n - 1);
    }
  }

  /** How much deeper nodes can still be. */
  ghost function Room(nodes: Nodes, id: NodeId): nat
    requires IsForest(nodes) && id in nodes
  {
    DepthBounded(nodes, id);
    |nodes| - Depth(nodes, id)
  }

  lemma ChildRoom(nodes: Nodes, id: NodeId)
    requires IsForest(nodes) && id in nodes && nodes[id].parent.Some?
    ensures var p := nodes[id].parent.value; p in nodes && Room(nodes, id) < Room(nodes, p)
  {
    ParentDepth(nodes, id);
    DepthBounded(nodes, id);
  }

  ghost predicate Kids(nodes: Nodes, parent: NodeId, kids: seq<NodeId>) {
    parent in nodes && forall k :: k in kids ==> k in nodes && nodes[k].parent == Some(parent)
  }

  function Totals(own: L.Usage, trees: seq<Tree>): L.Usage {
    if trees == [] then own else Totals(own, trees[..|trees| - 1]).Plus(trees[|trees| - 1].subtree)
  }

  /** The tree of a node: its children's trees in order of id, and the usage of all of them. */
  ghost function TreeOf(nodes: Nodes, id: NodeId, bound: nat): Tree
    requires IsForest(nodes) && id in nodes
    decreases Room(nodes, id), 1, 0
  {
    var trees := TreesOf(nodes, id, ChildrenBelow(nodes, Some(id), bound), bound);
    Tree(id, nodes[id], Totals(nodes[id].own, trees), trees)
  }

  ghost function TreesOf(nodes: Nodes, parent: NodeId, kids: seq<NodeId>, bound: nat): (trees: seq<Tree>)
    requires IsForest(nodes) && Kids(nodes, parent, kids)
    ensures |trees| == |kids|
    decreases Room(nodes, parent), 0, |kids|
  {
    if kids == [] then []
    else
      var last := kids[|kids| - 1];
      ChildRoom(nodes, last);
      TreesOf(nodes, parent, kids[..|kids| - 1], bound) + [TreeOf(nodes, last, bound)]
  }

  ghost function RootTrees(nodes: Nodes, roots: seq<NodeId>, bound: nat): seq<Tree>
    requires IsForest(nodes) && forall r :: r in roots ==> r in nodes
  {
    if roots == [] then [] else RootTrees(nodes, roots[..|roots| - 1], bound) + [TreeOf(nodes, roots[|roots| - 1], bound)]
  }

  // ----- every node once -----

  function Ids(t: Tree): seq<NodeId> {
    [t.id] + AllIds(t.children)
  }

  function AllIds(trees: seq<Tree>): seq<NodeId> {
    if trees == [] then [] else AllIds(trees[..|trees| - 1]) + Ids(trees[|trees| - 1])
  }

  /** `m` is `id` or below it. */
  ghost predicate Under(nodes: Nodes, m: NodeId, id: NodeId) {
    exists k: nat :: Climb(nodes, Some(m), k) == Some(id)
  }

  lemma UnderParent(nodes: Nodes, m: NodeId, id: NodeId)
    requires IsForest(nodes) && m in nodes && id in nodes
    ensures Under(nodes, m, id) <==>
              m == id || exists c :: c in nodes && nodes[c].parent == Some(id) && Under(nodes, m, c)
  {
    if m == id {
      assert Climb(nodes, Some(m), 0) == Some(id);
    } else if Under(nodes, m, id) {
      var k: nat :| Climb(nodes, Some(m), k) == Some(id);
      assert Climb(nodes, Some(m), 0) == Some(m);
      var c := Climb(nodes, Some(m), k - 1).value;
      assert c in nodes && nodes[c].parent == Some(id) && Under(nodes, m, c);
    } else if exists c :: c in nodes && nodes[c].parent == Some(id) && Under(nodes, m, c) {
      var c :| c in nodes && nodes[c].parent == Some(id) && Under(nodes, m, c);
      var k: nat :| Climb(nodes, Some(m), k) == Some(c);
      assert Climb(nodes, Some(m), k + 1) == Some(id);
    }
  }

  /** A node is under one child at most, and the node itself is under none of its children. */
  lemma UnderOneChild(nodes: Nodes, m: NodeId, id: NodeId, a: NodeId, b: NodeId)
    requires IsForest(nodes) && m in nodes && a in nodes && b in nodes
    requires nodes[a].parent == Some(id) && nodes[b].parent == Some(id)
    requires Under(nodes, m, a)
    ensures Under(nodes, m, b) ==> a == b
    ensures m != id
  {
    var i: nat :| Climb(nodes, Some(m), i) == Some(a);
    DepthOfAncestor(nodes, m, i, a);
    ParentDepth(nodes, a);
    ParentDepth(nodes, b);
    if Under(nodes, m, b) {
      var j: nat :| Climb(nodes, Some(m), j) == Some(b);
      DepthOfAncestor(nodes, m, j, b);
    }
  }

  lemma AllIdsSnoc(trees: seq<Tree>, t: Tree)
    ensures AllIds(trees + [t]) == AllIds(trees) + Ids(t)
  {
    assert (trees + [t])[..|trees|] == trees;
  }

  /** The tree of a node holds each node under it once, and no other. */
  lemma {:induction false} TreeHoldsUnder(nodes: Nodes, id: NodeId, bound: nat, m: NodeId)
    requires IsForest(nodes) && id in nodes && m in nodes && Covers(nodes, bound)
    ensures multiset(Ids(TreeOf(nodes, id, bound)))[m] == if Under(nodes, m, id) then 1 else 0
    decreases Room(nodes, id), 1, 0
  {
    hide Climb, Rooted, Depth;
    var kids := ChildrenBelow(nodes, Some(id), bound);
    TreesHoldUnder(nodes, id, kids, bound, m);
    UnderParent(nodes, m, id);
    var trees := TreesOf(nodes, id, kids, bound);
    assert Ids(TreeOf(nodes, id, bound)) == [id] + AllIds(trees);
    assert multiset([id] + AllIds(trees))[m] == multiset([id])[m] + multiset(AllIds(trees))[m];
    if exists c :: c in nodes && nodes[c].parent == Some(id) && Under(nodes, m, c) {
      var c :| c in nodes && nodes[c].parent == Some(id) && Under(nodes, m, c);
      assert c in kids;
      UnderOneChild(nodes, m, id, c, c);
    }
  }

  lemma {:induction false} TreesHoldUnder(nodes: Nodes, parent: NodeId, kids: seq<NodeId>, bound: nat, m: NodeId)
    requires IsForest(nodes) && Kids(nodes, parent, kids) && m in nodes && Covers(nodes, bound)
    requires forall i, j :: 0 <= i < j < |kids| ==> kids[i] < kids[j]
    ensures multiset(AllIds(TreesOf(nodes, parent, kids, bound)))[m]
         == if exists c :: c in kids && Under(nodes, m, c) then 1 else 0
    decreases Room(nodes, parent), 0, |kids|
  {
    hide Climb, Rooted, Depth, Under;
    if kids != [] {
      var init, last := kids[..|kids| - 1], kids[|kids| - 1];
      TreesHoldUnder(nodes, parent, init, bound, m);
      ChildRoom(nodes, last);
      TreeHoldsUnder(nodes, last, bound, m);
      var before, t := TreesOf(nodes, parent, init, bound), TreeOf(nodes, last, bound);
      AllIdsSnoc(before, t);
      assert multiset(AllIds(before) + Ids(t))[m] == multiset(AllIds(before))[m] + multiset(Ids(t))[m];
      if Under(nodes, m, last) {
        forall c | c in init
          ensures !Under(nodes, m, c)
        {
          if Under(nodes, m, c) {
            UnderOneChild(nodes, m, parent, last, c);
          }
        }
      }
      assert forall c :: c in kids <==> c in init || c == last;
    }
  }
}
