/** Rebuilding the tree of nodes from trace records in any order. */
module TraceTree {
  import opened Common
  import opened Forest
  import L = LedgerSpec

  type AttemptId = nat

  datatype Record =
    | NodeStart(node: NodeId, parent: Option<NodeId>, info: string)
    | Assistant(node: NodeId)
    | AttemptEnd(node: NodeId, attempt: AttemptId, usage: Option<L.Usage>, charged: nat)
    | NodeEnd(node: NodeId, status: string, turns: nat, own: L.Usage)
    | Other

  datatype Error = DuplicateStart(node: NodeId) | MissingParent(node: NodeId) | Cycle(node: NodeId)

  // ----- what the records say about a node -----

  predicate IsStart(rs: seq<Record>, i: int, id: NodeId) {
    0 <= i < |rs| && rs[i].NodeStart? && rs[i].node == id
  }

  ghost predicate Started(rs: seq<Record>, id: NodeId) {
    exists i :: IsStart(rs, i, id)
  }

  predicate UniqueStarts(rs: seq<Record>) {
    forall i, j :: 0 <= i < j < |rs| && rs[i].NodeStart? && rs[j].NodeStart? ==> rs[i].node != rs[j].node
  }

  /** Nodes as their start records describe them. */
  function Starts(rs: seq<Record>): (nodes: Nodes)
    ensures forall id :: id in nodes <==> Started(rs, id)
  {
    if rs == [] then map[]
    else
      var r, before := rs[|rs| - 1], Starts(rs[..|rs| - 1]);
      StartedSnoc(rs);
      if r.NodeStart? then before[r.node := Node(r.parent, r.info, None, 0, L.NO_USAGE)] else before
  }

  lemma StartedSnoc(rs: seq<Record>)
    requires rs != []
    ensures forall id :: Started(rs, id) <==>
              Started(rs[..|rs| - 1], id) || (rs[|rs| - 1].NodeStart? && rs[|rs| - 1].node == id)
  {
    var init, r := rs[..|rs| - 1], rs[|rs| - 1];
    forall id
      ensures Started(rs, id) <==> Started(init, id) || (r.NodeStart? && r.node == id)
    {
      if Started(rs, id) {
        var i :| IsStart(rs, i, id);
        assert i < |init| ==> IsStart(init, i, id);
      }
      if Started(init, id) {
        var i :| IsStart(init, i, id);
        assert IsStart(rs, i, id);
      }
      if r.NodeStart? && r.node == id {
        assert IsStart(rs, |init|, id);
      }
    }
  }

  /** Assistant messages of a node. */
  function Turns(rs: seq<Record>, id: NodeId): nat {
    if rs == [] then 0
    else Turns(rs[..|rs| - 1], id) + if rs[|rs| - 1] == Assistant(id) then 1 else 0
  }

  predicate SeenAttempt(rs: seq<Record>, a: AttemptId) {
    exists i :: 0 <= i < |rs| && rs[i].AttemptEnd? && rs[i].attempt == a
  }

  function ChargeOf(r: Record): L.Usage
    requires r.AttemptEnd?
  {
    if r.usage.Some? then r.usage.value else L.Usage(r.charged, 0, 0, 0)
  }

  /** The charges of a node's attempts, each attempt's first end only. */
  function Charged(rs: seq<Record>, id: NodeId): L.Usage {
    if rs == [] then L.NO_USAGE
    else
      var r, init := rs[|rs| - 1], rs[..|rs| - 1];
      if r.AttemptEnd? && r.node == id && !SeenAttempt(init, r.attempt) then Charged(init, id).Plus(ChargeOf(r))
      else Charged(init, id)
  }

  /** The last end of a node. */
  function LastEnd(rs: seq<Record>, id: NodeId): (r: Option<Record>)
    ensures r.Some? ==> r.value.NodeEnd?
  {
    if rs == [] then None
    else if rs[|rs| - 1].NodeEnd? && rs[|rs| - 1].node == id then Some(rs[|rs| - 1])
    else LastEnd(rs[..|rs| - 1], id)
  }

  /** A started node with everything the records say about it; its end has the last word. */
  function Filled(rs: seq<Record>, id: NodeId, start: Node): Node {
    var end := LastEnd(rs, id);
    if end.Some? then start.(status := Some(end.value.status), turns := end.value.turns, own := end.value.own)
    else start.(turns := Turns(rs, id), own := Charged(rs, id))
  }

  function NodesOf(rs: seq<Record>): Nodes {
    var starts := Starts(rs);
    map id | id in starts :: Filled(rs, id, starts[id])
  }

  // ----- the passes -----

  /** The node a start record describes, with nothing counted yet. */
  predicate IsBlank(nodes: Nodes, start: Record)
    requires start.NodeStart?
  {
    && start.node in nodes
    && var n := nodes[start.node];
       n.parent == start.parent && n.info == start.info && n.status.None? && n.turns == 0
  }

  /** With unique starts every started node is what its start record describes. */
  lemma {:induction false} StartsAreDescribed(rs: seq<Record>, i: nat)
    requires UniqueStarts(rs) && i < |rs| && rs[i].NodeStart?
    ensures IsBlank(Starts(rs), rs[i])
  {
    hide L.NO_USAGE;
    var n := |rs| - 1;
    if i < n {
      assert UniqueStarts(rs[..n]);
      StartsAreDescribed(rs[..n], i);
    }
  }

  lemma StartedEarlier(rs: seq<Record>, i: nat)
    requires i < |rs| && rs[i].NodeStart? && Started(rs[..i], rs[i].node)
    ensures !UniqueStarts(rs)
  {
    var k :| IsStart(rs[..i], k, rs[i].node);
    assert rs[k].NodeStart? && rs[k].node == rs[i].node;
  }

  method StartPass(rs: seq<Record>) returns (result: Result<Nodes, Error>)
    ensures result.Ok? <==> UniqueStarts(rs)
    ensures result.Ok? ==> result.value == Starts(rs)
    ensures result.Err? ==> result.error.DuplicateStart?
  {
    hide L.NO_USAGE, Started;
    var nodes: Nodes := map[];
    var i := 0;
    while i < |rs|
      invariant 0 <= i <= |rs| && nodes == Starts(rs[..i]) && UniqueStarts(rs[..i])
    {
      var r := rs[i];
      assert rs[..i + 1][..i] == rs[..i];
      if r.NodeStart? {
        if r.node in nodes {
          StartedEarlier(rs, i);
          return Err(DuplicateStart(r.node));
        }
        NotStarted(rs[..i], r.node);
        nodes := nodes[r.node := Node(r.parent, r.info, None, 0, L.NO_USAGE)];
      }
      i := i + 1;
    }
    assert rs[..i] == rs;
    result := Ok(nodes);
  }

  lemma NotStarted(rs: seq<Record>, id: NodeId)
    requires !Started(rs, id)
    ensures forall k :: 0 <= k < |rs| && rs[k].NodeStart? ==> rs[k].node != id
  {
    forall k | 0 <= k < |rs| && rs[k].NodeStart?
      ensures rs[k].node != id
    {
      assert !IsStart(rs, k, id);
    }
  }

  function Counted(starts: Nodes, rs: seq<Record>): Nodes {
    map id | id in starts :: starts[id].(turns := Turns(rs, id), own := Charged(rs, id))
  }

  /** The places of a node's assistant messages. */
  ghost function TurnsAt(rs: seq<Record>, id: NodeId): set<nat> {
    set i: nat | i < |rs| && rs[i] == Assistant(id)
  }

  /** A node's turns are its assistant messages, each once. */
  lemma {:induction false} TurnsAreMessages(rs: seq<Record>, id: NodeId)
    ensures Turns(rs, id) == |TurnsAt(rs, id)|
  {
    if rs == [] {
      assert TurnsAt(rs, id) == {};
    } else {
      var n: nat := |rs| - 1;
      TurnsAreMessages(rs[..n], id);
      assert TurnsAt(rs, id) == TurnsAt(rs[..n], id) + if rs[n] == Assistant(id) then {n} else {};
    }
  }

  /** One more record charges a node when it is the first end of one of its attempts: what it measured, or its charge. */
  lemma OneMoreCharge(rs: seq<Record>, r: Record, id: NodeId)
    ensures var a, b := Charged(rs, id), Charged(rs + [r], id);
            if r.AttemptEnd? && r.node == id && (forall i :: 0 <= i < |rs| && rs[i].AttemptEnd? ==> rs[i].attempt != r.attempt)
            then
              && b.input == a.input + (if r.usage.Some? then r.usage.value.input else r.charged)
              && b.output == a.output + (if r.usage.Some? then r.usage.value.output else 0)
              && b.cacheCreation == a.cacheCreation + (if r.usage.Some? then r.usage.value.cacheCreation else 0)
              && b.cacheRead == a.cacheRead + (if r.usage.Some? then r.usage.value.cacheRead else 0)
            else b == a
  {
    hide L.NO_USAGE;
    assert (rs + [r])[..|rs|] == rs;
  }

  method CountPass(rs: seq<Record>, starts: Nodes) returns (nodes: Nodes)
    requires forall id :: id in starts ==> starts[id].turns == 0 && starts[id].own == L.NO_USAGE
    ensures nodes == Counted(starts, rs)
  {
    hide L.NO_USAGE;
    nodes := starts;
    var settled: set<AttemptId> := {};
    var i := 0;
    assert nodes == Counted(starts, rs[..0]);
    while i < |rs|
      invariant 0 <= i <= |rs| && nodes == Counted(starts, rs[..i])
      invariant forall a :: a in settled <==> SeenAttempt(rs[..i], a)
    {
      var r := rs[i];
      ghost var more := rs[..i + 1];
      assert more[..i] == rs[..i] && more[|more| - 1] == r;
      SeenSnoc(rs[..i], r);
      assert rs[..i] + [r] == more;
      i := i + 1;
      match r {
        case Assistant(id) =>
          if id in nodes {
            nodes := nodes[id := nodes[id].(turns := nodes[id].turns + 1)];
          }
        case AttemptEnd(id, attempt, usage, charged) =>
          if attempt !in settled {
            settled := settled + {attempt};
            if id in nodes {
              nodes := nodes[id := nodes[id].(own := nodes[id].own.Plus(ChargeOf(r)))];
            }
          }
        case _ =>
      }
      assert nodes == Counted(starts, more);
    }
    assert rs[..i] == rs;
  }

  lemma SeenSnoc(rs: seq<Record>, r: Record)
    ensures forall a :: SeenAttempt(rs + [r], a) <==> SeenAttempt(rs, a) || (r.AttemptEnd? && r.attempt == a)
  {
    var more := rs + [r];
    forall a
      ensures SeenAttempt(more, a) <==> SeenAttempt(rs, a) || (r.AttemptEnd? && r.attempt == a)
    {
      if SeenAttempt(rs, a) {
        var i :| 0 <= i < |rs| && rs[i].AttemptEnd? && rs[i].attempt == a;
        assert more[i] == rs[i];
      }
      if r.AttemptEnd? && r.attempt == a {
        assert more[|rs|] == r;
      }
    }
  }

  function Ended(nodes: Nodes, rs: seq<Record>): Nodes {
    map id | id in nodes ::
      if LastEnd(rs, id).Some? then
        var end := LastEnd(rs, id).value;
        nodes[id].(status := Some(end.status), turns := end.turns, own := end.own)
      else nodes[id]
  }

  predicate IsEnd(rs: seq<Record>, i: int, id: NodeId) {
    0 <= i < |rs| && rs[i].NodeEnd? && rs[i].node == id
  }

  /** The last end of a node has the last word on its status, turns and usage; without one nothing changes. */
  ghost predicate Concluded(rs: seq<Record>, id: NodeId, before: Node, after: Node) {
    || (after == before && forall i :: !IsEnd(rs, i, id))
    || exists k :: IsEnd(rs, k, id) && (forall i :: IsEnd(rs, i, id) ==> i <= k)
                   && after == before.(status := Some(rs[k].status), turns := rs[k].turns, own := rs[k].own)
  }

  lemma {:induction false} LastEndIs(rs: seq<Record>, id: NodeId)
    ensures LastEnd(rs, id).None? ==> forall i :: !IsEnd(rs, i, id)
    ensures LastEnd(rs, id).Some? ==>
              exists k :: IsEnd(rs, k, id) && (forall i :: IsEnd(rs, i, id) ==> i <= k) && LastEnd(rs, id).value == rs[k]
  {
    if rs != [] {
      var n := |rs| - 1;
      var init := rs[..n];
      LastEndIs(init, id);
      if IsEnd(rs, n, id) {
        assert LastEnd(rs, id).value == rs[n];
      } else {
        assert forall i :: IsEnd(rs, i, id) ==> IsEnd(init, i, id);
        if LastEnd(init, id).Some? {
          var k :| IsEnd(init, k, id) && (forall i :: IsEnd(init, i, id) ==> i <= k) && LastEnd(init, id).value == init[k];
          assert IsEnd(rs, k, id) && rs[k] == init[k];
        }
      }
    }
  }

  lemma EndedIsConcluded(counted: Nodes, rs: seq<Record>, id: NodeId)
    requires id in counted
    ensures Concluded(rs, id, counted[id], Ended(counted, rs)[id])
  {
    LastEndIs(rs, id);
  }

  method EndPass(rs: seq<Record>, counted: Nodes) returns (nodes: Nodes)
    ensures nodes == Ended(counted, rs)
    ensures forall id :: id in nodes <==> id in counted
    ensures forall id :: id in nodes ==> Concluded(rs, id, counted[id], nodes[id])
  {
    hide Concluded;
    forall id | id in counted
      ensures Concluded(rs, id, counted[id], Ended(counted, rs)[id])
    {
      EndedIsConcluded(counted, rs, id);
    }
    nodes := counted;
    var i := 0;
    assert nodes == Ended(counted, rs[..0]);
    while i < |rs|
      invariant 0 <= i <= |rs| && nodes == Ended(counted, rs[..i])
    {
      var r := rs[i];
      ghost var more := rs[..i + 1];
      assert more[..i] == rs[..i] && more[|more| - 1] == r;
      if r.NodeEnd? && r.node in nodes {
        nodes := nodes[r.node := nodes[r.node].(status := Some(r.status), turns := r.turns, own := r.own)];
      }
      i := i + 1;
      assert nodes == Ended(counted, more);
    }
    assert rs[..i] == rs;
  }

  lemma {:induction false} StartsAreBlank(rs: seq<Record>)
    ensures forall id :: id in Starts(rs) ==>
              Starts(rs)[id].turns == 0 && Starts(rs)[id].own == L.NO_USAGE && Starts(rs)[id].status == None
  {
    if rs != [] {
      StartsAreBlank(rs[..|rs| - 1]);
    }
  }

  /** Follows parents from a node until they end or a node comes twice. */
  method ChainEnds(nodes: Nodes, id: NodeId) returns (ends: bool)
    requires ParentsPresent(nodes) && id in nodes
    ensures ends <==> Rooted(nodes, id)
  {
    hide Climb, Rooted;
    var seen: set<NodeId> := {};
    var next: Option<NodeId> := Some(id);
    ghost var k := 0;
    ChainStart(nodes, id);
    while next.Some?
      invariant next == Climb(nodes, Some(id), k)
      invariant forall x: NodeId :: x in seen <==> OnChain(nodes, id, k, x)
      invariant seen <= nodes.Keys && (next.Some? ==> next.value in nodes)
      decreases nodes.Keys - seen
    {
      var x := next.value;
      if x in seen {
        CameBack(nodes, id, k, x);
        return false;
      }
      forall y: NodeId
        ensures OnChain(nodes, id, k + 1, y) <==> OnChain(nodes, id, k, y) || x == y
      {
        OnChainStep(nodes, id, k + 1, y);
      }
      seen := seen + {x};
      next := nodes[x].parent;
      k := k + 1;
      ClimbInside(nodes, id, k);
      ClimbStep(nodes, id, k);
    }
    EndIsRooted(nodes, id, k);
    ends := true;
  }

  lemma CameBack(nodes: Nodes, id: NodeId, k: nat, x: NodeId)
    requires OnChain(nodes, id, k, x) && Climb(nodes, Some(id), k) == Some(x)
    ensures !Rooted(nodes, id)
  {
    hide Climb;
    var j: nat :| j < k && Climb(nodes, Some(id), j) == Some(x);
    CycleIsNotRooted(nodes, id, j, k);
  }

  lemma ChainStart(nodes: Nodes, id: NodeId)
    ensures Climb(nodes, Some(id), 0) == Some(id) && forall x: NodeId :: !OnChain(nodes, id, 0, x)
  {
  }

  lemma ClimbStep(nodes: Nodes, id: NodeId, k: nat)
    requires k > 0 && Climb(nodes, Some(id), k - 1).Some? && Climb(nodes, Some(id), k - 1).value in nodes
    ensures Climb(nodes, Some(id), k) == nodes[Climb(nodes, Some(id), k - 1).value].parent
  {
  }

  lemma EndIsRooted(nodes: Nodes, id: NodeId, k: nat)
    requires Climb(nodes, Some(id), k) == None
    ensures Rooted(nodes, id)
  {
  }

  /** Checks that every parent is present and every chain of parents ends. */
  method CheckForest(nodes: Nodes) returns (error: Option<Error>)
    ensures error.None? <==> IsForest(nodes)
    ensures error.Some? ==> if ParentsPresent(nodes) then error.value.Cycle? else error.value.MissingParent?
  {
    hide Rooted;
    var left := nodes.Keys;
    while left != {}
      invariant left <= nodes.Keys
      invariant forall id :: id in nodes && id !in left && nodes[id].parent.Some? ==> nodes[id].parent.value in nodes
      decreases left
    {
      var id :| id in left;
      if nodes[id].parent.Some? && nodes[id].parent.value !in nodes {
        return Some(MissingParent(id));
      }
      left := left - {id};
    }
    left := nodes.Keys;
    while left != {}
      invariant left <= nodes.Keys && forall id :: id in nodes && id !in left ==> Rooted(nodes, id)
      decreases left
    {
      var id :| id in left;
      var ends := ChainEnds(nodes, id);
      if !ends {
        return Some(Cycle(id));
      }
      left := left - {id};
    }
    error := None;
  }

  // ----- building -----

  predicate PartOf(nodes: Nodes, all: Nodes) {
    forall m :: m in nodes ==> m in all && nodes[m] == all[m]
  }

  /** What is left of a map when everything under some nodes is taken out. */
  ghost predicate LeftOf(all: Nodes, was: Nodes, rest: Nodes, gone: seq<NodeId>) {
    forall m :: m in rest <==> m in was && !UnderSome(all, m, gone)
  }

  lemma NothingGone(all: Nodes, was: Nodes)
    ensures LeftOf(all, was, was, [])
  {
  }

  lemma OneMoreGone(all: Nodes, was: Nodes, before: Nodes, after: Nodes, kids: seq<NodeId>, i: nat)
    requires i < |kids| && LeftOf(all, was, before, kids[..i])
    requires forall m :: m in after <==> m in before && !Under(all, m, kids[i])
    ensures LeftOf(all, was, after, kids[..i + 1])
  {
    hide Under, UnderSome;
    forall m: NodeId
      ensures UnderSome(all, m, kids[..i + 1]) <==> UnderSome(all, m, kids[..i]) || Under(all, m, kids[i])
    {
      UnderSomeSnoc(all, m, kids, i);
    }
  }

  /** Everything under the next child is still there. */
  lemma ChildIsLeft(all: Nodes, id: NodeId, nodes: Nodes, rest: Nodes, kids: seq<NodeId>, i: nat)
    requires IsForest(all) && Kids(all, id, kids) && i < |kids|
    requires forall j, k :: 0 <= j < k < |kids| ==> kids[j] < kids[k]
    requires forall m :: m in all && Under(all, m, id) ==> m in nodes
    requires LeftOf(all, nodes - {id}, rest, kids[..i])
    ensures forall m :: m in all && Under(all, m, kids[i]) ==> m in rest
  {
    hide Climb, Rooted, Depth, Under, UnderSome;
    forall m | m in all && Under(all, m, kids[i])
      ensures m in rest
    {
      StillThere(all, id, kids, i, m);
    }
  }

  lemma AllGone(all: Nodes, id: NodeId, nodes: Nodes, rest: Nodes, bound: nat)
    requires IsForest(all) && id in all && Covers(all, bound) && PartOf(nodes, all)
    requires LeftOf(all, nodes - {id}, rest, ChildrenBelow(all, Some(id), bound))
    ensures forall m :: m in rest <==> m in nodes && !Under(all, m, id)
  {
    hide Climb, Rooted, Depth, Under, UnderSome;
    var kids := ChildrenBelow(all, Some(id), bound);
    forall m | m in nodes
      ensures Under(all, m, id) <==> m == id || UnderSome(all, m, kids)
    {
      UnderParent(all, m, id);
      UnderSomeKids(all, m, id, bound);
    }
  }

  lemma TreesSnoc(all: Nodes, id: NodeId, kids: seq<NodeId>, i: nat, bound: nat)
    requires IsForest(all) && Kids(all, id, kids) && i < |kids|
    ensures Kids(all, id, kids[..i]) && Kids(all, id, kids[..i + 1]) && kids[i] in all
    ensures TreesOf(all, id, kids[..i + 1], bound) == TreesOf(all, id, kids[..i], bound) + [TreeOf(all, kids[i], bound)]
  {
    hide TreeOf, Climb, Rooted, Depth;
    assert kids[i] in kids && kids[..i + 1][..i] == kids[..i];
  }

  lemma NoTrees(all: Nodes, id: NodeId, bound: nat)
    requires IsForest(all) && id in all
    ensures Kids(all, id, []) && TreesOf(all, id, [], bound) == []
  {
  }

  lemma TreeIs(all: Nodes, id: NodeId, bound: nat)
    requires IsForest(all) && id in all
    ensures var kids := ChildrenBelow(all, Some(id), bound);
            Kids(all, id, kids) && TreeOf(all, id, bound)
              == Tree(id, all[id], Totals(all[id].own, TreesOf(all, id, kids, bound)), TreesOf(all, id, kids, bound))
  {
    hide Climb, Rooted, Depth, TreesOf;
  }

  lemma TotalsSnoc(own: L.Usage, trees: seq<Tree>, t: Tree)
    ensures Totals(own, trees + [t]) == Totals(own, trees).Plus(t.subtree)
  {
    assert (trees + [t])[..|trees|] == trees;
  }

  /** Takes a node and all below it out of the map and makes their tree. */
  method Build(id: NodeId, nodes: Nodes, all: Nodes, bound: nat) returns (tree: Tree, rest: Nodes)
    requires IsForest(all) && id in all && Covers(all, bound) && PartOf(nodes, all)
    requires forall m :: m in all && Under(all, m, id) ==> m in nodes
    ensures tree == TreeOf(all, id, bound)
    ensures (forall m :: m in rest <==> m in nodes && !Under(all, m, id)) && PartOf(rest, all)
    decreases Room(all, id)
  {
    hide Climb, Rooted, Depth, Under, UnderSome, LeftOf, IsForest, Covers, TreeOf, TreesOf, Totals, Kids;
    SelfUnder(all, id);
    var node := nodes[id];
    rest := nodes - {id};
    var kids := ChildrenBelow(all, Some(id), bound);
    var trees: seq<Tree> := [];
    var usage := node.own;
    var i := 0;
    TreeIs(all, id, bound);
    assert kids[..0] == [];
    NothingGone(all, rest);
    NoTrees(all, id, bound);
    assert usage == Totals(node.own, []) by { NoTotals(node.own); }
    while i < |kids|
      invariant 0 <= i <= |kids| && Kids(all, id, kids[..i])
      invariant trees == TreesOf(all, id, kids[..i], bound) && usage == Totals(node.own, trees)
      invariant LeftOf(all, nodes - {id}, rest, kids[..i]) && PartOf(rest, all)
    {
      var c := kids[i];
      assert c in kids;
      ChildRoom(all, c);
      ChildIsLeft(all, id, nodes, rest, kids, i);
      var child;
      ghost var before := rest;
      child, rest := Build(c, rest, all, bound);
      OneMoreGone(all, nodes - {id}, before, rest, kids, i);
      TreesSnoc(all, id, kids, i, bound);
      TotalsSnoc(node.own, trees, child);
      usage := usage.Plus(child.subtree);
      trees := trees + [child];
      i := i + 1;
    }
    assert kids[..i] == kids;
    tree := Tree(id, node, usage, trees);
    AllGone(all, id, nodes, rest, bound);
  }

  lemma NoTotals(own: L.Usage)
    ensures Totals(own, []) == own
  {
  }

  ghost predicate UnderSome(all: Nodes, m: NodeId, kids: seq<NodeId>) {
    exists c :: c in kids && Under(all, m, c)
  }

  lemma UnderSomeSnoc(all: Nodes, m: NodeId, kids: seq<NodeId>, i: nat)
    requires i < |kids|
    ensures UnderSome(all, m, kids[..i + 1]) <==> UnderSome(all, m, kids[..i]) || Under(all, m, kids[i])
  {
    hide Under;
    assert kids[..i + 1] == kids[..i] + [kids[i]];
  }

  lemma UnderSomeKids(all: Nodes, m: NodeId, id: NodeId, bound: nat)
    requires Covers(all, bound)
    ensures UnderSome(all, m, ChildrenBelow(all, Some(id), bound)) <==>
              exists c :: c in all && all[c].parent == Some(id) && Under(all, m, c)
  {
    hide Under;
  }

  lemma SelfUnder(all: Nodes, id: NodeId)
    ensures Under(all, id, id)
  {
    assert Climb(all, Some(id), 0) == Some(id);
  }

  lemma StillThere(all: Nodes, id: NodeId, kids: seq<NodeId>, i: nat, m: NodeId)
    requires IsForest(all) && Kids(all, id, kids) && i < |kids| && m in all && Under(all, m, kids[i])
    requires forall j, k :: 0 <= j < k < |kids| ==> kids[j] < kids[k]
    ensures m != id && !UnderSome(all, m, kids[..i]) && Under(all, m, id)
  {
    hide Climb, Rooted, Depth, Under;
    var c := kids[i];
    assert c in kids;
    UnderOneChild(all, m, id, c, c);
    UnderParent(all, m, id);
    forall d | d in kids[..i]
      ensures !Under(all, m, d)
    {
      var j :| 0 <= j < i && kids[j] == d;
      assert d in kids;
      if Under(all, m, d) {
        UnderOneChild(all, m, id, c, d);
      }
    }
  }

  // ----- the whole reconstruction -----

  /** The trees of the nodes without a parent, in order of id. */
  ghost function ForestOf(nodes: Nodes, bound: nat): seq<Tree>
    requires IsForest(nodes)
  {
    RootTrees(nodes, ChildrenBelow(nodes, None, bound), bound)
  }

  lemma {:induction false} SameTree(nodes: Nodes, id: NodeId, m: nat, n: nat)
    requires IsForest(nodes) && id in nodes && Covers(nodes, m) && m <= n
    ensures TreeOf(nodes, id, m) == TreeOf(nodes, id, n)
    decreases Room(nodes, id), 1, 0
  {
    hide Climb, Rooted, Depth;
    SameChildren(nodes, Some(id), m, n);
    SameTrees(nodes, id, ChildrenBelow(nodes, Some(id), m), m, n);
  }

  lemma {:induction false} SameTrees(nodes: Nodes, parent: NodeId, kids: seq<NodeId>, m: nat, n: nat)
    requires IsForest(nodes) && Kids(nodes, parent, kids) && Covers(nodes, m) && m <= n
    ensures TreesOf(nodes, parent, kids, m) == TreesOf(nodes, parent, kids, n)
    decreases Room(nodes, parent), 0, |kids|
  {
    hide Climb, Rooted, Depth;
    if kids != [] {
      SameTrees(nodes, parent, kids[..|kids| - 1], m, n);
      ChildRoom(nodes, kids[|kids| - 1]);
      SameTree(nodes, kids[|kids| - 1], m, n);
    }
  }

  lemma {:induction false} SameRoots(nodes: Nodes, roots: seq<NodeId>, m: nat, n: nat)
    requires IsForest(nodes) && (forall r :: r in roots ==> r in nodes) && Covers(nodes, m) && m <= n
    ensures RootTrees(nodes, roots, m) == RootTrees(nodes, roots, n)
  {
    hide Climb, Rooted, Depth;
    if roots != [] {
      SameRoots(nodes, roots[..|roots| - 1], m, n);
      SameTree(nodes, roots[|roots| - 1], m, n);
    }
  }

  /** The forest does not depend on how far the ids are searched. */
  lemma SameForest(nodes: Nodes, m: nat, n: nat)
    requires IsForest(nodes) && Covers(nodes, m) && Covers(nodes, n)
    ensures ForestOf(nodes, m) == ForestOf(nodes, n)
  {
    var lo, hi := Min(m, n), Max(m, n);
    SameChildren(nodes, None, lo, hi);
    SameRoots(nodes, ChildrenBelow(nodes, None, lo), lo, hi);
  }

  method BoundOf(nodes: Nodes) returns (bound: nat)
    ensures Covers(nodes, bound)
  {
    bound := 0;
    var left := nodes.Keys;
    while left != {}
      invariant left <= nodes.Keys && forall id :: id in nodes && id !in left ==> id < bound
      decreases left
    {
      var id :| id in left;
      bound := Max(bound, id + 1);
      left := left - {id};
    }
  }

  lemma RootIsLeft(nodes: Nodes, rest: Nodes, roots: seq<NodeId>, i: nat)
    requires IsForest(nodes) && i < |roots| && LeftOf(nodes, nodes, rest, roots[..i])
    requires forall r :: r in roots ==> r in nodes && nodes[r].parent == None
    requires forall j, k :: 0 <= j < k < |roots| ==> roots[j] < roots[k]
    ensures forall m :: m in nodes && Under(nodes, m, roots[i]) ==> m in rest
  {
    hide Climb, Rooted, Depth, Under, UnderSome;
    forall m | m in nodes && Under(nodes, m, roots[i])
      ensures m in rest
    {
      OtherRoots(nodes, roots, i, m);
    }
  }

  method BuildAll(nodes: Nodes, bound: nat) returns (trees: seq<Tree>)
    requires IsForest(nodes) && Covers(nodes, bound)
    ensures trees == ForestOf(nodes, bound)
  {
    hide Climb, Rooted, Depth, Under, UnderSome, LeftOf, IsForest, Covers;
    trees := [];
    var roots := ChildrenBelow(nodes, None, bound);
    var rest := nodes;
    var i := 0;
    assert roots[..0] == [];
    NothingGone(nodes, nodes);
    while i < |roots|
      invariant 0 <= i <= |roots| && trees == RootTrees(nodes, roots[..i], bound)
      invariant LeftOf(nodes, nodes, rest, roots[..i]) && PartOf(rest, nodes)
    {
      var r := roots[i];
      assert r in roots;
      RootIsLeft(nodes, rest, roots, i);
      var tree;
      ghost var before := rest;
      tree, rest := Build(r, rest, nodes, bound);
      OneMoreGone(nodes, nodes, before, rest, roots, i);
      assert roots[..i + 1][..i] == roots[..i];
      trees := trees + [tree];
      i := i + 1;
    }
    assert roots[..i] == roots;
  }

  /** A node is under one root only. */
  lemma OneRoot(nodes: Nodes, m: NodeId, a: NodeId, b: NodeId)
    requires IsForest(nodes) && m in nodes && a in nodes && b in nodes
    requires nodes[a].parent == None && nodes[b].parent == None
    requires Under(nodes, m, a) && Under(nodes, m, b)
    ensures a == b
  {
    var i: nat :| Climb(nodes, Some(m), i) == Some(a);
    var j: nat :| Climb(nodes, Some(m), j) == Some(b);
    RootDepth(nodes, a);
    RootDepth(nodes, b);
    DepthOfAncestor(nodes, m, i, a);
    DepthOfAncestor(nodes, m, j, b);
  }

  lemma RootDepth(nodes: Nodes, a: NodeId)
    requires IsForest(nodes) && a in nodes && nodes[a].parent == None
    ensures Rooted(nodes, a) && Depth(nodes, a) == 1
  {
    assert Climb(nodes, Some(a), 0) == Some(a);
    DepthUnique(nodes, a, 1);
  }

  lemma OtherRoots(nodes: Nodes, roots: seq<NodeId>, i: nat, m: NodeId)
    requires IsForest(nodes) && i < |roots| && m in nodes && Under(nodes, m, roots[i])
    requires forall r :: r in roots ==> r in nodes && nodes[r].parent == None
    requires forall j, k :: 0 <= j < k < |roots| ==> roots[j] < roots[k]
    ensures !UnderSome(nodes, m, roots[..i])
  {
    hide Climb, Rooted, Depth, Under;
    assert roots[i] in roots;
    forall d | d in roots[..i]
      ensures !Under(nodes, m, d)
    {
      var j :| 0 <= j < i && roots[j] == d;
      assert d in roots;
      if Under(nodes, m, d) {
        OneRoot(nodes, m, roots[i], d);
      }
    }
  }

  /** Rebuilds the forest; fails exactly for a second start, a missing parent or a cycle. */
  method Reconstruct(rs: seq<Record>) returns (result: Result<seq<Tree>, Error>)
    ensures result.Ok? <==> UniqueStarts(rs) && IsForest(NodesOf(rs))
    ensures result.Ok? ==> forall bound :: Covers(NodesOf(rs), bound) ==> result.value == ForestOf(NodesOf(rs), bound)
    ensures result.Err? ==>
              if !UniqueStarts(rs) then result.error.DuplicateStart?
              else if !ParentsPresent(NodesOf(rs)) then result.error.MissingParent?
              else result.error.Cycle?
  {
    hide IsForest, UniqueStarts;
    var started := StartPass(rs);
    if started.Err? {
      return Err(started.error);
    }
    StartsAreBlank(rs);
    var counted := CountPass(rs, started.value);
    var nodes := EndPass(rs, counted);
    PassesFill(rs);
    assert nodes == NodesOf(rs);
    var error := CheckForest(nodes);
    if error.Some? {
      return Err(error.value);
    }
    var bound := BoundOf(nodes);
    var trees := BuildAll(nodes, bound);
    forall other | Covers(nodes, other)
      ensures trees == ForestOf(nodes, other)
    {
      SameForest(nodes, bound, other);
    }
    result := Ok(trees);
  }

  lemma PassesFill(rs: seq<Record>)
    ensures Ended(Counted(Starts(rs), rs), rs) == NodesOf(rs)
  {
    hide Starts, Turns, Charged, LastEnd;
  }

  /** Every started node is in exactly one tree, once, and the trees hold no other. */
  lemma EveryNodeOnce(nodes: Nodes, bound: nat, m: NodeId)
    requires IsForest(nodes) && Covers(nodes, bound)
    ensures multiset(AllIds(ForestOf(nodes, bound)))[m] == if m in nodes then 1 else 0
  {
    hide Climb, Rooted, Depth, Under;
    var roots := ChildrenBelow(nodes, None, bound);
    if m in nodes {
      RootsHold(nodes, roots, bound, m);
      var r := RootOf(nodes, m);
      assert r in roots;
    } else {
      OnlyNodes(nodes, roots, bound, m);
    }
  }

  lemma RootOf(nodes: Nodes, m: NodeId) returns (r: NodeId)
    requires IsForest(nodes) && m in nodes
    ensures r in nodes && nodes[r].parent == None && Under(nodes, m, r)
  {
    var d := Depth(nodes, m);
    r := Climb(nodes, Some(m), d - 1).value;
    ClimbInside(nodes, m, d - 1);
    assert Climb(nodes, Some(m), d) == nodes[r].parent;
  }

  lemma RootTreesSnoc(nodes: Nodes, roots: seq<NodeId>, bound: nat)
    requires IsForest(nodes) && roots != [] && forall r :: r in roots ==> r in nodes
    ensures var n := |roots| - 1;
            && (forall r :: r in roots[..n] ==> r in nodes) && roots[n] in nodes
            && AllIds(RootTrees(nodes, roots, bound))
               == AllIds(RootTrees(nodes, roots[..n], bound)) + Ids(TreeOf(nodes, roots[n], bound))
  {
    hide TreeOf, Ids, Climb, Rooted, Depth;
    var n := |roots| - 1;
    AllIdsSnoc(RootTrees(nodes, roots[..n], bound), TreeOf(nodes, roots[n], bound));
  }

  lemma CountBoth(a: seq<NodeId>, b: seq<NodeId>, m: NodeId)
    ensures multiset(a + b)[m] == multiset(a)[m] + multiset(b)[m]
  {
  }

  lemma NoRoots(nodes: Nodes, bound: nat, m: NodeId)
    requires IsForest(nodes)
    ensures multiset(AllIds(RootTrees(nodes, [], bound)))[m] == 0
  {
  }

  lemma {:induction false} RootsHold(nodes: Nodes, roots: seq<NodeId>, bound: nat, m: NodeId)
    requires IsForest(nodes) && m in nodes && Covers(nodes, bound)
    requires forall r :: r in roots ==> r in nodes && nodes[r].parent == None
    requires forall i, j :: 0 <= i < j < |roots| ==> roots[i] < roots[j]
    ensures multiset(AllIds(RootTrees(nodes, roots, bound)))[m] == if UnderSome(nodes, m, roots) then 1 else 0
  {
    hide Climb, Rooted, Depth, Under, IsForest, TreeOf, RootTrees, Ids, AllIds;
    if roots == [] {
      NoRoots(nodes, bound, m);
    } else {
      var n := |roots| - 1;
      var init, last := roots[..n], roots[n];
      RootTreesSnoc(nodes, roots, bound);
      RootsHold(nodes, init, bound, m);
      TreeHoldsUnder(nodes, last, bound, m);
      CountBoth(AllIds(RootTrees(nodes, init, bound)), Ids(TreeOf(nodes, last, bound)), m);
      UnderSomeSnoc(nodes, m, roots, n);
      assert roots[..n + 1] == roots;
      if Under(nodes, m, last) {
        OtherRoots(nodes, roots, n, m);
      }
    }
  }

  lemma {:induction false} TreeOnlyNodes(nodes: Nodes, id: NodeId, bound: nat, m: NodeId)
    requires IsForest(nodes) && id in nodes && m !in nodes
    ensures m !in Ids(TreeOf(nodes, id, bound))
    decreases Room(nodes, id), 1, 0
  {
    hide Climb, Rooted, Depth;
    TreesOnlyNodes(nodes, id, ChildrenBelow(nodes, Some(id), bound), bound, m);
  }

  lemma {:induction false} TreesOnlyNodes(nodes: Nodes, parent: NodeId, kids: seq<NodeId>, bound: nat, m: NodeId)
    requires IsForest(nodes) && Kids(nodes, parent, kids) && m !in nodes
    ensures m !in AllIds(TreesOf(nodes, parent, kids, bound))
    decreases Room(nodes, parent), 0, |kids|
  {
    hide Climb, Rooted, Depth;
    if kids != [] {
      var init, last := kids[..|kids| - 1], kids[|kids| - 1];
      TreesOnlyNodes(nodes, parent, init, bound, m);
      ChildRoom(nodes, last);
      TreeOnlyNodes(nodes, last, bound, m);
      AllIdsSnoc(TreesOf(nodes, parent, init, bound), TreeOf(nodes, last, bound));
    }
  }

  lemma {:induction false} OnlyNodes(nodes: Nodes, roots: seq<NodeId>, bound: nat, m: NodeId)
    requires IsForest(nodes) && (forall r :: r in roots ==> r in nodes) && m !in nodes
    ensures multiset(AllIds(RootTrees(nodes, roots, bound)))[m] == 0
  {
    hide Climb, Rooted, Depth;
    if roots != [] {
      var init, last := roots[..|roots| - 1], roots[|roots| - 1];
      OnlyNodes(nodes, init, bound, m);
      TreeOnlyNodes(nodes, last, bound, m);
      AllIdsSnoc(RootTrees(nodes, init, bound), TreeOf(nodes, last, bound));
    }
  }
}
