/** From a run of the runtime to its trace and back: the rebuilt tree tells what the ledger ended with. */
module TraceOfRun {
  import opened Common
  import opened Forest
  import opened TraceTree
  import opened TraceAgreement
  import L = LedgerSpec
  import Lifecycle
  import R = LifecycleRuns

  /** A trace that holds the start of every admitted node and the end of every node the log says has ended. */
  ghost predicate Traces(rs: seq<Record>, st: Lifecycle.State) {
    && WellFormed(rs)
    && (forall id: NodeId :: id < |st.ledger.scopes| ==> StartIn(rs, id, st.ledger.scopes[id].parent))
    && (forall id: NodeId :: Started(rs, id) ==> id < |st.ledger.scopes|)
    && (forall i :: 0 <= i < |st.log| && st.log[i].NodeEnd? ==> EndIn(rs, st.log[i].node, st.log[i].own))
  }

  ghost predicate StartIn(rs: seq<Record>, id: NodeId, parent: Option<NodeId>) {
    exists i :: IsStart(rs, i, id) && rs[i].parent == parent
  }

  ghost predicate EndIn(rs: seq<Record>, id: NodeId, own: L.Usage) {
    exists i :: 0 <= i < |rs| && rs[i].NodeEnd? && rs[i].node == id && rs[i].own == own
  }

  ghost predicate AllEnded(st: Lifecycle.State) {
    forall n :: 0 <= n < |st.nodes| ==> st.nodes[n].phase.Rank() >= Lifecycle.Phase.Ended.Rank()
  }

  lemma RunIsComplete(st: Lifecycle.State, rs: seq<Record>)
    requires Lifecycle.Inv(st) && AllEnded(st) && Traces(rs, st)
    ensures Complete(rs, st.ledger.scopes)
  {
    hide Starts, LastEnd, WellFormed, L.Inv, Lifecycle.NodeOk, Lifecycle.ChildOk, Lifecycle.GuardOk;
    var scopes := st.ledger.scopes;
    forall id: NodeId
      ensures id in Starts(rs) <==> id < |scopes|
    {
      if id < |scopes| {
        assert StartIn(rs, id, scopes[id].parent);
        var i :| IsStart(rs, i, id) && rs[i].parent == scopes[id].parent;
        assert Started(rs, id);
      }
    }
    forall id: NodeId | id < |scopes|
      ensures Starts(rs)[id].parent == scopes[id].parent
      ensures LastEnd(rs, id).Some? && LastEnd(rs, id).value.own == scopes[id].own
    {
      assert StartIn(rs, id, scopes[id].parent);
      var i :| IsStart(rs, i, id) && rs[i].parent == scopes[id].parent;
      StartIs(rs, rs[i]);
      assert Lifecycle.Logged(st, id);
      var k :| 0 <= k < |st.log| && st.log[k].NodeEnd? && st.log[k].node == id;
      assert Lifecycle.EventOk(st, k);
      assert EndIn(rs, id, st.log[k].own);
      var j :| 0 <= j < |rs| && rs[j].NodeEnd? && rs[j].node == id && rs[j].own == st.log[k].own;
      EndIs(rs, rs[j]);
    }
  }

  /**
   For every run in which every node has ended, and every order of its trace records, the tree can be rebuilt and its
   own and subtree usage are the ledger's.
   */
  lemma RebuiltUsageIsTheLedgers(limits: L.Limits, ops: seq<Lifecycle.Op>, rs: seq<Record>, s: NodeId)
    requires AllEnded(R.Reached(limits, ops)) && Traces(rs, R.Reached(limits, ops))
    requires s < |R.Reached(limits, ops).ledger.scopes|
    ensures var st := R.Reached(limits, ops);
            && UniqueStarts(rs) && IsForest(NodesOf(rs)) && s in NodesOf(rs)
            && var t := TreeOf(NodesOf(rs), s, |st.ledger.scopes|);
               t.node.own == st.ledger.scopes[s].own && t.subtree == st.ledger.scopes[s].usage
  {
    var st := R.Reached(limits, ops);
    RunIsComplete(st, rs);
    StartsUnique(rs);
    hide NodesOf, Complete;
    UsageAgrees(rs, st.ledger, s);
  }
}
