/** What the attempt records alone tell of a node's usage, when its end record is missing. */
module TraceCharges {
  import opened Common
  import opened Forest
  import opened TraceTree
  import opened TraceAgreement
  import L = LedgerSpec
  import LedgerInvariant

  /** Every attempt's end record says what its settlement charged, and which node. */
  ghost predicate Tells(rs: seq<Record>, settled: map<L.AttemptId, L.Settled>) {
    forall i :: 0 <= i < |rs| && rs[i].AttemptEnd? ==>
      && rs[i].attempt in settled
      && settled[rs[i].attempt].node == rs[i].node && settled[rs[i].attempt].usage == ChargeOf(rs[i])
  }

  /** The settlements that have a record. A guard that is dropped settles without one. */
  function Recorded(rs: seq<Record>, settled: map<L.AttemptId, L.Settled>): map<L.AttemptId, L.Settled> {
    map a | a in settled && SeenAttempt(rs, a) :: settled[a]
  }

  lemma RecordedSnoc(rs: seq<Record>, settled: map<L.AttemptId, L.Settled>)
    requires rs != [] && Tells(rs, settled)
    ensures var r, before := rs[|rs| - 1], Recorded(rs[..|rs| - 1], settled);
            Recorded(rs, settled) == if r.AttemptEnd? then before[r.attempt := settled[r.attempt]] else before
  {
    hide SeenAttempt;
    SeenSnoc(rs[..|rs| - 1], rs[|rs| - 1]);
    assert rs[..|rs| - 1] + [rs[|rs| - 1]] == rs;
  }

  /** The charges of the records are those of the recorded settlements. */
  lemma {:induction false} ChargedIsRecorded(rs: seq<Record>, settled: map<L.AttemptId, L.Settled>, id: NodeId, n: nat,
                                             c: L.Counter)
    requires WellFormed(rs) && Tells(rs, settled) && forall a :: a in settled ==> a < n
    ensures ChargeSum(rs, id, c) == L.Sum(n, L.SettledBy(Recorded(rs, settled), id, c))
  {
    if rs == [] {
      LedgerInvariant.SumZero(n, L.SettledBy(Recorded(rs, settled), id, c));
    } else {
      var init, r := rs[..|rs| - 1], rs[|rs| - 1];
      WellFormedInit(rs);
      ChargedIsRecorded(init, settled, id, n, c);
      RecordedSnoc(rs, settled);
      if r.AttemptEnd? {
        assert !SeenAttempt(init, r.attempt);
        LedgerInvariant.SumChange(n, L.SettledBy(Recorded(init, settled), id, c),
                                  L.SettledBy(Recorded(rs, settled), id, c), r.attempt);
      }
    }
  }

  /** Totals of which one is nowhere greater are equal exactly when they agree everywhere. */
  lemma {:induction false} SumsAgree(n: nat, v: L.Weight, w: L.Weight)
    requires forall i: nat :: i < n ==> L.At(v, i) <= L.At(w, i)
    ensures L.Sum(n, v) <= L.Sum(n, w)
    ensures L.Sum(n, v) == L.Sum(n, w) <==> forall i: nat :: i < n ==> L.At(v, i) == L.At(w, i)
  {
    hide L.At;
    if n > 0 {
      SumsAgree(n - 1, v, w);
    }
  }

  /** Every settlement of the node that charged something has its record. */
  ghost predicate AllTold(rs: seq<Record>, settled: map<L.AttemptId, L.Settled>, id: NodeId) {
    forall a :: a in settled && settled[a].node == id && settled[a].Charged() > 0 ==> SeenAttempt(rs, a)
  }

  lemma RecordedAgrees(rs: seq<Record>, settled: map<L.AttemptId, L.Settled>, id: NodeId, n: nat)
    requires forall a :: a in settled ==> a < n
    ensures (forall c: L.Counter ::
               L.Sum(n, L.SettledBy(Recorded(rs, settled), id, c)) == L.Sum(n, L.SettledBy(settled, id, c)))
       <==> AllTold(rs, settled, id)
  {
    var some := Recorded(rs, settled);
    forall c: L.Counter
      ensures L.Sum(n, L.SettledBy(some, id, c)) == L.Sum(n, L.SettledBy(settled, id, c))
         <==> forall i: nat :: i < n ==> L.At(L.SettledBy(some, id, c), i) == L.At(L.SettledBy(settled, id, c), i)
    {
      SumsAgree(n, L.SettledBy(some, id, c), L.SettledBy(settled, id, c));
    }
    hide L.Sum;
    if forall c: L.Counter :: L.Sum(n, L.SettledBy(some, id, c)) == L.Sum(n, L.SettledBy(settled, id, c)) {
      forall a | a in settled && settled[a].node == id && settled[a].Charged() > 0
        ensures SeenAttempt(rs, a)
      {
        UnseenIsMissing(rs, settled, id, a);
      }
    }
    if AllTold(rs, settled, id) {
      forall c: L.Counter, i: nat | i < n
        ensures L.At(L.SettledBy(some, id, c), i) == L.At(L.SettledBy(settled, id, c), i)
      {
        ToldIsThere(rs, settled, id, i, c);
      }
    }
  }

  /** A settlement without a record is missing from the total of some counter it charged. */
  lemma UnseenIsMissing(rs: seq<Record>, settled: map<L.AttemptId, L.Settled>, id: NodeId, a: L.AttemptId)
    requires a in settled && settled[a].node == id && settled[a].Charged() > 0
    ensures !SeenAttempt(rs, a) ==>
              exists c: L.Counter :: L.At(L.SettledBy(Recorded(rs, settled), id, c), a) != L.At(L.SettledBy(settled, id, c), a)
  {
    hide SeenAttempt;
    var u := settled[a].usage;
    var c := if u.input > 0 then L.Input else if u.output > 0 then L.Output
             else if u.cacheCreation > 0 then L.CacheCreation else L.CacheRead;
    assert u.Get(c) > 0 && L.At(L.SettledBy(settled, id, c), a) == u.Get(c);
  }

  lemma ToldIsThere(rs: seq<Record>, settled: map<L.AttemptId, L.Settled>, id: NodeId, i: nat, c: L.Counter)
    requires AllTold(rs, settled, id)
    ensures L.At(L.SettledBy(Recorded(rs, settled), id, c), i) == L.At(L.SettledBy(settled, id, c), i)
  {
    hide SeenAttempt;
    if i in settled && settled[i].node == id && !SeenAttempt(rs, i) {
      assert settled[i].usage.Get(c) == 0;
    }
  }

  /**
   A node without an end record is rebuilt with the ledger's own usage if and only if every settlement of the node that
   charged something has its attempt record.
   */
  lemma OwnFromAttemptsIff(rs: seq<Record>, st: L.State, id: NodeId)
    requires L.Inv(st) && WellFormed(rs) && Tells(rs, st.settled) && id < |st.scopes|
    requires id in NodesOf(rs) && LastEnd(rs, id).None?
    ensures NodesOf(rs)[id].own == st.scopes[id].own <==> AllTold(rs, st.settled, id)
  {
    assert L.AttemptsKnown(st) && L.Conserved(st, id);
    var n := st.nextAttempt;
    forall c: L.Counter
      ensures Charged(rs, id).Get(c) == L.Sum(n, L.SettledBy(Recorded(rs, st.settled), id, c))
      ensures st.scopes[id].own.Get(c) == L.Sum(n, L.SettledBy(st.settled, id, c))
    {
      ChargedIsSum(rs, id, c);
      ChargedIsRecorded(rs, st.settled, id, n, c);
    }
    RecordedAgrees(rs, st.settled, id, n);
    assert NodesOf(rs)[id].own == Charged(rs, id);
    hide NodesOf, L.Inv, L.Sum, AllTold, Charged, Recorded, WellFormed, Tells;
    if forall c: L.Counter :: Charged(rs, id).Get(c) == st.scopes[id].own.Get(c) {
      SameUsage(Charged(rs, id), st.scopes[id].own);
    }
  }
}
