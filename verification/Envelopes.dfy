/** Envelopes, and what one delivery takes from a queue of them. */
module Envelopes {
  import opened Common

  type NodeId = nat
  /** Every rendered text has a header, so its size in characters is positive. */
  type Chars = n: int | n > 0 witness 1

  /** A message an agent sent, or a terminal notice about one. */
  datatype Envelope = Envelope(id: nat, from: NodeId, to: NodeId, plain: bool, size: Chars)

  /** What a delivery selects: everything, or the envelopes of some senders. */
  datatype Pick = Everything | Only(senders: set<NodeId>) {
    predicate Takes(sender: NodeId) {
      Everything? || sender in senders
    }
  }

  // The functions below read a queue from its end, as a loop over it sees it.

  function Picked(q: seq<Envelope>, pick: Pick): (p: seq<Envelope>)
    ensures |p| <= |q|
  {
    if q == [] then []
    else
      var e, init := q[|q| - 1], q[..|q| - 1];
      if pick.Takes(e.from) then Picked(init, pick) + [e] else Picked(init, pick)
  }

  /** The queue without its first `n` picked envelopes. */
  function Without(q: seq<Envelope>, pick: Pick, n: nat): (r: seq<Envelope>)
    ensures |r| <= |q|
  {
    if q == [] then []
    else
      var e, init := q[|q| - 1], q[..|q| - 1];
      if pick.Takes(e.from) && |Picked(init, pick)| < n then Without(init, pick, n) else Without(init, pick, n) + [e]
  }

  /** The envelopes of one sender, in order. */
  function From(q: seq<Envelope>, sender: NodeId): (r: seq<Envelope>)
    ensures |r| <= |q|
  {
    if q == [] then []
    else
      var e, init := q[|q| - 1], q[..|q| - 1];
      if e.from == sender then From(init, sender) + [e] else From(init, sender)
  }

  function CountPlain(q: seq<Envelope>): nat {
    if q == [] then 0 else CountPlain(q[..|q| - 1]) + if q[|q| - 1].plain then 1 else 0
  }

  function Size(q: seq<Envelope>): (n: nat)
    ensures n >= |q|
  {
    if q == [] then 0 else Size(q[..|q| - 1]) + q[|q| - 1].size
  }

  /**
   Whether the first `n` of the picked envelopes may go in one delivery of a turn that has already used `turn`
   characters: they fit, or they are the one envelope that starts the turn.
   */
  predicate Affordable(picked: seq<Envelope>, n: nat, turn: nat, budget: nat)
    requires n <= |picked|
  {
    n == 0 || turn + Size(picked[..n]) <= budget || (turn == 0 && n == 1)
  }

  /** The longest affordable prefix. */
  predicate IsDelivery(picked: seq<Envelope>, n: nat, turn: nat, budget: nat) {
    && n <= |picked|
    && Affordable(picked, n, turn, budget)
    && forall m :: n < m <= |picked| ==> !Affordable(picked, m, turn, budget)
  }

  lemma {:induction false} SizeOfPrefix(q: seq<Envelope>, n: nat)
    requires n <= |q|
    ensures Size(q[..n]) <= Size(q)
  {
    if n == |q| {
      assert q[..n] == q;
    } else {
      var init := q[..|q| - 1];
      SizeOfPrefix(init, n);
      assert init[..n] == q[..n];
    }
  }

  /** A delivery stays longest when the queue it was stopped in grows. */
  lemma LongerIsWorse(picked: seq<Envelope>, n: nat, m: nat, turn: nat, budget: nat)
    requires n < m <= |picked| && !Affordable(picked, n + 1, turn, budget)
    ensures !Affordable(picked, m, turn, budget)
  {
    SizeOfPrefix(picked[..m], n + 1);
    assert picked[..m][..n + 1] == picked[..n + 1];
  }

  lemma StoppedIsDelivery(picked: seq<Envelope>, n: nat, turn: nat, budget: nat)
    requires n <= |picked| && Affordable(picked, n, turn, budget)
    requires n < |picked| ==> !Affordable(picked, n + 1, turn, budget)
    ensures IsDelivery(picked, n, turn, budget)
  {
    hide Affordable;
    forall m | n < m <= |picked|
      ensures !Affordable(picked, m, turn, budget)
    {
      LongerIsWorse(picked, n, m, turn, budget);
    }
  }

  lemma DeliveryUnique(picked: seq<Envelope>, n: nat, turn: nat, budget: nat)
    requires IsDelivery(picked, n, turn, budget)
    ensures forall m: nat :: IsDelivery(picked, m, turn, budget) ==> m == n
  {
  }

  /** A pick selects everything, or all of its senders' envelopes and none of any other, in order. */
  lemma {:induction false} PickedBySender(q: seq<Envelope>, pick: Pick, sender: NodeId)
    ensures From(Picked(q, pick), sender)
         == if pick == Everything || (pick.Only? && sender in pick.senders) then From(q, sender) else []
  {
    hide From;
    if q == [] {
      NothingFrom(sender);
    } else {
      var init, e := q[..|q| - 1], q[|q| - 1];
      PickedBySender(init, pick, sender);
      FromSnoc(Picked(init, pick), e, sender);
      FromSnoc(init, e, sender);
      assert q == init + [e];
    }
  }

  lemma NothingFrom(sender: NodeId)
    ensures From([], sender) == []
  {
  }

  // ----- order -----

  lemma {:induction false} FromConcat(a: seq<Envelope>, b: seq<Envelope>, sender: NodeId)
    ensures From(a + b, sender) == From(a, sender) + From(b, sender)
  {
    if b == [] {
      assert a + b == a;
    } else {
      var init := b[..|b| - 1];
      FromConcat(a, init, sender);
      assert (a + b)[..|a + b| - 1] == a + init;
    }
  }

  lemma {:induction false} PlainConcat(a: seq<Envelope>, b: seq<Envelope>)
    ensures CountPlain(a + b) == CountPlain(a) + CountPlain(b)
  {
    if b == [] {
      assert a + b == a;
    } else {
      var init := b[..|b| - 1];
      PlainConcat(a, init);
      assert (a + b)[..|a + b| - 1] == a + init;
    }
  }

  /** With all picked envelopes gone, no more than all can go, and nothing of their senders is left. */
  lemma {:induction false} WithoutAll(q: seq<Envelope>, pick: Pick, n: nat, sender: NodeId)
    requires n >= |Picked(q, pick)|
    ensures Without(q, pick, n) == Without(q, pick, |Picked(q, pick)|)
    ensures pick.Takes(sender) ==> From(Without(q, pick, n), sender) == []
  {
    if q != [] {
      var e, init := q[|q| - 1], q[..|q| - 1];
      WithoutAll(init, pick, n, sender);
      WithoutAll(init, pick, |Picked(q, pick)|, sender);
      var rest := Without(init, pick, n);
      assert (rest + [e])[..|rest|] == rest;
    }
  }

  lemma FromSnoc(q: seq<Envelope>, e: Envelope, sender: NodeId)
    ensures From(q + [e], sender) == From(q, sender) + if e.from == sender then [e] else []
  {
    assert (q + [e])[..|q|] == q;
  }

  /** How one more envelope changes what is picked and what is left. */
  lemma WithoutSnoc(q: seq<Envelope>, pick: Pick, n: nat)
    requires q != []
    ensures var e, init := q[|q| - 1], q[..|q| - 1];
            && Picked(q, pick) == (if pick.Takes(e.from) then Picked(init, pick) + [e] else Picked(init, pick))
            && (pick.Takes(e.from) && n == |Picked(init, pick)| + 1 ==> Without(q, pick, n) == Without(init, pick, n - 1))
            && (!pick.Takes(e.from) || n <= |Picked(init, pick)| ==> Without(q, pick, n) == Without(init, pick, n) + [e])
  {
    var e, init := q[|q| - 1], q[..|q| - 1];
    if n == |Picked(init, pick)| + 1 {
      WithoutAll(init, pick, n, e.from);
    }
  }

  lemma SnocPicked(p: seq<Envelope>, e: Envelope, n: nat)
    requires n <= |p|
    ensures (p + [e])[..n] == p[..n] && (p + [e])[n..] == p[n..] + [e]
    ensures (p + [e])[..|p| + 1] == p + [e] && (p + [e])[|p| + 1..] == p[|p|..]
    ensures n < |p| ==> (p + [e])[..n + 1] == p[..n + 1]
  {
  }

  /** What a delivery takes and what it leaves of one sender, together, are what the sender has queued. */
  ghost predicate Front(q: seq<Envelope>, taken: seq<Envelope>, left: seq<Envelope>, sender: NodeId) {
    From(q, sender) == From(taken, sender) + From(left, sender)
  }

  lemma FrontLeaves(q: seq<Envelope>, taken: seq<Envelope>, left: seq<Envelope>, e: Envelope, sender: NodeId)
    requires Front(q, taken, left, sender)
    ensures Front(q + [e], taken, left + [e], sender)
  {
    FromSnoc(q, e, sender);
    FromSnoc(left, e, sender);
    hide From;
  }

  lemma FrontTakes(q: seq<Envelope>, taken: seq<Envelope>, left: seq<Envelope>, e: Envelope, sender: NodeId)
    requires Front(q, taken, left, sender) && (e.from == sender ==> From(left, sender) == [])
    ensures Front(q + [e], taken + [e], left, sender)
  {
    FromSnoc(q, e, sender);
    FromSnoc(taken, e, sender);
    hide From;
  }

  lemma FrontSnoc(q: seq<Envelope>, e: Envelope, pick: Pick, n: nat, sender: NodeId)
    requires var p := Picked(q, pick); n <= |p| + 1 && Front(q, p[..Min(n, |p|)], Without(q, pick, Min(n, |p|)), sender)
    requires n <= |Picked(q + [e], pick)|
    ensures Front(q + [e], Picked(q + [e], pick)[..n], Without(q + [e], pick, n), sender)
  {
    var p := Picked(q, pick);
    assert (q + [e])[..|q + [e]| - 1] == q;
    WithoutSnoc(q + [e], pick, n);
    SnocPicked(p, e, Min(n, |p|));
    WithoutAll(q, pick, |p|, sender);
    hide From, Picked, Without, Front;
    if n <= |p| {
      FrontLeaves(q, p[..n], Without(q, pick, n), e, sender);
    } else {
      assert p[..|p|] == p;
      FrontTakes(q, p, Without(q, pick, |p|), e, sender);
    }
  }

  /** A delivery takes the front of what each sender has queued. */
  lemma {:induction false} TakesFront(q: seq<Envelope>, pick: Pick, n: nat, sender: NodeId)
    requires n <= |Picked(q, pick)|
    ensures Front(q, Picked(q, pick)[..n], Without(q, pick, n), sender)
  {
    if q == [] {
      assert Picked(q, pick)[..n] == [];
    } else {
      var e, init := q[|q| - 1], q[..|q| - 1];
      TakesFront(init, pick, Min(n, |Picked(init, pick)|), sender);
      assert init + [e] == q;
      assert n <= |Picked(init, pick)| + 1;
      hide From, Picked, Without, Front;
      FrontSnoc(init, e, pick, n, sender);
    }
  }

  lemma {:induction false} TakesCounts(q: seq<Envelope>, pick: Pick, n: nat)
    requires n <= |Picked(q, pick)|
    ensures CountPlain(q) == CountPlain(Picked(q, pick)[..n]) + CountPlain(Without(q, pick, n))
    ensures |q| == n + |Without(q, pick, n)|
  {
    if q != [] {
      var e, init := q[|q| - 1], q[..|q| - 1];
      var p := Picked(init, pick);
      var rest := Without(init, pick, n);
      assert (rest + [e])[..|rest|] == rest;
      if n <= |p| {
        TakesCounts(init, pick, n);
        assert Picked(q, pick)[..n] == p[..n];
      } else {
        TakesCounts(init, pick, |p|);
        WithoutAll(init, pick, n, e.from);
        assert p[..|p|] == p && (p + [e])[..|p|] == p && Picked(q, pick)[..n] == p + [e];
      }
    }
  }

  lemma {:induction false} FromHas(q: seq<Envelope>, e: Envelope)
    ensures e in q <==> e in From(q, e.from)
  {
    if q != [] {
      var last, init := q[|q| - 1], q[..|q| - 1];
      FromHas(init, e);
      assert q == init + [last];
    }
  }

  /** Everything queued is taken or left, and nothing else is. */
  lemma TakesOnly(q: seq<Envelope>, pick: Pick, n: nat, e: Envelope)
    requires n <= |Picked(q, pick)|
    ensures e in q <==> e in Picked(q, pick)[..n] || e in Without(q, pick, n)
  {
    TakesFront(q, pick, n, e.from);
    FromHas(q, e);
    FromHas(Picked(q, pick)[..n], e);
    FromHas(Without(q, pick, n), e);
  }

  lemma {:induction false} EverythingPicked(q: seq<Envelope>)
    ensures Picked(q, Everything) == q
  {
    if q != [] {
      EverythingPicked(q[..|q| - 1]);
    }
  }

  /** In a turn that has used nothing, a delivery of everything starts with the oldest envelope. */
  lemma OldestGoes(q: seq<Envelope>, n: nat, budget: nat)
    requires q != [] && IsDelivery(Picked(q, Everything), n, 0, budget)
    ensures n > 0 && Picked(q, Everything)[0] == q[0]
  {
    EverythingPicked(q);
    assert Affordable(q, 1, 0, budget);
  }

  /** Envelopes of the senders that are not picked stay. */
  lemma UnpickedStay(q: seq<Envelope>, pick: Pick, n: nat, sender: NodeId)
    requires n <= |Picked(q, pick)| && !pick.Takes(sender)
    ensures From(Without(q, pick, n), sender) == From(q, sender)
  {
    TakesFront(q, pick, n, sender);
    NonePicked(q, pick, n, sender);
  }

  lemma {:induction false} NonePicked(q: seq<Envelope>, pick: Pick, n: nat, sender: NodeId)
    requires n <= |Picked(q, pick)| && !pick.Takes(sender)
    ensures From(Picked(q, pick)[..n], sender) == []
  {
    if n > 0 {
      NonePicked(q, pick, n - 1, sender);
      assert Picked(q, pick)[..n][..n - 1] == Picked(q, pick)[..n - 1];
      PickedTakes(q, pick);
    }
  }

  lemma {:induction false} PickedTakes(q: seq<Envelope>, pick: Pick)
    ensures forall e :: e in Picked(q, pick) ==> pick.Takes(e.from) && e in q
  {
    if q != [] {
      PickedTakes(q[..|q| - 1], pick);
    }
  }
}
