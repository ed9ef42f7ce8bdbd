/** One agent's mailbox: a bounded queue with reservations, terminal entries, and a delivery budget for each turn. */
module MailboxSpec {
  import opened Common
  import opened Envelopes

  datatype Box = Box(queue: seq<Envelope>, plain: nat, reserved: nat, awaiting: set<NodeId>, closed: bool,
                     turn: nat, concluded: set<NodeId>, seen: set<NodeId>)

  /** What happened so far: envelopes queued, handed over and dropped by a close, agents whose notice was pushed,
      and what was charged since the last turn began. */
  datatype History = History(arrived: seq<Envelope>, taken: seq<Envelope>, dropped: seq<Envelope>,
                             entries: seq<NodeId>, charges: seq<Chars>)

  datatype Refusal = Full | Closed

  datatype Batch = Batch(taken: seq<Envelope>, left: map<NodeId, nat>, queued: nat)

  datatype Idle = Deliver(batch: Batch) | Wait | Done

  function Sum(charges: seq<Chars>): (n: nat)
    ensures n >= |charges|
  {
    if charges == [] then 0 else Sum(charges[..|charges| - 1]) + charges[|charges| - 1]
  }

  function Costs(q: seq<Envelope>): (c: seq<Chars>)
    ensures |c| == |q|
  {
    if q == [] then [] else Costs(q[..|q| - 1]) + [q[|q| - 1].size]
  }

  // ----- the invariant -----

  predicate Bounded(b: Box, capacity: nat) {
    b.plain == CountPlain(b.queue) && b.plain + b.reserved <= capacity
  }

  /** Each sender's envelopes were handed over in the order they arrived, and the rest waits in that order. */
  ghost predicate InOrder(b: Box, h: History) {
    && (forall s :: From(h.arrived, s) == From(h.taken, s) + From(h.dropped, s) + From(b.queue, s))
    && (if b.closed then b.queue == [] else h.dropped == [])
  }

  predicate IsNotice(q: seq<Envelope>, i: int) {
    0 <= i < |q| && !q[i].plain
  }

  ghost predicate HasNotice(q: seq<Envelope>, agent: NodeId) {
    exists i :: IsNotice(q, i) && q[i].from == agent
  }

  /** No agent has had two notices pushed, and one whose notice was pushed is concluded and not awaited again. */
  ghost predicate OneEntry(b: Box, h: History) {
    && (forall i, j :: 0 <= i < j < |h.entries| ==> h.entries[i] != h.entries[j])
    && (forall a :: a in h.entries ==> a in b.concluded && a !in b.awaiting)
    && (forall i, j :: IsNotice(h.arrived, i) && IsNotice(h.arrived, j) && i != j ==>
          h.arrived[i].from != h.arrived[j].from)
    && (forall i :: IsNotice(h.arrived, i) ==> h.arrived[i].from in h.entries)
  }

  /** While the mailbox is open, a concluded agent is still awaited, or its notice is queued, or was seen. */
  ghost predicate Accounted(b: Box) {
    !b.closed ==> forall a :: a in b.concluded ==> a in b.awaiting || HasNotice(b.queue, a) || a in b.seen
  }

  /** What a turn hands over fits the budget, or is one item alone. */
  predicate TurnBounded(b: Box, h: History, budget: nat) {
    b.turn == Sum(h.charges) && (b.turn <= budget || |h.charges| == 1)
  }

  ghost predicate Inv(b: Box, h: History, capacity: nat, budget: nat) {
    Bounded(b, capacity) && InOrder(b, h) && OneEntry(b, h) && Accounted(b) && TurnBounded(b, h, budget)
  }

  // ----- taking a delivery -----

  ghost predicate ShowsNotice(q: seq<Envelope>, a: NodeId) {
    exists e :: e in q && !e.plain && e.from == a
  }

  /** The state after a delivery of the first `n` picked envelopes, given whom it showed the outcome of. */
  ghost predicate HandsOver(b: Box, next: Box, h: History, after: History, pick: Pick, n: nat) {
    && n <= |Picked(b.queue, pick)|
    && var taken := Picked(b.queue, pick)[..n];
       && next.queue == Without(b.queue, pick, n)
       && next == b.(queue := next.queue, plain := next.plain, turn := b.turn + Size(taken), seen := next.seen)
       && next.plain == b.plain - CountPlain(taken)
       && (forall a :: a in next.seen <==> a in b.seen || ShowsNotice(taken, a))
       && after == h.(taken := h.taken + taken, charges := h.charges + Costs(taken))
  }

  lemma {:induction false} SumConcat(a: seq<Chars>, b: seq<Chars>)
    ensures Sum(a + b) == Sum(a) + Sum(b)
  {
    if b == [] {
      assert a + b == a;
    } else {
      SumConcat(a, b[..|b| - 1]);
      assert (a + b)[..|a + b| - 1] == a + b[..|b| - 1];
    }
  }

  lemma {:induction false} SumOfCosts(q: seq<Envelope>)
    ensures Sum(Costs(q)) == Size(q)
  {
    if q != [] {
      SumOfCosts(q[..|q| - 1]);
      var c := Costs(q[..|q| - 1]);
      assert (c + [q[|q| - 1].size])[..|c|] == c;
    }
  }

  lemma NoticeHas(q: seq<Envelope>, a: NodeId)
    ensures HasNotice(q, a) <==> ShowsNotice(q, a)
  {
    if ShowsNotice(q, a) {
      var e :| e in q && !e.plain && e.from == a;
      var i :| 0 <= i < |q| && q[i] == e;
      assert IsNotice(q, i);
    }
  }

  lemma DeliveredKeepsOrder(b: Box, next: Box, h: History, after: History, pick: Pick, n: nat)
    requires HandsOver(b, next, h, after, pick, n) && InOrder(b, h)
    ensures InOrder(next, after)
  {
    hide From, Picked, Without, CountPlain, Size, Costs;
    var taken := Picked(b.queue, pick)[..n];
    forall s
      ensures From(after.arrived, s) == From(after.taken, s) + From(after.dropped, s) + From(next.queue, s)
    {
      TakesFront(b.queue, pick, n, s);
      FromConcat(h.taken, taken, s);
      if !b.closed {
        assert From(h.taken, s) + From(h.dropped, s) == From(h.taken, s);
        assert From(after.taken, s) + From(after.dropped, s) == From(after.taken, s);
      } else {
        assert taken == [] && From(b.queue, s) == [] && From(next.queue, s) == [];
        assert h.taken + taken == h.taken;
      }
    }
  }

  lemma DeliveredKeepsAccounts(b: Box, next: Box, h: History, after: History, pick: Pick, n: nat)
    requires HandsOver(b, next, h, after, pick, n) && Accounted(b)
    ensures Accounted(next)
  {
    hide Picked, Without;
    var taken := Picked(b.queue, pick)[..n];
    forall a | !b.closed && a in next.concluded
      ensures a in next.awaiting || HasNotice(next.queue, a) || a in next.seen
    {
      NoticeHas(b.queue, a);
      NoticeHas(next.queue, a);
      if ShowsNotice(b.queue, a) {
        var e :| e in b.queue && !e.plain && e.from == a;
        TakesOnly(b.queue, pick, n, e);
      }
    }
  }

  lemma DeliveredKeepsTurn(b: Box, next: Box, h: History, after: History, pick: Pick, n: nat, budget: nat)
    requires HandsOver(b, next, h, after, pick, n) && TurnBounded(b, h, budget)
    requires Affordable(Picked(b.queue, pick), n, b.turn, budget)
    ensures TurnBounded(next, after, budget)
  {
    hide Picked, Without;
    var taken := Picked(b.queue, pick)[..n];
    SumConcat(h.charges, Costs(taken));
    SumOfCosts(taken);
    if n == 0 {
      assert after.charges == h.charges;
    }
  }

  lemma DeliveredKeepsInv(b: Box, next: Box, h: History, after: History, pick: Pick, n: nat, capacity: nat, budget: nat)
    requires HandsOver(b, next, h, after, pick, n) && Inv(b, h, capacity, budget)
    requires Affordable(Picked(b.queue, pick), n, b.turn, budget)
    ensures Inv(next, after, capacity, budget)
  {
    hide InOrder, Accounted, TurnBounded, Picked, Without, Affordable, CountPlain;
    TakesCounts(b.queue, pick, n);
    DeliveredKeepsOrder(b, next, h, after, pick, n);
    DeliveredKeepsAccounts(b, next, h, after, pick, n);
    DeliveredKeepsTurn(b, next, h, after, pick, n, budget);
  }

  // ----- queueing -----

  function Pushed(b: Box, e: Envelope): Box {
    var settled := if e.plain then b.(reserved := Monus(b.reserved, 1))
                   else b.(awaiting := b.awaiting - {e.from}, concluded := b.concluded + {e.from});
    if b.closed then settled
    else settled.(plain := b.plain + (if e.plain then 1 else 0), queue := b.queue + [e])
  }

  function PushNoted(b: Box, h: History, e: Envelope): History {
    h.(arrived := if b.closed then h.arrived else h.arrived + [e],
       entries := if e.plain then h.entries else h.entries + [e.from])
  }

  lemma PushKeepsOrder(b: Box, h: History, e: Envelope)
    requires InOrder(b, h)
    ensures InOrder(Pushed(b, e), PushNoted(b, h, e))
  {
    if !b.closed {
      forall s
        ensures From(h.arrived + [e], s) == From(h.taken, s) + From(h.dropped, s) + From(b.queue + [e], s)
      {
        FromConcat(h.arrived, [e], s);
        FromConcat(b.queue, [e], s);
      }
    }
  }

  lemma PushKeepsEntries(b: Box, h: History, e: Envelope)
    requires OneEntry(b, h) && (e.plain || e.from in b.awaiting)
    ensures OneEntry(Pushed(b, e), PushNoted(b, h, e))
  {
    var after := PushNoted(b, h, e);
    forall i | IsNotice(after.arrived, i)
      ensures i < |h.arrived| ==> IsNotice(h.arrived, i)
      ensures after.arrived[i].from in after.entries
    {
      if i < |h.arrived| {
        assert IsNotice(h.arrived, i);
      }
    }
  }

  lemma PushKeepsAccounts(b: Box, h: History, e: Envelope)
    requires Accounted(b)
    ensures Accounted(Pushed(b, e))
  {
    if !b.closed {
      var q := b.queue + [e];
      forall a | HasNotice(b.queue, a)
        ensures HasNotice(q, a)
      {
        var i :| IsNotice(b.queue, i) && b.queue[i].from == a;
        assert IsNotice(q, i);
      }
      if !e.plain {
        assert IsNotice(q, |b.queue|);
      }
    }
  }

  lemma PushKeepsInv(b: Box, h: History, e: Envelope, capacity: nat, budget: nat)
    requires Inv(b, h, capacity, budget) && (if e.plain then b.reserved > 0 else e.from in b.awaiting)
    ensures Inv(Pushed(b, e), PushNoted(b, h, e), capacity, budget)
  {
    hide InOrder, OneEntry, Accounted, Sum;
    PushKeepsOrder(b, h, e);
    PushKeepsEntries(b, h, e);
    PushKeepsAccounts(b, h, e);
    PlainConcat(b.queue, [e]);
    OnePlain(e);
  }

  lemma OnePlain(e: Envelope)
    ensures CountPlain([e]) == if e.plain then 1 else 0
  {
  }

  // ----- the other steps -----

  lemma ReserveKeepsInv(b: Box, h: History, capacity: nat, budget: nat)
    requires Inv(b, h, capacity, budget) && b.plain + b.reserved < capacity
    ensures Inv(b.(reserved := b.reserved + 1), h, capacity, budget)
  {
    hide Sum, From, CountPlain;
  }

  lemma ChargeKeepsInv(b: Box, h: History, cost: Chars, capacity: nat, budget: nat)
    requires Inv(b, h, capacity, budget) && (b.turn == 0 || b.turn + cost <= budget)
    ensures Inv(b.(turn := b.turn + cost), h.(charges := h.charges + [cost]), capacity, budget)
  {
    SumConcat(h.charges, [cost]);
    assert Sum([cost]) == cost;
    hide Sum, From, CountPlain;
  }

  lemma ClosingIsFine(b: Box, h: History, capacity: nat, budget: nat)
    requires Inv(b, h, capacity, budget) && b.queue == []
    ensures Inv(b.(closed := true), h, capacity, budget)
  {
    hide Sum, From;
  }

  lemma CloseKeepsInv(b: Box, h: History, capacity: nat, budget: nat)
    requires Inv(b, h, capacity, budget)
    ensures Inv(b.(closed := true, plain := 0, queue := []), h.(dropped := h.dropped + b.queue), capacity, budget)
  {
    hide Sum, OneEntry;
    var next, after := b.(closed := true, plain := 0, queue := []), h.(dropped := h.dropped + b.queue);
    forall s
      ensures From(after.arrived, s) == From(after.taken, s) + From(after.dropped, s) + From(next.queue, s)
    {
      FromConcat(h.dropped, b.queue, s);
      assert From(after.taken, s) + From(after.dropped, s) + [] == From(after.taken, s) + From(after.dropped, s);
    }
    assert OneEntry(next, after) by { SameEntries(b, next, h, after); }
  }

  lemma SameEntries(b: Box, next: Box, h: History, after: History)
    requires OneEntry(b, h) && next.awaiting == b.awaiting && next.concluded == b.concluded
    requires after.arrived == h.arrived && after.entries == h.entries
    ensures OneEntry(next, after)
  {
  }

  lemma ExpectKeepsInv(b: Box, h: History, child: NodeId, capacity: nat, budget: nat)
    requires Inv(b, h, capacity, budget) && child !in b.concluded
    ensures Inv(b.(awaiting := b.awaiting + {child}), h, capacity, budget)
  {
    hide Sum, From, CountPlain;
  }

  lemma StageKeepsInv(b: Box, h: History, agent: NodeId, capacity: nat, budget: nat)
    requires Inv(b, h, capacity, budget) && agent !in b.awaiting && agent !in b.concluded
    ensures Inv(b.(awaiting := b.awaiting + {agent}, concluded := b.concluded + {agent}), h, capacity, budget)
  {
    hide Sum, From, CountPlain;
  }

  lemma NewTurnKeepsInv(b: Box, h: History, capacity: nat, budget: nat)
    requires Inv(b, h, capacity, budget)
    ensures Inv(b.(turn := 0), h.(charges := []), capacity, budget)
  {
    hide From, CountPlain;
  }

  lemma SawKeepsInv(b: Box, h: History, agent: NodeId, capacity: nat, budget: nat)
    requires Inv(b, h, capacity, budget)
    ensures Inv(b.(seen := b.seen + {agent}), h, capacity, budget)
  {
    hide Sum, From, CountPlain;
  }

  function NoticeSenders(q: seq<Envelope>): (s: set<NodeId>)
    ensures forall a :: a in s <==> ShowsNotice(q, a)
  {
    if q == [] then {}
    else
      var init := NoticeSenders(q[..|q| - 1]);
      assert forall e :: e in q <==> e == q[|q| - 1] || e in q[..|q| - 1];
      if q[|q| - 1].plain then init else init + {q[|q| - 1].from}
  }

  /** The mailbox after a delivery of the first `n` picked envelopes. */
  function TakenBox(b: Box, pick: Pick, n: nat): Box
    requires n <= |Picked(b.queue, pick)|
  {
    var taken := Picked(b.queue, pick)[..n];
    b.(queue := Without(b.queue, pick, n), plain := Monus(b.plain, CountPlain(taken)),
       turn := b.turn + Size(taken), seen := b.seen + NoticeSenders(taken))
  }

  function TakenHistory(h: History, taken: seq<Envelope>): History {
    h.(taken := h.taken + taken, charges := h.charges + Costs(taken))
  }

  lemma TakenIsDelivered(b: Box, h: History, pick: Pick, n: nat, capacity: nat, budget: nat)
    requires Inv(b, h, capacity, budget) && n <= |Picked(b.queue, pick)|
    ensures HandsOver(b, TakenBox(b, pick, n), h, TakenHistory(h, Picked(b.queue, pick)[..n]), pick, n)
  {
    TakesCounts(b.queue, pick, n);
    hide Picked, Without, CountPlain, Size, Costs;
  }

  // ----- what the invariant means -----

  /** What was handed over of one sender is the beginning of what arrived of it. */
  lemma HandedOverInOrder(b: Box, h: History, capacity: nat, budget: nat, s: NodeId)
    requires Inv(b, h, capacity, budget)
    ensures From(h.taken, s) <= From(h.arrived, s)
    ensures !b.closed ==> From(h.arrived, s) == From(h.taken, s) + From(b.queue, s)
  {
    hide OneEntry, Accounted, TurnBounded, Bounded;
    var after := From(h.dropped, s) + From(b.queue, s);
    assert From(h.arrived, s) == From(h.taken, s) + after;
    if !b.closed {
      assert after == From(b.queue, s);
    }
  }
}
