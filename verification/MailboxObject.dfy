/** The mailbox as an object: every method is one step under its lock. */
module MailboxObject {
  import opened Common
  import opened Envelopes
  import opened MailboxSpec

  class Mailbox {
    const capacity: nat
    const budget: nat
    var queue: seq<Envelope>
    var plain: nat
    var reserved: nat
    var awaiting: set<NodeId>
    var closed: bool
    var turn: nat
    var concluded: set<NodeId>
    var seen: set<NodeId>
    ghost var history: History

    ghost function View(): Box
      reads this
    {
      Box(queue, plain, reserved, awaiting, closed, turn, concluded, seen)
    }

    ghost predicate Valid()
      reads this
    {
      Inv(View(), history, capacity, budget)
    }

    constructor (capacity: nat, budget: nat)
      ensures View() == Box([], 0, 0, {}, false, 0, {}, {})
      ensures history == History([], [], [], [], [])
      ensures Valid() && this.capacity == capacity && this.budget == budget
    {
      this.capacity := capacity;
      this.budget := budget;
      queue := [];
      plain := 0;
      reserved := 0;
      awaiting := {};
      closed := false;
      turn := 0;
      concluded := {};
      seen := {};
      history := History([], [], [], [], []);
    }

    /** One place is held for a send, unless the mailbox is closed or queued and held places fill the capacity. */
    method Reserve() returns (result: Result<bool, Refusal>)
      requires Valid()
      modifies this
      ensures result == if old(closed) then Err(Closed)
                        else if old(plain + reserved) >= capacity then Err(Full) else Ok(true)
      ensures View() == if result.Ok? then old(View()).(reserved := old(reserved) + 1) else old(View())
      ensures history == old(history)
      ensures Valid()
    {
      hide Inv;
      if closed {
        return Err(Closed);
      }
      if plain + reserved >= capacity {
        return Err(Full);
      }
      ReserveKeepsInv(View(), history, capacity, budget);
      reserved := reserved + 1;
      result := Ok(true);
    }

    /** From now on the child is awaited. */
    method Expect(child: NodeId)
      requires Valid() && child !in awaiting && child !in concluded
      modifies this
      ensures View() == old(View()).(awaiting := old(awaiting) + {child})
      ensures history == old(history)
      ensures Valid()
    {
      awaiting := awaiting + {child};
    }

    /** A closed mailbox refuses the envelope; either way the place held for it, or its awaited agent, is settled. */
    method Push(e: Envelope) returns (refused: Option<Envelope>)
      requires Valid() && if e.plain then reserved > 0 else e.from in awaiting
      modifies this
      ensures View() == Pushed(old(View()), e)
      ensures history == PushNoted(old(View()), old(history), e)
      ensures refused == if old(closed) then Some(e) else None
      ensures Valid()
    {
      hide Inv;
      PushKeepsInv(View(), history, e, capacity, budget);
      history := PushNoted(View(), history, e);
      if e.plain {
        reserved := reserved - 1;
      } else {
        awaiting := awaiting - {e.from};
        concluded := concluded + {e.from};
      }
      if closed {
        return Some(e);
      }
      plain := plain + if e.plain then 1 else 0;
      queue := queue + [e];
      refused := None;
    }

    /** Stages a terminal entry for an agent that posts none itself. */
    method Stage(agent: NodeId) returns (staged: bool)
      requires Valid()
      modifies this
      ensures staged <==> !old(closed) && agent !in old(awaiting) && agent !in old(concluded)
      ensures View() == if staged
                        then old(View()).(awaiting := old(awaiting) + {agent}, concluded := old(concluded) + {agent})
                        else old(View())
      ensures history == old(history)
      ensures Valid()
    {
      if closed || agent in awaiting || agent in concluded {
        return false;
      }
      concluded := concluded + {agent};
      awaiting := awaiting + {agent};
      staged := true;
    }

    method Saw(agent: NodeId)
      requires Valid()
      modifies this
      ensures View() == old(View()).(seen := old(seen) + {agent})
      ensures history == old(history)
      ensures Valid()
    {
      seen := seen + {agent};
    }

    /** The cost counts against the turn when nothing did before, or when it still fits the budget. */
    method Charge(cost: Chars) returns (ok: bool)
      requires Valid()
      modifies this
      ensures ok <==> old(turn) == 0 || old(turn) + cost <= budget
      ensures View() == if ok then old(View()).(turn := old(turn) + cost) else old(View())
      ensures history == if ok then old(history).(charges := old(history).charges + [cost]) else old(history)
      ensures Valid()
    {
      hide Inv;
      if turn > 0 && turn + cost > budget {
        return false;
      }
      ChargeKeepsInv(View(), history, cost, capacity, budget);
      turn := turn + cost;
      history := history.(charges := history.charges + [cost]);
      ok := true;
    }

    method NewTurn()
      requires Valid()
      modifies this
      ensures View() == old(View()).(turn := 0)
      ensures history == old(history).(charges := [])
      ensures Valid()
    {
      turn := 0;
      history := history.(charges := []);
    }

    /** The loop over the queue: the delivery, what is left of it by sender, and the rest of the queue. */
    method Select(pick: Pick) returns (taken: seq<Envelope>, left: map<NodeId, nat>, rest: seq<Envelope>)
      ensures var picked := Picked(queue, pick);
              && IsDelivery(picked, |taken|, turn, budget) && taken == picked[..|taken|]
              && rest == Without(queue, pick, |taken|)
              && (forall n: nat :: IsDelivery(picked, n, turn, budget) ==> n == |taken|)
              && (forall s :: s in left <==> From(picked[|taken|..], s) != [])
              && (forall s :: s in left ==> left[s] == |From(picked[|taken|..], s)|)
      ensures TakesWhatFits(Picked(queue, pick), taken, turn, budget)
    {
      hide IsDelivery, Affordable, From, LeftIs, Size, Picked, Without;
      taken, left, rest := [], map[], [];
      var isNew, used, full := turn == 0, turn, false;
      assert queue[..0] == [] && Picked([], pick)[0..] == [];
      NothingSelected(pick, turn, budget);
      var i := 0;
      while i < |queue|
        invariant 0 <= i <= |queue| && |taken| <= |Picked(queue[..i], pick)|
        invariant used == turn + Size(taken) && isNew == (turn == 0)
        invariant taken == Picked(queue[..i], pick)[..|taken|]
        invariant rest == Without(queue[..i], pick, |taken|)
        invariant Affordable(Picked(queue[..i], pick), |taken|, turn, budget)
        invariant if full then |taken| < |Picked(queue[..i], pick)|
                          && !Affordable(Picked(queue[..i], pick), |taken| + 1, turn, budget)
                  else |taken| == |Picked(queue[..i], pick)|
        invariant LeftIs(left, Picked(queue[..i], pick)[|taken|..])
      {
        var envelope := queue[i];
        ghost var init, more := queue[..i], queue[..i + 1];
        ghost var before := Picked(init, pick);
        assert more[..|more| - 1] == init && more[|more| - 1] == envelope;
        i := i + 1;
        WithoutSnoc(more, pick, |taken|);
        if pick.Takes(envelope.from) {
          SnocPicked(before, envelope, |taken|);
          AffordableSnoc(before, envelope, |taken|, turn, budget);
          if !full {
            if (isNew && taken == []) || used + envelope.size <= budget {
              WithoutSnoc(more, pick, |taken| + 1);
              TakeOne(taken, envelope);
              used := used + envelope.size;
              taken := taken + [envelope];
              continue;
            }
            full := true;
          }
          LeftGrows(left, before[|taken|..], envelope);
          left := left[envelope.from := (if envelope.from in left then left[envelope.from] else 0) + 1];
        }
        rest := rest + [envelope];
      }
      assert queue[..i] == queue;
      StoppedIsDelivery(Picked(queue, pick), |taken|, turn, budget);
      DeliveryFits(Picked(queue, pick), |taken|, turn, budget);
      DeliveryUnique(Picked(queue, pick), |taken|, turn, budget);
      LeftMeans(left, Picked(queue, pick)[|taken|..]);
    }

    /** Takes one delivery, of what `pick` selects. */
    method Take(pick: Pick) returns (batch: Batch)
      requires Valid()
      modifies this
      ensures var picked := Picked(old(queue), pick);
              && IsDelivery(picked, |batch.taken|, old(turn), budget) && batch.taken == picked[..|batch.taken|]
              && HandsOver(old(View()), View(), old(history), history, pick, |batch.taken|)
              && (forall s :: s in batch.left <==> From(picked[|batch.taken|..], s) != [])
              && (forall s :: s in batch.left ==> batch.left[s] == |From(picked[|batch.taken|..], s)|)
      ensures TakesWhatFits(Picked(old(queue), pick), batch.taken, old(turn), budget)
      ensures batch.queued == |queue|
      ensures old(turn) == 0 && pick == Everything && old(queue) != [] ==>
                batch.taken != [] && batch.taken[0] == old(queue)[0]
      ensures Valid()
    {
      hide Inv, Picked, Without, From, IsDelivery, Affordable, CountPlain, Size, Costs, ShowsNotice, TakesWhatFits;
      var taken, left, rest := Select(pick);
      ghost var before, was, n := View(), history, |taken|;
      IsAffordable(Picked(queue, pick), n, turn, budget);
      InvCounts(before, was, capacity, budget);
      TakesCounts(queue, pick, n);
      if turn == 0 && pick == Everything && queue != [] {
        OldestGoes(queue, n, budget);
      }
      queue := rest;
      turn := turn + Size(taken);
      var i := 0;
      while i < |taken|
        invariant 0 <= i <= |taken|
        invariant forall a :: a in seen <==> a in before.seen || exists k :: 0 <= k < i && !taken[k].plain && taken[k].from == a
        invariant View() == before.(queue := rest, turn := before.turn + Size(taken), seen := seen)
        invariant history == was
      {
        if !taken[i].plain {
          seen := seen + {taken[i].from};
        }
        i := i + 1;
      }
      plain := plain - CountPlain(taken);
      history := history.(taken := history.taken + taken, charges := history.charges + Costs(taken));
      SeenNotices(taken, before.seen, seen);
      DeliveredKeepsInv(before, View(), was, history, pick, n, capacity, budget);
      batch := Batch(taken, left, |queue|);
    }

    /** Decides between delivering, waiting and closing. */
    method Idle(close: bool) returns (idle: MailboxSpec.Idle)
      requires Valid()
      modifies this
      ensures idle.Done? ==> old(queue == [] && awaiting == {} && reserved == 0)
      ensures idle.Done? ==> View() == old(View()).(closed := old(closed) || close)
      ensures idle.Done? ==> history == old(history)
      ensures idle.Wait? ==> View() == old(View()) && history == old(history)
      ensures idle.Wait? ==> old(queue) == [] && (old(awaiting) != {} || old(reserved) > 0)
      ensures idle.Deliver? <==> old(queue) != []
      ensures idle.Deliver? ==>
                && IsDelivery(old(queue), |idle.batch.taken|, old(turn), budget)
                && idle.batch.taken == old(queue)[..|idle.batch.taken|]
                && TakesWhatFits(old(queue), idle.batch.taken, old(turn), budget)
                && HandsOver(old(View()), View(), old(history), history, Everything, |idle.batch.taken|)
      ensures Valid()
    {
      hide IsDelivery, HandsOver, TakesWhatFits;
      if queue != [] {
        EverythingPicked(queue);
        var batch := Take(Everything);
        return Deliver(batch);
      }
      if awaiting == {} && reserved == 0 {
        ClosingIsFine(View(), history, capacity, budget);
        closed := closed || close;
        return Done;
      }
      idle := Wait;
    }

    /** What was queued is dropped into the caller's hands, and nothing is queued again. */
    method Close() returns (envelopes: seq<Envelope>)
      requires Valid()
      modifies this
      ensures envelopes == old(queue)
      ensures View() == old(View()).(closed := true, plain := 0, queue := [])
      ensures history == old(history).(dropped := old(history).dropped + old(queue))
      ensures Valid()
    {
      CloseKeepsInv(View(), history, capacity, budget);
      envelopes := queue;
      history := history.(dropped := history.dropped + queue);
      closed := true;
      plain := 0;
      queue := [];
    }

    /** Exactly the agents that are awaited or have a notice in the queue. */
    method Outstanding() returns (agents: set<NodeId>)
      ensures forall a :: a in agents <==> a in awaiting || HasNotice(queue, a)
    {
      agents := awaiting;
      var i := 0;
      while i < |queue|
        invariant 0 <= i <= |queue|
        invariant forall a :: a in agents <==> a in awaiting || exists k :: k < i && IsNotice(queue, k) && queue[k].from == a
      {
        if !queue[i].plain {
          agents := agents + {queue[i].from};
          assert IsNotice(queue, i);
        }
        i := i + 1;
      }
    }
  }

  // ----- what a delivery takes, in characters -----

  function Total(q: seq<Envelope>): nat {
    if q == [] then 0 else q[0].size + Total(q[1..])
  }

  /**
   What is taken are the first envelopes picked. They fit the rest of the turn's budget, up to the last character, or
   are the one envelope that starts the turn; one more would not.
   */
  ghost predicate TakesWhatFits(picked: seq<Envelope>, taken: seq<Envelope>, turn: nat, budget: nat) {
    && taken <= picked
    && (taken != [] ==> turn + Total(taken) <= budget || (turn == 0 && |taken| == 1))
    && (|taken| < |picked| ==>
          turn + Total(picked[..|taken| + 1]) > budget && !(turn == 0 && taken == []))
  }

  lemma {:induction false} TotalIsSize(q: seq<Envelope>)
    ensures Total(q) == Size(q)
  {
    if q != [] {
      TotalIsSize(q[1..]);
      SizeConcat([q[0]], q[1..]);
      assert q == [q[0]] + q[1..];
      assert [q[0]][..0] == [];
    }
  }

  lemma {:induction false} SizeConcat(a: seq<Envelope>, b: seq<Envelope>)
    ensures Size(a + b) == Size(a) + Size(b)
  {
    if b == [] {
      assert a + b == a;
    } else {
      var init := b[..|b| - 1];
      SizeConcat(a, init);
      assert (a + b)[..|a + b| - 1] == a + init;
    }
  }

  lemma DeliveryFits(picked: seq<Envelope>, n: nat, turn: nat, budget: nat)
    requires IsDelivery(picked, n, turn, budget)
    ensures n <= |picked| && TakesWhatFits(picked, picked[..n], turn, budget)
  {
    hide Size, Total;
    TotalIsSize(picked[..n]);
    if n < |picked| {
      assert !Affordable(picked, n + 1, turn, budget);
      TotalIsSize(picked[..n + 1]);
    }
  }

  // ----- small facts the methods use -----

  lemma InvCounts(b: Box, h: History, capacity: nat, budget: nat)
    requires Inv(b, h, capacity, budget)
    ensures b.plain == CountPlain(b.queue)
  {
  }

  lemma IsAffordable(picked: seq<Envelope>, n: nat, turn: nat, budget: nat)
    requires IsDelivery(picked, n, turn, budget)
    ensures n <= |picked| && Affordable(picked, n, turn, budget)
  {
  }

  lemma NothingSelected(pick: Pick, turn: nat, budget: nat)
    ensures Picked([], pick) == [] && Without([], pick, 0) == [] && Size([]) == 0
    ensures Affordable([], 0, turn, budget) && LeftIs(map[], [])
  {
  }

  /** The loop over what was taken marks as seen exactly the agents whose notice it shows. */
  lemma SeenNotices(taken: seq<Envelope>, before: set<NodeId>, seen: set<NodeId>)
    requires forall a :: a in seen <==>
                           a in before || exists k :: 0 <= k < |taken| && !taken[k].plain && taken[k].from == a
    ensures forall a :: a in seen <==> a in before || ShowsNotice(taken, a)
  {
    forall a
      ensures a in seen <==> a in before || ShowsNotice(taken, a)
    {
      NoticeHas(taken, a);
      if HasNotice(taken, a) {
        var k :| IsNotice(taken, k) && taken[k].from == a;
        assert 0 <= k < |taken| && !taken[k].plain;
      }
    }
  }

  lemma LeftMeans(left: map<NodeId, nat>, remaining: seq<Envelope>)
    requires LeftIs(left, remaining)
    ensures forall s :: s in left <==> From(remaining, s) != []
    ensures forall s :: s in left ==> left[s] == |From(remaining, s)|
  {
    forall s
      ensures s in left <==> From(remaining, s) != []
    {
      NoneFrom(remaining, s);
    }
  }

  lemma TakeOne(taken: seq<Envelope>, e: Envelope)
    ensures Size(taken + [e]) == Size(taken) + e.size
  {
    assert (taken + [e])[..|taken|] == taken;
  }

  lemma AffordableSnoc(p: seq<Envelope>, e: Envelope, n: nat, turn: nat, budget: nat)
    requires n <= |p| && Affordable(p, n, turn, budget)
    ensures Affordable(p + [e], n, turn, budget)
    ensures n < |p| ==> (Affordable(p + [e], n + 1, turn, budget) <==> Affordable(p, n + 1, turn, budget))
    ensures n == |p| ==>
              (Affordable(p + [e], n + 1, turn, budget) <==> turn + Size(p) + e.size <= budget || (turn == 0 && n == 0))
  {
    SnocPicked(p, e, n);
    TakeOne(p, e);
  }

  /** `left` counts the envelopes of each sender that did not fit. */
  predicate LeftIs(left: map<NodeId, nat>, remaining: seq<Envelope>) {
    && (forall s: NodeId :: s in left ==> left[s] == |From(remaining, s)| > 0)
    && (forall k :: 0 <= k < |remaining| ==> remaining[k].from in left)
  }

  lemma LeftGrows(left: map<NodeId, nat>, remaining: seq<Envelope>, e: Envelope)
    requires LeftIs(left, remaining)
    ensures LeftIs(left[e.from := (if e.from in left then left[e.from] else 0) + 1], remaining + [e])
  {
    var more := remaining + [e];
    assert more[..|more| - 1] == remaining;
    NoneFrom(remaining, e.from);
  }

  lemma {:induction false} NoneFrom(q: seq<Envelope>, s: NodeId)
    ensures From(q, s) == [] <==> forall k :: 0 <= k < |q| ==> q[k].from != s
  {
    if q != [] {
      NoneFrom(q[..|q| - 1], s);
    }
  }
}
