/** Notices: at most one about each agent in each mailbox, awaited until it is there; and what arrived where. */
module MessagingNotices {
  import opened Common
  import opened Envelopes
  import opened MailboxSpec
  import opened Messaging
  import opened MessagingInvariant

  // ----- the parts of a node a step changes -----

  lemma SetsAfter(st: State, op: Op, limits: Limits, n: nat)
    requires Enabled(st, op, limits) && n < |st.agents|
    ensures var was, b := st.agents[n].box, Step(st, op, limits).agents[n].box;
            match op
            case Spawn(p, owned) =>
              && b.awaiting == (if owned && n == p then was.awaiting + {|st.agents|} else was.awaiting)
              && b.concluded == was.concluded
            case Stage(node, about, size) =>
              && b.awaiting == (if n == node then was.awaiting + {about} else was.awaiting)
              && b.concluded == (if n == node then was.concluded + {about} else was.concluded)
            case Push(id) =>
              var m := st.msgs[id];
              && b.awaiting == (if n == m.env.to && !m.env.plain then was.awaiting - {m.env.from} else was.awaiting)
              && b.concluded == (if n == m.env.to && !m.env.plain then was.concluded + {m.env.from} else was.concluded)
            case _ =>
              b.awaiting == was.awaiting && b.concluded == was.concluded
  {
    hide TakenHistory, Picked, Without, IsDelivery, Kin, TasksDone, Notes, IsUp, Size, CountPlain, NoticeSenders,
      PushNoted;
  }

  lemma ClosedAfter(st: State, op: Op, limits: Limits, n: nat)
    requires Enabled(st, op, limits) && n < |st.agents|
    ensures Step(st, op, limits).agents[n].box.closed
         == (st.agents[n].box.closed || op == FinishTurn(n) || op == CloseBox(n))
  {
    hide TakenHistory, Picked, Without, IsDelivery, Kin, TasksDone, Notes, IsUp, Size, CountPlain, NoticeSenders,
      PushNoted, TakenBox;
    if op.TakeTurn? || op.TakeDirect? {
      TakenStaysOpen(st, op, limits);
    }
  }

  lemma TakenStaysOpen(st: State, op: Op, limits: Limits)
    requires Enabled(st, op, limits) && (op.TakeTurn? || op.TakeDirect?)
    ensures Step(st, op, limits).agents[op.node].box.closed == st.agents[op.node].box.closed
  {
    hide TakenHistory, Picked, Without, Size, CountPlain, NoticeSenders;
  }

  lemma PhaseAfter(st: State, op: Op, limits: Limits, n: nat)
    requires Enabled(st, op, limits) && n < |st.agents|
    ensures var was, a := st.agents[n], Step(st, op, limits).agents[n];
            && a.phase == (match op
                           case CloseBox(node) => if n == node then Phase.Closed else was.phase
                           case CloseWork(node) => if n == node then Joining else was.phase
                           case End(node) => if n == node then Ended else was.phase
                           case _ => was.phase)
            && (was.phase.Ended? ==> a.phase.Ended?)
            && a.lastSent == (if op.Send? && op.from == n then Some(|st.msgs|) else was.lastSent)
  {
    hide TakenHistory, TakenBox, Pushed, PushNoted, Picked, Without, IsDelivery, Kin, TasksDone, Notes, IsUp;
  }

  lemma ArrivedAfter(st: State, op: Op, limits: Limits, n: nat)
    requires Enabled(st, op, limits) && n < |st.agents|
    ensures Step(st, op, limits).agents[n].h.arrived
         == if op.Push? && n == st.msgs[op.id].env.to && !st.agents[n].box.closed
            then st.agents[n].h.arrived + [st.msgs[op.id].env] else st.agents[n].h.arrived
  {
    hide TakenBox, Pushed, Picked, Without, IsDelivery, Kin, TasksDone, Notes, IsUp, Costs;
  }

  lemma MoveAfter(st: State, op: Op, limits: Limits)
    requires Enabled(st, op, limits) && Moved(op).Some?
    ensures var id := Moved(op).value;
            && id < |st.msgs|
            && var m, next := st.msgs[id], Step(st, op, limits).msgs[id];
               && |Step(st, op, limits).msgs| == |st.msgs|
               && (op.Announce? ==> m.progress.Waiting? && next == m.(progress := Announced, sent := true))
               && (op.Fail? ==> m.progress.Refused? && next == m.(progress := Failed))
               && (op.Push? ==> (m.progress.Announced? || m.progress.Skipped?) && m.env.to < |st.agents|)
               && (op.Push? ==>
                     next == m.(progress := if st.agents[m.env.to].box.closed then Refused else Queued))
  {
    hide TakenHistory, TakenBox, Pushed, PushNoted, Picked, IsUp, Settled;
  }

  /** The message a step adds. */
  lemma MsgAdded(st: State, op: Op, limits: Limits)
    requires Enabled(st, op, limits) && (op.Send? || op.Post? || op.Stage?)
    ensures var next := Step(st, op, limits);
            && |next.msgs| == |st.msgs| + 1
            && var m := next.msgs[|st.msgs|];
               && m.env.id == |st.msgs| && !m.sent && (m.progress.Waiting? || m.progress.Skipped?)
               && m.env.from < |st.agents| && m.env.to < |st.agents|
               && (m.progress.Skipped? ==> op.Post? && st.agents[m.env.to].box.closed)
               && match op
                  case Send(s, to, size) =>
                    m.kind.Plain? && m.env.from == s && m.env.to == to && m.prev == st.agents[s].lastSent
                    && WorkOpen(st.agents[s])
                  case Post(c, size) =>
                    m.kind.Posted? && m.env.from == c && st.agents[c].parent == Some(m.env.to)
                    && st.agents[c].owned && !st.agents[c].posted && st.agents[c].phase.Ended?
                  case Stage(n, about, size) =>
                    m.kind.Staged? && m.env.from == about && m.env.to == n && st.agents[about].phase.Ended?
                    && about !in st.agents[n].box.awaiting && about !in st.agents[n].box.concluded
                  case _ => true
  {
    hide Kin;
  }

  // ----- notices -----

  lemma OneNoticeKept(st: State, op: Op, limits: Limits)
    requires Enabled(st, op, limits) && Shapes(st) && Notices(st)
    ensures OneNotice(Step(st, op, limits).msgs)
  {
    hide Step, Enabled;
    MsgsAfter(st, op, limits);
    var next := Step(st, op, limits);
    if |next.msgs| > |st.msgs| {
      MsgAdded(st, op, limits);
    }
    hide Step, Enabled, Skips, InRange;
    forall i, j | 0 <= i < j < |next.msgs| && !next.msgs[i].kind.Plain?
      ensures !Notice(next.msgs[j], next.msgs[i].env.from, next.msgs[i].env.to)
    {
      assert !Notice(next.msgs[j], next.msgs[i].env.from, next.msgs[i].env.to) by {
        assert SameMsg(st.msgs[i], next.msgs[i]);
        if j < |st.msgs| {
          assert SameMsg(st.msgs[j], next.msgs[j]);
          assert !Notice(st.msgs[j], st.msgs[i].env.from, st.msgs[i].env.to);
        } else if op.Post? {
          assert !Notice(st.msgs[i], op.child, st.agents[op.child].parent.value);
        }
      }
    }
  }

  lemma AwaitedKept(st: State, op: Op, limits: Limits)
    requires Enabled(st, op, limits) && Shapes(st) && Notices(st)
    ensures Awaited(Step(st, op, limits))
  {
    hide Step, Enabled;
    MsgsAfter(st, op, limits);
    AgentsAfter(st, op, limits);
    var next := Step(st, op, limits);
    if |next.msgs| > |st.msgs| {
      MsgAdded(st, op, limits);
    }
    if Moved(op).Some? {
      MoveAfter(st, op, limits);
    }
    forall i | 0 <= i < |next.msgs| && !next.msgs[i].kind.Plain?
      ensures next.msgs[i].env.to < |st.agents|
      ensures var b := next.agents[next.msgs[i].env.to].box;
              && (next.msgs[i].Pending() ==> next.msgs[i].env.from in b.awaiting)
              && (next.msgs[i].env.from in b.awaiting || next.msgs[i].env.from in b.concluded)
    {
      var n := next.msgs[i].env.to;
      assert n < |st.agents| by {
        if i < |st.msgs| {
          assert SameMsg(st.msgs[i], next.msgs[i]) && ShapeOf(st.msgs[i], i, |st.agents|);
        }
      }
      SetsAfter(st, op, limits, n);
      if i < |st.msgs| && op.Push? && i != op.id && !st.msgs[op.id].kind.Plain? {
        NoticesDiffer(st, i, op.id);
      }
      hide Step, Enabled;
    }
  }

  lemma NoticesDiffer(st: State, i: nat, j: nat)
    requires Notices(st) && i < |st.msgs| && j < |st.msgs| && i != j
    requires !st.msgs[i].kind.Plain? && !st.msgs[j].kind.Plain?
    ensures st.msgs[i].env.from != st.msgs[j].env.from || st.msgs[i].env.to != st.msgs[j].env.to
  {
    var lo, hi := Min(i, j), Max(i, j);
    assert !Notice(st.msgs[hi], st.msgs[lo].env.from, st.msgs[lo].env.to);
  }

  /** A step adds no notice about a child that is still expected to post its own. */
  lemma NoNoticeAdded(st: State, op: Op, limits: Limits, c: nat, p: nat)
    requires Enabled(st, op, limits) && Shapes(st) && p < |st.agents|
    requires c < |st.agents| ==> c in st.agents[p].box.awaiting && !(op.Post? && op.child == c)
    requires c < |st.agents| ==> forall i :: 0 <= i < |st.msgs| ==> !Notice(st.msgs[i], c, p)
    ensures forall i :: 0 <= i < |Step(st, op, limits).msgs| ==> !Notice(Step(st, op, limits).msgs[i], c, p)
  {
    hide Step, Enabled;
    MsgsAfter(st, op, limits);
    var next := Step(st, op, limits);
    if |next.msgs| > |st.msgs| {
      MsgAdded(st, op, limits);
    }
    forall i | 0 <= i < |next.msgs|
      ensures !Notice(next.msgs[i], c, p)
    {
      if i < |st.msgs| {
        assert SameMsg(st.msgs[i], next.msgs[i]) && ShapeOf(st.msgs[i], i, |st.agents|);
        if c < |st.agents| {
          assert !Notice(st.msgs[i], c, p);
        }
      }
    }
  }

  lemma ExpectedKept(st: State, op: Op, limits: Limits)
    requires Enabled(st, op, limits) && Shapes(st) && Notices(st)
    ensures Expected(Step(st, op, limits))
  {
    hide Step, Enabled, Awaited, Skips, OneNotice, InRange;
    AgentsAfter(st, op, limits);
    var next := Step(st, op, limits);
    forall c | 0 <= c < |next.agents| && next.agents[c].owned && !next.agents[c].posted
      ensures next.agents[c].parent.Some? && next.agents[c].parent.value < |next.agents|
      ensures c in next.agents[next.agents[c].parent.value].box.awaiting
      ensures forall i :: 0 <= i < |next.msgs| ==> !Notice(next.msgs[i], c, next.agents[c].parent.value)
    {
      assert c < |st.agents| ==> st.agents[c].owned && !st.agents[c].posted && !(op.Post? && op.child == c);
      var p := next.agents[c].parent.value;
      assert p < |st.agents|;
      NoNoticeAdded(st, op, limits, c, p);
      SetsAfter(st, op, limits, p);
      if op.Push? && c < |st.agents| {
        MoveAfter(st, op, limits);
        assert ShapeOf(st.msgs[op.id], op.id, |st.agents|);
        assert !Notice(st.msgs[op.id], c, p);
      }
    }
  }

  lemma InRangeKept(st: State, op: Op, limits: Limits)
    requires Enabled(st, op, limits) && Shapes(st) && InRange(st)
    ensures InRange(Step(st, op, limits))
  {
    hide Step, Enabled;
    AgentsAfter(st, op, limits);
    var next := Step(st, op, limits);
    forall n | 0 <= n < |next.agents|
      ensures forall a :: a in next.agents[n].box.awaiting || a in next.agents[n].box.concluded ==> a < |next.agents|
    {
      if n < |st.agents| {
        SetsAfter(st, op, limits, n);
        if op.Push? {
          MoveAfter(st, op, limits);
          assert ShapeOf(st.msgs[op.id], op.id, |st.agents|);
        }
        if op.Stage? {
          MsgAdded(st, op, limits);
        }
      }
    }
  }

  lemma SkipsKept(st: State, op: Op, limits: Limits)
    requires Enabled(st, op, limits) && Shapes(st) && Skips(st)
    ensures Skips(Step(st, op, limits))
  {
    hide Step, Enabled;
    MsgsAfter(st, op, limits);
    AgentsAfter(st, op, limits);
    var next := Step(st, op, limits);
    if |next.msgs| > |st.msgs| {
      MsgAdded(st, op, limits);
    }
    if Moved(op).Some? {
      MoveAfter(st, op, limits);
    }
    forall i | 0 <= i < |next.msgs| && next.msgs[i].progress.Skipped? && next.msgs[i].env.to < |next.agents|
      ensures next.agents[next.msgs[i].env.to].box.closed
    {
      if i < |st.msgs| {
        assert SameMsg(st.msgs[i], next.msgs[i]) && ShapeOf(st.msgs[i], i, |st.agents|);
      }
      ClosedAfter(st, op, limits, next.msgs[i].env.to);
    }
  }

  lemma NoticesKept(st: State, op: Op, limits: Limits)
    requires Enabled(st, op, limits) && Shapes(st) && Notices(st)
    ensures Notices(Step(st, op, limits))
  {
    hide Enabled, Step, OneNotice, Awaited, Expected, InRange, Skips, Shapes;
    OneNoticeKept(st, op, limits);
    AwaitedKept(st, op, limits);
    ExpectedKept(st, op, limits);
    InRangeKept(st, op, limits);
    SkipsKept(st, op, limits);
  }

  // ----- arrivals -----

  lemma ArrivedAtKept(st: State, op: Op, limits: Limits, n: nat)
    requires Enabled(st, op, limits) && Shapes(st) && Arrivals(st) && n < |st.agents|
    ensures ArrivedAt(Step(st, op, limits).msgs, n, Step(st, op, limits).agents[n].h.arrived)
  {
    hide Step, Enabled;
    AgentsAfter(st, op, limits);
    ArrivedAfter(st, op, limits, n);
    MsgsAfter(st, op, limits);
    var next := Step(st, op, limits);
    if Moved(op).Some? {
      MoveAfter(st, op, limits);
      assert ShapeOf(st.msgs[Moved(op).value], Moved(op).value, |st.agents|);
    }
    var was, now := st.agents[n].h.arrived, next.agents[n].h.arrived;
    forall k | 0 <= k < |now|
      ensures Known(next.msgs, n, now[k])
      ensures k < |was| ==> Moved(op) != Some(now[k].id)
    {
      if k < |was| {
        assert Known(st.msgs, n, was[k]);
        assert SameMsg(st.msgs[was[k].id], next.msgs[was[k].id]);
      }
    }
  }

  lemma ArrivalsKept(st: State, op: Op, limits: Limits)
    requires Enabled(st, op, limits) && Shapes(st) && Arrivals(st)
    ensures Arrivals(Step(st, op, limits))
  {
    hide Step, Enabled;
    AgentsAfter(st, op, limits);
    MsgsAfter(st, op, limits);
    var next := Step(st, op, limits);
    if |next.msgs| > |st.msgs| {
      MsgAdded(st, op, limits);
    }
    if Moved(op).Some? {
      MoveAfter(st, op, limits);
    }
    forall n | 0 <= n < |next.agents|
      ensures ArrivedAt(next.msgs, n, next.agents[n].h.arrived)
    {
      if n < |st.agents| {
        ArrivedAtKept(st, op, limits, n);
      }
      hide Step;
    }
    forall i | 0 <= i < |next.msgs| && next.msgs[i].progress.Queued?
      ensures next.msgs[i].env.to < |st.agents| && next.msgs[i].env in next.agents[next.msgs[i].env.to].h.arrived
    {
      assert i < |st.msgs|;
      assert SameMsg(st.msgs[i], next.msgs[i]) && ShapeOf(st.msgs[i], i, |st.agents|);
      ArrivedAfter(st, op, limits, st.msgs[i].env.to);
      hide Step, Enabled;
    }
  }
}
