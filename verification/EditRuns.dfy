/** Concurrent edits serialise, whatever their interleaving, while no leased identity is issued again. */
module EditRuns {
  import opened Common
  import opened EditText
  import opened EditLocks

  // ----- the invariant -----

  function LeaseCount(editors: seq<Editor>, l: LockId): nat {
    if editors == [] then 0
    else
      var p := editors[|editors| - 1].phase;
      LeaseCount(editors[..|editors| - 1], l) + if p.HasLease() && p.l == l then 1 else 0
  }

  ghost predicate Counts(st: State) {
    forall l :: (l in st.registry.strong <==> LeaseCount(st.editors, l) > 0)
             && (l in st.registry.strong ==> st.registry.strong[l] == LeaseCount(st.editors, l))
  }

  ghost predicate Locks(st: State) {
    && (forall e :: 0 <= e < |st.editors| && st.editors[e].phase.HoldsLock() ==>
          st.editors[e].phase.l in st.held && st.held[st.editors[e].phase.l] == e)
    && (forall l :: l in st.held ==>
          st.held[l] < |st.editors| && st.editors[st.held[l]].phase.HoldsLock() && st.editors[st.held[l]].phase.l == l)
  }

  /** The lock of the file's present identity: the registry's, or the replacing editor's until it is published. */
  ghost predicate IsLock(st: State, l: LockId) {
    match st.busy
    case None => st.inode in st.registry.entries && st.registry.entries[st.inode] == l
    case Some(e) => e < |st.editors| && st.editors[e].phase.Replacing? && st.editors[e].phase.l == l
  }

  /** Whoever may come to act on the present identity leased that lock for it. */
  ghost predicate Current(st: State) {
    forall e :: 0 <= e < |st.editors| && st.editors[e].phase.Claims() && st.editors[e].phase.i == st.inode ==>
      IsLock(st, st.editors[e].phase.l)
  }

  ghost predicate Phases(st: State) {
    && (forall e :: 0 <= e < |st.editors| ==> PhaseOk(st, e, st.editors[e].phase))
    && (st.busy.Some? ==> st.busy.value < |st.editors| && st.editors[st.busy.value].phase.Replacing?)
  }

  predicate PhaseOk(st: State, e: EditorId, p: Phase) {
    && (p.Validated? || p.HasRead? ==> p.i == st.inode)
    && (p.HasRead? ==> p.text == st.content)
    && (p.Replacing? ==> st.busy == Some(e))
  }

  function SpecsOf(editors: seq<Editor>, ids: seq<EditorId>): seq<Spec>
    requires forall k :: 0 <= k < |ids| ==> ids[k] < |editors|
  {
    seq(|ids|, k requires 0 <= k < |ids| => editors[ids[k]].spec)
  }

  /** The file is the composition of the edits it took, each by an editor that succeeded, each once. */
  ghost predicate Serial(st: State, initial: Text) {
    && (forall k :: 0 <= k < |st.applied| ==> st.applied[k] < |st.editors|)
    && Composed(SpecsOf(st.editors, st.applied), initial) == Some(st.content)
    && (forall j, k :: 0 <= j < k < |st.applied| ==> st.applied[j] != st.applied[k])
    && (forall e :: 0 <= e < |st.editors| ==> (st.editors[e].phase.Succeeded() <==> e in st.applied))
  }

  ghost predicate Inv(st: State, initial: Text) {
    Alive(st.registry) && Counts(st) && Locks(st) && Current(st) && Phases(st) && Serial(st, initial)
  }

  /** An editor waits to revalidate identity `i` under a lock other than `l`. */
  predicate WaitsElsewhere(st: State, i: Inode, l: LockId) {
    exists e :: 0 <= e < |st.editors| && st.editors[e].phase.Waits() && st.editors[e].phase.i == i && st.editors[e].phase.l != l
  }

  /** A replacement brings no identity that an editor waits to revalidate under a lock other than the replacing editor's. */
  predicate SafeIdentity(st: State, op: Op) {
    op.Replace? && op.e < |st.editors| && st.editors[op.e].phase.HasRead? ==>
      !WaitsElsewhere(st, op.i, st.editors[op.e].phase.l)
  }

  // ----- mutual exclusion -----

  /** At most one editor is between revalidation and publication. */
  lemma MutualExclusion(st: State, initial: Text, a: EditorId, b: EditorId)
    requires Inv(st, initial) && a < |st.editors| && b < |st.editors|
    requires st.editors[a].phase.Critical() && st.editors[b].phase.Critical()
    ensures a == b
  {
    hide Alive, Counts, Serial;
    assert PhaseOk(st, a, st.editors[a].phase) && PhaseOk(st, b, st.editors[b].phase);
    assert st.editors[a].phase.l == st.editors[b].phase.l;
  }

  // ----- every step keeps it -----

  lemma {:induction false} CountUpdate(editors: seq<Editor>, e: EditorId, next: Editor, l: LockId)
    requires e < |editors|
    ensures var p, q := editors[e].phase, next.phase;
            LeaseCount(editors[e := next], l) + (if p.HasLease() && p.l == l then 1 else 0)
            == LeaseCount(editors, l) + if q.HasLease() && q.l == l then 1 else 0
  {
    var last := |editors| - 1;
    if e == last {
      assert editors[e := next][..last] == editors[..last];
    } else {
      assert editors[e := next][..last] == editors[..last][e := next];
      CountUpdate(editors[..last], e, next, l);
    }
  }

  lemma CountsKept(st: State, op: Op)
    requires Enabled(st, op) && Counts(st) && Alive(st.registry)
    ensures Counts(Step(st, op)) && Alive(Step(st, op).registry)
  {
    hide LeaseCount, Edited;
    var next, e := Step(st, op), op.e;
    var p, q := st.editors[e].phase, next.editors[e].phase;
    assert next.editors == st.editors[e := next.editors[e]];
    forall l
      ensures (l in next.registry.strong <==> LeaseCount(next.editors, l) > 0)
           && (l in next.registry.strong ==> next.registry.strong[l] == LeaseCount(next.editors, l))
    {
      CountUpdate(st.editors, e, next.editors[e], l);
    }
    hide Alive;
    if p.HasLease() {
      CountUpdate(st.editors, e, Editor(st.editors[e].spec, Start), p.l);
    }
    AliveKept(st.registry, 0, if p.HasLease() then p.l else 0);
    AliveKept(st.registry, st.inode, if p.HasLease() then p.l else 0);
    if p.Identified? {
      AliveKept(st.registry, p.i, 0);
    }
  }

  lemma HolderKept(st: State, op: Op, e: EditorId)
    requires Enabled(st, op) && Locks(st) && e < |st.editors|
    requires Step(st, op).editors[e].phase.HoldsLock()
    ensures var next := Step(st, op); var l := next.editors[e].phase.l; l in next.held && next.held[l] == e
  {
    hide Edited, Acquired, Dropped, Published, LockFor;
  }

  lemma LocksKept(st: State, op: Op)
    requires Enabled(st, op) && Locks(st)
    ensures Locks(Step(st, op))
  {
    hide Edited, Acquired, Dropped, Published, LockFor;
    var next := Step(st, op);
    forall e | 0 <= e < |next.editors| && next.editors[e].phase.HoldsLock()
      ensures next.editors[e].phase.l in next.held && next.held[next.editors[e].phase.l] == e
    {
      HolderKept(st, op, e);
    }
  }

  lemma ReplaceKeepsSerial(st: State, op: Op, initial: Text)
    requires Enabled(st, op) && Serial(st, initial) && Phases(st) && op.Replace?
    ensures Serial(Step(st, op), initial)
  {
    hide Edited, Acquired, Dropped, Published, LockFor, Composed;
    var next, e := Step(st, op), op.e;
    assert PhaseOk(st, e, st.editors[e].phase);
    ComposedSnoc(SpecsOf(st.editors, st.applied), st.editors[e].spec, initial);
    assert SpecsOf(next.editors, next.applied) == SpecsOf(st.editors, st.applied) + [st.editors[e].spec];
  }

  /** Any step but a replacement leaves the file, and the edits it took, as they were. */
  lemma QuietStep(st: State, op: Op)
    requires Enabled(st, op) && !op.Replace?
    ensures var next := Step(st, op);
            && next.applied == st.applied && next.content == st.content && |next.editors| == |st.editors|
            && forall e :: 0 <= e < |st.editors| ==>
                 && next.editors[e].spec == st.editors[e].spec
                 && (next.editors[e].phase.Succeeded() <==> st.editors[e].phase.Succeeded())
  {
    hide Edited, Acquired, Dropped, Published, LockFor;
  }

  lemma SerialKept(st: State, op: Op, initial: Text)
    requires Enabled(st, op) && Serial(st, initial) && Phases(st)
    ensures Serial(Step(st, op), initial)
  {
    if op.Replace? {
      ReplaceKeepsSerial(st, op, initial);
    } else {
      QuietStep(st, op);
      var next := Step(st, op);
      hide Step, Enabled, Composed, Phases;
      assert SpecsOf(next.editors, st.applied) == SpecsOf(st.editors, st.applied);
    }
  }

  /** The registry keeps the lock of an identity for as long as someone who may act on it leases it. */
  lemma EntryStays(st: State, op: Op, e: EditorId)
    requires Enabled(st, op) && Counts(st) && Current(st) && Alive(st.registry) && op.e != e && e < |st.editors|
    requires st.busy.None? && !op.Publish? && !op.Replace?
    requires st.editors[e].phase.Claims() && st.editors[e].phase.i == st.inode
    ensures var r := Step(st, op).registry; st.inode in r.entries && r.entries[st.inode] == st.editors[e].phase.l
  {
    hide Edited, LeaseCount;
    var l := st.editors[e].phase.l;
    CountUpdate(st.editors, e, Editor(st.editors[e].spec, Start), l);
    if op.Leave? {
      CountUpdate(st.editors, op.e, Editor(st.editors[op.e].spec, Start), l);
      CountUpdate(st.editors[op.e := Editor(st.editors[op.e].spec, Start)], e, Editor(st.editors[e].spec, Start), l);
    }
  }

  lemma CurrentKept(st: State, op: Op, initial: Text)
    requires Enabled(st, op) && SafeIdentity(st, op) && Inv(st, initial)
    ensures Current(Step(st, op))
  {
    hide Edited, LeaseCount, Locks, Serial, Alive, Counts, IsLock;
    var next := Step(st, op);
    forall e | 0 <= e < |next.editors| && next.editors[e].phase.Claims() && next.editors[e].phase.i == next.inode
      ensures IsLock(next, next.editors[e].phase.l)
    {
      if op.Replace? {
        ReplaceIsSafe(st, op, initial, e);
      } else if op.Publish? {
        PublishIsLock(st, op, e);
      } else if e != op.e {
        LockStays(st, op, e);
      } else if op.Acquire? {
        LeaseIsEntry(st.registry, st.inode);
        EnterIsLock(st, op);
      } else {
        MoveKeepsLock(st, op);
      }
    }
  }

  lemma LeaseIsEntry(r: Registry, i: Inode)
    ensures i in Acquired(r, i).entries && Acquired(r, i).entries[i] == LockFor(r, i)
  {
  }

  lemma EnterIsLock(st: State, op: Op)
    requires Enabled(st, op) && op.Acquire? && st.editors[op.e].phase.i == st.inode
    ensures IsLock(Step(st, op), Step(st, op).editors[op.e].phase.l)
  {
    LeaseIsEntry(st.registry, st.inode);
    hide LockFor, Acquired;
  }

  /** An editor that goes on with its lease has the lock it had. */
  lemma MoveKeepsLock(st: State, op: Op)
    requires Enabled(st, op) && Current(st) && Phases(st) && !op.Replace? && !op.Publish? && !op.Acquire?
    requires var p := Step(st, op).editors[op.e].phase; p.Claims() && p.i == st.inode
    ensures IsLock(Step(st, op), Step(st, op).editors[op.e].phase.l)
  {
    hide Edited;
  }

  /** Another editor's step leaves the lock of the present identity alone. */
  lemma LockStays(st: State, op: Op, e: EditorId)
    requires Enabled(st, op) && Counts(st) && Current(st) && Phases(st) && Alive(st.registry)
    requires op.e != e && e < |st.editors| && !op.Publish? && !op.Replace?
    requires st.editors[e].phase.Claims() && st.editors[e].phase.i == st.inode
    ensures IsLock(Step(st, op), st.editors[e].phase.l)
  {
    if st.busy.None? {
      EntryStays(st, op, e);
    }
    hide Edited, Counts, Alive, Acquired, Dropped, Published, LockFor;
  }

  /** Whoever may act on the identity that a replacement brings leased the replacing editor's lock for it. */
  lemma ReplaceIsSafe(st: State, op: Op, initial: Text, e: EditorId)
    requires Enabled(st, op) && op.Replace? && SafeIdentity(st, op) && Inv(st, initial) && e < |st.editors|
    requires var q := Step(st, op).editors[e].phase; q.Claims() && q.i == op.i
    ensures IsLock(Step(st, op), st.editors[e].phase.l)
  {
    hide Edited, Counts, Serial, Alive, Locks, Current;
    assert PhaseOk(st, op.e, st.editors[op.e].phase) && PhaseOk(st, e, st.editors[e].phase);
  }

  lemma PublishIsLock(st: State, op: Op, e: EditorId)
    requires Enabled(st, op) && op.Publish? && Current(st) && Phases(st) && e < |st.editors|
    requires var q := Step(st, op).editors[e].phase; q.Claims() && q.i == st.inode
    ensures IsLock(Step(st, op), st.editors[e].phase.l)
  {
    assert PhaseOk(st, op.e, st.editors[op.e].phase);
  }

  lemma PhasesKept(st: State, op: Op, initial: Text)
    requires Enabled(st, op) && Inv(st, initial)
    ensures Phases(Step(st, op))
  {
    hide Edited, LeaseCount, Acquired, Dropped, Published, LockFor, Counts, Serial, Alive;
    var next, e := Step(st, op), op.e;
    assert PhaseOk(st, e, st.editors[e].phase);
    forall k | 0 <= k < |next.editors|
      ensures PhaseOk(next, k, next.editors[k].phase)
    {
      assert PhaseOk(st, k, st.editors[k].phase);
      if op.Replace? && st.editors[k].phase.Critical() {
        MutualExclusion(st, initial, e, k);
      }
    }
  }

  lemma InvKept(st: State, op: Op, initial: Text)
    requires Enabled(st, op) && SafeIdentity(st, op) && Inv(st, initial)
    ensures Inv(Step(st, op), initial)
  {
    CountsKept(st, op);
    LocksKept(st, op);
    CurrentKept(st, op, initial);
    PhasesKept(st, op, initial);
    SerialKept(st, op, initial);
    hide Step, Enabled, SafeIdentity, Counts, Locks, Current, Phases, Serial, Alive;
  }

  // ----- runs -----

  ghost predicate Run(states: seq<State>, ops: seq<Op>, inode: Inode, initial: Text, specs: seq<Spec>) {
    Path(states, ops) && states[0] == Init(inode, initial, specs)
  }

  ghost predicate Path(states: seq<State>, ops: seq<Op>) {
    && |states| == |ops| + 1
    && forall k :: 0 <= k < |ops| ==> Enabled(states[k], ops[k]) && states[k + 1] == Step(states[k], ops[k])
  }

  lemma {:induction false} NobodyLeases(editors: seq<Editor>, l: LockId)
    requires forall e :: 0 <= e < |editors| ==> editors[e].phase.Start?
    ensures LeaseCount(editors, l) == 0
  {
    if editors != [] {
      NobodyLeases(editors[..|editors| - 1], l);
    }
  }

  lemma InitInv(inode: Inode, initial: Text, specs: seq<Spec>)
    ensures Inv(Init(inode, initial, specs), initial)
  {
    forall l
      ensures LeaseCount(Init(inode, initial, specs).editors, l) == 0
    {
      NobodyLeases(Init(inode, initial, specs).editors, l);
    }
  }

  lemma {:induction false} RunKeepsInv(states: seq<State>, ops: seq<Op>, inode: Inode, initial: Text, specs: seq<Spec>, k: nat)
    requires Run(states, ops, inode, initial, specs) && k <= |ops|
    requires forall j :: 0 <= j < |ops| ==> SafeIdentity(states[j], ops[j])
    ensures Inv(states[k], initial)
  {
    hide Inv, Enabled, Step, Init;
    if k == 0 {
      InitInv(inode, initial, specs);
    } else {
      RunKeepsInv(states, ops, inode, initial, specs, k - 1);
      InvKept(states[k - 1], ops[k - 1], initial);
    }
  }

  ghost predicate Exclusive(st: State) {
    forall a, b ::
      (0 <= a < |st.editors| && 0 <= b < |st.editors| && st.editors[a].phase.Critical() && st.editors[b].phase.Critical()) ==>
        a == b
  }

  /**
   In every state of every run, no two editors are between revalidation and publication, the file is the initial text
   with the successful edits applied one after another, and with no lease held the registry is empty.
   */
  lemma EditsSerialise(states: seq<State>, ops: seq<Op>, inode: Inode, initial: Text, specs: seq<Spec>, k: nat)
    requires Run(states, ops, inode, initial, specs) && k <= |ops|
    requires forall j :: 0 <= j < |ops| ==> SafeIdentity(states[j], ops[j])
    ensures Exclusive(states[k])
    ensures Serial(states[k], initial)
    ensures (forall e :: 0 <= e < |states[k].editors| ==> !states[k].editors[e].phase.HasLease()) ==>
              states[k].registry.entries == map[]
  {
    RunKeepsInv(states, ops, inode, initial, specs, k);
    var st := states[k];
    hide Run, Serial, Phases, Locks, Current, LeaseCount;
    InvIsExclusive(st, initial);
    if forall e :: 0 <= e < |st.editors| ==> !st.editors[e].phase.HasLease() {
      forall l
        ensures l !in st.registry.strong
      {
        NoLeases(st.editors, l);
      }
      EmptyWithoutLeases(st.registry);
    }
  }

  lemma {:induction false} NoLeases(editors: seq<Editor>, l: LockId)
    requires forall e :: 0 <= e < |editors| ==> !editors[e].phase.HasLease()
    ensures LeaseCount(editors, l) == 0
  {
    if editors != [] {
      NoLeases(editors[..|editors| - 1], l);
    }
  }

  // ----- when a replacement's identity is safe -----

  /** States from which exclusion is lost although every later identity is safe. */
  ghost predicate Breaks(st: State, states: seq<State>, ops: seq<Op>) {
    && Path(states, ops) && states[0] == st
    && (forall k :: 0 <= k < |ops| ==> SafeIdentity(states[k], ops[k]))
    && !Exclusive(states[|ops|])
  }

  lemma {:induction false} PathKeepsInv(states: seq<State>, ops: seq<Op>, initial: Text, k: nat)
    requires Path(states, ops) && k <= |ops| && Inv(states[0], initial)
    requires forall j :: 0 <= j < |ops| ==> SafeIdentity(states[j], ops[j])
    ensures Inv(states[k], initial)
  {
    hide Inv, Enabled, Step, SafeIdentity;
    if k > 0 {
      PathKeepsInv(states, ops, initial, k - 1);
      InvKept(states[k - 1], ops[k - 1], initial);
    }
  }

  lemma InvIsExclusive(st: State, initial: Text)
    requires Inv(st, initial)
    ensures Exclusive(st)
  {
    forall a, b | 0 <= a < |st.editors| && 0 <= b < |st.editors|
      && st.editors[a].phase.Critical() && st.editors[b].phase.Critical()
      ensures a == b
    {
      hide Inv;
      MutualExclusion(st, initial, a, b);
    }
  }

  lemma SafeOneStep(states: seq<State>, ops: seq<Op>, op: Op) returns (all: seq<State>, allOps: seq<Op>)
    requires Path(states, ops) && Enabled(states[|ops|], op) && !op.Replace?
    requires forall k :: 0 <= k < |ops| ==> SafeIdentity(states[k], ops[k])
    ensures Path(all, allOps) && all[0] == states[0] && |all| == |allOps| + 1 && |allOps| == |ops| + 1
    ensures all[|allOps|] == Step(states[|ops|], op)
    ensures forall k :: 0 <= k < |allOps| ==> SafeIdentity(all[k], allOps[k])
  {
    hide Step, Enabled, WaitsElsewhere;
    all, allOps := states + [Step(states[|ops|], op)], ops + [op];
  }

  /** A replacing editor, and one that waits for the same identity under another lock. */
  ghost predicate Rivals(st: State, e: EditorId, x: EditorId) {
    && e < |st.editors| && x < |st.editors| && st.editors[e].phase.Replacing?
    && st.editors[x].phase.Waits() && st.editors[x].phase.i == st.inode
    && st.editors[x].phase.l != st.editors[e].phase.l
  }

  /** A path from `st` of safe steps that ends in a state with rivals. */
  ghost predicate ToRivals(st: State, states: seq<State>, ops: seq<Op>, e: EditorId, x: EditorId) {
    && Path(states, ops) && states[0] == st && Rivals(states[|ops|], e, x)
    && forall k :: 0 <= k < |ops| ==> SafeIdentity(states[k], ops[k])
  }

  /** The rival that holds its lock revalidates at once. */
  lemma LockedRival(st: State, states: seq<State>, ops: seq<Op>, e: EditorId, x: EditorId)
    returns (all: seq<State>, allOps: seq<Op>)
    requires ToRivals(st, states, ops, e, x) && states[|ops|].editors[x].phase.Locked?
    ensures Breaks(st, all, allOps)
  {
    hide Edited, WaitsElsewhere;
    var next := Step(states[|ops|], Revalidate(x));
    assert next.editors[x].phase.Critical() && next.editors[e].phase.Critical() && e != x;
    all, allOps := SafeOneStep(states, ops, Revalidate(x));
  }

  /** The rival takes its lock when it is free. */
  lemma FreeRival(st: State, states: seq<State>, ops: seq<Op>, e: EditorId, x: EditorId)
    returns (all: seq<State>, allOps: seq<Op>)
    requires ToRivals(st, states, ops, e, x)
    requires states[|ops|].editors[x].phase.Leased? && states[|ops|].editors[x].phase.l !in states[|ops|].held
    ensures Breaks(st, all, allOps)
  {
    hide Edited, WaitsElsewhere;
    var more, moreOps := SafeOneStep(states, ops, Lock(x));
    all, allOps := LockedRival(st, more, moreOps, e, x);
  }

  /** The rival waits for an editor that is about to unlock. */
  lemma UnlockingRival(st: State, states: seq<State>, ops: seq<Op>, e: EditorId, x: EditorId, y: EditorId)
    returns (all: seq<State>, allOps: seq<Op>)
    requires ToRivals(st, states, ops, e, x) && states[|ops|].editors[x].phase.Leased?
    requires y < |states[|ops|].editors| && states[|ops|].editors[y].phase.Unlocking?
    requires states[|ops|].editors[y].phase.l == states[|ops|].editors[x].phase.l
    ensures Breaks(st, all, allOps)
  {
    hide Edited, WaitsElsewhere;
    var more, moreOps := SafeOneStep(states, ops, Unlock(y));
    all, allOps := FreeRival(st, more, moreOps, e, x);
  }

  /** The rival waits for an editor that has yet to revalidate: that one is a rival itself, or gives way. */
  lemma BlockedRival(st: State, states: seq<State>, ops: seq<Op>, e: EditorId, x: EditorId, y: EditorId)
    returns (all: seq<State>, allOps: seq<Op>)
    requires ToRivals(st, states, ops, e, x) && states[|ops|].editors[x].phase.Leased?
    requires y < |states[|ops|].editors| && states[|ops|].editors[y].phase.Locked?
    requires states[|ops|].editors[y].phase.l == states[|ops|].editors[x].phase.l
    ensures Breaks(st, all, allOps)
  {
    hide Edited, WaitsElsewhere;
    if states[|ops|].editors[y].phase.i == states[|ops|].inode {
      all, allOps := LockedRival(st, states, ops, e, y);
    } else {
      var more, moreOps := SafeOneStep(states, ops, Revalidate(y));
      all, allOps := UnlockingRival(st, more, moreOps, e, x, y);
    }
  }

  /** Whoever holds the rival's lock has not revalidated yet, or is about to unlock. */
  lemma HolderOfRival(st: State, op: Op, initial: Text, y: EditorId)
    requires Inv(st, initial) && Enabled(st, op) && op.Replace? && y != op.e
    requires y < |st.editors| && st.editors[y].phase.HoldsLock()
    ensures Step(st, op).editors[y] == st.editors[y] && (st.editors[y].phase.Locked? || st.editors[y].phase.Unlocking?)
  {
    hide Edited, Counts, Serial, Alive, Locks, Current;
    assert PhaseOk(st, y, st.editors[y].phase);
    if st.editors[y].phase.Critical() {
      MutualExclusion(st, initial, y, op.e);
    }
  }

  /** An unsafe identity lets a second editor in while the replacement is not yet published. */
  lemma UnsafeBreaks(st: State, op: Op, initial: Text) returns (states: seq<State>, ops: seq<Op>)
    requires Inv(st, initial) && Enabled(st, op) && op.Replace? && !SafeIdentity(st, op)
    ensures Breaks(Step(st, op), states, ops)
  {
    var e, l, next := op.e, st.editors[op.e].phase.l, Step(st, op);
    var x :| 0 <= x < |st.editors| && st.editors[x].phase.Waits() && st.editors[x].phase.i == op.i
             && st.editors[x].phase.l != l;
    assert Rivals(next, e, x) && next.editors[x] == st.editors[x] && next.held == st.held;
    PathOfOne(next);
    var m := st.editors[x].phase.l;
    if st.editors[x].phase.Locked? {
      states, ops := LockedRival(next, [next], [], e, x);
    } else if m !in st.held {
      states, ops := FreeRival(next, [next], [], e, x);
    } else {
      var y := st.held[m];
      assert y < |st.editors| && st.editors[y].phase.HoldsLock() && st.editors[y].phase.l == m;
      HolderOfRival(st, op, initial, y);
      if st.editors[y].phase.Locked? {
        states, ops := BlockedRival(next, [next], [], e, x, y);
      } else {
        states, ops := UnlockingRival(next, [next], [], e, x, y);
      }
    }
  }

  /**
   A replacement can be followed by two editors at once, all later identities being safe, if and only if an editor
   that has leased or locked for the identity it brings, and not yet revalidated, did so under another lock.
   */
  lemma ExclusionIff(st: State, op: Op, initial: Text)
    requires Inv(st, initial) && Enabled(st, op) && op.Replace?
    ensures (exists states, ops :: Breaks(Step(st, op), states, ops))
       <==> WaitsElsewhere(st, op.i, st.editors[op.e].phase.l)
  {
    if WaitsElsewhere(st, op.i, st.editors[op.e].phase.l) {
      var states, ops := UnsafeBreaks(st, op, initial);
    } else if states, ops :| Breaks(Step(st, op), states, ops) {
      InvKept(st, op, initial);
      PathKeepsInv(states, ops, initial, |ops|);
      InvIsExclusive(states[|ops|], initial);
    }
  }

  // ----- a run with an unsafe identity -----

  const NOTHING_CHANGES: Spec := Spec(Some("a"), Some("a"), false)

  lemma EditsA()
    ensures Edited(NOTHING_CHANGES, "a") == Ok("a")
  {
    assert StartsWith("a", "a") && "a"[1..] == [];
    assert CountMatches("a"[1..], "a") == 0;
    PutBack("a", "a");
  }

  /** One editor goes from its first identity to its replacement, which brings identity `j`. */
  lemma EditsTo(st: State, e: EditorId, j: Inode) returns (states: seq<State>, ops: seq<Op>)
    requires e < |st.editors| && st.editors[e] == Editor(NOTHING_CHANGES, Start) && st.content == "a"
    requires st.busy.None? && st.held == map[] && j != st.inode && Alive(st.registry) && st.inode !in st.registry.entries
    ensures Path(states, ops) && |states| == 7 && states[0] == st && |ops| == 6
    ensures var l := st.registry.next;
            && states[6].editors == st.editors[e := Editor(NOTHING_CHANGES, Replacing(st.inode, l, "a"))]
            && states[6].inode == j && states[6].content == "a" && states[6].busy == Some(e)
            && states[6].held == map[l := e] && states[6].applied == st.applied + [e]
            && states[6].registry == Registry(st.registry.entries[st.inode := l], st.registry.strong[l := 1], l + 1)
  {
    EditsA();
    hide Edited;
    ops := [Identify(e), Acquire(e), Lock(e), Revalidate(e), Read(e), Replace(e, j)];
    var s1 := Step(st, ops[0]);
    var s2 := Step(s1, ops[1]);
    var s3 := Step(s2, ops[2]);
    var s4 := Step(s3, ops[3]);
    var s5 := Step(s4, ops[4]);
    var s6 := Step(s5, ops[5]);
    states := [st, s1, s2, s3, s4, s5, s6];
  }

  /** From its replacement, the editor goes, and with the last lease its lock is forgotten. */
  lemma LeavesAlone(st: State, e: EditorId, i: Inode, l: LockId) returns (states: seq<State>, ops: seq<Op>)
    requires e < |st.editors| && st.editors[e] == Editor(NOTHING_CHANGES, Replacing(i, l, "a"))
    requires st.busy == Some(e) && st.held == map[l := e] && st.registry.strong == map[l := 1]
    ensures Path(states, ops) && |states| == 4 && states[0] == st && |ops| == 3
    ensures states[3].editors == st.editors[e := Editor(NOTHING_CHANGES, Gone(Ok("a")))]
    ensures states[3].applied == st.applied
    ensures states[3].inode == st.inode && states[3].content == st.content && states[3].busy.None?
    ensures states[3].held == map[] && states[3].registry == Registry(map[], map[], st.registry.next)
  {
    hide Edited;
    ops := [Publish(e), Unlock(e), Leave(e)];
    var s1 := Step(st, ops[0]);
    var s2 := Step(s1, ops[1]);
    var s3 := Step(s2, ops[2]);
    states := [st, s1, s2, s3];
    assert s2.held == map[];
    assert Released(s2.registry.strong, l) == map[];
    assert s3.registry.entries == map[];
  }

  /** The first editor leases identity 1 after the second has given the file identity 2. */
  lemma LeasesOldIdentity() returns (states: seq<State>, ops: seq<Op>)
    ensures Path(states, ops) && |states| == |ops| + 1
    ensures states[0] == Init(1, "a", [NOTHING_CHANGES, NOTHING_CHANGES, NOTHING_CHANGES])
    ensures states[|ops|] == State(2, "a", [Editor(NOTHING_CHANGES, Leased(1, 1)), Editor(NOTHING_CHANGES, Gone(Ok("a"))),
                                            Editor(NOTHING_CHANGES, Start)],
                                   Registry(map[1 := 1], map[1 := 1], 2), None, map[], [1])
  {
    hide Edited, NOTHING_CHANGES, Path;
    var s0 := Init(1, "a", [NOTHING_CHANGES, NOTHING_CHANGES, NOTHING_CHANGES]);
    PathOfOne(s0);
    states, ops := OneStep([s0], [], Identify(0));
    var more, moreOps := EditsTo(states[1], 1, 2);
    states, ops := Joined(states, ops, more, moreOps);
    more, moreOps := LeavesAlone(more[6], 1, 1, 0);
    states, ops := Joined(states, ops, more, moreOps);
    states, ops := OneStep(states, ops, Acquire(0));
  }

  /**
   When the file system may give an identity that is still leased to a new file, two editors can be between
   revalidation and publication at once: the first editor leases identity 1 after the file has left it, and a later
   replacement brings identity 1 back under another lock.
   */
  lemma ReissueBreaksExclusion() returns (states: seq<State>, ops: seq<Op>)
    ensures Run(states, ops, 1, "a", [NOTHING_CHANGES, NOTHING_CHANGES, NOTHING_CHANGES])
    ensures !Exclusive(states[|ops|])
  {
    hide Edited, NOTHING_CHANGES, Path, Init, Acquired, Dropped, Published, LockFor;
    states, ops := LeasesOldIdentity();
    PathSize(states, ops);
    var more, moreOps := EditsTo(states[|ops|], 2, 1);
    PathSize(more, moreOps);
    states, ops := Joined(states, ops, more, moreOps);
    states, ops := OneStep(states, ops, Lock(0));
    states, ops := OneStep(states, ops, Revalidate(0));
    var last := states[|ops|];
    assert last.editors[0].phase.Critical() && last.editors[2].phase.Critical();
  }

  lemma PathOfOne(st: State)
    ensures Path([st], [])
  {
  }

  lemma PathSize(states: seq<State>, ops: seq<Op>)
    requires Path(states, ops)
    ensures |states| == |ops| + 1
  {
  }

  lemma Joined(states: seq<State>, ops: seq<Op>, more: seq<State>, moreOps: seq<Op>) returns (all: seq<State>, allOps: seq<Op>)
    requires Path(states, ops) && Path(more, moreOps) && states[|ops|] == more[0]
    ensures Path(all, allOps) && all[0] == states[0] && |all| == |allOps| + 1 && all[|allOps|] == more[|moreOps|]
  {
    hide Step, Enabled;
    all, allOps := states + more[1..], ops + moreOps;
    forall k | 0 <= k < |allOps|
      ensures Enabled(all[k], allOps[k]) && all[k + 1] == Step(all[k], allOps[k])
    {
      if k >= |ops| {
        assert all[k] == more[k - |ops|] && all[k + 1] == more[k - |ops| + 1];
      }
    }
  }

  lemma OneStep(states: seq<State>, ops: seq<Op>, op: Op) returns (all: seq<State>, allOps: seq<Op>)
    requires Path(states, ops) && Enabled(states[|ops|], op)
    ensures Path(all, allOps) && all[0] == states[0] && |all| == |allOps| + 1 && |allOps| == |ops| + 1
    ensures all[|allOps|] == Step(states[|ops|], op)
  {
    hide Step, Enabled;
    all, allOps := states + [Step(states[|ops|], op)], ops + [op];
  }
}
