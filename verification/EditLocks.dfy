/** Locks keyed by file identity, and editors that share them while every edit gives the file a new identity. */
module EditLocks {
  import opened Common
  import opened EditText

  type Inode = nat
  type LockId = nat
  type EditorId = nat

  // ----- the registry -----

  /**
   Weak references to the locks of file identities. `strong` counts how often each lock is strongly referenced;
   `next` is a lock that was never made.
   */
  datatype Registry = Registry(entries: map<Inode, LockId>, strong: map<LockId, nat>, next: LockId)

  const EMPTY_REGISTRY: Registry := Registry(map[], map[], 0)

  predicate Alive(r: Registry) {
    && (forall i :: i in r.entries ==> r.entries[i] in r.strong)
    && (forall l :: l in r.strong ==> l < r.next && r.strong[l] > 0)
  }

  predicate HasLock(r: Registry, i: Inode) {
    i in r.entries && r.entries[i] in r.strong
  }

  /** The lock an identity has, or a new one. */
  function LockFor(r: Registry, i: Inode): LockId {
    if HasLock(r, i) then r.entries[i] else r.next
  }

  function Acquired(r: Registry, i: Inode): Registry {
    if HasLock(r, i) then r.(strong := r.strong[r.entries[i] := r.strong[r.entries[i]] + 1])
    else Registry(r.entries[i := r.next], r.strong[r.next := 1], r.next + 1)
  }

  function Released(strong: map<LockId, nat>, l: LockId): map<LockId, nat> {
    if l in strong && strong[l] > 1 then strong[l := strong[l] - 1] else strong - {l}
  }

  function Dropped(r: Registry, l: LockId): Registry {
    var strong := Released(r.strong, l);
    r.(entries := map i | i in r.entries && r.entries[i] in strong :: r.entries[i], strong := strong)
  }

  function Published(r: Registry, i: Inode, l: LockId): Registry {
    r.(entries := r.entries[i := l])
  }

  lemma AliveKept(r: Registry, i: Inode, l: LockId)
    requires Alive(r)
    ensures Alive(Acquired(r, i)) && Alive(Dropped(r, l)) && (l in r.strong ==> Alive(Published(r, i, l)))
  {
  }

  /** When nobody holds a lease, no identity is remembered. */
  lemma EmptyWithoutLeases(r: Registry)
    requires Alive(r) && r.strong == map[]
    ensures r.entries == map[]
  {
    assert forall i :: i !in r.entries;
  }

  /** The registry as an object, under its own lock. */
  class LockRegistry {
    var entries: map<Inode, LockId>
    var strong: map<LockId, nat>
    var next: LockId

    ghost function View(): Registry
      reads this
    {
      Registry(entries, strong, next)
    }

    ghost predicate Valid()
      reads this
    {
      Alive(View())
    }

    constructor ()
      ensures Valid() && View() == EMPTY_REGISTRY
    {
      entries, strong, next := map[], map[], 0;
    }

    /** Takes a lease of an identity's lock. */
    method Acquire(i: Inode) returns (l: LockId)
      requires Valid()
      modifies this
      ensures l == LockFor(old(View()), i) && View() == Acquired(old(View()), i)
      ensures Valid() && l in strong && i in entries && entries[i] == l
    {
      AliveKept(View(), i, 0);
      if i in entries && entries[i] in strong {
        l := entries[i];
        strong := strong[l := strong[l] + 1];
      } else {
        l := next;
        next := next + 1;
        strong := strong[l := 1];
        entries := entries[i := l];
      }
    }

    /** Gives a lease back and forgets every identity whose lock nobody holds any more. */
    method Drop(l: LockId)
      requires Valid() && l in strong
      modifies this
      ensures View() == Dropped(old(View()), l)
      ensures Valid()
      ensures strong == map[] ==> entries == map[]
    {
      AliveKept(View(), 0, l);
      strong := if strong[l] > 1 then strong[l := strong[l] - 1] else strong - {l};
      entries := map i | i in entries && entries[i] in strong :: entries[i];
      if strong == map[] {
        EmptyWithoutLeases(View());
      }
    }

    method Publish(i: Inode, l: LockId)
      requires Valid() && l in strong
      modifies this
      ensures View() == Published(old(View()), i, l)
      ensures Valid()
    {
      AliveKept(View(), i, l);
      entries := entries[i := l];
    }
  }

  // ----- editors -----

  datatype Outcome = Retry | Finish(result: Result<Text, EditError>)

  /**
   Where an editor is in its loop: it has read the identity, leased its lock, locked it, found the identity
   unchanged, read the text, replaced the file, and is about to unlock or to give the lease back.
   */
  datatype Phase =
    | Start
    | Identified(i: Inode)
    | Leased(i: Inode, l: LockId)
    | Locked(i: Inode, l: LockId)
    | Validated(i: Inode, l: LockId)
    | HasRead(i: Inode, l: LockId, text: Text)
    | Replacing(i: Inode, l: LockId, written: Text)
    | Unlocking(i: Inode, l: LockId, then_: Outcome)
    | Leaving(i: Inode, l: LockId, then_: Outcome)
    | Gone(result: Result<Text, EditError>)
  {
    predicate HasLease() {
      !Start? && !Identified? && !Gone?
    }
    predicate HoldsLock() {
      HasLease() && !Leased? && !Leaving?
    }
    /** From the replacement of the file on, when it succeeded. */
    predicate Succeeded() {
      || Replacing?
      || ((Unlocking? || Leaving?) && then_.Finish? && then_.result.Ok?)
      || (Gone? && result.Ok?)
    }
    /** It has leased a lock and not yet revalidated the identity it leased it for. */
    predicate Waits() {
      Leased? || Locked?
    }
    /** It acts, or may come to act, on the identity it leased its lock for. */
    predicate Claims() {
      Waits() || Validated? || HasRead?
    }
    /** Between revalidation and publication. */
    predicate Critical() {
      Validated? || HasRead? || Replacing?
    }
  }

  datatype Editor = Editor(spec: Spec, phase: Phase)

  /**
   `busy` holds the registry's own lock from the replacement of the file to its publication; `applied` lists the
   editors whose edits the file has taken, in order.
   */
  datatype State = State(inode: Inode, content: Text, editors: seq<Editor>, registry: Registry, busy: Option<EditorId>,
                         held: map<LockId, EditorId>, applied: seq<EditorId>)

  datatype Op =
    | Identify(e: EditorId)
    | Acquire(e: EditorId)
    | Lock(e: EditorId)
    | Revalidate(e: EditorId)
    | Read(e: EditorId)
    | Decide(e: EditorId)
    | Replace(e: EditorId, i: Inode)
    | Publish(e: EditorId)
    | Unlock(e: EditorId)
    | Leave(e: EditorId)

  predicate Enabled(st: State, op: Op) {
    op.e < |st.editors|
    && var p := st.editors[op.e].phase;
       match op
       case Identify(e) => p.Start?
       case Acquire(e) => p.Identified? && st.busy.None?
       case Lock(e) => p.Leased? && p.l !in st.held
       case Revalidate(e) => p.Locked?
       case Read(e) => p.Validated?
       case Decide(e) => p.HasRead? && Edited(st.editors[e].spec, p.text).Err?
       case Replace(e, i) =>
         p.HasRead? && Edited(st.editors[e].spec, p.text).Ok? && st.busy.None? && i != st.inode
       case Publish(e) => p.Replacing?
       case Unlock(e) => p.Unlocking?
       case Leave(e) => p.Leaving? && st.busy.None?
  }

  function Move(st: State, e: EditorId, p: Phase): State
    requires e < |st.editors|
  {
    st.(editors := st.editors[e := st.editors[e].(phase := p)])
  }

  function Step(st: State, op: Op): State
    requires Enabled(st, op)
  {
    var p, spec := st.editors[op.e].phase, st.editors[op.e].spec;
    match op
    case Identify(e) => Move(st, e, Identified(st.inode))
    case Acquire(e) =>
      Move(st, e, Leased(p.i, LockFor(st.registry, p.i))).(registry := Acquired(st.registry, p.i))
    case Lock(e) => Move(st, e, Locked(p.i, p.l)).(held := st.held[p.l := e])
    case Revalidate(e) => Move(st, e, if st.inode == p.i then Validated(p.i, p.l) else Unlocking(p.i, p.l, Retry))
    case Read(e) => Move(st, e, HasRead(p.i, p.l, st.content))
    case Decide(e) => Move(st, e, Unlocking(p.i, p.l, Finish(Edited(spec, p.text))))
    case Replace(e, i) =>
      var text := Edited(spec, p.text).value;
      Move(st, e, Replacing(p.i, p.l, text)).(inode := i, content := text, busy := Some(e), applied := st.applied + [e])
    case Publish(e) =>
      Move(st, e, Unlocking(p.i, p.l, Finish(Ok(p.written)))).(registry := Published(st.registry, st.inode, p.l), busy := None)
    case Unlock(e) => Move(st, e, Leaving(p.i, p.l, p.then_)).(held := st.held - {p.l})
    case Leave(e) =>
      Move(st, e, if p.then_.Retry? then Start else Gone(p.then_.result)).(registry := Dropped(st.registry, p.l))
  }

  function Init(inode: Inode, content: Text, specs: seq<Spec>): State {
    State(inode, content, seq(|specs|, k requires 0 <= k < |specs| => Editor(specs[k], Start)),
          EMPTY_REGISTRY, None, map[], [])
  }
}
