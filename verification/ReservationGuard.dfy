/** The guard of one reservation: settled once, by its owner or on being dropped. */
module Guards {
  import opened Common
  import opened LedgerSpec
  import opened LedgerInvariant
  import opened LedgerObject

  class ReservationGuard {
    const ledger: Ledger
    const id: AttemptId
    var held: bool
    var dispatched: bool

    /** While it holds its reservation, the ledger knows the attempt. */
    ghost predicate Valid()
      reads this, ledger
    {
      ledger.Valid() && (held <==> id in ledger.attempts)
    }

    constructor (ledger: Ledger, id: AttemptId)
      requires ledger.Valid() && id in ledger.attempts
      ensures Valid() && held && !dispatched && this.ledger == ledger && this.id == id
    {
      this.ledger := ledger;
      this.id := id;
      held := true;
      dispatched := false;
    }

    method Settle(charge: Charge) returns (settlement: Settlement)
      requires Valid() && held
      modifies this, ledger
      ensures Valid() && !held && dispatched == old(dispatched)
      ensures ledger.View() == LedgerSpec.Settle(old(ledger.View()), id, charge)
      ensures id in ledger.settled && IsChargeFor(charge, old(ledger.attempts[id].tokens), ledger.settled[id].usage)
      ensures Settles(old(ledger.View()), ledger.View(), id, ledger.settled[id].usage)
    {
      hide Settles, IsChargeFor;
      settlement := ledger.Settle(id, charge);
      held := false;
    }

    /** Settles what is still held: in full once the request may have gone out, at nothing before. */
    method Drop()
      requires Valid()
      modifies this, ledger
      ensures Valid() && !held
      ensures ledger.View() == if old(held)
                then LedgerSpec.Settle(old(ledger.View()), id, Failed(if old(dispatched) then Reserved else Zero))
                else old(ledger.View())
      ensures old(held) ==> id in ledger.settled && Settles(old(ledger.View()), ledger.View(), id, ledger.settled[id].usage)
      ensures old(held) && !old(dispatched) ==> IsZero(ledger.settled[id].usage)
      ensures old(held) && old(dispatched) ==> IsAllInput(old(ledger.attempts[id].tokens), ledger.settled[id].usage)
    {
      hide Settles, LedgerSpec.Settle;
      if held {
        var settlement := Settle(Failed(if dispatched then Reserved else Zero));
      }
    }
  }

  // ----- one attempt -----

  /** A provider's error, as far as its charge depends on it. */
  datatype ProviderError = NotSent | ContextTooLarge | Http(status: nat) | OtherError

  /** What a failed request is charged when its usage is unknown. */
  function PolicyOf(error: ProviderError): Policy {
    match error
    case NotSent => Zero
    case ContextTooLarge => Zero
    case Http(status) => if 400 <= status < 500 || status == 529 then Zero else Reserved
    case OtherError => Reserved
  }

  datatype Reply = Answered(usage: Usage) | Refused(error: ProviderError) | Panicked

  /** The two waits during which an attempt holds its reservation and may be dropped. */
  datatype Wait = Recording | Requesting

  /**
   What the outside does to an attempt: whether it is dropped in a wait, whether its start is recorded, whether the node
   is stopped before the dispatch, and what the provider replies.
   */
  datatype Outside = Outside(dropped: Option<Wait>, recorded: bool, stopped: bool, reply: Reply)

  /** What the attempt is charged. */
  function ChargeFor(o: Outside): Charge {
    if o.dropped == Some(Recording) || !o.recorded || o.stopped then Failed(Zero)
    else if o.dropped == Some(Requesting) then Failed(Reserved)
    else match o.reply
      case Answered(usage) => Measured(usage)
      case Refused(error) => Failed(PolicyOf(error))
      case Panicked => Failed(Reserved)
  }

  /** The request may have reached the provider. */
  predicate Dispatched(o: Outside) {
    o.dropped != Some(Recording) && o.recorded && !o.stopped
  }

  /** A refusal that says the request was not processed. */
  predicate Unprocessed(error: ProviderError) {
    error.NotSent? || error.ContextTooLarge? || (error.Http? && (error.status / 100 == 4 || error.status == 529))
  }

  /**
   What an attempt that held `tokens` owes: what was measured when it is answered, nothing when it never went out or was
   not processed, and all it held when nobody knows.
   */
  ghost predicate IsDue(o: Outside, tokens: nat, u: Usage) {
    if !Dispatched(o) then IsZero(u)
    else if o.dropped == Some(Requesting) then IsAllInput(tokens, u)
    else match o.reply
      case Answered(usage) => u == usage
      case Refused(error) => if Unprocessed(error) then IsZero(u) else IsAllInput(tokens, u)
      case Panicked => IsAllInput(tokens, u)
  }

  lemma ChargeIsDue(o: Outside, tokens: nat, u: Usage)
    requires IsChargeFor(ChargeFor(o), tokens, u)
    ensures IsDue(o, tokens, u)
  {
  }

  /** Every scope on the path is charged `u` and holds what it held before; no other scope is different. */
  ghost predicate ChargesPath(before: seq<Scope>, after: seq<Scope>, node: NodeId, u: Usage) {
    && |after| == |before|
    && forall s :: 0 <= s < |before| ==>
         if Covers(TreeOf(before), s, node) then Charges(before[s], after[s], 0, u, s == node) else after[s] == before[s]
  }

  /** Holding tokens and settling them again is being charged. */
  lemma AttemptCharges(st: State, node: NodeId, prompt: nat, requested: nat, charge: Charge)
    requires Inv(st) && LedgerSpec.Reserve(st, node, prompt, requested).1.Ok?
    ensures var (reserved, r) := LedgerSpec.Reserve(st, node, prompt, requested);
            && r.value.id in reserved.attempts && reserved.attempts[r.value.id].node < |reserved.scopes|
            && var next := LedgerSpec.Settle(reserved, r.value.id, charge);
            && r.value.id in next.settled
            && IsChargeFor(charge, r.value.tokens, next.settled[r.value.id].usage)
            && ChargesPath(st.scopes, next.scopes, node, next.settled[r.value.id].usage)
  {
    hide Inv, Headroom, CanReserve, Cap, IsChargeFor, LedgerSpec.Settle, OnPath, FitsPath;
    ReserveKeepsInv(st, node, prompt, requested);
    ReserveMeans(st, node, prompt, requested);
    ReservedIsHeld(st, node, prompt, requested);
    var (reserved, r) := LedgerSpec.Reserve(st, node, prompt, requested);
    SettleMeans(reserved, r.value.id, charge);
    assert TreeOf(reserved.scopes) == TreeOf(st.scopes);
  }

  /** The attempt's own course, left at any wait; whatever it still holds is then dropped. */
  method Course(guard: ReservationGuard, o: Outside)
    requires guard.Valid() && guard.held && !guard.dispatched
    modifies guard, guard.ledger
    ensures guard.Valid()
    ensures guard.held ==> guard.ledger.View() == old(guard.ledger.View())
                           && ChargeFor(o) == Failed(if guard.dispatched then Reserved else Zero)
    ensures !guard.held ==> guard.ledger.View() == LedgerSpec.Settle(old(guard.ledger.View()), guard.id, ChargeFor(o))
  {
    hide LedgerSpec.Settle, LedgerSpec.Inv;
    if o.dropped == Some(Recording) {
      return;
    }
    if !o.recorded {
      var settlement := guard.Settle(Failed(Zero));
      return;
    }
    var result;
    if o.stopped {
      result := Refused(NotSent);
    } else {
      guard.dispatched := true;
      if o.dropped == Some(Requesting) {
        return;
      }
      result := if o.reply.Panicked? then Refused(OtherError) else o.reply;
    }
    var charge := if result.Answered? then Measured(result.usage) else Failed(PolicyOf(result.error));
    var settlement := guard.Settle(charge);
  }

  /**
   Reserves and makes one attempt. Whatever the outside does, what was reserved is settled exactly once, with the charge
   it calls for; a refused reservation changes nothing.
   */
  method OneAttempt(ledger: Ledger, node: NodeId, prompt: nat, requested: nat, o: Outside)
    returns (reservation: Result<Reservation, Error>)
    requires ledger.Valid()
    modifies ledger
    ensures ledger.Valid()
    ensures var (reserved, r) := LedgerSpec.Reserve(old(ledger.View()), node, prompt, requested);
            && reservation == r
            && (r.Err? ==> ledger.View() == old(ledger.View()))
            && (r.Ok? ==>
                  && r.value.id in reserved.attempts && reserved.attempts[r.value.id].node < |reserved.scopes|
                  && ledger.View() == LedgerSpec.Settle(reserved, r.value.id, ChargeFor(o)))
    ensures reservation.Ok? ==> reservation.value.id in ledger.settled && ledger.attempts == old(ledger.attempts)
    ensures reservation.Ok? ==>
              && IsDue(o, reservation.value.tokens, ledger.settled[reservation.value.id].usage)
              && ChargesPath(old(ledger.scopes), ledger.scopes, node, ledger.settled[reservation.value.id].usage)
  {
    ReservedIsHeld(ledger.View(), node, prompt, requested);
    hide LedgerSpec.Settle, LedgerSpec.Reserve, LedgerSpec.Inv, ChargeFor, IsDue, ChargesPath, IsChargeFor;
    ghost var before := ledger.View();
    reservation := ledger.Reserve(node, prompt, requested);
    if reservation.Err? {
      return;
    }
    var guard := new ReservationGuard(ledger, reservation.value.id);
    ghost var reserved := ledger.View();
    Course(guard, o);
    guard.Drop();
    SettledIsKnown(reserved, reservation.value.id, ChargeFor(o));
    AttemptCharges(before, node, prompt, requested, ChargeFor(o));
    ChargeIsDue(o, reservation.value.tokens, ledger.settled[reservation.value.id].usage);
  }

  lemma ReservedIsHeld(st: State, node: NodeId, prompt: nat, requested: nat)
    requires Inv(st)
    ensures var (next, r) := LedgerSpec.Reserve(st, node, prompt, requested);
            r.Ok? ==>
              && r.value.id in next.attempts && next.attempts[r.value.id].node < |next.scopes|
              && next.attempts - {r.value.id} == st.attempts
  {
    assert AttemptsKnown(st);
    hide Inv, Cap, Headroom;
  }

  lemma SettledIsKnown(before: State, id: AttemptId, charge: Charge)
    requires id in before.attempts && before.attempts[id].node < |before.scopes|
    ensures var next := LedgerSpec.Settle(before, id, charge);
            id in next.settled && next.attempts == before.attempts - {id}
  {
  }
}
