/** What every transaction keeps between a request row and its offers, matches and timeline. */
module Coupling {
  import opened Common
  import opened Wallet
  import opened ServiceRequest

  /** An offer is selected iff the request is pending on it. */
  ghost predicate SelectionCoupled(r: Request, offers: Offers) {
    && (r.status.PendingConfirmation? <==> r.selected.Some?)
    && (r.selected.Some? <==> r.selectionExpiresAt.Some?)
    && (r.selected.Some? ==> r.selected.value in offers)
    && (forall p :: p in offers ==> (offers[p].status.OfferSelected? <==> r.selected == Some(p)))
  }

  /** At most one match is not cancelled, and its status and travel start mirror the request's. */
  ghost predicate MatchesCoupled(s: Status, matches: Matches) {
    && (forall p, q ::
          (p in matches && q in matches && !matches[p].status.MatchCancelled? && !matches[q].status.MatchCancelled?) ==>
            p == q)
    && (s.IsMatched() <==> exists p :: p in matches && matches[p].status.MatchActive?)
    && (s.Completed? <==> exists p :: p in matches && matches[p].status.MatchCompleted?)
    && (forall p :: p in matches && matches[p].status.MatchActive? ==>
          (s.Matched? <==> matches[p].startedTravelAt.None?))
  }

  /** An accepted offer is one with a match; a provider who backed out is rejected for good. */
  ghost predicate AcceptedCoupled(offers: Offers, matches: Matches) {
    && (forall p :: p in matches ==>
          && p in offers
          && (|| offers[p].status.OfferAccepted?
              || (offers[p].status.OfferRejected? && matches[p].status.MatchCancelled?)))
    && (forall p :: p in offers && offers[p].status.OfferAccepted? ==> p in matches)
  }

  ghost predicate Coupled(l: Listing) {
    && SelectionCoupled(l.row, l.offers)
    && MatchesCoupled(l.row.status, l.matches)
    && AcceptedCoupled(l.offers, l.matches)
    && (forall p :: p in l.matches ==> MatchDated(l.matches[p]))
    && (forall p :: p in l.matches && l.matches[p].status.MatchCancelled? ==>
          l.row.status.Cancelled? || l.matches[p].cancelledBy == Some(Provider))
  }

  /** A cancelled match says by whom, and every closed match says when. */
  predicate MatchDated(m: Match) {
    && (m.status.MatchCancelled? <==> m.cancelledBy.Some?)
    && (m.status.MatchActive? <==> m.closedAt.None?)
  }

  lemma NewListingCoupled(customer: UserId, clientId: Option<string>, expiresAt: Time, now: Time)
    ensures Coupled(NewListing(customer, clientId, expiresAt, now))
  {
  }

  lemma LockCoupled(l: Listing, now: Time)
    requires Coupled(l)
    ensures Coupled(Lock(l, now))
    ensures Lock(l, now).row.status == l.row.Effective(now)
    ensures Lock(l, now).row.Effective(now) == Lock(l, now).row.status
  {
  }

  lemma UpsertCoupled(l: Listing, p: ProviderId, quote: Quote, now: Time)
    requires Coupled(l)
    ensures Coupled(UpsertStep(l, p, quote, now).0)
  {
    hide Lock, MatchesCoupled, MatchDated;
    LockCoupled(l, now);
  }

  lemma SelectCoupled(l: Listing, customer: UserId, p: ProviderId, deadline: Time, now: Time)
    requires Coupled(l)
    ensures Coupled(SelectStep(l, customer, p, deadline, now).0)
  {
    LockCoupled(l, now);
  }

  lemma RejectCoupled(l: Listing, p: ProviderId, caller: ProviderId, now: Time)
    requires Coupled(l)
    ensures Coupled(RejectStep(l, p, caller, now).0)
  {
    LockCoupled(l, now);
  }

  lemma AcceptCoupled(l: Listing, p: ProviderId, fee: int, waived: bool, blocked: bool, now: Time)
    requires Coupled(l)
    ensures Coupled(AcceptStep(l, p, fee, waived, blocked, now).0)
  {
    LockCoupled(l, now);
    var l' := AcceptStep(l, p, fee, waived, blocked, now).0;
    if AcceptStep(l, p, fee, waived, blocked, now).1 {
      assert l'.matches[p].status.MatchActive?;
    }
  }

  lemma AdvanceCoupled(from: Status, to: Status, actor: Role, matches: Matches, now: Time)
    requires MatchesCoupled(from, matches) && CanTransition(from, to, actor)
    ensures MatchesCoupled(to, AdvanceMatches(matches, to, now))
  {
    var p :| p in matches && matches[p].status.MatchActive?;
    var matches' := AdvanceMatches(matches, to, now);
    assert p in matches' && (to.Completed? ==> matches'[p].status.MatchCompleted?);
  }

  lemma TransitionCoupled(l: Listing, from: Status, to: Status, actor: Role, now: Time)
    requires Coupled(l) && CanTransition(from, to, actor)
    ensures Coupled(TransitionStep(l, from, to, actor, now).0)
  {
    if l.row.status == from {
      AdvanceCoupled(from, to, actor, l.matches, now);
      var l' := TransitionStep(l, from, to, actor, now).0;
      assert AcceptedCoupled(l'.offers, l'.matches);
    }
  }

  /** Cancelling leaves no live match, so any status without one fits. */
  lemma CancelMatchesCoupled(from: Status, to: Status, actor: Role, matches: Matches, now: Time)
    requires MatchesCoupled(from, matches) && !from.Completed?
    requires !to.IsMatched() && !to.Completed?
    ensures MatchesCoupled(to, CancelMatches(matches, actor, now))
  {
  }

  lemma CancelAcceptedCoupled(offers: Offers, matches: Matches, actor: Role, now: Time)
    requires AcceptedCoupled(offers, matches)
    ensures AcceptedCoupled(offers, CancelMatches(matches, actor, now))
    ensures AcceptedCoupled(RejectOffers(offers, Active(matches)), CancelMatches(matches, actor, now))
  {
  }

  /** Once the selection is expired nothing is selected any more. */
  lemma ExpiredSelection(r: Request, offers: Offers, matches: Matches)
    requires SelectionCoupled(r, offers) && AcceptedCoupled(offers, matches)
    ensures AcceptedCoupled(ExpireSelection(offers, r.selected), matches)
    ensures forall p :: p in ExpireSelection(offers, r.selected) ==>
              !ExpireSelection(offers, r.selected)[p].status.OfferSelected?
  {
  }

  lemma CancelledByWhom(matches: Matches, actor: Role, now: Time)
    requires forall p :: p in matches ==> MatchDated(matches[p])
    ensures forall p :: p in CancelMatches(matches, actor, now) ==> MatchDated(CancelMatches(matches, actor, now)[p])
    ensures forall p :: p in matches && CancelMatches(matches, actor, now)[p].status.MatchCancelled? ==>
              || (matches[p].status.MatchCancelled? && CancelMatches(matches, actor, now)[p] == matches[p])
              || CancelMatches(matches, actor, now)[p].cancelledBy == Some(actor)
  {
  }

  lemma CancelCoupled(l: Listing, from: Status, actor: Role, reopen: bool, reopenExpiresAt: Time, now: Time)
    requires Coupled(l) && CanCancel(from, actor) && reopen == actor.Provider?
    ensures Coupled(CancelStep(l, from, actor, reopen, reopenExpiresAt, now).0)
  {
    hide MatchesCoupled, AcceptedCoupled, Lock, ExpireSelection, MatchDated;
    LockCoupled(l, now);
    var m := Lock(l, now);
    if CancelStep(l, from, actor, reopen, reopenExpiresAt, now).1 {
      var l' := CancelStep(l, from, actor, reopen, reopenExpiresAt, now).0;
      ExpiredSelection(m.row, m.offers, m.matches);
      CancelAcceptedCoupled(ExpireSelection(m.offers, m.row.selected), m.matches, actor, now);
      CancelMatchesCoupled(from, l'.row.status, actor, m.matches, now);
      CancelledByWhom(m.matches, actor, now);
    }
  }

  lemma StepCoupled(l: Listing, op: Op, now: Time)
    requires Coupled(l) && Admissible(op)
    ensures Coupled(Step(l, op, now).0)
  {
    match op
    case Upsert(p, quote) => UpsertCoupled(l, p, quote, now);
    case Select(customer, p, deadline) => SelectCoupled(l, customer, p, deadline, now);
    case Reject(p, caller) => RejectCoupled(l, p, caller, now);
    case Accept(p, fee, waived, blocked) => AcceptCoupled(l, p, fee, waived, blocked, now);
    case Transition(from, to, actor) => TransitionCoupled(l, from, to, actor, now);
    case Cancel(from, actor, reopen, at) => CancelCoupled(l, from, actor, reopen, at, now);
  }
}
