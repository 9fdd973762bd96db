/**
 When each transaction goes through and what it then leaves, told in terms of what a caller could
 read beforehand: the statuses as of now, the accounts and the amounts.
 */
module Outcomes {
  import opened Common
  import opened Wallet
  import opened Topups
  import opened ServiceRequest
  import opened Coupling
  import opened Timeline
  import opened Marketplace
  import opened Billing
  import opened Refunds
  import opened Identities
  import opened StaleSteps

  // ---- asking ----

  /** A request is stored iff its id is new and its customer has sent no other with the same client id; it
      then reads open, without offers, until it expires. */
  lemma RequestsIff(db: Db, rid: RequestId, customer: UserId, clientId: Option<string>, expiresAt: Time, now: Time)
    ensures var (db', ok) := CreateRequest(db, rid, customer, clientId, expiresAt, now);
            && (ok <==>
                  && rid !in db.listings
                  && (clientId.Some? ==>
                        forall other :: other in db.listings ==>
                          db.listings[other].row.customer != customer || db.listings[other].row.clientId != clientId))
            && (!ok ==> db' == db)
            && (ok ==>
                  && db'.till == db.till && db'.listings.Keys == db.listings.Keys + {rid}
                  && (forall other :: other in db.listings ==> db'.listings[other] == db.listings[other])
                  && var l := db'.listings[rid];
                     && l.offers == map[] && l.matches == map[]
                     && l.row.customer == customer && l.row.clientId == clientId
                     && forall later :: l.row.Effective(later) == if later < expiresAt then Open else Expired)
  {
    assert forall other :: other in db.listings ==>
             (SentAs(db.listings[other].row, customer, clientId) <==>
              db.listings[other].row.customer == customer && db.listings[other].row.clientId == clientId);
  }

  // ---- accepting ----

  /** The request, as of now, waits for this provider's confirmation. */
  predicate WaitsFor(db: Db, o: OfferId, now: Time) {
    && o.request in db.listings
    && var r := db.listings[o.request].row;
       r.Effective(now).PendingConfirmation? && r.selected == Some(o.provider)
  }

  predicate IsActive(db: Db, p: ProviderId) {
    p in db.till.purse.accounts && db.till.purse.accounts[p].active
  }

  predicate CanPay(db: Db, p: ProviderId, fee: int, charge: bool) {
    p in db.till.purse.accounts && fee >= 0 && (charge ==> fee <= db.till.purse.accounts[p].balance)
  }

  lemma WaitingIsSelected(db: Db, o: OfferId, now: Time)
    requires ListingsOk(db.listings) && WaitsFor(db, o, now)
    ensures o.provider in db.listings[o.request].offers && o.provider !in db.listings[o.request].matches
    ensures Lock(db.listings[o.request], now) == db.listings[o.request]
    ensures Active(db.listings[o.request].matches) == {}
  {
    hide Replays, Counted;
    var l := db.listings[o.request];
    assert ListingOk(l);
    assert l.row.status.PendingConfirmation? && l.offers[o.provider].status.OfferSelected?;
    PendingHasNoActive(l);
  }

  predicate Asked(db: Db, o: OfferId, caller: ProviderId, now: Time) {
    WaitsFor(db, o, now) && caller == o.provider
  }

  lemma AcceptStepWhenWaiting(l: Listing, p: ProviderId, fee: int, waived: bool, blocked: bool, now: Time)
    requires Lock(l, now) == l && AwaitsConfirmationOf(l, p) && p !in l.matches && Active(l.matches) == {}
    ensures var (after, ok) := AcceptStep(l, p, fee, waived, blocked, now);
            && ok == !blocked
            && (ok ==> p in after.matches && after.matches[p] == Match(fee, waived, MatchActive, None, None, now, None))
  {
    hide Lock, Active, SetOffer;
  }

  lemma AcceptWhenAsked(db: Db, o: OfferId, caller: ProviderId, fee: int, charge: bool, now: Time)
    requires ListingsOk(db.listings) && Asked(db, o, caller, now)
    ensures var (db', outcome) := AcceptOffer(db, o, caller, fee, charge, now);
            var refusal := AcceptRefusal(db.till.purse, o, fee, charge);
            && (refusal.Some? ==> outcome == refusal.value)
            && (refusal.None? ==>
                  && outcome == Accepted(Match(fee, !charge, MatchActive, None, None, now, None))
                  && MatchAt(db', o) == Some(outcome.m))
  {
    hide Lock, ListingsOk, Deduct, AcceptRefusal, AcceptStep, Active;
    WaitingIsSelected(db, o, now);
    var l := db.listings[o.request];
    LockReadsEffective(l, now);
    AcceptStepWhenWaiting(l, o.provider, fee, !charge, AcceptRefusal(db.till.purse, o, fee, charge).Some?, now);
    hide Request.Effective;
  }

  lemma AcceptUnasked(db: Db, o: OfferId, caller: ProviderId, fee: int, charge: bool, now: Time)
    requires !Asked(db, o, caller, now)
    ensures var outcome := AcceptOffer(db, o, caller, fee, charge, now).1;
            outcome.OfferNotFound? || outcome.AlreadyAccepted? || outcome.NotWaiting?
  {
    if o.request in db.listings {
      LockReadsEffective(db.listings[o.request], now);
    }
    hide Lock, Deduct, AcceptRefusal;
  }

  lemma RefusesIff(db: Db, o: OfferId, fee: int, charge: bool)
    ensures var refusal := AcceptRefusal(db.till.purse, o, fee, charge);
            && (refusal.None? <==> IsActive(db, o.provider) && CanPay(db, o.provider, fee, charge))
            && (refusal.Some? ==>
                  var reason := refusal.value;
                  && (reason.Suspended? <==> IsSuspended(db, o.provider))
                  && (reason.TooLittleCredit? <==>
                        IsActive(db, o.provider) && charge && db.till.purse.accounts[o.provider].balance < fee)
                  && (reason.TooLittleCredit? ==>
                        reason == TooLittleCredit(db.till.purse.accounts[o.provider].balance, fee))
                  && (reason.Suspended? || reason.TooLittleCredit? || reason.WriteRefused?))
  {
  }

  /** A selected provider's own acceptance succeeds iff it is active and can pay, and makes the match
      with the terms agreed, dated now; the refusals name their reason. */
  lemma AcceptsIff(db: Db, o: OfferId, caller: ProviderId, fee: int, charge: bool, now: Time)
    requires ListingsOk(db.listings)
    ensures var (db', outcome) := AcceptOffer(db, o, caller, fee, charge, now);
            var asked := Asked(db, o, caller, now);
            && (outcome.Accepted? <==> asked && IsActive(db, o.provider) && CanPay(db, o.provider, fee, charge))
            && (outcome.Suspended? <==> asked && IsSuspended(db, o.provider))
            && (outcome.TooLittleCredit? <==>
                  asked && IsActive(db, o.provider) && charge && db.till.purse.accounts[o.provider].balance < fee)
            && (outcome.Accepted? ==>
                  && outcome.m == Match(fee, !charge, MatchActive, None, None, now, None)
                  && MatchAt(db', o) == Some(outcome.m))
            && (outcome.TooLittleCredit? ==>
                  outcome.balance == db.till.purse.accounts[o.provider].balance && outcome.fee == fee)
  {
    RefusesIff(db, o, fee, charge);
    if Asked(db, o, caller, now) {
      AcceptWhenAsked(db, o, caller, fee, charge, now);
    } else {
      AcceptUnasked(db, o, caller, fee, charge, now);
    }
    hide AcceptOffer, ListingsOk, Asked, MatchAt, AcceptRefusal;
  }

  lemma LockReadsEffective(l: Listing, now: Time)
    ensures Lock(l, now).row.status == l.row.Effective(now)
    ensures Lock(l, now).row.status.PendingConfirmation? ==> Lock(l, now) == l
    ensures Lock(l, now).matches == l.matches && Lock(l, now).offers.Keys == l.offers.Keys
  {
  }

  // ---- suspension ----

  predicate Reactivates(call: Call, p: ProviderId) {
    call.CallSetProviderStatus? && call.provider == p && call.active
  }

  ghost predicate NoNewMatch(before: Db, after: Db, p: ProviderId) {
    forall o: OfferId :: o.provider == p && MatchAt(after, o).Some? ==> MatchAt(before, o).Some?
  }

  ghost predicate IsSuspended(db: Db, p: ProviderId) {
    p in db.till.purse.accounts && !db.till.purse.accounts[p].active
  }

  lemma StatusKept(db: Db, call: Call, now: Time, p: ProviderId)
    requires p in db.till.purse.accounts && !(call.CallSetProviderStatus? && call.provider == p)
    ensures p in Exec(db, call, now).till.purse.accounts
    ensures Exec(db, call, now).till.purse.accounts[p].active == db.till.purse.accounts[p].active
  {
    hide Lock, UpsertStep, SelectStep, RejectStep, AcceptStep, TransitionStep, CancelStep, Posted;
  }

  lemma SuspendedStep(db: Db, call: Call, now: Time, p: ProviderId)
    requires IsSuspended(db, p) && !Reactivates(call, p)
    ensures IsSuspended(Exec(db, call, now), p) && NoNewMatch(db, Exec(db, call, now), p)
  {
    if !(call.CallSetProviderStatus? && call.provider == p) {
      StatusKept(db, call, now, p);
    }
    ExecListings(db, call, now);
    var s := StepOf(db, call, now);
    if s.Some? && s.value.0 in db.listings {
      SuspendedMatches(db.listings[s.value.0], s.value.1, now, p);
    }
    hide Exec, Step;
  }

  lemma SuspendedMatches(l: Listing, op: Op, now: Time, p: ProviderId)
    requires op.Accept? && op.provider == p ==> op.blocked
    ensures p in Step(l, op, now).0.matches ==> p in l.matches
  {
    StepSameTerms(l, op, now);
    if op.Accept? && Step(l, op, now).1 {
      AcceptStepTerms(l, op, now);
    }
  }

  lemma {:induction false} SuspendedRun(db: Db, calls: seq<Timed>, p: ProviderId)
    requires IsSuspended(db, p)
    requires forall i :: 0 <= i < |calls| ==> !Reactivates(calls[i].call, p)
    ensures IsSuspended(ExecAll(db, calls), p) && NoNewMatch(db, ExecAll(db, calls), p)
    decreases |calls|
  {
    if calls != [] {
      var prefix, last := calls[..|calls| - 1], calls[|calls| - 1];
      SuspendedRun(db, prefix, p);
      SuspendedStep(ExecAll(db, prefix), last.call, last.at, p);
    }
  }

  /** Once suspended a provider gets no new match, whatever is called, until it is reactivated. */
  lemma {:induction false} SuspensionStopsMatches(db: Db, calls: seq<Timed>, p: ProviderId)
    requires p in db.till.purse.accounts
    requires forall i :: 0 <= i < |calls| ==> !Reactivates(calls[i].call, p)
    ensures NoNewMatch(db, ExecAll(SetProviderStatus(db, p, false), calls), p)
  {
    var suspended := SetProviderStatus(db, p, false);
    SuspendedRun(suspended, calls, p);
    assert forall o :: MatchAt(suspended, o) == MatchAt(db, o);
  }

  /** And reactivation is all it takes to undo a suspension. */
  lemma ReactivationRestores(db: Db, p: ProviderId, q: ProviderId)
    requires p in db.till.purse.accounts
    ensures IsActive(SetProviderStatus(SetProviderStatus(db, p, false), p, true), p)
    ensures q != p ==> (IsActive(SetProviderStatus(db, p, false), q) <==> IsActive(db, q))
    ensures db.till.purse.accounts[p].active ==> SetProviderStatus(SetProviderStatus(db, p, false), p, true) == db
  {
    var db' := SetProviderStatus(SetProviderStatus(db, p, false), p, true);
    if db.till.purse.accounts[p].active {
      assert db'.till.purse.accounts == db.till.purse.accounts;
    }
  }

  // ---- selecting, rejecting, offering ----

  predicate TakesOffersNow(db: Db, rid: RequestId, now: Time) {
    rid in db.listings && db.listings[rid].row.Effective(now).TakesOffers()
  }

  lemma LockedOffer(l: Listing, now: Time, p: ProviderId)
    requires p in l.offers
    ensures p in Lock(l, now).offers
    ensures Lock(l, now).offers[p].status.OfferPending? <==> l.offers[p].status.OfferPending?
    ensures SameQuote(Some(Lock(l, now).offers[p]), Some(l.offers[p]))
  {
  }

  /** The same quote, of an offer first sent at the same time. */
  predicate SameQuote(a: Option<Offer>, b: Option<Offer>) {
    && (a.Some? <==> b.Some?)
    && (a.Some? ==> a.value.quote == b.value.quote && a.value.createdAt == b.value.createdAt)
  }

  /** The offer is stored and reads as pending. */
  predicate IsPending(l: Listing, p: ProviderId, now: Time) {
    p in l.offers && EffectiveOffer(l.offers[p].status, l.row, now).OfferPending?
  }

  lemma UpsertsIff(l: Listing, p: ProviderId, quote: Quote, now: Time)
    ensures var (after, ok) := UpsertStep(l, p, quote, now);
            && (ok <==> l.row.Effective(now).TakesOffers() && (p in l.offers ==> IsPending(l, p, now)))
            && (ok ==>
                  && p in after.offers && after.offers[p].status.OfferPending? && after.offers[p].quote == quote
                  && after.offers[p].createdAt == if p in l.offers then l.offers[p].createdAt else now)
            && (!ok && l.row.Effective(now).TakesOffers() ==> after == l)
  {
    LockReadsEffective(l, now);
    if p in l.offers {
      LockedOffer(l, now, p);
    }
    hide Lock;
  }

  /** An offer is stored iff the request takes offers now, the provider exists and its earlier offer,
      if any, is still pending; then it reads as pending with the quote sent. One refused although the
      request takes offers changes no row. */
  lemma SendsOfferIff(db: Db, o: OfferId, quote: Quote, now: Time)
    ensures var (db', ok) := SendOffer(db, o, quote, now);
            && (ok <==>
                  && TakesOffersNow(db, o.request, now) && o.provider in db.till.purse.accounts
                  && (o.provider in db.listings[o.request].offers ==>
                        IsPending(db.listings[o.request], o.provider, now)))
            && (ok ==>
                  && o.provider in db'.listings[o.request].offers
                  && var offer := db'.listings[o.request].offers[o.provider];
                     offer.status.OfferPending? && offer.quote == quote)
            && (!ok && TakesOffersNow(db, o.request, now) ==> db' == db)
  {
    if o.request in db.listings {
      UpsertsIff(db.listings[o.request], o.provider, quote, now);
      assert Put(db, o.request, db.listings[o.request]) == db;
    }
    hide UpsertStep, IsPending;
  }

  lemma SelectStepIff(l: Listing, customer: UserId, p: ProviderId, deadline: Time, now: Time)
    ensures var (after, ok) := SelectStep(l, customer, p, deadline, now);
            && (ok <==> l.row.customer == customer && l.row.Effective(now).Open? && IsPending(l, p, now))
            && (ok ==>
                  after.row == l.row.(status := PendingConfirmation, selected := Some(p),
                                      selectionExpiresAt := Some(deadline), closedAt := after.row.closedAt))
  {
    LockReadsEffective(l, now);
    if p in l.offers {
      LockedOffer(l, now, p);
    }
  }

  /** A selection goes through iff it is the customer's own, the request reads open, and the offer is
      this request's and reads pending; the provider then has until the deadline. */
  lemma SelectsIff(db: Db, rid: RequestId, o: OfferId, customer: UserId, deadline: Time, now: Time)
    ensures var (db', ok) := SelectOffer(db, rid, o, customer, deadline, now);
            && (ok <==>
                  && rid in db.listings && o.request == rid && db.listings[rid].row.customer == customer
                  && db.listings[rid].row.Effective(now).Open? && IsPending(db.listings[rid], o.provider, now))
            && (ok ==>
                  forall later :: now <= later < db.listings[rid].row.expiresAt ==>
                    (WaitsFor(db', o, later) <==> later < deadline))
  {
    if rid in db.listings {
      SelectStepIff(db.listings[rid], customer, o.provider, deadline, now);
    }
    hide SelectStep, IsPending, Lock;
  }

  function OfferIn(offers: Offers, p: ProviderId): Option<Offer> {
    if p in offers then Some(offers[p]) else None
  }

  function OfferAt(db: Db, o: OfferId): Option<Offer> {
    if o.request in db.listings then OfferIn(db.listings[o.request].offers, o.provider) else None
  }

  lemma StepKeepsQuotes(l: Listing, op: Op, now: Time, p: ProviderId)
    requires !(op.Upsert? && op.provider == p && Step(l, op, now).1)
    ensures SameQuote(OfferIn(l.offers, p), OfferIn(Step(l, op, now).0.offers, p))
  {
    hide IsPending, Request.Effective, Active, CancelMatches, AdvanceMatches;
  }

  /** The call stores this offer. */
  predicate Sends(db: Db, call: Call, now: Time, o: OfferId) {
    call.CallSendOffer? && call.offer == o && SendOffer(db, o, call.quote, now).1
  }

  lemma ExecKeepsQuotes(db: Db, call: Call, now: Time, o: OfferId)
    requires !Sends(db, call, now, o)
    ensures SameQuote(OfferAt(db, o), OfferAt(Exec(db, call, now), o))
  {
    ExecListings(db, call, now);
    var s := StepOf(db, call, now);
    if call.CallSendOffer? {
    } else if s.Some? && s.value.0 in db.listings {
      StepKeepsQuotes(db.listings[s.value.0], s.value.1, now, o.provider);
    }
    hide Exec, Step;
  }

  /** A provider's stored quote is always the one of the last offer it sent that was accepted for storing:
      no refused edit, no selection and no other provider changes it. */
  lemma {:induction false} LatestQuoteWins(db: Db, calls: seq<Timed>, i: nat, o: OfferId)
    requires i < |calls| && Sends(ExecAll(db, calls[..i]), calls[i].call, calls[i].at, o)
    requires forall j :: i < j < |calls| ==> !Sends(ExecAll(db, calls[..j]), calls[j].call, calls[j].at, o)
    ensures var offer := OfferAt(ExecAll(db, calls), o);
            offer.Some? && offer.value.quote == calls[i].call.quote
    decreases |calls|
  {
    var prefix, last := calls[..|calls| - 1], calls[|calls| - 1];
    assert forall j :: 0 <= j < |calls| ==> calls[..j] == prefix[..j];
    hide SendOffer, Exec;
    if i == |prefix| {
      SendsOfferIff(ExecAll(db, prefix), o, last.call.quote, last.at);
      SendIsExec(ExecAll(db, prefix), o, last.call.quote, last.at);
    } else {
      LatestQuoteWins(db, prefix, i, o);
      ExecKeepsQuotes(ExecAll(db, prefix), last.call, last.at, o);
    }
  }

  lemma SendIsExec(db: Db, o: OfferId, quote: Quote, now: Time)
    ensures Exec(db, CallSendOffer(o, quote), now) == SendOffer(db, o, quote, now).0
  {
  }

  /** A rejection goes through iff the request waits for exactly this provider, and reopens it. */
  lemma RejectsIff(db: Db, o: OfferId, caller: ProviderId, now: Time)
    requires ListingsOk(db.listings)
    ensures var (db', ok) := RejectSelection(db, o, caller, now);
            && (ok <==> WaitsFor(db, o, now) && caller == o.provider)
            && (ok ==>
                  && db'.listings[o.request].row.Effective(now).Open?
                  && db'.listings[o.request].offers[o.provider].status.OfferRejected?)
  {
    if WaitsFor(db, o, now) {
      WaitingIsSelected(db, o, now);
      assert ListingOk(db.listings[o.request]);
    } else if o.request in db.listings {
      LockReadsEffective(db.listings[o.request], now);
    }
  }

  // ---- deciding and committing in one step ----

  /** The owner of the request's live match. */
  ghost predicate HoldsMatch(db: Db, rid: RequestId, user: UserId) {
    exists p :: rid in db.listings && p in Active(db.listings[rid].matches)
                && p in db.till.purse.accounts && db.till.purse.accounts[p].owner == user
  }

  lemma CustomersRole(db: Db, l: Listing, user: UserId)
    ensures RoleOf(db, l, user) == Some(Customer) <==> l.row.customer == user
    ensures RoleOf(db, l, user) != Some(System)
  {
  }

  lemma ProvidersRole(db: Db, rid: RequestId, user: UserId)
    requires ListingsOk(db.listings) && rid in db.listings && db.listings[rid].row.status.IsMatched()
    ensures RoleOf(db, db.listings[rid], user) == Some(Provider) <==>
            db.listings[rid].row.customer != user && HoldsMatch(db, rid, user)
  {
    hide Coupled, Replays, Counted, CurrentMatch, Active;
    assert ListingOk(db.listings[rid]);
    CurrentIsActive(db.listings[rid]);
  }

  /** Who may cancel what reads as `eff`: the customer anything open, the provider a job not yet reached. */
  ghost predicate MayCancel(db: Db, user: UserId, rid: RequestId, eff: Status)
    requires rid in db.listings
  {
    if db.listings[rid].row.customer == user then !eff.IsClosed()
    else HoldsMatch(db, rid, user) && (eff.Matched? || eff.OnTheWay?)
  }

  lemma CancelDecidedIff(db: Db, user: UserId, rid: RequestId, policy: Policy, now: Time)
    requires ListingsOk(db.listings) && rid in db.listings
    ensures DecideCancel(db, user, rid, policy, now).Some? <==>
            MayCancel(db, user, rid, db.listings[rid].row.Effective(now))
  {
    hide ListingsOk, HoldsMatch, RefundDue, RoleOf, Request.Effective;
    CustomersRole(db, db.listings[rid], user);
    LiveReadsAsStored(db.listings[rid].row, now);
    if db.listings[rid].row.status.IsMatched() {
      ProvidersRole(db, rid, user);
    }
  }

  lemma ChargedHasAccount(db: Db, o: OfferId)
    requires TillOk(db.till) && Billed(db) && MatchAt(db, o).Some? && MatchAt(db, o).value.Charged()
    ensures o.provider in db.till.purse.accounts && db.till.purse.accounts[o.provider].balance >= 0
  {
    assert OfferBilled(db.till.purse.ledger, MatchAt(db, o), o);
    var i :| 0 <= i < |db.till.purse.ledger| && db.till.purse.ledger[i].key == MatchFeeKey(o);
    assert db.till.purse.ledger[i].provider == o.provider;
  }

  /** A due refund can always be written. */
  lemma RefundIsWritten(db: Db, rid: RequestId, from: Status, actor: Role, now: Time, grace: Time)
    requires Billing.Inv(db) && rid in db.listings && RefundDue(db.listings[rid], rid, from, actor, now, grace).Some?
    ensures Apply(db.till.purse, RefundDue(db.listings[rid], rid, from, actor, now, grace).value).Ok?
  {
    hide ListingsOk, TillOk, Billed, Posted;
    var o := RefundDue(db.listings[rid], rid, from, actor, now, grace).value.key.match_;
    ChargedHasAccount(db, o);
  }

  lemma LiveHasActive(l: Listing, now: Time)
    requires Coupled(l) && l.row.Effective(now).IsMatched()
    ensures Active(Lock(l, now).matches) != {}
  {
    var p :| p in l.matches && l.matches[p].status.MatchActive?;
    assert p in Active(l.matches);
  }

  /** Nothing refuses a cancellation under the lock that was decided on the same rows. */
  lemma DecidedCancels(db: Db, user: UserId, rid: RequestId, policy: Policy, now: Time)
    requires Billing.Inv(db) && rid in db.listings
    ensures var c := DecideCancel(db, user, rid, policy, now);
            c.Some? ==> CancelStep(db.listings[rid], c.value.from, c.value.actor, c.value.reopen,
                                   c.value.reopenExpiresAt, now).1
  {
    hide ListingsOk, Lock, RefundDue, RoleOf, TillOk, Billed, Coupled, Replays, Counted, Request.Effective;
    var l, c := db.listings[rid], DecideCancel(db, user, rid, policy, now);
    if c.Some? {
      LockReadsEffective(l, now);
      assert ListingOk(l) by { assert ListingsOk(db.listings); ListingIsOk(db.listings, rid); }
      if c.value.actor.Provider? {
        LiveHasActive(l, now);
      }
    }
  }

  lemma ListingIsOk(listings: map<RequestId, Listing>, rid: RequestId)
    requires ListingsOk(listings) && rid in listings
    ensures ListingOk(listings[rid])
  {
  }

  lemma CancelCommits(db: Db, c: CancelParams, now: Time)
    requires c.request in db.listings && (c.refund.Some? ==> Apply(db.till.purse, c.refund.value).Ok?)
    ensures var (db', ok) := CancelRequest(db, c, now);
            var (l, done) := CancelStep(db.listings[c.request], c.from, c.actor, c.reopen, c.reopenExpiresAt, now);
            && ok == done
            && c.request in db'.listings && db'.listings[c.request] == l
  {
    hide CancelStep, Apply;
  }

  /** Read and committed at once, a cancellation is possible iff the user is the customer of a request
      that still reads open in some way or the provider of a job not yet reached; and it then goes
      through, its refund included. */
  lemma CancelsIff(db: Db, user: UserId, rid: RequestId, policy: Policy, now: Time)
    requires Billing.Inv(db) && rid in db.listings
    ensures var c := DecideCancel(db, user, rid, policy, now);
            && (c.Some? <==> MayCancel(db, user, rid, db.listings[rid].row.Effective(now)))
            && (c.Some? ==> CancelRequest(db, c.value, now).1)
  {
    CancelDecidedIff(db, user, rid, policy, now);
    DecidedCancels(db, user, rid, policy, now);
    var c := DecideCancel(db, user, rid, policy, now);
    if c.Some? {
      if c.value.refund.Some? {
        RefundIsWritten(db, rid, c.value.from, c.value.actor, now, policy.refundGrace);
      }
      CancelCommits(db, c.value, now);
    }
    hide Billing.Inv, RefundDue, RoleOf, MayCancel, Apply, CancelStep, CanCancel, Request.Effective, CancelRequest;
  }

  lemma ReopenedRow(l: Listing, from: Status, reopenExpiresAt: Time, now: Time)
    ensures var (after, ok) := CancelStep(l, from, Provider, true, reopenExpiresAt, now);
            ok ==> after.row.status.Open? && after.row.expiresAt == reopenExpiresAt
  {
    hide Lock, ExpireSelection, RejectOffers, CancelMatches;
  }

  lemma SelectionExpired(l: Listing, now: Time, p: ProviderId)
    requires SelectionCoupled(l.row, l.offers)
    ensures Lock(l, now).matches == l.matches
    ensures var offers := ExpireSelection(Lock(l, now).offers, Lock(l, now).row.selected);
            && offers.Keys == l.offers.Keys
            && (p in l.offers ==>
                  offers[p].status == if l.offers[p].status.OfferSelected? then OfferExpired else l.offers[p].status)
  {
    hide Request.Effective;
  }

  /** A cancellation ends the live match and no other, expires an offer still waiting for confirmation and,
      when the provider backs out, rejects its offer for good; every other offer stays as it is. */
  lemma CancelLeaves(l: Listing, from: Status, actor: Role, reopen: bool, reopenExpiresAt: Time, now: Time,
                     p: ProviderId)
    requires Coupled(l) && CancelStep(l, from, actor, reopen, reopenExpiresAt, now).1
    ensures var after := CancelStep(l, from, actor, reopen, reopenExpiresAt, now).0;
            && after.row.status == (if reopen then Open else Cancelled)
            && after.matches.Keys == l.matches.Keys && after.offers.Keys == l.offers.Keys
            && (p in l.matches ==>
                  after.matches[p] == if !l.matches[p].status.MatchActive? then l.matches[p]
                                      else l.matches[p].(status := MatchCancelled, cancelledBy := Some(actor),
                                                         closedAt := Some(now)))
            && (p in l.offers ==>
                  after.offers[p].status ==
                    if l.offers[p].status.OfferSelected? then OfferExpired
                    else if reopen && p in l.matches && l.matches[p].status.MatchActive? then OfferRejected
                    else l.offers[p].status)
  {
    SelectionExpired(l, now, p);
    hide Lock, Coupled, ExpireSelection;
  }

  lemma ReadsOpen(r: Request)
    requires r.status.Open?
    ensures forall later :: later < r.expiresAt ==> r.Effective(later).Open?
  {
  }

  lemma BackOutIs(db: Db, user: UserId, rid: RequestId, policy: Policy, now: Time, c: CancelParams)
    requires DecideCancel(db, user, rid, policy, now) == Some(c) && c.actor.Provider?
    ensures rid in db.listings && c.request == rid && c.reopen && c.refund.None?
    ensures var expiresAt, soonest := db.listings[rid].row.expiresAt, now + policy.requestTtl;
            c.reopenExpiresAt == if expiresAt < soonest then soonest else expiresAt
  {
    hide RoleOf, CanCancel, CurrentMatch, Request.Effective;
  }

  /** A request that a provider backs out of stays open at least the usual time, and never shorter than
      it had. */
  lemma ReopenedLongEnough(db: Db, user: UserId, rid: RequestId, policy: Policy, now: Time, c: CancelParams)
    requires Billing.Inv(db) && rid in db.listings && policy.requestTtl > 0
    requires DecideCancel(db, user, rid, policy, now) == Some(c) && c.actor.Provider?
    ensures var db' := CancelRequest(db, c, now).0;
            && rid in db'.listings
            && var before, after := db.listings[rid].row, db'.listings[rid].row;
               && after.status.Open? && after.expiresAt >= before.expiresAt
               && (after.expiresAt == before.expiresAt || after.expiresAt == now + policy.requestTtl)
               && forall later :: now <= later < now + policy.requestTtl ==> after.Effective(later).Open?
  {
    DecidedCancels(db, user, rid, policy, now);
    BackOutIs(db, user, rid, policy, now, c);
    CancelCommits(db, c, now);
    ReopenedRow(db.listings[rid], c.from, c.reopenExpiresAt, now);
    ReadsOpen(CancelRequest(db, c, now).0.listings[rid].row);
    hide Billing.Inv, DecideCancel, Apply, CancelStep, CancelRequest, Request.Effective;
  }

  /** The next step of a live job, for the provider who holds it; the customer may confirm completion. */
  ghost predicate MayStep(db: Db, user: UserId, rid: RequestId, to: Status)
    requires rid in db.listings
  {
    var row := db.listings[rid].row;
    if row.customer == user then row.status.Arrived? && to.Completed?
    else
      && HoldsMatch(db, rid, user)
      && match row.status
         case Matched => to.OnTheWay?
         case OnTheWay => to.Arrived?
         case Arrived => to.Completed?
         case _ => false
  }

  lemma LiveReadsAsStored(r: Request, now: Time)
    ensures r.Effective(now).IsMatched() <==> r.status.IsMatched()
    ensures r.status.IsMatched() ==> r.Effective(now) == r.status
  {
  }

  lemma StepDecidedIff(db: Db, user: UserId, rid: RequestId, to: Status, now: Time)
    requires ListingsOk(db.listings) && rid in db.listings
    ensures DecideTransition(db, user, rid, to, now).Some? <==> MayStep(db, user, rid, to)
  {
    hide ListingsOk, HoldsMatch, RoleOf, Request.Effective;
    LiveReadsAsStored(db.listings[rid].row, now);
    CustomersRole(db, db.listings[rid], user);
    if db.listings[rid].row.status.IsMatched() {
      ProvidersRole(db, rid, user);
    }
  }

  /** A job step is possible iff it is the next one and the user's to make; and it then goes through. */
  lemma StepsIff(db: Db, user: UserId, rid: RequestId, to: Status, now: Time)
    requires ListingsOk(db.listings) && rid in db.listings
    ensures var d := DecideTransition(db, user, rid, to, now);
            && (d.Some? <==> MayStep(db, user, rid, to))
            && (d.Some? ==> TransitionJob(db, rid, d.value.0, to, d.value.1, now).1)
  {
    StepDecidedIff(db, user, rid, to, now);
    LiveReadsAsStored(db.listings[rid].row, now);
    hide ListingsOk, MayStep, AdvanceMatches, RoleOf;
  }
}
