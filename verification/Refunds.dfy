/**
 Who gets a refund. When reading and committing are one step, a refund is posted exactly for the
 matches the rule names; when other calls come in between, exactly when the decision is still the
 one the locked rows would give.
 */
module Refunds {
  import opened Common
  import opened Wallet
  import opened Topups
  import opened ServiceRequest
  import opened Coupling
  import opened Timeline
  import opened Marketplace
  import opened Billing

  /** The customer cancelled it, before travel, within the grace period, and it had been charged. */
  predicate Refundable(m: Match, grace: Time) {
    && m.status.MatchCancelled? && m.cancelledBy == Some(Customer)
    && m.startedTravelAt.None? && m.Charged()
    && m.closedAt.Some? && m.closedAt.value - m.createdAt <= grace
  }

  predicate MayRefund(m: Option<Match>, grace: Time) {
    m.Some? && Refundable(m.value, grace)
  }

  /** A refund row exists iff the match is refundable. */
  ghost predicate RefundRule(db: Db, grace: Time) {
    forall o :: Posted(db.till.purse.ledger, RefundKey(o)) <==> MayRefund(MatchAt(db, o), grace)
  }

  lemma RefundRuleFrame(db: Db, db': Db, grace: Time)
    requires RefundRule(db, grace)
    requires forall o :: Posted(db'.till.purse.ledger, RefundKey(o)) <==> Posted(db.till.purse.ledger, RefundKey(o))
    requires forall o :: MayRefund(MatchAt(db', o), grace) == MayRefund(MatchAt(db, o), grace)
    ensures RefundRule(db', grace)
  {
  }

  // ---- calls other than a committed cancellation ----

  lemma StepRefundable(l: Listing, op: Op, now: Time, p: ProviderId, grace: Time)
    requires !(op.Cancel? && Step(l, op, now).1)
    ensures (p in l.matches && Refundable(l.matches[p], grace)) <==>
            (p in Step(l, op, now).0.matches && Refundable(Step(l, op, now).0.matches[p], grace))
  {
  }

  lemma PutRefundable(db: Db, rid: RequestId, op: Op, now: Time, grace: Time)
    requires rid in db.listings && !(op.Cancel? && Step(db.listings[rid], op, now).1)
    ensures var db' := Put(db, rid, Step(db.listings[rid], op, now).0);
            forall o :: MayRefund(MatchAt(db', o), grace) == MayRefund(MatchAt(db, o), grace)
  {
    var db' := Put(db, rid, Step(db.listings[rid], op, now).0);
    forall o
      ensures MayRefund(MatchAt(db', o), grace) == MayRefund(MatchAt(db, o), grace)
    {
      if o.request == rid {
        StepRefundable(db.listings[rid], op, now, o.provider, grace);
      }
    }
  }

  predicate Cancels(db: Db, call: Call, now: Time) {
    call.CallCancel? && CancelRequest(db, call.cancel, now).1
  }

  /** The one step on request rows a call takes, if any. */
  function StepOf(db: Db, call: Call, now: Time): Option<(RequestId, Op)> {
    match call
    case CallSendOffer(o, quote) => Some((o.request, Upsert(o.provider, quote)))
    case CallSelectOffer(rid, o, customer, deadline) =>
      if o.request == rid || rid !in db.listings then Some((rid, Select(customer, o.provider, deadline)))
      else Some((rid, Select(db.listings[rid].row.customer + 1, 0, 0)))
    case CallRejectSelection(o, caller) => Some((o.request, Reject(o.provider, caller)))
    case CallAcceptOffer(o, caller, fee, charge) =>
      Some((o.request, Accept(o.provider, fee, !charge, AcceptRefusal(db.till.purse, o, fee, charge).Some?)))
    case CallTransitionJob(rid, from, to, actor) => Some((rid, Transition(from, to, actor)))
    case CallCancel(c) => Some((c.request, Cancel(c.from, c.actor, c.reopen, c.reopenExpiresAt)))
    case _ => None
  }

  /** Every call changes the request rows by its own step or (refused, rolled back) not at all. */
  lemma ExecListings(db: Db, call: Call, now: Time)
    ensures var s := StepOf(db, call, now);
            var db' := Exec(db, call, now);
            || db'.listings == db.listings
            || (s.Some? && s.value.0 in db.listings
                && db'.listings == Put(db, s.value.0, Step(db.listings[s.value.0], s.value.1, now).0).listings)
            || (call.CallCreateRequest? && call.request !in db.listings
                && !ClientIdTaken(db.listings, call.customer, call.clientId)
                && var l := NewListing(call.customer, call.clientId, call.expiresAt, now);
                   db'.listings == Put(db, call.request, l).listings)
  {
  }

  lemma ExecRefundable(db: Db, call: Call, now: Time, grace: Time)
    requires !Cancels(db, call, now)
    ensures forall o :: MayRefund(MatchAt(Exec(db, call, now), o), grace) == MayRefund(MatchAt(db, o), grace)
  {
    ExecListings(db, call, now);
    var s := StepOf(db, call, now);
    var db' := Exec(db, call, now);
    if call.CallCancel? {
      if call.cancel.request in db.listings && !Step(db.listings[s.value.0], s.value.1, now).1 {
        PutRefundable(db, s.value.0, s.value.1, now, grace);
      }
    } else if s.Some? && s.value.0 in db.listings && db'.listings != db.listings {
      PutRefundable(db, s.value.0, s.value.1, now, grace);
      var l := Step(db.listings[s.value.0], s.value.1, now).0;
      assert forall o :: MatchAt(db', o) == MatchAt(Put(db, s.value.0, l), o);
    }
  }

  lemma ApplyRefundKeys(w: Purse, e: Entry)
    requires !e.key.RefundKey? && Apply(w, e).Ok?
    ensures forall o :: Posted(Apply(w, e).value.0.ledger, RefundKey(o)) <==> Posted(w.ledger, RefundKey(o))
  {
    ApplyMoves(w, e);
  }

  /** Only a committed cancellation posts a refund. */
  lemma ExecRefundKeys(db: Db, call: Call, now: Time)
    requires !Cancels(db, call, now)
    ensures forall o :: Posted(Exec(db, call, now).till.purse.ledger, RefundKey(o)) <==>
            Posted(db.till.purse.ledger, RefundKey(o))
  {
    var w := db.till.purse;
    match call
    case CallCreateProvider(p, owner, welcome) =>
      if CreateProvider(db, p, owner, welcome).Ok? && welcome > 0 {
        ApplyRefundKeys(w.(accounts := w.accounts[p := Account(owner, true, 0)]),
          Entry(p, WelcomeCredit, welcome, WelcomeKey(p)));
      }
    case CallAcceptOffer(o, caller, fee, charge) =>
      if Apply(w, FeeEntry(o, fee)).Ok? { ApplyRefundKeys(w, FeeEntry(o, fee)); }
    case CallAdjustCredit(p, amount, operation) =>
      var e := Entry(p, AdminAdjustment, amount, AdjustmentKey(operation));
      if Apply(w, e).Ok? { ApplyRefundKeys(w, e); }
    case CallReceive(m) =>
      if m.Pay? && m.id in db.till.topups {
        var e := TopupEntry(m.id, db.till.topups[m.id]);
        if Apply(w, e).Ok? { ApplyRefundKeys(w, e); }
      }
    case _ =>
  }

  lemma ExecKeepsRule(db: Db, call: Call, now: Time, grace: Time)
    requires RefundRule(db, grace) && !Cancels(db, call, now)
    ensures RefundRule(Exec(db, call, now), grace)
  {
    ExecRefundable(db, call, now, grace);
    ExecRefundKeys(db, call, now);
    RefundRuleFrame(db, Exec(db, call, now), grace);
  }

  // ---- a committed cancellation ----

  lemma RolledUpCancel(l: Listing, c: CancelParams, now: Time)
    requires Coupled(l) && CancelStep(l, c.from, c.actor, c.reopen, c.reopenExpiresAt, now).1
    ensures Lock(l, now).row.status == c.from && Lock(l, now).matches == l.matches && Coupled(Lock(l, now))
    ensures CancelStep(l, c.from, c.actor, c.reopen, c.reopenExpiresAt, now).0.matches ==
            CancelMatches(l.matches, c.actor, now)
  {
    LockCoupled(l, now);
  }

  /** After the commit, exactly the match whose refund was due at that moment has become refundable. */
  lemma CommittedRefundable(l: Listing, rid: RequestId, c: CancelParams, now: Time, grace: Time, p: ProviderId)
    requires Coupled(l) && CanCancel(c.from, c.actor)
    requires CancelStep(l, c.from, c.actor, c.reopen, c.reopenExpiresAt, now).1
    requires p in l.matches
    ensures Refundable(CancelMatches(l.matches, c.actor, now)[p], grace)
            <==> (Refundable(l.matches[p], grace)
                  || RefundDue(l, rid, c.from, c.actor, now, grace) == Some(RefundEntry(OfferId(rid, p), l.matches[p])))
  {
  }

  lemma CancelWrites(db: Db, c: CancelParams, now: Time)
    requires CancelRequest(db, c, now).1
    ensures c.request in db.listings
    ensures CancelStep(db.listings[c.request], c.from, c.actor, c.reopen, c.reopenExpiresAt, now).1
    ensures var db' := CancelRequest(db, c, now).0;
            var l := CancelStep(db.listings[c.request], c.from, c.actor, c.reopen, c.reopenExpiresAt, now).0;
            && db'.listings == db.listings[c.request := l]
            && (forall k :: Posted(db'.till.purse.ledger, k) <==>
                  Posted(db.till.purse.ledger, k) || (c.refund.Some? && k == c.refund.value.key))
  {
    if c.refund.Some? {
      ApplyMoves(db.till.purse, c.refund.value);
    }
  }

  lemma CancelMatchAt(db: Db, c: CancelParams, now: Time, o: OfferId)
    requires CancelRequest(db, c, now).1 && Coupled(db.listings[c.request])
    ensures var before, after := MatchAt(db, o), MatchAt(CancelRequest(db, c, now).0, o);
            if o.request == c.request && before.Some?
            then after == Some(CancelMatches(db.listings[c.request].matches, c.actor, now)[o.provider])
            else after == before
  {
    hide Coupled;
    RolledUpCancel(db.listings[c.request], c, now);
  }

  /** Which matches are refundable after a committed cancellation. */
  lemma CancelRefundables(db: Db, c: CancelParams, now: Time, grace: Time, o: OfferId)
    requires CancelRequest(db, c, now).1 && Coupled(db.listings[c.request]) && CanCancel(c.from, c.actor)
    ensures MayRefund(MatchAt(CancelRequest(db, c, now).0, o), grace) <==>
            (MayRefund(MatchAt(db, o), grace)
             || (o.request == c.request && MatchAt(db, o).Some?
                 && RefundDue(db.listings[c.request], c.request, c.from, c.actor, now, grace)
                    == Some(RefundEntry(o, MatchAt(db, o).value))))
  {
    CancelMatchAt(db, c, now, o);
    if o.request == c.request && MatchAt(db, o).Some? {
      CommittedRefundable(db.listings[c.request], c.request, c, now, grace, o.provider);
    }
  }

  /** A due refund names the active match, which has none yet. */
  lemma DueIsNew(l: Listing, rid: RequestId, c: CancelParams, now: Time, grace: Time)
    requires Coupled(l) && CanCancel(c.from, c.actor) && RefundDue(l, rid, c.from, c.actor, now, grace).Some?
    ensures var e := RefundDue(l, rid, c.from, c.actor, now, grace).value;
            && e.key.RefundKey? && e.key.match_.request == rid && e.key.match_.provider in l.matches
            && e == RefundEntry(e.key.match_, l.matches[e.key.match_.provider])
            && l.matches[e.key.match_.provider].status.MatchActive?
  {
  }

  /** The rule holds after a committed cancellation iff the refund decided by the earlier read is the
      one the rows under the lock would give. */
  lemma CancelKeepsRuleIff(db: Db, c: CancelParams, now: Time, grace: Time)
    requires ListingsOk(db.listings) && RefundRule(db, grace) && CallOk(db, CallCancel(c), now, grace)
    requires CancelRequest(db, c, now).1
    ensures RefundRule(CancelRequest(db, c, now).0, grace) <==>
            c.refund == RefundDue(db.listings[c.request], c.request, c.from, c.actor, now, grace)
  {
    CancelWrites(db, c, now);
    var db' := CancelRequest(db, c, now).0;
    var l := db.listings[c.request];
    assert ListingOk(l);
    var due := RefundDue(l, c.request, c.from, c.actor, now, grace);
    forall o
      ensures MayRefund(MatchAt(db', o), grace) <==>
              MayRefund(MatchAt(db, o), grace)
              || (o.request == c.request && MatchAt(db, o).Some? && due == Some(RefundEntry(o, MatchAt(db, o).value)))
    {
      CancelRefundables(db, c, now, grace, o);
    }
    if due.Some? {
      DueIsNew(l, c.request, c, now, grace);
    }
    if c.refund == due {
      RuleAfterDueRefund(db, db', c, now, grace);
    } else {
      RuleBrokenOtherwise(db, db', c, now, grace);
    }
  }

  ghost predicate AfterCancel(db: Db, db': Db, c: CancelParams, now: Time, grace: Time)
    requires c.request in db.listings
  {
    var due := RefundDue(db.listings[c.request], c.request, c.from, c.actor, now, grace);
    && (forall k :: Posted(db'.till.purse.ledger, k) <==>
          Posted(db.till.purse.ledger, k) || (c.refund.Some? && k == c.refund.value.key))
    && (forall o :: MayRefund(MatchAt(db', o), grace) <==>
          MayRefund(MatchAt(db, o), grace)
          || (o.request == c.request && MatchAt(db, o).Some? && due == Some(RefundEntry(o, MatchAt(db, o).value))))
  }

  lemma RuleAfterDueRefund(db: Db, db': Db, c: CancelParams, now: Time, grace: Time)
    requires c.request in db.listings && Coupled(db.listings[c.request]) && CanCancel(c.from, c.actor)
    requires RefundRule(db, grace) && AfterCancel(db, db', c, now, grace)
    requires c.refund == RefundDue(db.listings[c.request], c.request, c.from, c.actor, now, grace)
    ensures RefundRule(db', grace)
  {
  }

  /** Either a due refund is missing, or a match that is not refundable has one. */
  lemma RuleBrokenOtherwise(db: Db, db': Db, c: CancelParams, now: Time, grace: Time)
    requires c.request in db.listings && Coupled(db.listings[c.request]) && CallOk(db, CallCancel(c), now, grace)
    requires RefundRule(db, grace) && AfterCancel(db, db', c, now, grace)
    requires CancelStep(db.listings[c.request], c.from, c.actor, c.reopen, c.reopenExpiresAt, now).1
    requires c.refund != RefundDue(db.listings[c.request], c.request, c.from, c.actor, now, grace)
    ensures !RefundRule(db', grace)
  {
  }
}
