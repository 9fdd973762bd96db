/** The repository: tables updated statement by statement, each transaction committing or rolling back. */
module LocalServices {
  import opened Common
  import opened Wallet
  import opened Topups
  import opened ServiceRequest
  import opened Marketplace

  class LocalServiceRepository {
    var listings: map<RequestId, Listing>
    var accounts: map<ProviderId, Account>
    var ledger: seq<Row>
    var topups: TopupTable

    /** Everything the tables hold, as the value the marketplace's properties are about. */
    ghost function State(): Db
      reads this
    {
      Db(listings, Till(Purse(accounts, ledger), topups))
    }

    constructor ()
      ensures State() == EMPTY
    {
      listings, accounts, ledger, topups := map[], map[], [], map[];
    }

    // ---- statements ----

    method SetStatus(rid: RequestId, p: ProviderId, s: OfferStatus)
      requires rid in listings
      modifies this`listings
      ensures listings == old(listings)[rid := old(listings[rid]).(offers := SetOffer(old(listings[rid]).offers, p, s))]
    {
      var l := listings[rid];
      if p in l.offers {
        l := l.(offers := l.offers[p := l.offers[p].(status := s)]);
      }
      listings := listings[rid := l];
    }

    method InsertEvent(rid: RequestId, s: Status, actor: Role, now: Time)
      requires rid in listings
      modifies this`listings
      ensures var l := old(listings[rid]);
              listings == old(listings)[rid := l.(events := l.events + [Event(s, actor, now)])]
    {
      listings := listings[rid := listings[rid].(events := listings[rid].events + [Event(s, actor, now)])];
    }

    method LockRequest(rid: RequestId, now: Time)
      requires rid in listings
      modifies this`listings
      ensures listings == old(listings)[rid := Lock(old(listings[rid]), now)]
    {
      var r := listings[rid].row;
      var eff := r.Effective(now);
      if eff == r.status {
        return;
      }
      if r.status.PendingConfirmation? && r.selected.Some? {
        var offers := listings[rid].offers;
        if r.selected.value in offers && offers[r.selected.value].status.OfferSelected? {
          SetStatus(rid, r.selected.value, OfferExpired);
        }
      }
      var closedAt := if eff.Expired? then Some(now) else None;
      r := r.(status := eff, selected := None, selectionExpiresAt := None, closedAt := closedAt);
      listings := listings[rid := listings[rid].(row := r)];
      InsertEvent(rid, eff, System, now);
    }

    /** One ledger row and the cached balance, together, exactly once per key. */
    method ApplyLedger(e: Entry) returns (r: Result<bool, LedgerError>)
      modifies this`accounts, this`ledger
      ensures match Apply(old(State().till.purse), e)
              case Ok((purse, applied)) => r == Ok(applied) && State().till.purse == purse
              case Err(error) => r == Err(error) && State() == old(State())
    {
      if e.provider !in accounts {
        return Err(NoSuchProvider);
      }
      var balance := accounts[e.provider].balance;
      var next := balance + e.amount;
      if next < 0 {
        return Err(InsufficientCredit(balance, -e.amount));
      }
      if !RowAllowed(e.kind, e.amount) {
        return Err(RowForbidden);
      }
      if Posted(ledger, e.key) {
        return Ok(false);
      }
      ledger := ledger + [Row(e.provider, e.kind, e.amount, next, e.key)];
      accounts := accounts[e.provider := accounts[e.provider].(balance := next)];
      return Ok(true);
    }

    // ---- providers and requests ----

    method CreateProvider(p: ProviderId, owner: UserId, welcome: int) returns (failure: Option<LedgerError>)
      modifies this
      ensures match Marketplace.CreateProvider(old(State()), p, owner, welcome)
              case Ok(db) => failure.None? && State() == db
              case Err(e) => failure == Some(e) && State() == old(State())
    {
      var saved := accounts;
      if p in accounts || exists q :: q in accounts && accounts[q].owner == owner {
        return Some(ProfileExists);
      }
      accounts := accounts[p := Account(owner, true, 0)];
      if welcome > 0 {
        var r := ApplyLedger(Entry(p, WelcomeCredit, welcome, WelcomeKey(p)));
        if r.Err? {
          accounts := saved;
          return Some(r.error);
        }
      }
      return None;
    }

    method SetProviderStatus(p: ProviderId, active: bool)
      modifies this`accounts
      ensures State() == Marketplace.SetProviderStatus(old(State()), p, active)
    {
      if p in accounts {
        accounts := accounts[p := accounts[p].(active := active)];
      }
    }

    method CreateRequest(rid: RequestId, customer: UserId, clientId: Option<string>, expiresAt: Time,
                         now: Time) returns (ok: bool)
      modifies this`listings
      ensures (State(), ok) == Marketplace.CreateRequest(old(State()), rid, customer, clientId, expiresAt, now)
    {
      if rid in listings || ClientIdTaken(listings, customer, clientId) {
        return false;
      }
      var row := Request(customer, clientId, Open, None, None, expiresAt, None);
      listings := listings[rid := Listing(row, map[], map[], [])];
      InsertEvent(rid, Open, Customer, now);
      assert listings[rid].events == [Event(Open, Customer, now)];
      assert listings == old(listings)[rid := NewListing(customer, clientId, expiresAt, now)];
      return true;
    }

    // ---- offers and matching ----

    method UpsertOffer(o: OfferId, quote: Quote, now: Time) returns (ok: bool)
      modifies this`listings
      ensures (State(), ok) == SendOffer(old(State()), o, quote, now)
    {
      var saved := listings;
      if o.request !in listings {
        return false;
      }
      LockRequest(o.request, now);
      var l := listings[o.request];
      if !l.row.status.TakesOffers() {
        return false;
      }
      if o.provider !in l.offers {
        if o.provider !in accounts {
          listings := saved;
          return false;
        }
        l := l.(offers := l.offers[o.provider := Offer(OfferPending, quote, now)]);
      } else if l.offers[o.provider].status.OfferPending? && o.provider in accounts {
        l := l.(offers := l.offers[o.provider := l.offers[o.provider].(quote := quote)]);
      } else {
        RollBack(o.request, saved);
        return false;
      }
      listings := listings[o.request := l];
      assert listings == saved[o.request := l];
      return true;
    }

    method SelectOffer(rid: RequestId, o: OfferId, customer: UserId, deadline: Time, now: Time) returns (ok: bool)
      modifies this`listings
      ensures (State(), ok) == Marketplace.SelectOffer(old(State()), rid, o, customer, deadline, now)
    {
      if rid !in listings {
        return false;
      }
      LockRequest(rid, now);
      var l := listings[rid];
      if l.row.customer != customer || !l.row.status.Open? {
        return false;
      }
      if o.request != rid || o.provider !in l.offers || !l.offers[o.provider].status.OfferPending? {
        return false;
      }
      SetStatus(rid, o.provider, OfferSelected);
      var row := l.row.(status := PendingConfirmation, selected := Some(o.provider),
                        selectionExpiresAt := Some(deadline));
      listings := listings[rid := listings[rid].(row := row)];
      InsertEvent(rid, PendingConfirmation, Customer, now);
      assert listings == old(listings)[rid := listings[rid]];
      return true;
    }

    method RejectSelection(o: OfferId, caller: ProviderId, now: Time) returns (ok: bool)
      modifies this`listings
      ensures (State(), ok) == Marketplace.RejectSelection(old(State()), o, caller, now)
    {
      if o.request !in listings || o.provider !in listings[o.request].offers {
        assert o.request in listings ==> listings == listings[o.request := listings[o.request]];
        return false;
      }
      LockRequest(o.request, now);
      var l := listings[o.request];
      if !AwaitsConfirmationOf(l, o.provider) || o.provider != caller || !l.offers[o.provider].status.OfferSelected? {
        return false;
      }
      SetStatus(o.request, o.provider, OfferRejected);
      var row := l.row.(status := Open, selected := None, selectionExpiresAt := None);
      listings := listings[o.request := listings[o.request].(row := row)];
      InsertEvent(o.request, Open, Provider, now);
      assert listings == old(listings)[o.request := listings[o.request]];
      return true;
    }

    /** The qualified match: lock, re-check, return an existing match, check the provider, then write
        the match, the fee, the offer and the request, or roll all of it back. */
    method AcceptOffer(o: OfferId, caller: ProviderId, fee: int, charge: bool,
                       now: Time) returns (outcome: AcceptOutcome)
      modifies this
      ensures (State(), outcome) == Marketplace.AcceptOffer(old(State()), o, caller, fee, charge, now)
    {
      var saved := listings;
      if o.request !in listings || o.provider !in listings[o.request].offers || caller != o.provider {
        return OfferNotFound;
      }
      LockRequest(o.request, now);
      var l := listings[o.request];
      if o.provider in l.matches {
        return AlreadyAccepted(l.matches[o.provider]);
      }
      if !AwaitsConfirmationOf(l, o.provider) {
        return NotWaiting;
      }
      if o.provider !in accounts {
        RollBack(o.request, saved);
        return WriteRefused;
      }
      if !accounts[o.provider].active {
        RollBack(o.request, saved);
        return Suspended;
      }
      var balance := accounts[o.provider].balance;
      if charge && balance < fee {
        RollBack(o.request, saved);
        return TooLittleCredit(balance, fee);
      }
      if fee < 0 {
        RollBack(o.request, saved);
        return WriteRefused;
      }
      if Active(l.matches) != {} {
        RollBack(o.request, saved);
        return AlreadyMatched;
      }
      var m := NewMatch(fee, !charge, now);
      listings := listings[o.request := l.(matches := l.matches[o.provider := m])];
      if charge && fee > 0 {
        // The balance was checked on the same locked row, so this write cannot be refused.
        var _ := ApplyLedger(FeeEntry(o, fee));
      }
      SetStatus(o.request, o.provider, OfferAccepted);
      var row := l.row.(status := Matched, selected := None, selectionExpiresAt := None);
      listings := listings[o.request := listings[o.request].(row := row)];
      InsertEvent(o.request, Matched, Provider, now);
      assert listings == saved[o.request := listings[o.request]];
      return Accepted(m);
    }

    method RollBack(rid: RequestId, saved: map<RequestId, Listing>)
      requires rid in saved
      modifies this`listings
      ensures listings == saved == saved[rid := saved[rid]]
    {
      listings := saved;
    }

    // ---- the job ----

    method TransitionJob(rid: RequestId, from: Status, to: Status, actor: Role, now: Time) returns (ok: bool)
      modifies this`listings
      ensures (State(), ok) == Marketplace.TransitionJob(old(State()), rid, from, to, actor, now)
    {
      if rid !in listings || listings[rid].row.status != from {
        assert rid in listings ==> listings == listings[rid := listings[rid]];
        return false;
      }
      var closedAt := if to.IsClosed() then Some(now) else None;
      listings := listings[rid := listings[rid].(row := listings[rid].row.(status := to, closedAt := closedAt))];
      listings := listings[rid := listings[rid].(matches := AdvanceMatches(listings[rid].matches, to, now))];
      InsertEvent(rid, to, actor, now);
      assert listings == old(listings)[rid := listings[rid]];
      return true;
    }

    method Cancel(c: CancelParams, now: Time) returns (ok: bool)
      modifies this
      ensures (State(), ok) == CancelRequest(old(State()), c, now)
    {
      var saved := listings;
      if c.request !in listings {
        return false;
      }
      LockRequest(c.request, now);
      var l := listings[c.request];
      if l.row.status != c.from {
        return false;
      }
      l := l.(offers := ExpireSelection(l.offers, l.row.selected));
      var cancelled := Active(l.matches);
      l := l.(matches := CancelMatches(l.matches, c.actor, now));
      if c.actor.Provider? && cancelled == {} {
        RollBack(c.request, saved);
        return false;
      }
      if c.reopen {
        l := l.(offers := RejectOffers(l.offers, cancelled),
                row := l.row.(status := Open, selected := None, selectionExpiresAt := None,
                              expiresAt := c.reopenExpiresAt));
        listings := listings[c.request := l];
        InsertEvent(c.request, Open, c.actor, now);
      } else {
        l := l.(row := l.row.(status := Cancelled, selected := None, selectionExpiresAt := None,
                              closedAt := Some(now)));
        listings := listings[c.request := l];
        InsertEvent(c.request, Cancelled, c.actor, now);
      }
      assert listings == saved[c.request := listings[c.request]];
      if c.refund.Some? {
        var r := ApplyLedger(c.refund.value);
        if r.Err? {
          listings := saved;
          return false;
        }
      }
      return true;
    }

    // ---- wallet ----

    /** The row posted under the operation's key, now or by an earlier call. */
    method AdjustCredit(p: ProviderId, amount: int, operation: nat) returns (r: Result<Row, LedgerError>)
      modifies this
      ensures match Marketplace.AdjustCredit(old(State()), p, amount, operation)
              case Ok(db) => r.Ok? && State() == db && r.value in ledger && r.value.key == AdjustmentKey(operation)
              case Err(e) => r == Err(e) && State() == old(State())
      ensures r.Ok? && Posted(old(ledger), AdjustmentKey(operation)) ==> State() == old(State())
      ensures r.Ok? && !Posted(old(ledger), AdjustmentKey(operation)) ==>
                && p in accounts && ledger == old(ledger) + [r.value]
                && r.value == Row(p, AdminAdjustment, amount, accounts[p].balance, AdjustmentKey(operation))
    {
      var key := AdjustmentKey(operation);
      var applied := ApplyLedger(Entry(p, AdminAdjustment, amount, key));
      if applied.Err? {
        return Err(applied.error);
      }
      assert Posted(ledger, key) by {
        ApplyMoves(old(State().till.purse), Entry(p, AdminAdjustment, amount, key));
      }
      var i :| 0 <= i < |ledger| && ledger[i].key == key;
      return Ok(ledger[i]);
    }

    method CreateTopup(id: TopupId, p: ProviderId, amount: int, currency: string, credits: int) returns (ok: bool)
      modifies this`topups
      ensures (State().till, ok) == Topups.CreateTopup(old(State().till), id, p, amount, currency, credits)
    {
      if id in topups || p !in accounts || amount <= 0 || credits <= 0 || currency != "thb" {
        return false;
      }
      topups := topups[id := Topup(p, amount, currency, credits, TopupPending, None)];
      return true;
    }

    method SetTopupPayment(id: TopupId, intent: string)
      modifies this`topups
      ensures State().till == Receive(old(State().till), Attach(id, intent))
    {
      if id in topups && topups[id].intent.None? && !IntentTaken(topups, id, intent) {
        topups := topups[id := topups[id].(intent := Some(intent))];
      }
    }

    method MarkTopupPaid(id: TopupId, intent: string, amount: int, currency: string) returns (applied: bool)
      modifies this
      ensures (State().till, applied) == PayStep(old(State().till), id, intent, amount, currency)
      ensures listings == old(listings)
    {
      var saved := topups;
      if id !in topups || topups[id].Settled() {
        return false;
      }
      var t := topups[id];
      if (t.intent.Some? && t.intent.value != intent) || t.amount != amount || t.currency != currency {
        return false;
      }
      if IntentTaken(topups, id, intent) {
        return false;
      }
      topups := topups[id := t.(status := TopupPaid, intent := Some(intent))];
      var r := ApplyLedger(Entry(t.provider, TopUp, t.credits, TopUpKey(id)));
      if r.Err? {
        topups := saved;
        return false;
      }
      return r.value;
    }

    method MarkTopup(id: TopupId, to: TopupStatus)
      modifies this`topups
      ensures State().till == Receive(old(State().till), Mark(id, to))
    {
      if id in topups && topups[id].status.TopupPending? {
        topups := topups[id := topups[id].(status := to)];
      }
    }

    /** Returns the top-up it moved, if any; the unique index leaves it no second one to move. */
    method MarkTopupRefundedByPaymentIntent(intent: string) returns (r: Option<Topup>)
      requires IntentsUnique(topups)
      modifies this`topups
      ensures State().till == Receive(old(State().till), RefundIntent(intent))
      ensures r.None? ==> topups == old(topups)
      ensures r.Some? ==> exists id :: id in topups && r == Some(topups[id]) && topups == old(topups)[id := topups[id]]
    {
      if id :| id in topups && topups[id].intent == Some(intent) && topups[id].status.TopupPaid? {
        var t := topups[id].(status := TopupRefunded);
        assert RefundStep(State().till, intent).topups == topups[id := t];
        topups := topups[id := t];
        assert topups[id] == t;
        return Some(t);
      }
      assert RefundStep(State().till, intent).topups == topups;
      return None;
    }
  }
}
