/** Money moves exactly once: what every run of the marketplace keeps between matches and ledger. */
module Billing {
  import opened Common
  import opened Wallet
  import opened Topups
  import opened ServiceRequest
  import opened Coupling
  import opened Timeline
  import opened Marketplace

  ghost predicate ListingOk(l: Listing) {
    Coupled(l) && Replays(l) && Counted(l)
  }

  ghost predicate ListingsOk(listings: map<RequestId, Listing>) {
    forall rid :: rid in listings ==> ListingOk(listings[rid])
  }

  /** A match is charged iff its fee is posted, then as minus the fee, to its own provider. */
  ghost predicate FeeBilled(ledger: seq<Row>, m: Option<Match>, o: OfferId) {
    && (Posted(ledger, MatchFeeKey(o)) <==> m.Some? && m.value.Charged())
    && (forall i :: 0 <= i < |ledger| && ledger[i].key == MatchFeeKey(o) ==>
          m.Some? && ledger[i].provider == o.provider && ledger[i].amount == -m.value.fee)
  }

  /** A posted refund gives a charged match's own fee back to its own provider. */
  ghost predicate RefundBacked(ledger: seq<Row>, m: Option<Match>, o: OfferId) {
    forall i :: 0 <= i < |ledger| && ledger[i].key == RefundKey(o) ==>
      m.Some? && m.value.Charged() && ledger[i].provider == o.provider && ledger[i].amount == m.value.fee
  }

  ghost predicate OfferBilled(ledger: seq<Row>, m: Option<Match>, o: OfferId) {
    FeeBilled(ledger, m, o) && RefundBacked(ledger, m, o)
  }

  ghost predicate Billed(db: Db) {
    forall o :: OfferBilled(db.till.purse.ledger, MatchAt(db, o), o)
  }

  ghost predicate Inv(db: Db) {
    ListingsOk(db.listings) && TillOk(db.till) && Billed(db)
  }

  lemma EmptyInv()
    ensures Inv(EMPTY)
  {
  }

  // ---- the ledger side ----

  predicate SameTerm(a: Option<Match>, b: Option<Match>) {
    && (a.Some? <==> b.Some?)
    && (a.Some? ==> a.value.fee == b.value.fee && a.value.feeWaived == b.value.feeWaived)
  }

  /** Rows and terms unchanged: billed as before. */
  lemma BilledFrame(db: Db, db': Db)
    requires Billed(db) && db'.till.purse.ledger == db.till.purse.ledger
    requires forall o :: SameTerm(MatchAt(db, o), MatchAt(db', o))
    ensures Billed(db')
  {
  }

  /** What one more row must be for an offer to stay billed. */
  predicate RowFits(row: Row, m: Option<Match>, o: OfferId) {
    && (row.key == MatchFeeKey(o) ==>
          m.Some? && m.value.Charged() && row.provider == o.provider && row.amount == -m.value.fee)
    && (row.key == RefundKey(o) ==>
          m.Some? && m.value.Charged() && row.provider == o.provider && row.amount == m.value.fee)
  }

  lemma {:induction false} OfferBilledAppend(ledger: seq<Row>, row: Row, m: Option<Match>, o: OfferId)
    requires OfferBilled(ledger, m, o) && RowFits(row, m, o)
    ensures OfferBilled(ledger + [row], m, o)
  {
    PostedAppend(ledger, row, MatchFeeKey(o));
  }

  lemma {:induction false} PostedAppend(ledger: seq<Row>, row: Row, key: Key)
    ensures Posted(ledger + [row], key) <==> Posted(ledger, key) || row.key == key
  {
    var all := ledger + [row];
    if Posted(ledger, key) {
      var i :| 0 <= i < |ledger| && ledger[i].key == key;
      assert all[i].key == key;
    }
    assert all[|ledger|] == row;
  }

  /** The first fee row of a match that has just been made. */
  lemma {:induction false} OfferBilledFirst(ledger: seq<Row>, row: Row, m: Match, o: OfferId)
    requires OfferBilled(ledger, None, o) && row.key == MatchFeeKey(o) && RowFits(row, Some(m), o)
    ensures OfferBilled(ledger + [row], Some(m), o)
  {
    PostedAppend(ledger, row, MatchFeeKey(o));
  }

  /** Applying an entry that fits every match keeps them billed. */
  lemma BilledApply(db: Db, e: Entry)
    requires Billed(db) && Apply(db.till.purse, e).Ok?
    requires forall o, balance :: RowFits(Row(e.provider, e.kind, e.amount, balance, e.key), MatchAt(db, o), o)
    ensures Billed(SetPurse(db, Apply(db.till.purse, e).value.0))
  {
    var db' := SetPurse(db, Apply(db.till.purse, e).value.0);
    if Apply(db.till.purse, e).value.1 {
      var row := db'.till.purse.ledger[|db.till.purse.ledger|];
      forall o
        ensures OfferBilled(db'.till.purse.ledger, MatchAt(db', o), o)
      {
        assert MatchAt(db', o) == MatchAt(db, o);
        assert RowFits(Row(e.provider, e.kind, e.amount, row.balanceAfter, e.key), MatchAt(db, o), o);
        OfferBilledAppend(db.till.purse.ledger, row, MatchAt(db, o), o);
      }
    } else {
      BilledFrame(db, db');
    }
  }

  // ---- the rows of a request ----

  lemma StepListingOk(l: Listing, op: Op, now: Time)
    requires ListingOk(l) && Admissible(op)
    ensures ListingOk(Step(l, op, now).0)
  {
    StepCoupled(l, op, now);
    StepReplays(l, op, now);
    StepCounted(l, op, now);
  }

  /** The terms of a match are fixed when it is made, and it is never removed. */
  ghost predicate SameTerms(a: Matches, b: Matches) {
    forall p :: p in a ==>
      && p in b && a[p].fee == b[p].fee && a[p].feeWaived == b[p].feeWaived && a[p].createdAt == b[p].createdAt
      && (a[p].status.MatchCancelled? ==> a[p] == b[p])
  }

  lemma StepSameTerms(l: Listing, op: Op, now: Time)
    ensures SameTerms(l.matches, Step(l, op, now).0.matches)
    ensures !(op.Accept? && Step(l, op, now).1) ==> Step(l, op, now).0.matches.Keys == l.matches.Keys
  {
    assert Lock(l, now).matches == l.matches;
    hide Lock, SetOffer, ExpireSelection, RejectOffers;
    match op
    case Upsert(_, _) =>
    case Select(_, _, _) =>
    case Reject(_, _) =>
    case Accept(_, _, _, _) =>
    case Transition(_, to, _) =>
    case Cancel(_, actor, _, _) =>
  }

  lemma PutListings(db: Db, rid: RequestId, l: Listing)
    requires ListingsOk(db.listings) && ListingOk(l)
    ensures ListingsOk(Put(db, rid, l).listings)
  {
  }

  lemma PutBilled(db: Db, rid: RequestId, l: Listing)
    requires Billed(db) && rid in db.listings
    requires SameTerms(db.listings[rid].matches, l.matches) && l.matches.Keys == db.listings[rid].matches.Keys
    ensures Billed(Put(db, rid, l))
  {
    BilledFrame(db, Put(db, rid, l));
  }

  lemma PutInv(db: Db, rid: RequestId, op: Op, now: Time)
    requires Inv(db) && rid in db.listings && Admissible(op)
    requires !(op.Accept? && Step(db.listings[rid], op, now).1)
    ensures Inv(Put(db, rid, Step(db.listings[rid], op, now).0))
  {
    var l' := Step(db.listings[rid], op, now).0;
    StepListingOk(db.listings[rid], op, now);
    StepSameTerms(db.listings[rid], op, now);
    PutListings(db, rid, l');
    PutBilled(db, rid, l');
  }

  // ---- every transaction ----

  /** A ledger write that is neither a fee, a refund nor a top-up. */
  lemma OtherEntryInv(db: Db, e: Entry)
    requires Inv(db) && !e.key.MatchFeeKey? && !e.key.RefundKey? && !e.key.TopUpKey? && Apply(db.till.purse, e).Ok?
    ensures Inv(SetPurse(db, Apply(db.till.purse, e).value.0))
  {
    OtherEntryOk(db.till, e);
    BilledApply(db, e);
  }

  lemma AccountsOk(till: Till, p: ProviderId, account: Account)
    requires TillOk(till) && account.balance == Total(till.purse.ledger, p) >= 0
    ensures TillOk(till.(purse := till.purse.(accounts := till.purse.accounts[p := account])))
  {
  }

  lemma CreateProviderInv(db: Db, p: ProviderId, owner: UserId, welcome: int)
    requires Inv(db) && CreateProvider(db, p, owner, welcome).Ok?
    ensures Inv(CreateProvider(db, p, owner, welcome).value)
  {
    hide ListingOk, OfferBilled, CreditPosted, RowSound, KeysDistinct;
    var purse := db.till.purse;
    var db1 := SetPurse(db, purse.(accounts := purse.accounts[p := Account(owner, true, 0)]));
    TotalAbsent(purse.ledger, p);
    AccountsOk(db.till, p, Account(owner, true, 0));
    BilledFrame(db, db1);
    if welcome > 0 {
      OtherEntryInv(db1, Entry(p, WelcomeCredit, welcome, WelcomeKey(p)));
    }
  }

  lemma SetProviderStatusInv(db: Db, p: ProviderId, active: bool)
    requires Inv(db)
    ensures Inv(SetProviderStatus(db, p, active))
  {
    hide ListingOk, OfferBilled, CreditPosted, RowSound, KeysDistinct;
    if p in db.till.purse.accounts {
      AccountsOk(db.till, p, db.till.purse.accounts[p].(active := active));
      BilledFrame(db, SetProviderStatus(db, p, active));
    }
  }

  lemma CreateRequestInv(db: Db, rid: RequestId, customer: UserId, clientId: Option<string>, expiresAt: Time, now: Time)
    requires Inv(db)
    ensures Inv(CreateRequest(db, rid, customer, clientId, expiresAt, now).0)
  {
    if rid !in db.listings && !ClientIdTaken(db.listings, customer, clientId) {
      NewListingOk(customer, clientId, expiresAt, now);
      PutListings(db, rid, NewListing(customer, clientId, expiresAt, now));
      NewListingBilled(db, rid, NewListing(customer, clientId, expiresAt, now));
    }
  }

  lemma NewListingOk(customer: UserId, clientId: Option<string>, expiresAt: Time, now: Time)
    ensures ListingOk(NewListing(customer, clientId, expiresAt, now))
  {
    NewListingCoupled(customer, clientId, expiresAt, now);
    NewListingRecorded(customer, clientId, expiresAt, now);
  }

  lemma NewListingBilled(db: Db, rid: RequestId, l: Listing)
    requires Billed(db) && rid !in db.listings && l.matches == map[]
    ensures Billed(Put(db, rid, l))
  {
    BilledFrame(db, Put(db, rid, l));
  }

  lemma OfferCallsInv(db: Db, call: Call, now: Time)
    requires Inv(db)
    requires call.CallSendOffer? || call.CallSelectOffer? || call.CallRejectSelection?
    ensures Inv(Exec(db, call, now))
  {
    hide Inv, UpsertStep, SelectStep, RejectStep, Lock;
    match call
    case CallSendOffer(o, quote) =>
      if o.request in db.listings { PutInv(db, o.request, Upsert(o.provider, quote), now); }
    case CallSelectOffer(rid, o, customer, deadline) =>
      if rid in db.listings {
        LockInv(db, rid, now);
        PutInv(db, rid, Select(customer, o.provider, deadline), now);
      }
    case CallRejectSelection(o, caller) =>
      if o.request in db.listings { PutInv(db, o.request, Reject(o.provider, caller), now); }
  }

  lemma LockInv(db: Db, rid: RequestId, now: Time)
    requires Inv(db) && rid in db.listings
    ensures Inv(Put(db, rid, Lock(db.listings[rid], now)))
  {
    // The normalization is the whole effect of a step that is refused after the lock.
    var l := db.listings[rid];
    var refused := Select(l.row.customer + 1, 0, 0);
    assert Step(l, refused, now) == (Lock(l, now), false);
    PutInv(db, rid, refused, now);
  }

  /** The fee key of an offer is free until its match is made, so the charge is never skipped. */
  lemma AcceptedBilled(db: Db, o: OfferId, fee: int, charge: bool, l': Listing, now: Time)
    requires Billed(db) && o.request in db.listings && AcceptRefusal(db.till.purse, o, fee, charge).None?
    requires o.provider !in db.listings[o.request].matches
    requires l'.matches == db.listings[o.request].matches[o.provider := NewMatch(fee, !charge, now)]
    ensures Billed(SetPurse(Put(db, o.request, l'), Deduct(db.till.purse, o, fee, charge)))
  {
    var w := db.till.purse;
    var db' := SetPurse(Put(db, o.request, l'), Deduct(w, o, fee, charge));
    assert OfferBilled(w.ledger, MatchAt(db, o), o);
    forall other
      ensures OfferBilled(db'.till.purse.ledger, MatchAt(db', other), other)
    {
      assert OfferBilled(w.ledger, MatchAt(db, other), other);
      if charge && fee > 0 {
        var row := db'.till.purse.ledger[|w.ledger|];
        if other == o {
          OfferBilledFirst(w.ledger, row, NewMatch(fee, !charge, now), o);
        } else {
          OfferBilledAppend(w.ledger, row, MatchAt(db, other), other);
        }
      }
    }
  }

  lemma DeductOk(till: Till, o: OfferId, fee: int, charge: bool)
    requires TillOk(till)
    ensures TillOk(till.(purse := Deduct(till.purse, o, fee, charge)))
  {
    if charge && fee > 0 && Apply(till.purse, FeeEntry(o, fee)).Ok? {
      OtherEntryOk(till, FeeEntry(o, fee));
    }
  }

  lemma AcceptStepTerms(l: Listing, op: Op, now: Time)
    requires op.Accept? && Step(l, op, now).1
    ensures op.provider !in l.matches
    ensures Step(l, op, now).0.matches == l.matches[op.provider := NewMatch(op.fee, op.waived, now)]
  {
  }

  lemma AcceptInv(db: Db, o: OfferId, caller: ProviderId, fee: int, charge: bool, now: Time)
    requires Inv(db)
    ensures Inv(AcceptOffer(db, o, caller, fee, charge, now).0)
  {
    hide Coupled, Replays, Counted, OfferBilled, CreditPosted, Sound, Deduct, AcceptRefusal, Lock;
    if o.request in db.listings && o.provider in db.listings[o.request].offers && caller == o.provider {
      var l := db.listings[o.request];
      var op := Accept(o.provider, fee, !charge, AcceptRefusal(db.till.purse, o, fee, charge).Some?);
      if !Step(l, op, now).1 {
        PutInv(db, o.request, op, now);
      } else {
        StepListingOk(l, op, now);
        AcceptStepTerms(l, op, now);
        PutListings(db, o.request, Step(l, op, now).0);
        AcceptedBilled(db, o, fee, charge, Step(l, op, now).0, now);
        DeductOk(db.till, o, fee, charge);
      }
    }
  }

  lemma RefundInv(db: Db, e: Entry)
    requires Inv(db) && e.key.RefundKey? && Apply(db.till.purse, e).Ok?
    requires MatchAt(db, e.key.match_).Some? && MatchAt(db, e.key.match_).value.Charged()
    requires e == RefundEntry(e.key.match_, MatchAt(db, e.key.match_).value)
    ensures Inv(SetPurse(db, Apply(db.till.purse, e).value.0))
  {
    hide ListingOk, OfferBilled, TillOk;
    OtherEntryOk(db.till, e);
    BilledApply(db, e);
  }

  lemma CancelInv(db: Db, c: CancelParams, now: Time, grace: Time)
    requires Inv(db) && CallOk(db, CallCancel(c), now, grace)
    ensures Inv(CancelRequest(db, c, now).0)
  {
    hide ListingOk, ListingsOk, OfferBilled, TillOk, CancelStep;
    if c.request in db.listings {
      var op := Cancel(c.from, c.actor, c.reopen, c.reopenExpiresAt);
      var (l', ok) := Step(db.listings[c.request], op, now);
      PutInv(db, c.request, op, now);
      if ok && c.refund.Some? && Apply(db.till.purse, c.refund.value).Ok? {
        StepSameTerms(db.listings[c.request], op, now);
        RefundInv(Put(db, c.request, l'), c.refund.value);
      }
    }
  }

  lemma ReceiveInv(db: Db, m: Message)
    requires Inv(db) && (m.Mark? ==> m.to.TopupFailed? || m.to.TopupExpired?)
    ensures Inv(db.(till := Receive(db.till, m)))
  {
    ReceiveOk(db.till, m);
    ReceiveBilled(db, m);
  }

  lemma ReceiveBilled(db: Db, m: Message)
    requires Billed(db)
    ensures Billed(db.(till := Receive(db.till, m)))
  {
    var db' := db.(till := Receive(db.till, m));
    if m.Pay? && db'.till != db.till {
      var e := TopupEntry(m.id, db.till.topups[m.id]);
      BilledApply(db, e);
      BilledFrame(SetPurse(db, Apply(db.till.purse, e).value.0), db');
    } else {
      BilledFrame(db, db');
    }
  }

  lemma CreateTopupInv(db: Db, id: TopupId, p: ProviderId, amount: int, currency: string, credits: int)
    requires Inv(db)
    ensures Inv(db.(till := CreateTopup(db.till, id, p, amount, currency, credits).0))
  {
    CreateTopupOk(db.till, id, p, amount, currency, credits);
    BilledFrame(db, db.(till := CreateTopup(db.till, id, p, amount, currency, credits).0));
  }

  lemma ExecInv(db: Db, call: Call, now: Time, grace: Time)
    requires Inv(db) && CallOk(db, call, now, grace)
    ensures Inv(Exec(db, call, now))
  {
    match call
    case CallCreateProvider(p, owner, welcome) =>
      if CreateProvider(db, p, owner, welcome).Ok? { CreateProviderInv(db, p, owner, welcome); }
    case CallSetProviderStatus(p, active) => SetProviderStatusInv(db, p, active);
    case CallCreateRequest(rid, customer, clientId, expiresAt) =>
      CreateRequestInv(db, rid, customer, clientId, expiresAt, now);
    case CallSendOffer(_, _) => OfferCallsInv(db, call, now);
    case CallSelectOffer(_, _, _, _) => OfferCallsInv(db, call, now);
    case CallRejectSelection(_, _) => OfferCallsInv(db, call, now);
    case CallAcceptOffer(o, caller, fee, charge) => AcceptInv(db, o, caller, fee, charge, now);
    case CallTransitionJob(rid, from, to, actor) =>
      if rid in db.listings { PutInv(db, rid, Transition(from, to, actor), now); }
    case CallCancel(c) => CancelInv(db, c, now, grace);
    case CallAdjustCredit(p, amount, operation) =>
      var e := Entry(p, AdminAdjustment, amount, AdjustmentKey(operation));
      if Apply(db.till.purse, e).Ok? { OtherEntryInv(db, e); }
    case CallCreateTopup(id, p, amount, currency, credits) => CreateTopupInv(db, id, p, amount, currency, credits);
    case CallReceive(m) => ReceiveInv(db, m);
  }

  /** After every interleaved run: requests and their rows are coupled, the timelines replay, the
      ledger is sound, matches are billed once and refunds are backed by charged matches. */
  lemma {:induction false} RunInv(calls: seq<Timed>, grace: Time)
    requires Interleaved(EMPTY, calls, grace)
    ensures Inv(ExecAll(EMPTY, calls))
  {
    if calls == [] {
      EmptyInv();
    } else {
      var prefix, last := calls[..|calls| - 1], calls[|calls| - 1];
      assert forall i :: 0 <= i < |prefix| ==> calls[..i] == prefix[..i];
      RunInv(prefix, grace);
      assert CallOk(ExecAll(EMPTY, calls[..|prefix|]), last.call, last.at, grace);
      ExecInv(ExecAll(EMPTY, prefix), last.call, last.at, grace);
    }
  }

  function Rows(ledger: seq<Row>, key: Key): set<nat> {
    set i: nat | i < |ledger| && ledger[i].key == key
  }

  lemma OneRow(ledger: seq<Row>, key: Key)
    requires KeysDistinct(ledger)
    ensures |Rows(ledger, key)| == if Posted(ledger, key) then 1 else 0
  {
    if Posted(ledger, key) {
      var i: nat :| i < |ledger| && ledger[i].key == key;
      assert Rows(ledger, key) == {i};
    } else {
      assert Rows(ledger, key) == {};
    }
  }

  /** Exactly-once billing after every run: one fee row for a charged match and none otherwise, and
      at most one refund row, of the whole fee. */
  lemma {:induction false} BilledExactlyOnce(calls: seq<Timed>, grace: Time, o: OfferId)
    requires Interleaved(EMPTY, calls, grace)
    ensures var db := ExecAll(EMPTY, calls);
            var ledger, m := db.till.purse.ledger, MatchAt(db, o);
            && |Rows(ledger, MatchFeeKey(o))| == (if m.Some? && m.value.Charged() then 1 else 0)
            && (forall i :: i in Rows(ledger, MatchFeeKey(o)) ==>
                  ledger[i].provider == o.provider && ledger[i].amount == -m.value.fee)
            && |Rows(ledger, RefundKey(o))| <= |Rows(ledger, MatchFeeKey(o))|
            && (forall i :: i in Rows(ledger, RefundKey(o)) ==>
                  ledger[i].provider == o.provider && ledger[i].amount == m.value.fee)
  {
    hide Interleaved, ListingsOk, ExecAll, CreditPosted, MatchAt;
    RunInv(calls, grace);
    var db := ExecAll(EMPTY, calls);
    assert OfferBilled(db.till.purse.ledger, MatchAt(db, o), o);
    OneRow(db.till.purse.ledger, MatchFeeKey(o));
    OneRow(db.till.purse.ledger, RefundKey(o));
  }

  /** The partial unique index is never the reason to refuse: the lock already rules it out. */
  lemma NeverAlreadyMatched(db: Db, o: OfferId, caller: ProviderId, fee: int, charge: bool, now: Time)
    requires ListingsOk(db.listings)
    ensures !AcceptOffer(db, o, caller, fee, charge, now).1.AlreadyMatched?
  {
    hide Replays, Counted, Coupled, Deduct;
    if o.request in db.listings && o.provider in db.listings[o.request].offers {
      var l := db.listings[o.request];
      assert ListingOk(l);
      LockCoupled(l, now);
      PendingHasNoActive(Lock(l, now));
    }
  }

  lemma PendingHasNoActive(l: Listing)
    requires Coupled(l)
    ensures l.row.status.PendingConfirmation? ==> Active(l.matches) == {}
  {
  }

  /** Accepting again returns the same match and changes nothing at all. */
  lemma AcceptIsIdempotent(db: Db, o: OfferId, caller: ProviderId, fee: int, charge: bool, now: Time, fee': int,
                           charge': bool, later: Time)
    requires AcceptOffer(db, o, caller, fee, charge, now).1.Accepted?
    ensures var (db1, first) := AcceptOffer(db, o, caller, fee, charge, now);
            AcceptOffer(db1, o, caller, fee', charge', later) == (db1, AlreadyAccepted(first.m))
  {
    var (db1, first) := AcceptOffer(db, o, caller, fee, charge, now);
    var l1 := db1.listings[o.request];
    assert l1.row.status.Matched? && l1.matches[o.provider] == first.m;
    assert Lock(l1, later) == l1;
    assert o.provider in l1.offers;
    assert Put(db1, o.request, l1) == db1;
  }

  /** However often and whenever it is repeated: a matched offer is never charged again. */
  lemma RepeatChargesNothing(db: Db, o: OfferId, caller: ProviderId, fee: int, charge: bool, now: Time)
    requires MatchAt(db, o).Some?
    ensures var (db', outcome) := AcceptOffer(db, o, caller, fee, charge, now);
            db'.till == db.till && (outcome.AlreadyAccepted? ==> outcome.m == MatchAt(db, o).value)
            && (outcome.AlreadyAccepted? || outcome.OfferNotFound?)
  {
  }

  /** The balance falls by the fee exactly when the match is made and charged. */
  lemma AcceptCharges(db: Db, o: OfferId, caller: ProviderId, fee: int, charge: bool, now: Time)
    requires Billed(db)
    ensures var (db', outcome) := AcceptOffer(db, o, caller, fee, charge, now);
            && (outcome.Accepted? ==>
                  && o.provider in db.till.purse.accounts && o.provider in db'.till.purse.accounts
                  && db'.till.purse.accounts[o.provider].balance
                     == db.till.purse.accounts[o.provider].balance - (if charge then fee else 0))
            && (!outcome.Accepted? ==> db'.till == db.till)
  {
    if AcceptOffer(db, o, caller, fee, charge, now).1.Accepted? {
      assert OfferBilled(db.till.purse.ledger, MatchAt(db, o), o);
      if charge && fee > 0 {
        ApplyMoves(db.till.purse, FeeEntry(o, fee));
      }
    }
  }
}
