/** Where every ledger row comes from, and what the calls that post rows do to the balances. */
module LedgerOrigins {
  import opened Common
  import opened Wallet
  import opened Topups
  import opened ServiceRequest
  import opened Marketplace
  import opened Billing
  import opened Refunds

  ghost predicate Called(calls: seq<Timed>, call: Call) {
    exists i :: 0 <= i < |calls| && calls[i].call == call
  }

  /** The purchase of so many credits for such a price. */
  ghost predicate Bought(calls: seq<Timed>, id: TopupId, p: ProviderId, amount: int, currency: string, credits: int) {
    Called(calls, CallCreateTopup(id, p, amount, currency, credits))
  }

  ghost predicate PaidFor(calls: seq<Timed>, id: TopupId, p: ProviderId, credits: int, amount: int, currency: string,
                          intent: string) {
    Bought(calls, id, p, amount, currency, credits) && Called(calls, CallReceive(Pay(id, intent, amount, currency)))
  }

  ghost predicate Refunded(calls: seq<Timed>, row: Row, c: CancelParams) {
    Called(calls, CallCancel(c)) && c.refund == Some(Entry(row.provider, row.kind, row.amount, row.key))
  }

  ghost predicate OpenedBy(calls: seq<Timed>, p: ProviderId, owner: UserId, welcome: int) {
    Called(calls, CallCreateProvider(p, owner, welcome))
  }

  /** Some call of the run asked for this row: its kind, its provider and its amount. */
  ghost predicate Explained(calls: seq<Timed>, row: Row) {
    match row.key
    case WelcomeKey(p) =>
      row.kind.WelcomeCredit? && row.provider == p && exists owner :: OpenedBy(calls, p, owner, row.amount)
    case MatchFeeKey(o) =>
      && row.kind.MatchFee? && row.provider == o.provider
      && Called(calls, CallAcceptOffer(o, o.provider, -row.amount, true))
    case RefundKey(o) =>
      && row.kind.Refund? && row.provider == o.provider
      && exists c: CancelParams :: c.request == o.request && Refunded(calls, row, c)
    case TopUpKey(id) =>
      && row.kind.TopUp?
      && exists amount, currency, intent :: PaidFor(calls, id, row.provider, row.amount, amount, currency, intent)
    case AdjustmentKey(operation) =>
      row.kind.AdminAdjustment? && Called(calls, CallAdjustCredit(row.provider, row.amount, operation))
  }

  ghost predicate AllExplained(calls: seq<Timed>, ledger: seq<Row>) {
    forall i :: 0 <= i < |ledger| ==> Explained(calls, ledger[i])
  }

  /** Every top-up row is the purchase some call made. */
  ghost predicate TopupsBought(calls: seq<Timed>, topups: TopupTable) {
    forall id :: id in topups ==>
      var t := topups[id]; Bought(calls, id, t.provider, t.amount, t.currency, t.credits)
  }

  lemma {:induction false} CalledLater(calls: seq<Timed>, last: Timed, call: Call)
    ensures Called(calls + [last], call) <==> Called(calls, call) || last.call == call
  {
    var all := calls + [last];
    if Called(calls, call) {
      var i :| 0 <= i < |calls| && calls[i].call == call;
      assert all[i].call == call;
    }
    assert all[|calls|] == last;
  }

  lemma {:induction false} ExplainedLater(calls: seq<Timed>, last: Timed, row: Row)
    requires Explained(calls, row)
    ensures Explained(calls + [last], row)
  {
    forall call: Call
      ensures Called(calls, call) ==> Called(calls + [last], call)
    {
      CalledLater(calls, last, call);
    }
    hide Called;
    match row.key
    case WelcomeKey(p) =>
      var owner :| OpenedBy(calls, p, owner, row.amount);
      assert OpenedBy(calls + [last], p, owner, row.amount);
    case RefundKey(o) =>
      var c: CancelParams :| c.request == o.request && Refunded(calls, row, c);
      assert Refunded(calls + [last], row, c);
    case TopUpKey(id) =>
      var amount, currency, intent :| PaidFor(calls, id, row.provider, row.amount, amount, currency, intent);
      assert PaidFor(calls + [last], id, row.provider, row.amount, amount, currency, intent);
    case _ =>
  }

  /** What a call may post. */
  ghost predicate Posts(db: Db, call: Call, row: Row) {
    match call
    case CallCreateProvider(p, _, welcome) =>
      row.key == WelcomeKey(p) && row.kind.WelcomeCredit? && row.provider == p && row.amount == welcome
    case CallAcceptOffer(o, caller, fee, charge) =>
      && row.key == MatchFeeKey(o) && row.kind.MatchFee? && row.provider == o.provider == caller
      && row.amount == -fee && charge
    case CallCancel(c) =>
      c.refund == Some(Entry(row.provider, row.kind, row.amount, row.key))
    case CallAdjustCredit(p, amount, operation) =>
      row.key == AdjustmentKey(operation) && row.kind.AdminAdjustment? && row.provider == p && row.amount == amount
    case CallReceive(m) =>
      && m.Pay? && m.id in db.till.topups && row.key == TopUpKey(m.id) && row.kind.TopUp?
      && var t := db.till.topups[m.id];
         t.amount == m.amount && t.currency == m.currency && row.provider == t.provider && row.amount == t.credits
    case _ => false
  }

  ghost predicate PostsAtMost(db: Db, call: Call, after: seq<Row>) {
    var ledger := db.till.purse.ledger;
    after == ledger || (|after| == |ledger| + 1 && after[..|ledger|] == ledger && Posts(db, call, after[|ledger|]))
  }

  lemma ExecPosts(db: Db, call: Call, now: Time)
    ensures PostsAtMost(db, call, Exec(db, call, now).till.purse.ledger)
  {
    hide Lock, UpsertStep, SelectStep, RejectStep, AcceptStep, TransitionStep, CancelStep, Posted;
  }

  lemma ReceiveOrders(till: Till, m: Message)
    ensures SameOrders(till.topups, Receive(till, m).topups)
  {
  }

  /** Purchases are only added, each by its own call, and never change their terms. */
  lemma ExecBuys(db: Db, call: Call, now: Time)
    ensures var before, after := db.till.topups, Exec(db, call, now).till.topups;
            || SameOrders(before, after)
            || (call.CallCreateTopup? && call.topup !in before
                && after == before[call.topup := Topup(call.provider, call.amount, call.currency, call.credits,
                                                       TopupPending, None)])
  {
    hide Lock, UpsertStep, SelectStep, RejectStep, AcceptStep, TransitionStep, CancelStep, Posted, Apply, Receive;
    if call.CallReceive? {
      ReceiveOrders(db.till, call.message);
    }
  }

  lemma {:induction false} BoughtLater(calls: seq<Timed>, last: Timed, before: TopupTable, after: TopupTable)
    requires TopupsBought(calls, before)
    requires || SameOrders(before, after)
             || (last.call.CallCreateTopup?
                 && after == before[last.call.topup := Topup(last.call.provider, last.call.amount, last.call.currency,
                                                             last.call.credits, TopupPending, None)])
    ensures TopupsBought(calls + [last], after)
  {
    forall id | id in after
      ensures var t := after[id]; Bought(calls + [last], id, t.provider, t.amount, t.currency, t.credits)
    {
      var t := after[id];
      CalledLater(calls, last, CallCreateTopup(id, t.provider, t.amount, t.currency, t.credits));
      assert id in before ==> Bought(calls, id, before[id].provider, before[id].amount, before[id].currency,
                                     before[id].credits);
    }
  }

  /** The row a call posts is explained by that call, a credit together with its purchase. */
  lemma {:induction false} PostedExplained(db: Db, calls: seq<Timed>, last: Timed, row: Row, grace: Time)
    requires Posts(db, last.call, row) && CallOk(db, last.call, last.at, grace)
    requires TopupsBought(calls, db.till.topups)
    ensures Explained(calls + [last], row)
  {
    var all := calls + [last];
    CalledLater(calls, last, last.call);
    match last.call
    case CallCreateProvider(p, owner, welcome) => assert OpenedBy(all, p, owner, row.amount);
    case CallCancel(c) => assert Refunded(all, row, c);
    case CallReceive(m) =>
      var t := db.till.topups[m.id];
      assert Bought(calls, m.id, t.provider, t.amount, t.currency, t.credits);
      CalledLater(calls, last, CallCreateTopup(m.id, t.provider, t.amount, t.currency, t.credits));
      assert PaidFor(all, m.id, row.provider, row.amount, m.amount, m.currency, m.intent);
    case _ =>
  }

  lemma {:induction false} RowsLater(calls: seq<Timed>, last: Timed, ledger: seq<Row>)
    requires AllExplained(calls, ledger)
    ensures AllExplained(calls + [last], ledger)
  {
    forall i | 0 <= i < |ledger|
      ensures Explained(calls + [last], ledger[i])
    {
      ExplainedLater(calls, last, ledger[i]);
    }
  }

  /** In every interleaved run each ledger row was asked for by a call of the run, with that provider and
      that amount: a welcome credit by opening the account, a fee by the provider's own acceptance, a
      refund by a cancellation of that request, an adjustment by its operation, and a top-up credit by a
      purchase of so many credits and a payment of its price. */
  lemma {:induction false} EveryRowIsExplained(calls: seq<Timed>, grace: Time)
    requires Interleaved(EMPTY, calls, grace)
    ensures AllExplained(calls, ExecAll(EMPTY, calls).till.purse.ledger)
    ensures TopupsBought(calls, ExecAll(EMPTY, calls).till.topups)
  {
    if calls != [] {
      var prefix, last := calls[..|calls| - 1], calls[|calls| - 1];
      assert calls == prefix + [last];
      assert forall i :: 0 <= i < |prefix| ==> calls[..i] == prefix[..i];
      EveryRowIsExplained(prefix, grace);
      var db := ExecAll(EMPTY, prefix);
      assert CallOk(ExecAll(EMPTY, calls[..|prefix|]), last.call, last.at, grace);
      ExecPosts(db, last.call, last.at);
      ExecBuys(db, last.call, last.at);
      BoughtLater(prefix, last, db.till.topups, Exec(db, last.call, last.at).till.topups);
      RowsLater(prefix, last, db.till.purse.ledger);
      RunRow(db, prefix, last, grace);
    }
  }

  lemma {:induction false} RunRow(db: Db, prefix: seq<Timed>, last: Timed, grace: Time)
    requires CallOk(db, last.call, last.at, grace) && TopupsBought(prefix, db.till.topups)
    requires AllExplained(prefix + [last], db.till.purse.ledger)
    ensures AllExplained(prefix + [last], Exec(db, last.call, last.at).till.purse.ledger)
  {
    hide Exec, CallOk, TopupsBought, Posts, Explained;
    var ledger, after := db.till.purse.ledger, Exec(db, last.call, last.at).till.purse.ledger;
    ExecPosts(db, last.call, last.at);
    forall i | 0 <= i < |after|
      ensures Explained(prefix + [last], after[i])
    {
      if i < |ledger| {
        assert after == ledger || after[..|ledger|][i] == ledger[i];
      } else {
        PostedExplained(db, prefix, last, after[i], grace);
      }
    }
  }

  // ---- what the posting calls do ----

  function BalanceOf(db: Db, p: ProviderId): int {
    if p in db.till.purse.accounts then db.till.purse.accounts[p].balance else 0
  }

  /** One more row for p, and p's balance moved with it; everything else stays. */
  ghost predicate PostsOne(db: Db, db': Db, p: ProviderId, kind: Kind, amount: int, key: Key) {
    && p in db.till.purse.accounts
    && db'.till.topups == db.till.topups && db'.listings == db.listings
    && var account := db.till.purse.accounts[p];
       && db'.till.purse.ledger == db.till.purse.ledger + [Row(p, kind, amount, account.balance + amount, key)]
       && db'.till.purse.accounts == db.till.purse.accounts[p := account.(balance := account.balance + amount)]
  }

  /** An operator's adjustment is refused for an unknown provider, a zero amount and a balance that would
      become negative, and for nothing else. A new operation posts exactly the amount; a repeated one
      changes nothing. */
  lemma AdjustsBy(db: Db, p: ProviderId, amount: int, operation: nat)
    ensures var r := AdjustCredit(db, p, amount, operation);
            && (r.Ok? <==> p in db.till.purse.accounts && amount != 0 && BalanceOf(db, p) + amount >= 0)
            && (r.Ok? && Posted(db.till.purse.ledger, AdjustmentKey(operation)) ==> r.value == db)
            && (r.Ok? && !Posted(db.till.purse.ledger, AdjustmentKey(operation)) ==>
                  PostsOne(db, r.value, p, AdminAdjustment, amount, AdjustmentKey(operation)))
            && (r.Err? ==>
                  if p !in db.till.purse.accounts then r.error.NoSuchProvider?
                  else if BalanceOf(db, p) + amount < 0
                  then r.error == InsufficientCredit(BalanceOf(db, p), -amount)
                  else r.error.RowForbidden?)
  {
    hide Posted;
  }

  /** A welcome row belongs to the account it opened. */
  lemma {:induction false} NoWelcomeYet(calls: seq<Timed>, w: Purse, p: ProviderId)
    requires Sound(w) && AllExplained(calls, w.ledger) && p !in w.accounts
    ensures !Posted(w.ledger, WelcomeKey(p))
  {
    assert forall i :: 0 <= i < |w.ledger| && w.ledger[i].key.WelcomeKey? ==>
             Explained(calls, w.ledger[i]) && w.ledger[i].key.provider == w.ledger[i].provider;
  }

  /** In every run a profile is opened iff neither it nor its owner has one; it starts active with exactly
      the welcome credit, if that is positive, and with its one row for it. */
  lemma {:induction false} OpensIff(calls: seq<Timed>, grace: Time, p: ProviderId, owner: UserId, welcome: int)
    requires Interleaved(EMPTY, calls, grace)
    ensures var db := ExecAll(EMPTY, calls);
            var r, accounts := CreateProvider(db, p, owner, welcome), db.till.purse.accounts;
            && (r.Ok? <==> p !in accounts && forall q :: q in accounts ==> accounts[q].owner != owner)
            && (r.Ok? ==>
                  && r.value.till.purse.accounts
                     == accounts[p := Account(owner, true, if welcome > 0 then welcome else 0)]
                  && r.value.till.purse.ledger == db.till.purse.ledger
                       + (if welcome > 0 then [Row(p, WelcomeCredit, welcome, welcome, WelcomeKey(p))] else [])
                  && r.value.listings == db.listings && r.value.till.topups == db.till.topups)
  {
    RunInv(calls, grace);
    EveryRowIsExplained(calls, grace);
    var db := ExecAll(EMPTY, calls);
    if p !in db.till.purse.accounts {
      NoWelcomeYet(calls, db.till.purse, p);
    }
    hide Interleaved, ExecAll, ListingsOk, Billed, AllExplained, TopupsBought, Posted, Sound, CreditPosted;
  }

  // ---- purchases ----

  /** A purchase is recorded iff its number is new, its provider known, its amounts positive and its
      currency the one accepted; it waits for its payment and holds what was asked for. */
  lemma BuysIff(till: Till, id: TopupId, p: ProviderId, amount: int, currency: string, credits: int)
    ensures var (after, ok) := CreateTopup(till, id, p, amount, currency, credits);
            && (ok <==>
                  id !in till.topups && p in till.purse.accounts && amount > 0 && credits > 0 && currency == "thb")
            && (!ok ==> after == till)
            && after.purse == till.purse
            && after.topups.Keys == till.topups.Keys + (if ok then {id} else {})
            && (forall other :: other in till.topups ==> after.topups[other] == till.topups[other])
            && (ok ==>
                  var t := after.topups[id];
                  && t.provider == p && t.amount == amount && t.credits == credits && t.currency == "thb"
                  && t.status.TopupPending? && t.intent.None?)
  {
  }

  /** The credits bought are posted, once and to the buyer, iff a payment of the price arrives. */
  lemma {:induction false} PurchaseIsCredited(till: Till, id: TopupId, p: ProviderId, amount: int, currency: string,
                                              credits: int, messages: seq<Message>, created: Intents)
    requires TillOk(till) && Attributed(till.topups, created) && IntentsDistinct(created) && AllCarry(messages, created)
    requires CreateTopup(till, id, p, amount, currency, credits).1
    ensures var ledger := ReceiveAll(CreateTopup(till, id, p, amount, currency, credits).0, messages).purse.ledger;
            && (Posted(ledger, TopUpKey(id)) <==>
                  exists i :: 0 <= i < |messages| && Pays(messages[i], id, amount, currency))
            && (forall i, j ::
                  (0 <= i < |ledger| && 0 <= j < |ledger| && ledger[i].key == ledger[j].key == TopUpKey(id)) ==>
                    i == j && ledger[i].provider == p && ledger[i].amount == credits)
  {
    var bought := CreateTopup(till, id, p, amount, currency, credits).0;
    CreateTopupOk(till, id, p, amount, currency, credits);
    assert Attributed(bought.topups, created);
    CreditedIffDelivered(bought, messages, created, id);
    hide TillOk, Attributed, IntentsDistinct, AllCarry, ReceiveAll;
    assert forall m :: Matching(bought.topups, m, id) <==> Pays(m, id, amount, currency);
  }

  /** A verified success of this amount for this top-up. */
  predicate Pays(m: Message, id: TopupId, amount: int, currency: string) {
    m.Pay? && m.id == id && m.amount == amount && m.currency == currency
  }
}
