/**
 Credit top-ups: purchases that verified payment webhooks mark paid, failed, expired or refunded.
 A webhook first reads (which top-up, does the payment match) and later commits one of the
 messages below, so other deliveries can come in between.
 */
module Topups {
  import opened Common
  import opened Wallet

  datatype TopupStatus = TopupPending | TopupPaid | TopupFailed | TopupExpired | TopupRefunded

  datatype Topup = Topup(
    provider: ProviderId,
    amount: int,
    currency: string,
    credits: int,
    status: TopupStatus,
    intent: Option<string>)
  {
    predicate Settled() {
      status.TopupPaid? || status.TopupRefunded?
    }
  }

  type TopupTable = map<TopupId, Topup>

  datatype Till = Till(purse: Purse, topups: TopupTable)

  /** One committed statement (or transaction) on the top-up rows. */
  datatype Message =
    | Attach(id: TopupId, intent: string)
    | Pay(id: TopupId, intent: string, amount: int, currency: string)
    | Mark(id: TopupId, to: TopupStatus)
    | RefundIntent(intent: string)

  /** The unique index on payment intents. */
  predicate IntentTaken(topups: TopupTable, id: TopupId, intent: string) {
    exists other :: other in topups && other != id && topups[other].intent == Some(intent)
  }

  /** Stores the intent unless one is already recorded. */
  function AttachStep(till: Till, id: TopupId, intent: string): Till {
    if id in till.topups && till.topups[id].intent.None? && !IntentTaken(till.topups, id, intent)
    then till.(topups := till.topups[id := till.topups[id].(intent := Some(intent))])
    else till
  }

  predicate PaymentAgrees(t: Topup, intent: string, amount: int, currency: string) {
    (t.intent.None? || t.intent.value == intent) && t.amount == amount && t.currency == currency
  }

  function TopupEntry(id: TopupId, t: Topup): Entry {
    Entry(t.provider, TopUp, t.credits, TopUpKey(id))
  }

  /** Marks the top-up paid and posts its credit together, or leaves everything as it was. */
  function PayStep(till: Till, id: TopupId, intent: string, amount: int, currency: string): (Till, bool) {
    if id !in till.topups || till.topups[id].Settled() then (till, false)
    else
      var t := till.topups[id];
      if !PaymentAgrees(t, intent, amount, currency) || IntentTaken(till.topups, id, intent) then (till, false)
      else
        match Apply(till.purse, TopupEntry(id, t))
        case Err(_) => (till, false)
        case Ok((purse, applied)) =>
          (Till(purse, till.topups[id := t.(status := TopupPaid, intent := Some(intent))]), applied)
  }

  function MarkStep(till: Till, id: TopupId, to: TopupStatus): Till {
    if id in till.topups && till.topups[id].status.TopupPending?
    then till.(topups := till.topups[id := till.topups[id].(status := to)])
    else till
  }

  function RefundStep(till: Till, intent: string): Till {
    till.(topups := map id | id in till.topups ::
      if till.topups[id].intent == Some(intent) && till.topups[id].status.TopupPaid?
      then till.topups[id].(status := TopupRefunded)
      else till.topups[id])
  }

  function Receive(till: Till, m: Message): Till {
    match m
    case Attach(id, intent) => AttachStep(till, id, intent)
    case Pay(id, intent, amount, currency) => PayStep(till, id, intent, amount, currency).0
    case Mark(id, to) => MarkStep(till, id, to)
    case RefundIntent(intent) => RefundStep(till, intent)
  }

  function ReceiveAll(till: Till, messages: seq<Message>): Till {
    if messages == [] then till
    else Receive(ReceiveAll(till, messages[..|messages| - 1]), messages[|messages| - 1])
  }

  // ---- the read phase of a webhook ----

  datatype Webhook =
    | Succeeded(intent: string, confirmed: bool, topupRef: Option<TopupId>,
                provider: Option<ProviderId>, amount: int, currency: string)
    | PaymentFailed(intent: string, topupRef: Option<TopupId>)
    | PaymentCanceled(intent: string, topupRef: Option<TopupId>)
    | ChargeRefunded(intent: string, refunded: bool)

  ghost function FindTopup(topups: TopupTable, intent: string, topupRef: Option<TopupId>): Option<TopupId> {
    if intent != "" && exists id :: id in topups && topups[id].intent == Some(intent) then
      var id :| id in topups && topups[id].intent == Some(intent);
      Some(id)
    else if topupRef.Some? && topupRef.value in topups then topupRef
    else None
  }

  /** What the handler decides to commit, from whatever the tables hold when it reads them. */
  ghost function Decide(topups: TopupTable, ev: Webhook): Option<Message> {
    match ev
    case Succeeded(intent, confirmed, topupRef, provider, amount, currency) =>
      var found := FindTopup(topups, intent, topupRef);
      if !confirmed || found.None? then None
      else
        var t := topups[found.value];
        if PaymentAgrees(t, intent, amount, currency) && (provider.Some? ==> provider.value == t.provider)
        then Some(Pay(found.value, intent, amount, currency))
        else None
    case PaymentFailed(intent, topupRef) =>
      var found := FindTopup(topups, intent, topupRef);
      if found.None? then None else Some(Mark(found.value, TopupFailed))
    case PaymentCanceled(intent, topupRef) =>
      var found := FindTopup(topups, intent, topupRef);
      if found.None? then None else Some(Mark(found.value, TopupExpired))
    case ChargeRefunded(intent, refunded) =>
      if intent == "" || !refunded then None else Some(RefundIntent(intent))
  }

  /** What the unique index on payment intents keeps true. */
  ghost predicate IntentsUnique(topups: TopupTable) {
    forall i, j ::
      i in topups && j in topups && topups[i].intent.Some? && topups[i].intent == topups[j].intent ==> i == j
  }

  lemma ReceiveIntentsUnique(till: Till, m: Message)
    requires IntentsUnique(till.topups)
    ensures IntentsUnique(Receive(till, m).topups)
  {
  }

  // ---- what holds between the rows ----

  /** The payment intents Stripe created, one per top-up. */
  type Intents = map<TopupId, string>

  ghost predicate IntentsDistinct(created: Intents) {
    forall i, j :: i in created && j in created && created[i] == created[j] ==> i == j
  }

  /** A settled top-up has its credit posted under its key; an unsettled one has not. */
  ghost predicate CreditPosted(till: Till, id: TopupId)
    requires id in till.topups
  {
    var t := till.topups[id];
    && t.provider in till.purse.accounts
    && t.credits > 0
    && (t.Settled() <==> Posted(till.purse.ledger, TopUpKey(id)))
    && (forall i :: 0 <= i < |till.purse.ledger| && till.purse.ledger[i].key == TopUpKey(id) ==>
          till.purse.ledger[i].provider == t.provider && till.purse.ledger[i].amount == t.credits)
  }

  ghost predicate Attributed(topups: TopupTable, created: Intents) {
    forall id :: id in topups && topups[id].intent.Some? ==> id in created && created[id] == topups[id].intent.value
  }

  ghost predicate TillOk(till: Till) {
    && Sound(till.purse)
    && (forall id :: id in till.topups ==> CreditPosted(till, id))
    && (forall i :: 0 <= i < |till.purse.ledger| && till.purse.ledger[i].key.TopUpKey? ==>
         till.purse.ledger[i].key.topup in till.topups)
  }

  /** Every message about a top-up carries the intent created for it. */
  predicate Carries(m: Message, created: Intents) {
    match m
    case Attach(id, intent) => id in created && created[id] == intent
    case Pay(id, intent, _, _) => id in created && created[id] == intent
    case Mark(_, to) => to.TopupFailed? || to.TopupExpired?
    case RefundIntent(_) => true
  }

  lemma PayOk(till: Till, id: TopupId, intent: string, amount: int, currency: string)
    requires TillOk(till)
    ensures TillOk(PayStep(till, id, intent, amount, currency).0)
    ensures PayStep(till, id, intent, amount, currency).1 ==
            (PayStep(till, id, intent, amount, currency).0 != till)
  {
    var (till', applied) := PayStep(till, id, intent, amount, currency);
    if till' != till {
      var e := TopupEntry(id, till.topups[id]);
      assert CreditPosted(till, id);
      ApplySound(till.purse, e);
      ApplyMoves(till.purse, e);
      forall other | other in till'.topups
        ensures CreditPosted(till', other)
      {
        assert CreditPosted(till, other);
      }
    }
  }

  lemma ReceiveOk(till: Till, m: Message)
    requires TillOk(till) && (m.Mark? ==> m.to.TopupFailed? || m.to.TopupExpired?)
    ensures TillOk(Receive(till, m))
  {
    if m.Pay? {
      PayOk(till, m.id, m.intent, m.amount, m.currency);
    } else {
      var till' := Receive(till, m);
      forall id | id in till'.topups
        ensures CreditPosted(till', id)
      {
        assert CreditPosted(till, id);
      }
    }
  }

  /** A ledger write for anything but a top-up leaves the top-ups' books in order. */
  lemma OtherEntryOk(till: Till, e: Entry)
    requires TillOk(till) && !e.key.TopUpKey? && Apply(till.purse, e).Ok?
    ensures TillOk(till.(purse := Apply(till.purse, e).value.0))
  {
    ApplySound(till.purse, e);
    ApplyMoves(till.purse, e);
    var till' := till.(purse := Apply(till.purse, e).value.0);
    forall id | id in till'.topups
      ensures CreditPosted(till', id)
    {
      assert CreditPosted(till, id);
    }
  }

  /** A new purchase: pending, with no credit posted yet; the row's CHECKs and foreign key hold. */
  function CreateTopup(till: Till, id: TopupId, p: ProviderId, amount: int, currency: string, credits: int)
    : (Till, bool)
  {
    if id in till.topups || p !in till.purse.accounts || amount <= 0 || credits <= 0 || currency != "thb"
      then (till, false)
    else (till.(topups := till.topups[id := Topup(p, amount, currency, credits, TopupPending, None)]), true)
  }

  lemma CreateTopupOk(till: Till, id: TopupId, p: ProviderId, amount: int, currency: string, credits: int)
    requires TillOk(till)
    ensures TillOk(CreateTopup(till, id, p, amount, currency, credits).0)
  {
  }

  /** Paid is never downgraded to pending, failed or expired; refunded comes only from paid. */
  lemma StatusMoves(till: Till, m: Message, id: TopupId)
    requires id in till.topups && (m.Mark? ==> m.to.TopupFailed? || m.to.TopupExpired?)
    ensures var before, after := till.topups[id].status, Receive(till, m).topups[id].status;
            && id in Receive(till, m).topups
            && (before.TopupPaid? ==> after.TopupPaid? || after.TopupRefunded?)
            && (before.TopupRefunded? ==> after.TopupRefunded?)
            && (after.TopupRefunded? ==> before.TopupPaid? || before.TopupRefunded?)
            && (after.TopupPending? ==> before.TopupPending?)
  {
  }

  /** A top-up's payment intent is recorded once, by whichever comes first, the answer of the payment
      provider or a matching success, and never changes. */
  lemma IntentStays(till: Till, m: Message, id: TopupId)
    requires id in till.topups
    ensures var before, after := till.topups[id].intent, Receive(till, m).topups[id].intent;
            && (before.Some? ==> after == before)
            && (before.None? && after.Some? ==> (m.Attach? || m.Pay?) && m.id == id && after.value == m.intent)
            && (m.Attach? && m.id == id && before.None? && !IntentTaken(till.topups, id, m.intent) ==>
                  after == Some(m.intent))
  {
  }

  // ---- confluence ----

  /** A verified success for this top-up, with its own intent, amount and currency. */
  predicate Matching(topups: TopupTable, m: Message, id: TopupId) {
    m.Pay? && m.id == id && id in topups && m.amount == topups[id].amount && m.currency == topups[id].currency
  }

  function Settled(topups: TopupTable): set<TopupId> {
    set id | id in topups && topups[id].Settled()
  }

  /** The fields no message changes. */
  ghost predicate SameOrders(a: TopupTable, b: TopupTable) {
    && a.Keys == b.Keys
    && (forall id :: id in a ==>
          && a[id].provider == b[id].provider && a[id].amount == b[id].amount
          && a[id].currency == b[id].currency && a[id].credits == b[id].credits)
  }

  ghost function Credits(topups: TopupTable, ids: set<TopupId>, p: ProviderId): int
    requires ids <= topups.Keys
  {
    if ids == {} then 0
    else
      var id :| id in ids;
      (if topups[id].provider == p then topups[id].credits else 0) + Credits(topups, ids - {id}, p)
  }

  lemma {:induction false} CreditsInsert(topups: TopupTable, ids: set<TopupId>, x: TopupId, p: ProviderId)
    requires ids <= topups.Keys && x in topups && x !in ids
    ensures Credits(topups, ids + {x}, p) ==
            Credits(topups, ids, p) + if topups[x].provider == p then topups[x].credits else 0
    decreases |ids|
  {
    var all := ids + {x};
    var id :| id in all && Credits(topups, all, p) ==
      (if topups[id].provider == p then topups[id].credits else 0) + Credits(topups, all - {id}, p);
    if id == x {
      assert all - {id} == ids;
    } else {
      assert all - {id} == (ids - {id}) + {x};
      CreditsInsert(topups, ids - {id}, x, p);
      CreditsInsert(topups, ids - {id}, id, p);
      assert (ids - {id}) + {id} == ids;
    }
  }

  lemma {:induction false} CreditsStatic(a: TopupTable, b: TopupTable, ids: set<TopupId>, p: ProviderId)
    requires SameOrders(a, b) && ids <= a.Keys
    ensures Credits(a, ids, p) == Credits(b, ids, p)
    decreases |ids|
  {
    if ids != {} {
      var id :| id in ids && Credits(a, ids, p) ==
        (if a[id].provider == p then a[id].credits else 0) + Credits(a, ids - {id}, p);
      CreditsStatic(a, b, ids - {id}, p);
      CreditsInsert(b, ids - {id}, id, p);
      assert (ids - {id}) + {id} == ids;
    }
  }

  function SettledBy(topups: TopupTable, m: Message): set<TopupId> {
    if m.Pay? && Matching(topups, m, m.id) then {m.id} else {}
  }

  lemma PaySettles(till: Till, m: Message, created: Intents)
    requires TillOk(till) && Attributed(till.topups, created) && IntentsDistinct(created) && Carries(m, created)
    requires m.Pay?
    ensures var till' := Receive(till, m);
            && Attributed(till'.topups, created) && SameOrders(till.topups, till'.topups)
            && Settled(till'.topups) == Settled(till.topups) + SettledBy(till.topups, m)
  {
    if m.id in till.topups && !till.topups[m.id].Settled() {
      assert CreditPosted(till, m.id);
      assert !IntentTaken(till.topups, m.id, m.intent);
      assert Apply(till.purse, TopupEntry(m.id, till.topups[m.id])).Ok? by {
        assert till.purse.accounts[till.topups[m.id].provider].balance >= 0;
      }
    }
    assert Settled(Receive(till, m).topups) == Settled(till.topups) + SettledBy(till.topups, m);
  }

  lemma OthersSettleNothing(till: Till, m: Message, created: Intents)
    requires Attributed(till.topups, created) && Carries(m, created) && !m.Pay?
    ensures var till' := Receive(till, m);
            && Attributed(till'.topups, created) && SameOrders(till.topups, till'.topups)
            && Settled(till'.topups) == Settled(till.topups)
            && till'.purse == till.purse
  {
  }

  /** Exactly the matching successes settle a top-up, whatever else was received before. */
  lemma ReceiveSettles(till: Till, m: Message, created: Intents)
    requires TillOk(till) && Attributed(till.topups, created) && IntentsDistinct(created) && Carries(m, created)
    ensures var till' := Receive(till, m);
            && Attributed(till'.topups, created) && SameOrders(till.topups, till'.topups)
            && Settled(till'.topups) == Settled(till.topups) + SettledBy(till.topups, m)
  {
    if m.Pay? {
      PaySettles(till, m, created);
    } else {
      OthersSettleNothing(till, m, created);
    }
  }

  /** What a balance holds besides top-up credit. */
  ghost function Rest(till: Till, p: ProviderId): int
    requires p in till.purse.accounts
  {
    till.purse.accounts[p].balance - Credits(till.topups, Settled(till.topups), p)
  }

  /** A balance moves by the credit of a newly settled top-up and by nothing else. */
  lemma ReceiveBalance(till: Till, m: Message, p: ProviderId, created: Intents)
    requires TillOk(till) && Attributed(till.topups, created) && IntentsDistinct(created) && Carries(m, created)
    requires p in till.purse.accounts
    ensures p in Receive(till, m).purse.accounts && Rest(Receive(till, m), p) == Rest(till, p)
  {
    var till' := Receive(till, m);
    ReceiveSettles(till, m, created);
    CreditsStatic(till.topups, till'.topups, Settled(till.topups), p);
    if m.Pay? && till' != till {
      var t := till.topups[m.id];
      assert CreditPosted(till, m.id);
      ApplyMoves(till.purse, TopupEntry(m.id, t));
      assert SettledBy(till.topups, m) == {m.id} && m.id !in Settled(till.topups);
      CreditsInsert(till'.topups, Settled(till.topups), m.id, p);
    } else if m.Pay? {
      assert Settled(till'.topups) == Settled(till.topups);
    } else {
      OthersSettleNothing(till, m, created);
    }
  }

  predicate Delivered(topups: TopupTable, messages: seq<Message>, id: TopupId) {
    exists i :: 0 <= i < |messages| && Matching(topups, messages[i], id)
  }

  ghost predicate AllCarry(messages: seq<Message>, created: Intents) {
    forall i :: 0 <= i < |messages| ==> Carries(messages[i], created)
  }

  function DeliveredTo(topups: TopupTable, messages: seq<Message>): set<TopupId> {
    set id | id in topups && Delivered(topups, messages, id)
  }

  lemma {:induction false} DeliveredLater(topups: TopupTable, messages: seq<Message>, m: Message)
    ensures DeliveredTo(topups, messages + [m]) == DeliveredTo(topups, messages) + SettledBy(topups, m)
  {
    var all := messages + [m];
    forall id | id in topups
      ensures Delivered(topups, all, id) <==> Delivered(topups, messages, id) || Matching(topups, m, id)
    {
      if Delivered(topups, messages, id) {
        var i :| 0 <= i < |messages| && Matching(topups, messages[i], id);
        assert Matching(topups, all[i], id);
      }
      assert all[|messages|] == m;
    }
  }

  lemma SettledByStatic(a: TopupTable, b: TopupTable, m: Message)
    requires SameOrders(a, b)
    ensures SettledBy(a, m) == SettledBy(b, m)
  {
  }

  lemma {:induction false} ReceiveAllOk(till: Till, messages: seq<Message>, created: Intents)
    requires TillOk(till) && Attributed(till.topups, created) && IntentsDistinct(created) && AllCarry(messages, created)
    ensures var till' := ReceiveAll(till, messages);
            TillOk(till') && Attributed(till'.topups, created) && SameOrders(till.topups, till'.topups)
  {
    if messages != [] {
      var prefix, last := messages[..|messages| - 1], messages[|messages| - 1];
      ReceiveAllOk(till, prefix, created);
      ReceiveOk(ReceiveAll(till, prefix), last);
      ReceiveSettles(ReceiveAll(till, prefix), last, created);
    }
  }

  lemma {:induction false} ReceiveAllSettles(till: Till, messages: seq<Message>, created: Intents)
    requires TillOk(till) && Attributed(till.topups, created) && IntentsDistinct(created) && AllCarry(messages, created)
    ensures var till' := ReceiveAll(till, messages);
            && TillOk(till') && SameOrders(till.topups, till'.topups)
            && Settled(till'.topups) == Settled(till.topups) + DeliveredTo(till.topups, messages)
  {
    ReceiveAllOk(till, messages, created);
    if messages != [] {
      var prefix, last := messages[..|messages| - 1], messages[|messages| - 1];
      assert messages == prefix + [last];
      hide TillOk, Attributed, IntentsDistinct, Carries, Receive, SettledBy, DeliveredTo, SameOrders;
      ReceiveAllOk(till, prefix, created);
      ReceiveAllSettles(till, prefix, created);
      ReceiveSettles(ReceiveAll(till, prefix), last, created);
      SettledByStatic(till.topups, ReceiveAll(till, prefix).topups, last);
      DeliveredLater(till.topups, prefix, last);
    }
  }

  lemma {:induction false} ReceiveAllBalance(till: Till, messages: seq<Message>, p: ProviderId, created: Intents)
    requires TillOk(till) && Attributed(till.topups, created) && IntentsDistinct(created) && AllCarry(messages, created)
    requires p in till.purse.accounts
    ensures p in ReceiveAll(till, messages).purse.accounts && Rest(ReceiveAll(till, messages), p) == Rest(till, p)
  {
    if messages != [] {
      var prefix := messages[..|messages| - 1];
      ReceiveAllBalance(till, prefix, p, created);
      ReceiveAllOk(till, prefix, created);
      ReceiveBalance(ReceiveAll(till, prefix), messages[|messages| - 1], p, created);
    }
  }

  /** A top-up's credit is in the ledger iff some matching success was delivered, then exactly once
      and in full. */
  lemma {:induction false} CreditedIffDelivered(till: Till, messages: seq<Message>, created: Intents, id: TopupId)
    requires TillOk(till) && Attributed(till.topups, created) && IntentsDistinct(created) && AllCarry(messages, created)
    requires id in till.topups && !till.topups[id].Settled()
    ensures var ledger := ReceiveAll(till, messages).purse.ledger;
            && (Posted(ledger, TopUpKey(id)) <==> Delivered(till.topups, messages, id))
            && (forall i, j ::
                  (0 <= i < |ledger| && 0 <= j < |ledger| && ledger[i].key == ledger[j].key == TopUpKey(id)) ==> i == j)
            && (forall i :: 0 <= i < |ledger| && ledger[i].key == TopUpKey(id) ==>
                  ledger[i].provider == till.topups[id].provider && ledger[i].amount == till.topups[id].credits)
  {
    hide Attributed, IntentsDistinct, AllCarry, ReceiveAll, Delivered;
    ReceiveAllSettles(till, messages, created);
    var till' := ReceiveAll(till, messages);
    assert CreditPosted(till', id);
    assert id in Settled(till'.topups) <==> Delivered(till.topups, messages, id);
  }

  /** The balances depend only on which successes were delivered: not on order, duplicates, failures,
      refunds or when the intents were recorded. */
  lemma {:induction false} BalancesConfluent(till: Till, some: seq<Message>, other: seq<Message>, p: ProviderId,
                                             created: Intents)
    requires TillOk(till) && Attributed(till.topups, created) && IntentsDistinct(created)
    requires AllCarry(some, created) && AllCarry(other, created)
    requires forall m: Message :: m.Pay? ==> (m in some <==> m in other)
    requires p in till.purse.accounts
    ensures var a, b := ReceiveAll(till, some).purse.accounts, ReceiveAll(till, other).purse.accounts;
            p in a && p in b && a[p].balance == b[p].balance
  {
    hide TillOk, Attributed, IntentsDistinct, AllCarry, Credits, ReceiveAll, Delivered;
    ReceiveAllSettles(till, some, created);
    ReceiveAllSettles(till, other, created);
    ReceiveAllBalance(till, some, p, created);
    ReceiveAllBalance(till, other, p, created);
    SameDeliveries(till.topups, some, other);
    SameDeliveries(till.topups, other, some);
    var a, b := ReceiveAll(till, some), ReceiveAll(till, other);
    assert Settled(a.topups) == Settled(b.topups);
    CreditsStatic(a.topups, b.topups, Settled(a.topups), p);
  }

  lemma {:induction false} SameDeliveries(topups: TopupTable, some: seq<Message>, other: seq<Message>)
    requires forall m: Message :: m.Pay? ==> (m in some <==> m in other)
    ensures forall id :: Delivered(topups, some, id) ==> Delivered(topups, other, id)
  {
  }

  lemma {:induction false} CarriedInAnyOrder(some: seq<Message>, other: seq<Message>, created: Intents)
    requires AllCarry(some, created) && multiset(some) == multiset(other)
    ensures AllCarry(other, created)
  {
    forall i | 0 <= i < |other|
      ensures Carries(other[i], created)
    {
      assert other[i] in multiset(some);
      assert other[i] in some;
    }
  }

  /** In particular a permutation of the deliveries. */
  lemma {:induction false} PermutationSameBalances(till: Till, some: seq<Message>, other: seq<Message>, p: ProviderId,
                                                   created: Intents)
    requires TillOk(till) && Attributed(till.topups, created) && IntentsDistinct(created)
    requires AllCarry(some, created) && multiset(some) == multiset(other)
    requires p in till.purse.accounts
    ensures var a, b := ReceiveAll(till, some).purse.accounts, ReceiveAll(till, other).purse.accounts;
            p in a && p in b && a[p].balance == b[p].balance
  {
    forall m
      ensures m in some <==> m in other
    {
      assert m in multiset(some) <==> m in multiset(other);
    }
    CarriedInAnyOrder(some, other, created);
    BalancesConfluent(till, some, other, p, created);
  }

  /** When the event carries the intent created for its top-up, the decision is the same whenever
      the handler reads: so reads may be interleaved with commits at will. */
  lemma DecisionStable(a: TopupTable, b: TopupTable, ev: Webhook, id: TopupId, created: Intents)
    requires SameOrders(a, b) && Attributed(a, created) && Attributed(b, created) && IntentsDistinct(created)
    requires id in a && id in created && ev.intent == created[id] != ""
    requires ev.ChargeRefunded? || ev.topupRef == Some(id)
    ensures Decide(a, ev) == Decide(b, ev)
    ensures Decide(a, ev).Some? ==> Carries(Decide(a, ev).value, created)
    ensures ev.Succeeded? ==>
              && (Decide(a, ev).Some? <==>
                    ev.confirmed && ev.amount == a[id].amount && ev.currency == a[id].currency
                    && (ev.provider.Some? ==> ev.provider.value == a[id].provider))
              && (Decide(a, ev).Some? ==> Matching(a, Decide(a, ev).value, id))
    ensures ev.PaymentFailed? ==> Decide(a, ev) == Some(Mark(id, TopupFailed))
    ensures ev.PaymentCanceled? ==> Decide(a, ev) == Some(Mark(id, TopupExpired))
    ensures ev.ChargeRefunded? ==> Decide(a, ev) == if ev.refunded then Some(RefundIntent(created[id])) else None
  {
  }
}
