/**
 Runs of payment webhooks and of top-up creations recording their intent. Each handler reads the
 tables at some moment, decides, and commits later; any number of other deliveries comes in between.
 */
module Webhooks {
  import opened Common
  import opened Wallet
  import opened Topups
  import opened TopupStatuses

  /** Listed in the order of their commits. `read` says after how many commits a handler had read. */
  datatype Arrival =
    | Recorded(id: TopupId)
    | Event(id: TopupId, ev: Webhook, read: nat)

  /** The event is about the intent that was created for its top-up, and names that top-up. */
  predicate Genuine(a: Arrival, created: Intents) {
    && a.id in created
    && (a.Event? ==>
          && a.ev.intent == created[a.id] != ""
          && (a.ev.ChargeRefunded? || a.ev.topupRef == Some(a.id)))
  }

  ghost predicate AllGenuine(arrivals: seq<Arrival>, created: Intents) {
    forall i :: 0 <= i < |arrivals| ==> Genuine(arrivals[i], created)
  }

  /** What the arrivals commit: every handler decides from the rows as they were when it read them. */
  ghost function Commits(till: Till, arrivals: seq<Arrival>, created: Intents): seq<Message>
    requires AllGenuine(arrivals, created)
    decreases |arrivals|, 0
  {
    if arrivals == [] then []
    else
      var prefix, last := arrivals[..|arrivals| - 1], arrivals[|arrivals| - 1];
      Commits(till, prefix, created) + Committed(Seen(till, prefix, created, last), last, created)
  }

  /** The rows a handler sees. */
  ghost function Seen(till: Till, prefix: seq<Arrival>, created: Intents, a: Arrival): TopupTable
    requires AllGenuine(prefix, created)
    decreases |prefix|, 1
  {
    var read := if a.Event? && a.read < |prefix| then a.read else |prefix|;
    ReceiveAll(till, Commits(till, prefix[..read], created)).topups
  }

  ghost function Committed(seen: TopupTable, a: Arrival, created: Intents): seq<Message>
    requires Genuine(a, created)
  {
    match a
    case Recorded(id) => [Attach(id, created[id])]
    case Event(_, ev, _) => if Decide(seen, ev).Some? then [Decide(seen, ev).value] else []
  }

  ghost function After(till: Till, arrivals: seq<Arrival>, created: Intents): Till
    requires AllGenuine(arrivals, created)
  {
    ReceiveAll(till, Commits(till, arrivals, created))
  }

  // ---- the moment of reading does not matter ----

  ghost predicate Ready(till: Till, created: Intents) {
    TillOk(till) && Attributed(till.topups, created) && IntentsDistinct(created)
  }

  lemma CommittedAlike(a: TopupTable, b: TopupTable, arrival: Arrival, created: Intents)
    requires SameOrders(a, b) && Attributed(a, created) && Attributed(b, created) && IntentsDistinct(created)
    requires Genuine(arrival, created)
    ensures Committed(a, arrival, created) == Committed(b, arrival, created)
    ensures AllCarry(Committed(a, arrival, created), created)
  {
    if arrival.Event? && arrival.id in a {
      DecisionStable(a, b, arrival.ev, arrival.id, created);
    }
  }

  /** The messages committed are those a handler would decide on from the very first rows. */
  ghost function Unread(topups: TopupTable, arrivals: seq<Arrival>, created: Intents): seq<Message>
    requires AllGenuine(arrivals, created)
  {
    if arrivals == [] then []
    else
      Unread(topups, arrivals[..|arrivals| - 1], created) + Committed(topups, arrivals[|arrivals| - 1], created)
  }

  lemma {:induction false} ReadingIsStable(till: Till, arrivals: seq<Arrival>, created: Intents)
    requires Ready(till, created) && AllGenuine(arrivals, created)
    ensures Commits(till, arrivals, created) == Unread(till.topups, arrivals, created)
    ensures AllCarry(Commits(till, arrivals, created), created)
    decreases |arrivals|
  {
    if arrivals != [] {
      var prefix, last := arrivals[..|arrivals| - 1], arrivals[|arrivals| - 1];
      var read := if last.Event? && last.read < |prefix| then last.read else |prefix|;
      ReadingIsStable(till, prefix, created);
      ReadingIsStable(till, prefix[..read], created);
      ReceiveAllOk(till, Commits(till, prefix[..read], created), created);
      hide TillOk, Attributed, IntentsDistinct, Committed, ReceiveAll, SameOrders, Genuine;
      CommittedAlike(till.topups, Seen(till, prefix, created, last), last, created);
    }
  }

  // ---- what a run of webhooks does ----

  /** A confirmed success with the top-up's own amount and currency, and its provider if it names one. */
  predicate Pays(topups: TopupTable, a: Arrival, id: TopupId) {
    && a.Event? && a.id == id && id in topups && a.ev.Succeeded? && a.ev.confirmed
    && a.ev.amount == topups[id].amount && a.ev.currency == topups[id].currency
    && (a.ev.provider.Some? ==> a.ev.provider.value == topups[id].provider)
  }

  predicate Refunds(a: Arrival, id: TopupId) {
    a.Event? && a.id == id && a.ev.ChargeRefunded? && a.ev.refunded
  }

  predicate Paid(topups: TopupTable, arrivals: seq<Arrival>, id: TopupId) {
    exists i :: 0 <= i < |arrivals| && Pays(topups, arrivals[i], id)
  }

  predicate RefundedLater(topups: TopupTable, arrivals: seq<Arrival>, id: TopupId) {
    exists i, j :: 0 <= i < j < |arrivals| && Pays(topups, arrivals[i], id) && Refunds(arrivals[j], id)
  }

  lemma CommittedMeans(topups: TopupTable, a: Arrival, created: Intents, id: TopupId)
    requires Genuine(a, created) && Attributed(topups, created) && IntentsDistinct(created)
    ensures Pays(topups, a, id) <==>
            exists m :: m in Committed(topups, a, created) && Matching(topups, m, id)
    ensures id in created ==>
              (Refunds(a, id) <==> RefundIntent(created[id]) in Committed(topups, a, created))
    ensures |Committed(topups, a, created)| <= 1
    ensures forall m :: m in Committed(topups, a, created) && m.Pay? ==>
              Pays(topups, a, m.id) && m == Pay(m.id, created[a.id], topups[m.id].amount, topups[m.id].currency)
  {
    var messages := Committed(topups, a, created);
    if a.Event? && a.id in topups {
      DecisionStable(topups, topups, a.ev, a.id, created);
    }
    if |messages| == 1 {
      assert messages[0] in messages;
    }
  }

  lemma {:induction false} PaidIsDelivered(topups: TopupTable, arrivals: seq<Arrival>, created: Intents, id: TopupId)
    requires AllGenuine(arrivals, created) && Attributed(topups, created) && IntentsDistinct(created)
    ensures Paid(topups, arrivals, id) <==> Delivered(topups, Unread(topups, arrivals, created), id)
    ensures id in created ==>
              (RefundedLater(topups, arrivals, id) <==>
               RefundFollows(topups, id, created[id], Unread(topups, arrivals, created)))
    decreases |arrivals|
  {
    if arrivals != [] {
      var prefix, last := arrivals[..|arrivals| - 1], arrivals[|arrivals| - 1];
      PaidIsDelivered(topups, prefix, created, id);
      CommittedMeans(topups, last, created, id);
      PaidLater(topups, prefix, last, id);
      var earlier, more := Unread(topups, prefix, created), Committed(topups, last, created);
      assert arrivals == prefix + [last];
      hide Committed, Delivered, RefundFollows, Paid, RefundedLater, Pays, Refunds, Matching, Attributed,
        IntentsDistinct, Genuine;
      if |more| == 1 {
        assert more == [more[0]];
        DeliveredGrows(topups, id, earlier, more[0]);
        if id in created {
          RefundFollowsGrows(topups, id, created[id], earlier, more[0]);
        }
      } else {
        assert earlier + more == earlier;
      }
    }
  }

  lemma {:induction false} PaidLater(topups: TopupTable, prefix: seq<Arrival>, last: Arrival, id: TopupId)
    ensures Paid(topups, prefix + [last], id) <==> Paid(topups, prefix, id) || Pays(topups, last, id)
    ensures RefundedLater(topups, prefix + [last], id)
       <==> RefundedLater(topups, prefix, id) || (Paid(topups, prefix, id) && Refunds(last, id))
  {
    var all := prefix + [last];
    assert all[|prefix|] == last;
    if Paid(topups, prefix, id) {
      var i :| 0 <= i < |prefix| && Pays(topups, prefix[i], id);
      assert Pays(topups, all[i], id);
    }
    if RefundedLater(topups, prefix, id) {
      var i, j :| 0 <= i < j < |prefix| && Pays(topups, prefix[i], id) && Refunds(prefix[j], id);
      assert Pays(topups, all[i], id) && Refunds(all[j], id);
    }
  }

  /** Whenever each handler read: the credit is posted iff a confirmed, agreeing success arrived, then
      exactly once, to its provider and in full. */
  lemma {:induction false} CreditedExactlyOnce(till: Till, arrivals: seq<Arrival>, created: Intents, id: TopupId)
    requires Ready(till, created) && AllGenuine(arrivals, created)
    requires id in till.topups && !till.topups[id].Settled()
    ensures var ledger := After(till, arrivals, created).purse.ledger;
            && (Posted(ledger, TopUpKey(id)) <==> Paid(till.topups, arrivals, id))
            && (forall i, j ::
                  (0 <= i < |ledger| && 0 <= j < |ledger| && ledger[i].key == ledger[j].key == TopUpKey(id)) ==> i == j)
            && (forall i :: 0 <= i < |ledger| && ledger[i].key == TopUpKey(id) ==>
                  ledger[i].provider == till.topups[id].provider && ledger[i].amount == till.topups[id].credits)
  {
    ReadingIsStable(till, arrivals, created);
    PaidIsDelivered(till.topups, arrivals, created, id);
    hide *;
    CreditedIffDelivered(till, Commits(till, arrivals, created), created, id);
  }

  /** What a failure event says of the top-up: failed when the payment failed, expired when it was canceled. */
  function FailureOf(a: Arrival, id: TopupId): Option<TopupStatus> {
    if !a.Event? || a.id != id then None
    else if a.ev.PaymentFailed? then Some(TopupFailed)
    else if a.ev.PaymentCanceled? then Some(TopupExpired)
    else None
  }

  /** The first failure event to arrive. */
  function FirstFailure(arrivals: seq<Arrival>, id: TopupId): Option<TopupStatus> {
    if arrivals == [] then None
    else
      var earlier := FirstFailure(arrivals[..|arrivals| - 1], id);
      if earlier.Some? then earlier else FailureOf(arrivals[|arrivals| - 1], id)
  }

  lemma CommittedMarks(topups: TopupTable, a: Arrival, created: Intents, id: TopupId)
    requires Genuine(a, created) && Attributed(topups, created) && IntentsDistinct(created) && id in topups
    ensures |Committed(topups, a, created)| <= 1 && FirstMark(Committed(topups, a, created), id) == FailureOf(a, id)
  {
    var messages := Committed(topups, a, created);
    if a.Event? && a.id in topups {
      DecisionStable(topups, topups, a.ev, a.id, created);
    }
    if |messages| == 1 {
      assert messages == [messages[0]] && FirstMark(messages[..0], id) == None;
    }
  }

  lemma {:induction false} FirstMarkIsFirstFailure(topups: TopupTable, arrivals: seq<Arrival>, created: Intents,
                                                   id: TopupId)
    requires AllGenuine(arrivals, created) && Attributed(topups, created) && IntentsDistinct(created) && id in topups
    ensures FirstMark(Unread(topups, arrivals, created), id) == FirstFailure(arrivals, id)
    decreases |arrivals|
  {
    if arrivals != [] {
      var prefix, last := arrivals[..|arrivals| - 1], arrivals[|arrivals| - 1];
      FirstMarkIsFirstFailure(topups, prefix, created, id);
      CommittedMarks(topups, last, created, id);
      var earlier, more := Unread(topups, prefix, created), Committed(topups, last, created);
      hide Committed, FailureOf, Attributed, IntentsDistinct;
      if |more| == 1 {
        assert (earlier + more)[..|earlier|] == earlier && more[..0] == [];
      } else {
        assert earlier + more == earlier;
      }
    }
  }

  /** And its status: refunded iff the refund arrived after such a success, paid iff one arrived and no
      refund after it, and without a success what the first failure makes of a pending one. */
  lemma {:induction false} StatusByArrival(till: Till, arrivals: seq<Arrival>, created: Intents, id: TopupId)
    requires Ready(till, created) && AllGenuine(arrivals, created)
    requires id in till.topups && id in created && !till.topups[id].Settled()
    ensures id in After(till, arrivals, created).topups
    ensures var status, first := After(till, arrivals, created).topups[id].status, FirstFailure(arrivals, id);
            && (status.TopupRefunded? <==> RefundedLater(till.topups, arrivals, id))
            && (status.TopupPaid? <==> Paid(till.topups, arrivals, id) && !RefundedLater(till.topups, arrivals, id))
            && (!Paid(till.topups, arrivals, id) ==>
                  status == if till.topups[id].status.TopupPending? && first.Some? then first.value
                            else till.topups[id].status)
  {
    ReadingIsStable(till, arrivals, created);
    PaidIsDelivered(till.topups, arrivals, created, id);
    FirstMarkIsFirstFailure(till.topups, arrivals, created, id);
    StatusByOrder(till, Commits(till, arrivals, created), id, created);
    hide TillOk, Attributed, IntentsDistinct, Commits, Unread, FirstMark, FirstFailure, ReceiveAll, RefundFollows,
      Delivered, AllCarry, AllGenuine;
  }

  lemma {:induction false} PaysCommitted(topups: TopupTable, arrivals: seq<Arrival>, created: Intents, m: Message)
    requires AllGenuine(arrivals, created) && Attributed(topups, created) && IntentsDistinct(created) && m.Pay?
    ensures m in Unread(topups, arrivals, created) <==>
            && Paid(topups, arrivals, m.id) && m.id in created
            && m == Pay(m.id, created[m.id], topups[m.id].amount, topups[m.id].currency)
    decreases |arrivals|
  {
    if arrivals != [] {
      var prefix, last := arrivals[..|arrivals| - 1], arrivals[|arrivals| - 1];
      PaysCommitted(topups, prefix, created, m);
      CommittedMeans(topups, last, created, m.id);
      PaidLater(topups, prefix, last, m.id);
      assert arrivals == prefix + [last];
      hide Committed, Paid, Attributed, IntentsDistinct;
    }
  }

  /** Two runs in which successes arrived for the same top-ups leave the same balances, however the
      deliveries were ordered, repeated, read early or mixed with failures and refunds. */
  lemma {:induction false} BalancesByArrival(till: Till, some: seq<Arrival>, other: seq<Arrival>, created: Intents,
                                             p: ProviderId)
    requires Ready(till, created) && AllGenuine(some, created) && AllGenuine(other, created)
    requires forall id :: Paid(till.topups, some, id) <==> Paid(till.topups, other, id)
    requires p in till.purse.accounts
    ensures var a, b := After(till, some, created).purse.accounts, After(till, other, created).purse.accounts;
            p in a && p in b && a[p].balance == b[p].balance
  {
    ReadingIsStable(till, some, created);
    ReadingIsStable(till, other, created);
    forall m: Message | m.Pay?
      ensures m in Commits(till, some, created) <==> m in Commits(till, other, created)
    {
      PaysCommitted(till.topups, some, created, m);
      PaysCommitted(till.topups, other, created, m);
    }
    hide *;
    BalancesConfluent(till, Commits(till, some, created), Commits(till, other, created), p, created);
  }
}
