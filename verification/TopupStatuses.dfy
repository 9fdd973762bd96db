/** The status a top-up ends with, message order included: unlike its credit it depends on that order. */
module TopupStatuses {
  import opened Common
  import opened Wallet
  import opened Topups

  /** What one message does to the status of the top-up that `order` describes and `intent` pays for. */
  function Moved(orders: TopupTable, id: TopupId, intent: string, s: TopupStatus, m: Message): TopupStatus {
    if Matching(orders, m, id) && !s.TopupPaid? && !s.TopupRefunded? then TopupPaid
    else if m == RefundIntent(intent) && s.TopupPaid? then TopupRefunded
    else if m.Mark? && m.id == id && s.TopupPending? then m.to
    else s
  }

  function MovedAll(orders: TopupTable, id: TopupId, intent: string, s: TopupStatus,
                    messages: seq<Message>): TopupStatus {
    if messages == [] then s
    else Moved(orders, id, intent, MovedAll(orders, id, intent, s, messages[..|messages| - 1]),
      messages[|messages| - 1])
  }

  /** The rows that can be told apart by now: a settled top-up carries the intent that paid for it. */
  ghost predicate Tracked(till: Till, id: TopupId, created: Intents) {
    && TillOk(till) && Attributed(till.topups, created) && IntentsDistinct(created)
    && id in till.topups && id in created
    && (till.topups[id].Settled() ==> till.topups[id].intent == Some(created[id]))
  }

  /** What a step does to a row it leaves unsettled, or finds settled. */
  lemma UnsettledMoves(till: Till, m: Message, id: TopupId, created: Intents)
    requires id in till.topups && id in created && IntentsDistinct(created) && Carries(m, created)
    requires till.topups[id].Settled() ==> till.topups[id].intent == Some(created[id])
    ensures id in Receive(till, m).topups
    ensures var after := Receive(till, m).topups[id];
            && (!m.Pay? ==> after.status == Moved(till.topups, id, created[id], till.topups[id].status, m))
            && (m.Pay? && after != till.topups[id] ==>
                  m.id == id && after.status.TopupPaid? && after.intent == Some(created[id]))
            && (after.Settled() && till.topups[id].Settled() ==> after.intent == Some(created[id]))
  {
  }

  lemma ReceiveMoves(till: Till, m: Message, id: TopupId, created: Intents)
    requires Tracked(till, id, created) && Carries(m, created)
    ensures Tracked(Receive(till, m), id, created)
    ensures Receive(till, m).topups[id].status == Moved(till.topups, id, created[id], till.topups[id].status, m)
  {
    ReceiveOk(till, m);
    ReceiveSettles(till, m, created);
    UnsettledMoves(till, m, id, created);
    hide TillOk, Receive, Carries;
    assert id in Settled(till.topups) <==> till.topups[id].Settled();
    assert id in Settled(Receive(till, m).topups) <==> Receive(till, m).topups[id].Settled();
  }

  lemma MovedStatic(a: TopupTable, b: TopupTable, id: TopupId, intent: string, s: TopupStatus, m: Message)
    requires SameOrders(a, b)
    ensures Moved(a, id, intent, s, m) == Moved(b, id, intent, s, m)
  {
  }

  /** Rows move as the status alone does, whatever else a run contains. */
  lemma {:induction false} RunMoves(till: Till, messages: seq<Message>, id: TopupId, created: Intents)
    requires Tracked(till, id, created) && AllCarry(messages, created)
    ensures Tracked(ReceiveAll(till, messages), id, created)
    ensures SameOrders(till.topups, ReceiveAll(till, messages).topups)
    ensures ReceiveAll(till, messages).topups[id].status
         == MovedAll(till.topups, id, created[id], till.topups[id].status, messages)
    decreases |messages|
  {
    if messages != [] {
      var prefix, last := messages[..|messages| - 1], messages[|messages| - 1];
      RunMoves(till, prefix, id, created);
      assert Carries(last, created);
      hide Tracked, SameOrders, Carries, Moved, Receive;
      NextMoves(till, ReceiveAll(till, prefix), last, id, created);
    }
  }

  lemma NextMoves(first: Till, till: Till, m: Message, id: TopupId, created: Intents)
    requires Tracked(till, id, created) && Carries(m, created) && SameOrders(first.topups, till.topups)
    ensures Tracked(Receive(till, m), id, created) && SameOrders(first.topups, Receive(till, m).topups)
    ensures Receive(till, m).topups[id].status == Moved(first.topups, id, created[id], till.topups[id].status, m)
  {
    hide TillOk;
    ReceiveMoves(till, m, id, created);
    ReceiveSettles(till, m, created);
    MovedStatic(first.topups, till.topups, id, created[id], till.topups[id].status, m);
  }

  // ---- the order that matters ----

  /** A refund of the payment comes after some matching success. */
  predicate RefundFollows(orders: TopupTable, id: TopupId, intent: string, messages: seq<Message>) {
    exists i, j :: 0 <= i < j < |messages| && Matching(orders, messages[i], id) && messages[j] == RefundIntent(intent)
  }

  /** The first failure or expiry reported for the top-up. */
  function FirstMark(messages: seq<Message>, id: TopupId): Option<TopupStatus> {
    if messages == [] then None
    else
      var earlier, last := FirstMark(messages[..|messages| - 1], id), messages[|messages| - 1];
      if earlier.None? && last.Mark? && last.id == id then Some(last.to) else earlier
  }

  /** The status by order alone: refunded if a refund follows the payment, else paid if a payment came,
      else the first mark of a pending top-up. */
  function ByOrder(orders: TopupTable, id: TopupId, intent: string, s: TopupStatus,
                   messages: seq<Message>): TopupStatus {
    if RefundFollows(orders, id, intent, messages) then TopupRefunded
    else if Delivered(orders, messages, id) then TopupPaid
    else if s.TopupPending? && FirstMark(messages, id).Some? then FirstMark(messages, id).value
    else s
  }

  lemma {:induction false} RefundFollowsGrows(orders: TopupTable, id: TopupId, intent: string, prefix: seq<Message>,
                                              m: Message)
    ensures RefundFollows(orders, id, intent, prefix + [m])
       <==> RefundFollows(orders, id, intent, prefix) || (Delivered(orders, prefix, id) && m == RefundIntent(intent))
  {
    var all := prefix + [m];
    if RefundFollows(orders, id, intent, prefix) {
      var i, j :| 0 <= i < j < |prefix| && Matching(orders, prefix[i], id) && prefix[j] == RefundIntent(intent);
      assert Matching(orders, all[i], id) && all[j] == RefundIntent(intent);
    }
    if Delivered(orders, prefix, id) && m == RefundIntent(intent) {
      var i :| 0 <= i < |prefix| && Matching(orders, prefix[i], id);
      assert Matching(orders, all[i], id) && all[|prefix|] == m;
    }
  }

  lemma {:induction false} DeliveredGrows(orders: TopupTable, id: TopupId, prefix: seq<Message>, m: Message)
    ensures Delivered(orders, prefix + [m], id) <==> Delivered(orders, prefix, id) || Matching(orders, m, id)
  {
    var all := prefix + [m];
    if Delivered(orders, prefix, id) {
      var i :| 0 <= i < |prefix| && Matching(orders, prefix[i], id);
      assert Matching(orders, all[i], id);
    }
    assert all[|prefix|] == m;
  }

  /** Marks are never final payments. */
  predicate MarksFail(messages: seq<Message>) {
    forall i :: 0 <= i < |messages| && messages[i].Mark? ==> messages[i].to.TopupFailed? || messages[i].to.TopupExpired?
  }

  lemma {:induction false} FirstMarkFails(messages: seq<Message>, id: TopupId)
    requires MarksFail(messages) && FirstMark(messages, id).Some?
    ensures FirstMark(messages, id).value.TopupFailed? || FirstMark(messages, id).value.TopupExpired?
    decreases |messages|
  {
    if FirstMark(messages[..|messages| - 1], id).Some? {
      FirstMarkFails(messages[..|messages| - 1], id);
    }
  }

  lemma {:induction false} MovesByOrder(orders: TopupTable, id: TopupId, intent: string, s: TopupStatus,
                                        messages: seq<Message>)
    requires !s.TopupPaid? && !s.TopupRefunded? && MarksFail(messages)
    ensures MovedAll(orders, id, intent, s, messages) == ByOrder(orders, id, intent, s, messages)
    decreases |messages|
  {
    if messages != [] {
      var prefix, last := messages[..|messages| - 1], messages[|messages| - 1];
      assert messages == prefix + [last];
      MovesByOrder(orders, id, intent, s, prefix);
      RefundFollowsGrows(orders, id, intent, prefix, last);
      DeliveredGrows(orders, id, prefix, last);
      if FirstMark(prefix, id).Some? {
        FirstMarkFails(prefix, id);
      }
      hide Delivered, RefundFollows;
    }
  }

  /** The status after every run, exactly: refunded iff a refund of the payment follows a matching
      success, paid iff a success came and no refund after it, and otherwise the first failure or
      expiry if it was pending, or what it was. */
  lemma {:induction false} StatusByOrder(till: Till, messages: seq<Message>, id: TopupId, created: Intents)
    requires TillOk(till) && Attributed(till.topups, created) && IntentsDistinct(created) && AllCarry(messages, created)
    requires id in till.topups && id in created && !till.topups[id].Settled()
    ensures id in ReceiveAll(till, messages).topups
    ensures var status := ReceiveAll(till, messages).topups[id].status;
            && status == ByOrder(till.topups, id, created[id], till.topups[id].status, messages)
            && (status.TopupRefunded? <==> RefundFollows(till.topups, id, created[id], messages))
            && (status.TopupPaid? <==>
                  Delivered(till.topups, messages, id) && !RefundFollows(till.topups, id, created[id], messages))
  {
    RunMoves(till, messages, id, created);
    MarksOfCarried(messages, created);
    MovesByOrder(till.topups, id, created[id], till.topups[id].status, messages);
    if FirstMark(messages, id).Some? {
      FirstMarkFails(messages, id);
    }
  }

  lemma {:induction false} MarksOfCarried(messages: seq<Message>, created: Intents)
    requires AllCarry(messages, created)
    ensures MarksFail(messages)
  {
    forall i | 0 <= i < |messages| && messages[i].Mark?
      ensures messages[i].to.TopupFailed? || messages[i].to.TopupExpired?
    {
      assert Carries(messages[i], created);
    }
  }

  // ---- which runs may be reordered ----

  /** No two messages of the run compete for the status: no refund beside a payment and, without a
      payment, no failure beside an expiry of a pending top-up. */
  predicate OrderFree(orders: TopupTable, id: TopupId, intent: string, s: TopupStatus, messages: seq<Message>) {
    if Delivered(orders, messages, id) then RefundIntent(intent) !in messages
    else s.TopupPending? ==> !(Mark(id, TopupFailed) in messages && Mark(id, TopupExpired) in messages)
  }

  lemma {:induction false} FirstMarkIsIn(messages: seq<Message>, id: TopupId)
    ensures FirstMark(messages, id).Some? ==> Mark(id, FirstMark(messages, id).value) in messages
    ensures FirstMark(messages, id).None? ==> forall m :: m in messages && m.Mark? ==> m.id != id
    decreases |messages|
  {
    if messages != [] {
      FirstMarkIsIn(messages[..|messages| - 1], id);
      assert forall m :: m in messages <==> m in messages[..|messages| - 1] || m == messages[|messages| - 1];
    }
  }

  lemma {:induction false} DeliveredIfIn(orders: TopupTable, messages: seq<Message>, id: TopupId)
    ensures Delivered(orders, messages, id) <==> exists m :: m in messages && Matching(orders, m, id)
  {
  }

  lemma {:induction false} SameMembers(some: seq<Message>, other: seq<Message>)
    requires multiset(some) == multiset(other)
    ensures forall m :: m in some <==> m in other
  {
    forall m
      ensures m in some <==> m in other
    {
      assert m in multiset(some) <==> m in multiset(other);
    }
  }

  lemma {:induction false} FreeOrderIsStable(orders: TopupTable, id: TopupId, intent: string, s: TopupStatus,
                                             some: seq<Message>, other: seq<Message>)
    requires OrderFree(orders, id, intent, s, some) && multiset(some) == multiset(other) && MarksFail(some)
    ensures ByOrder(orders, id, intent, s, some) == ByOrder(orders, id, intent, s, other)
  {
    SameMembers(some, other);
    DeliveredIfIn(orders, some, id);
    DeliveredIfIn(orders, other, id);
    FirstMarkIsIn(some, id);
    FirstMarkIsIn(other, id);
    assert RefundFollows(orders, id, intent, some) ==> RefundIntent(intent) in some;
    assert RefundFollows(orders, id, intent, other) ==> RefundIntent(intent) in other;
    if FirstMark(some, id).Some? {
      FirstMarkFails(some, id);
    }
  }

  /** The messages with one of them moved to the front, or to the back. */
  lemma {:induction false} TakeOut(messages: seq<Message>, m: Message) returns (rest: seq<Message>)
    requires m in messages
    ensures multiset([m] + rest) == multiset(messages) && multiset(rest + [m]) == multiset(messages)
  {
    var i :| 0 <= i < |messages| && messages[i] == m;
    rest := messages[..i] + messages[i + 1..];
    assert messages == messages[..i] + [m] + messages[i + 1..];
  }

  lemma {:induction false} FirstMarkOfFront(m: Message, rest: seq<Message>, id: TopupId)
    requires m.Mark? && m.id == id
    ensures FirstMark([m] + rest, id) == Some(m.to)
    decreases |rest|
  {
    var all := [m] + rest;
    if rest == [] {
      assert all[..|all| - 1] == [];
    } else {
      assert all[..|all| - 1] == [m] + rest[..|rest| - 1];
      FirstMarkOfFront(m, rest[..|rest| - 1], id);
    }
  }

  function Copies(messages: seq<Message>, m: Message): seq<Message> {
    if messages == [] then []
    else Copies(messages[..|messages| - 1], m) + if messages[|messages| - 1] == m then [m] else []
  }

  function Without(messages: seq<Message>, m: Message): seq<Message> {
    if messages == [] then []
    else
      var last := messages[|messages| - 1];
      Without(messages[..|messages| - 1], m) + if last == m then [] else [last]
  }

  lemma {:induction false} CopiesAndOthers(messages: seq<Message>, m: Message)
    ensures multiset(Copies(messages, m)) + multiset(Without(messages, m)) == multiset(messages)
    decreases |messages|
  {
    if messages != [] {
      CopiesAndOthers(messages[..|messages| - 1], m);
      assert messages == messages[..|messages| - 1] + [messages[|messages| - 1]];
    }
  }

  lemma {:induction false} CopiesOnly(messages: seq<Message>, m: Message)
    ensures (forall x :: x in Copies(messages, m) ==> x == m) && m !in Without(messages, m)
    decreases |messages|
  {
    if messages != [] {
      CopiesOnly(messages[..|messages| - 1], m);
    }
  }

  /** With a payment and its refund both in the run, one order refunds and another one loses the refund. */
  lemma {:induction false} RefundCompetes(orders: TopupTable, id: TopupId, intent: string, messages: seq<Message>)
    returns (early: seq<Message>, late: seq<Message>)
    requires Delivered(orders, messages, id) && RefundIntent(intent) in messages
    ensures multiset(early) == multiset(messages) == multiset(late)
    ensures !RefundFollows(orders, id, intent, early) && RefundFollows(orders, id, intent, late)
  {
    var refund := RefundIntent(intent);
    CopiesAndOthers(messages, refund);
    CopiesOnly(messages, refund);
    var copies, others := Copies(messages, refund), Without(messages, refund);
    early := copies + others;
    forall i | 0 <= i < |copies|
      ensures early[i] == refund
    {
      assert copies[i] in copies;
    }
    forall j | |copies| <= j < |early|
      ensures early[j] != refund
    {
      assert others[j - |copies|] in others;
    }
    var rest := TakeOut(messages, refund);
    late := rest + [refund];
    SameMembers(messages, late);
    DeliveredIfIn(orders, messages, id);
    DeliveredIfIn(orders, late, id);
    DeliveredGrows(orders, id, rest, refund);
    RefundFollowsGrows(orders, id, intent, rest, refund);
  }

  /** With a failure and an expiry both reported and no payment, the first of them stays. */
  lemma {:induction false} MarksCompete(id: TopupId, messages: seq<Message>)
    returns (failed: seq<Message>, expired: seq<Message>)
    requires Mark(id, TopupFailed) in messages && Mark(id, TopupExpired) in messages
    ensures multiset(failed) == multiset(messages) == multiset(expired)
    ensures FirstMark(failed, id) == Some(TopupFailed) && FirstMark(expired, id) == Some(TopupExpired)
  {
    var a := TakeOut(messages, Mark(id, TopupFailed));
    var b := TakeOut(messages, Mark(id, TopupExpired));
    FirstMarkOfFront(Mark(id, TopupFailed), a, id);
    FirstMarkOfFront(Mark(id, TopupExpired), b, id);
    failed, expired := [Mark(id, TopupFailed)] + a, [Mark(id, TopupExpired)] + b;
  }

  ghost predicate SameInAnyOrder(orders: TopupTable, id: TopupId, intent: string, s: TopupStatus,
                                 messages: seq<Message>) {
    forall other: seq<Message> :: multiset(other) == multiset(messages) ==>
      ByOrder(orders, id, intent, s, other) == ByOrder(orders, id, intent, s, messages)
  }

  lemma {:induction false} OrderFreeIff(orders: TopupTable, id: TopupId, intent: string, s: TopupStatus,
                                        messages: seq<Message>)
    requires MarksFail(messages)
    ensures SameInAnyOrder(orders, id, intent, s, messages) <==> OrderFree(orders, id, intent, s, messages)
  {
    if OrderFree(orders, id, intent, s, messages) {
      forall other: seq<Message> | multiset(other) == multiset(messages)
        ensures ByOrder(orders, id, intent, s, other) == ByOrder(orders, id, intent, s, messages)
      {
        FreeOrderIsStable(orders, id, intent, s, messages, other);
      }
    } else if Delivered(orders, messages, id) {
      var early, late := RefundCompetes(orders, id, intent, messages);
      SameMembers(messages, early);
      DeliveredIfIn(orders, messages, id);
      DeliveredIfIn(orders, early, id);
      assert ByOrder(orders, id, intent, s, early) != ByOrder(orders, id, intent, s, late);
    } else {
      var failed, expired := MarksCompete(id, messages);
      NothingDelivered(orders, id, intent, messages, failed);
      NothingDelivered(orders, id, intent, messages, expired);
      assert ByOrder(orders, id, intent, s, failed) != ByOrder(orders, id, intent, s, expired);
    }
  }

  lemma {:induction false} NothingDelivered(orders: TopupTable, id: TopupId, intent: string,
                                            messages: seq<Message>, other: seq<Message>)
    requires !Delivered(orders, messages, id) && multiset(other) == multiset(messages)
    ensures !Delivered(orders, other, id) && !RefundFollows(orders, id, intent, other)
  {
    SameMembers(messages, other);
    DeliveredIfIn(orders, messages, id);
    DeliveredIfIn(orders, other, id);
  }

  function StatusAfter(till: Till, messages: seq<Message>, id: TopupId): Option<TopupStatus> {
    var topups := ReceiveAll(till, messages).topups;
    if id in topups then Some(topups[id].status) else None
  }

  /** Every order of a run's messages ends in the same status iff no two of them compete for it. */
  lemma {:induction false} StatusOrderIrrelevantIff(till: Till, messages: seq<Message>, id: TopupId, created: Intents)
    requires TillOk(till) && Attributed(till.topups, created) && IntentsDistinct(created) && AllCarry(messages, created)
    requires id in till.topups && id in created && !till.topups[id].Settled()
    ensures (forall other: seq<Message> :: multiset(other) == multiset(messages) ==>
               StatusAfter(till, other, id) == StatusAfter(till, messages, id))
       <==> OrderFree(till.topups, id, created[id], till.topups[id].status, messages)
  {
    hide TillOk, Attributed, IntentsDistinct, ReceiveAll, ByOrder, OrderFree;
    forall other: seq<Message> | multiset(other) == multiset(messages)
      ensures StatusAfter(till, other, id) == Some(ByOrder(till.topups, id, created[id], till.topups[id].status, other))
    {
      CarriedInAnyOrder(messages, other, created);
      StatusByOrder(till, other, id, created);
    }
    MarksOfCarried(messages, created);
    OrderFreeIff(till.topups, id, created[id], till.topups[id].status, messages);
  }

  /** In particular a refund that overtakes its payment is lost, whether or not the intent was already
      recorded: from any unsettled top-up the two orders end paid and refunded. */
  lemma {:induction false} RefundOvertakesPayment(till: Till, id: TopupId, created: Intents)
    requires TillOk(till) && Attributed(till.topups, created) && IntentsDistinct(created)
    requires id in till.topups && id in created && !till.topups[id].Settled()
    ensures var pay := Pay(id, created[id], till.topups[id].amount, till.topups[id].currency);
            var refund := RefundIntent(created[id]);
            && StatusAfter(till, [pay, refund], id) == Some(TopupRefunded)
            && StatusAfter(till, [refund, pay], id) == Some(TopupPaid)
  {
    var pay, refund := Pay(id, created[id], till.topups[id].amount, till.topups[id].currency),
      RefundIntent(created[id]);
    var inOrder, overtaken := [pay, refund], [refund, pay];
    assert Matching(till.topups, inOrder[0], id) && inOrder[1] == refund;
    assert Matching(till.topups, overtaken[1], id);
    assert RefundFollows(till.topups, id, created[id], inOrder);
    assert !RefundFollows(till.topups, id, created[id], overtaken);
    assert Delivered(till.topups, overtaken, id);
    StatusByOrder(till, inOrder, id, created);
    StatusByOrder(till, overtaken, id, created);
  }
}
