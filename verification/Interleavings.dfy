/** The service decides on rows it has read earlier: what stale decisions can and cannot do. */
module Interleavings {
  import opened Common
  import opened Wallet
  import opened Topups
  import opened ServiceRequest
  import opened Timeline
  import opened Marketplace
  import opened Billing
  import opened Refunds

  // ---- reading and committing in one step ----

  lemma DecidedNowOk(db: Db, call: Call, now: Time, policy: Policy)
    requires DecidedNow(db, call, now, policy)
    ensures CallOk(db, call, now, policy.refundGrace)
  {
  }

  lemma DecidedRefund(db: Db, c: CancelParams, now: Time, policy: Policy)
    requires DecidedNow(db, CallCancel(c), now, policy)
    ensures c.request in db.listings
    ensures c.refund == RefundDue(db.listings[c.request], c.request, c.from, c.actor, now, policy.refundGrace)
  {
  }

  lemma DecidedKeepsRule(db: Db, call: Call, now: Time, policy: Policy)
    requires ListingsOk(db.listings) && RefundRule(db, policy.refundGrace) && DecidedNow(db, call, now, policy)
    ensures RefundRule(Exec(db, call, now), policy.refundGrace)
  {
    if Cancels(db, call, now) {
      DecidedNowOk(db, call, now, policy);
      DecidedRefund(db, call.cancel, now, policy);
      CancelKeepsRuleIff(db, call.cancel, now, policy.refundGrace);
    } else {
      ExecKeepsRule(db, call, now, policy.refundGrace);
    }
  }

  /** In atomic runs a refund exists iff the customer cancelled from matched, within the grace
      period, before travel, a match that was charged. */
  lemma {:induction false} AtomicRefunds(calls: seq<Timed>, policy: Policy)
    requires Atomic(EMPTY, calls, policy)
    ensures Inv(ExecAll(EMPTY, calls)) && RefundRule(ExecAll(EMPTY, calls), policy.refundGrace)
  {
    if calls == [] {
      EmptyInv();
    } else {
      var prefix, last := calls[..|calls| - 1], calls[|calls| - 1];
      assert forall i :: 0 <= i < |prefix| ==> calls[..i] == prefix[..i];
      AtomicRefunds(prefix, policy);
      assert DecidedNow(ExecAll(EMPTY, calls[..|prefix|]), last.call, last.at, policy);
      DecidedNowOk(ExecAll(EMPTY, prefix), last.call, last.at, policy);
      ExecInv(ExecAll(EMPTY, prefix), last.call, last.at, policy.refundGrace);
      DecidedKeepsRule(ExecAll(EMPTY, prefix), last.call, last.at, policy);
    }
  }

  // ---- reading first, committing later ----

  /** Matches are never removed and their terms never change. */
  ghost predicate TermsKept(a: Db, b: Db) {
    forall o :: MatchAt(a, o).Some? ==>
      && MatchAt(b, o).Some?
      && MatchAt(b, o).value.fee == MatchAt(a, o).value.fee
      && MatchAt(b, o).value.feeWaived == MatchAt(a, o).value.feeWaived
      && MatchAt(b, o).value.createdAt == MatchAt(a, o).value.createdAt
  }

  lemma ExecTermsKept(db: Db, call: Call, now: Time)
    ensures TermsKept(db, Exec(db, call, now))
  {
    ExecListings(db, call, now);
    var s := StepOf(db, call, now);
    if s.Some? && s.value.0 in db.listings {
      StepSameTerms(db.listings[s.value.0], s.value.1, now);
    }
  }

  lemma {:induction false} ExecAllTermsKept(db: Db, calls: seq<Timed>)
    ensures TermsKept(db, ExecAll(db, calls))
  {
    if calls != [] {
      var prefix, last := calls[..|calls| - 1], calls[|calls| - 1];
      ExecAllTermsKept(db, prefix);
      ExecTermsKept(ExecAll(db, prefix), last.call, last.at);
    }
  }

  lemma {:induction false} ExecAllSplit(db: Db, first: seq<Timed>, rest: seq<Timed>)
    ensures ExecAll(db, first + rest) == ExecAll(ExecAll(db, first), rest)
  {
    var all := first + rest;
    if rest == [] {
      assert all == first;
    } else {
      assert all[..|all| - 1] == first + rest[..|rest| - 1];
      ExecAllSplit(db, first, rest[..|rest| - 1]);
    }
  }

  /** A decision read at one point of a run still names a charged match, in time, at every later point. */
  lemma {:induction false} StaleDecisionOk(db: Db, calls: seq<Timed>, c: CancelParams, user: UserId, policy: Policy,
                                           now: Time)
    requires DecideCancel(db, user, c.request, policy, now) == Some(c)
    ensures CallOk(ExecAll(db, calls), CallCancel(c), now, policy.refundGrace)
  {
    assert DecidedNow(db, CallCancel(c), now, policy);
    DecidedNowOk(db, CallCancel(c), now, policy);
    ExecAllTermsKept(db, calls);
  }

  /** Every job step and cancellation was decided on the rows at some earlier point of the run. */
  ghost predicate DecidedEarlier(calls: seq<Timed>, i: nat, policy: Policy)
    requires i < |calls|
  {
    match calls[i].call
    case CallTransitionJob(rid, from, to, actor) =>
      exists read, user :: 0 <= read <= i &&
        DecideTransition(ExecAll(EMPTY, calls[..read]), user, rid, to, calls[i].at) == Some((from, actor))
    case CallCancel(c) =>
      exists read, user :: 0 <= read <= i &&
        DecideCancel(ExecAll(EMPTY, calls[..read]), user, c.request, policy, calls[i].at) == Some(c)
    case CallReceive(m) => m.Mark? ==> m.to.TopupFailed? || m.to.TopupExpired?
    case _ => true
  }

  /** So whatever interleaving the service produces, all the claims for interleaved runs hold. */
  lemma {:induction false} ServiceRunsInterleave(calls: seq<Timed>, policy: Policy)
    requires forall i :: 0 <= i < |calls| ==> DecidedEarlier(calls, i, policy)
    ensures Interleaved(EMPTY, calls, policy.refundGrace)
    ensures Inv(ExecAll(EMPTY, calls))
  {
    forall i | 0 <= i < |calls|
      ensures CallOk(ExecAll(EMPTY, calls[..i]), calls[i].call, calls[i].at, policy.refundGrace)
    {
      assert DecidedEarlier(calls, i, policy);
      if calls[i].call.CallCancel? {
        var c := calls[i].call.cancel;
        var read, user :| 0 <= read <= i &&
          DecideCancel(ExecAll(EMPTY, calls[..read]), user, c.request, policy, calls[i].at) == Some(c);
        StaleDecisionOk(ExecAll(EMPTY, calls[..read]), calls[read..i], c, user, policy, calls[i].at);
        ExecAllSplit(EMPTY, calls[..read], calls[read..i]);
        assert calls[..read] + calls[read..i] == calls[..i];
      }
    }
    RunInv(calls, policy.refundGrace);
  }
}
