/**
 Whose match a stale decision reaches. TransitionJob and Cancel recheck the request's status under
 the lock and not the match, so a provider's decision can reach somebody else's job.
 */
module StaleSteps {
  import opened Common
  import opened Wallet
  import opened ServiceRequest
  import opened Coupling
  import opened Timeline
  import opened Marketplace
  import opened Billing
  import opened Identities
  import opened Interleavings

  /** The only match a live request has left is its active one. */
  lemma CurrentIsActive(l: Listing)
    requires Coupled(l) && l.row.status.IsMatched()
    ensures CurrentMatch(l.matches).Some? && Active(l.matches) == {CurrentMatch(l.matches).value}
  {
    var p :| p in l.matches && l.matches[p].status.MatchActive?;
    assert p in Active(l.matches);
  }

  /** A caller's role outlives the read: the customer's always, a provider's exactly while the match
      that was read is still the active one. */
  lemma RoleHoldsIff(seen: Db, db: Db, rid: RequestId, user: UserId)
    requires SamePeople(seen, db) && OwnersDistinct(db.till.purse.accounts)
    requires rid in seen.listings && RoleOf(seen, seen.listings[rid], user).Some?
    requires Coupled(db.listings[rid]) && db.listings[rid].row.status.IsMatched()
    ensures var l, role := db.listings[rid], RoleOf(seen, seen.listings[rid], user).value;
            RoleOf(db, l, user) == Some(role) <==>
            role.Customer? || CurrentMatch(seen.listings[rid].matches).value in Active(l.matches)
  {
    CurrentIsActive(db.listings[rid]);
  }

  /** A job step or cancellation changes no match but the active one. */
  lemma OnlyTheActive(l: Listing, op: Op, now: Time, p: ProviderId)
    requires (op.Transition? || op.Cancel?) && p in l.matches && p !in Active(l.matches)
    ensures p in Step(l, op, now).0.matches && Step(l, op, now).0.matches[p] == l.matches[p]
  {
  }

  lemma MatchedUnderLock(l: Listing, now: Time)
    requires Lock(l, now).row.status.IsMatched()
    ensures Lock(l, now) == l
  {
  }

  ghost predicate Served(calls: seq<Timed>, policy: Policy) {
    forall i :: 0 <= i < |calls| ==> DecidedEarlier(calls, i, policy)
  }

  lemma {:induction false} PeopleSinceRead(calls: seq<Timed>, read: nat)
    requires read <= |calls|
    ensures var seen, db := ExecAll(EMPTY, calls[..read]), ExecAll(EMPTY, calls);
            SamePeople(seen, db) && OwnersDistinct(db.till.purse.accounts)
  {
    RunPeople(EMPTY, calls[..read]);
    hide ExecAll, OwnersDistinct, ClientIdsDistinct, SamePeople;
    RunPeople(ExecAll(EMPTY, calls[..read]), calls[read..]);
    ExecAllSplit(EMPTY, calls[..read], calls[read..]);
    assert calls[..read] + calls[read..] == calls;
  }

  lemma {:induction false} RunIsCoupled(calls: seq<Timed>, read: nat, policy: Policy, rid: RequestId)
    requires Served(calls, policy) && read <= |calls| && rid in ExecAll(EMPTY, calls[..read]).listings
    ensures var seen, db := ExecAll(EMPTY, calls[..read]), ExecAll(EMPTY, calls);
            SamePeople(seen, db) && OwnersDistinct(db.till.purse.accounts)
            && rid in db.listings && Coupled(db.listings[rid])
  {
    ServiceRunsInterleave(calls, policy);
    hide ExecAll, Served, OwnersDistinct, Coupled, Replays, Counted, Billed, DecidedEarlier;
    PeopleSinceRead(calls, read);
    assert ListingOk(ExecAll(EMPTY, calls).listings[rid]);
  }

  /** A job step decided at any earlier point of any run: when it is committed the caller still holds
      the role it acts in iff it is the customer or the match it read is the active one. */
  lemma {:induction false} StaleTransitionIsOwnIff(calls: seq<Timed>, read: nat, policy: Policy, user: UserId,
                                                   rid: RequestId,
                                                   from: Status, to: Status, actor: Role, at: Time)
    requires Served(calls, policy) && read <= |calls|
    requires DecideTransition(ExecAll(EMPTY, calls[..read]), user, rid, to, at) == Some((from, actor))
    requires TransitionJob(ExecAll(EMPTY, calls), rid, from, to, actor, at).1
    ensures var seen, db := ExecAll(EMPTY, calls[..read]), ExecAll(EMPTY, calls);
            && rid in seen.listings && rid in db.listings
            && (RoleOf(db, db.listings[rid], user) == Some(actor) <==>
                actor.Customer? || CurrentMatch(seen.listings[rid].matches).value in Active(db.listings[rid].matches))
  {
    RunIsCoupled(calls, read, policy, rid);
    hide ExecAll, Served, Coupled, SamePeople, OwnersDistinct, RoleOf, Active, CurrentMatch;
    RoleHoldsIff(ExecAll(EMPTY, calls[..read]), ExecAll(EMPTY, calls), rid, user);
  }

  /** The same for a provider's cancellation: it ends the caller's own match iff the match it read is
      the active one. */
  lemma {:induction false} StaleBackOutIsOwnIff(calls: seq<Timed>, read: nat, policy: Policy, user: UserId,
                                                c: CancelParams, at: Time)
    requires Served(calls, policy) && read <= |calls| && c.actor.Provider?
    requires DecideCancel(ExecAll(EMPTY, calls[..read]), user, c.request, policy, at) == Some(c)
    requires CancelRequest(ExecAll(EMPTY, calls), c, at).1
    ensures var seen, db := ExecAll(EMPTY, calls[..read]), ExecAll(EMPTY, calls);
            && c.request in seen.listings && c.request in db.listings
            && (RoleOf(db, db.listings[c.request], user) == Some(Provider) <==>
                CurrentMatch(seen.listings[c.request].matches).value in Active(db.listings[c.request].matches))
  {
    var db := ExecAll(EMPTY, calls);
    RunIsCoupled(calls, read, policy, c.request);
    MatchedUnderLock(db.listings[c.request], at);
    hide ExecAll, Served, Coupled, SamePeople, OwnersDistinct, RoleOf, Active, CurrentMatch, Lock;
    RoleHoldsIff(ExecAll(EMPTY, calls[..read]), db, c.request, user);
  }
}
