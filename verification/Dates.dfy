/** Every date stored under a request is the date of an entry of its timeline. */
module Dates {
  import opened Common
  import opened Wallet
  import opened ServiceRequest
  import opened Timeline
  import opened Marketplace
  import opened Billing
  import opened Refunds

  /** The timeline says that this status was entered at that time. */
  ghost predicate Logged(events: seq<Event>, s: Status, at: Time) {
    exists i :: 0 <= i < |events| && events[i].status == s && events[i].at == at
  }

  /** A closed request was closed by the last entry, at its time; an open one has no closing date. */
  ghost predicate ClosingDated(r: Request, events: seq<Event>) {
    && events != []
    && r.closedAt == if r.status.IsClosed() then Some(events[|events| - 1].at) else None
  }

  /** A match was made when the request became matched, travel started when it went on the way, and it
      ended when the request was completed, or was cancelled or reopened. */
  ghost predicate MatchLogged(m: Match, events: seq<Event>) {
    && Logged(events, Matched, m.createdAt)
    && (m.startedTravelAt.Some? ==> Logged(events, OnTheWay, m.startedTravelAt.value))
    && (m.closedAt.Some? ==>
          match m.status
          case MatchActive => false
          case MatchCompleted => Logged(events, Completed, m.closedAt.value)
          case MatchCancelled =>
            Logged(events, if m.cancelledBy == Some(Provider) then Open else Cancelled, m.closedAt.value))
  }

  ghost predicate MatchesLogged(matches: Matches, events: seq<Event>) {
    forall p :: p in matches ==> MatchLogged(matches[p], events)
  }

  ghost predicate Dated(l: Listing) {
    ClosingDated(l.row, l.events) && MatchesLogged(l.matches, l.events)
  }

  lemma {:induction false} LoggedLater(events: seq<Event>, e: Event)
    ensures forall s, at :: Logged(events, s, at) ==> Logged(events + [e], s, at)
    ensures Logged(events + [e], e.status, e.at)
  {
    var all := events + [e];
    forall s, at | Logged(events, s, at)
      ensures Logged(all, s, at)
    {
      var i :| 0 <= i < |events| && events[i].status == s && events[i].at == at;
      assert all[i] == events[i];
    }
    assert all[|events|] == e;
  }

  lemma {:induction false} MatchesLoggedLater(matches: Matches, events: seq<Event>, e: Event)
    requires MatchesLogged(matches, events)
    ensures MatchesLogged(matches, events + [e])
  {
    LoggedLater(events, e);
    forall p | p in matches
      ensures MatchLogged(matches[p], events + [e])
    {
      assert MatchLogged(matches[p], events);
    }
    hide Logged;
  }

  lemma LockDated(l: Listing, now: Time)
    requires Dated(l)
    ensures Dated(Lock(l, now))
  {
    MatchesLoggedLater(l.matches, l.events, Event(l.row.Effective(now), System, now));
    hide MatchesLogged, ExpireSelection;
  }

  lemma {:induction false} AdvancedLogged(matches: Matches, events: seq<Event>, to: Status, actor: Role, now: Time)
    requires MatchesLogged(matches, events) && (to.OnTheWay? || to.Arrived? || to.Completed?)
    ensures MatchesLogged(AdvanceMatches(matches, to, now), events + [Event(to, actor, now)])
  {
    MatchesLoggedLater(matches, events, Event(to, actor, now));
    LoggedLater(events, Event(to, actor, now));
    hide Logged;
  }

  lemma {:induction false} CancelledLogged(matches: Matches, events: seq<Event>, actor: Role, now: Time)
    requires MatchesLogged(matches, events)
    ensures var e := Event(if actor.Provider? then Open else Cancelled, actor, now);
            MatchesLogged(CancelMatches(matches, actor, now), events + [e])
  {
    var e := Event(if actor.Provider? then Open else Cancelled, actor, now);
    MatchesLoggedLater(matches, events, e);
    LoggedLater(events, e);
    hide Logged;
  }

  lemma {:induction false} MadeLogged(matches: Matches, events: seq<Event>, p: ProviderId, fee: int, waived: bool,
                                      now: Time)
    requires MatchesLogged(matches, events)
    ensures MatchesLogged(matches[p := NewMatch(fee, waived, now)], events + [Event(Matched, Provider, now)])
  {
    MatchesLoggedLater(matches, events, Event(Matched, Provider, now));
    LoggedLater(events, Event(Matched, Provider, now));
    hide Logged;
  }

  lemma StepDated(l: Listing, op: Op, now: Time)
    requires Dated(l) && Admissible(op)
    ensures Dated(Step(l, op, now).0)
  {
    hide Lock, MatchesLogged, SetOffer, ExpireSelection, RejectOffers, AdvanceMatches, CancelMatches, Active;
    LockDated(l, now);
    var m := Lock(l, now);
    match op
    case Upsert(_, _) =>
    case Select(_, _, _) => MatchesLoggedLater(m.matches, m.events, Event(PendingConfirmation, Customer, now));
    case Reject(_, _) => MatchesLoggedLater(m.matches, m.events, Event(Open, Provider, now));
    case Accept(p, fee, waived, _) => MadeLogged(m.matches, m.events, p, fee, waived, now);
    case Transition(from, to, actor) => AdvancedLogged(l.matches, l.events, to, actor, now);
    case Cancel(_, actor, _, _) => CancelledLogged(m.matches, m.events, actor, now);
  }

  lemma NewListingDated(customer: UserId, clientId: Option<string>, expiresAt: Time, now: Time)
    ensures Dated(NewListing(customer, clientId, expiresAt, now))
  {
  }

  ghost predicate AllDated(db: Db) {
    forall rid :: rid in db.listings ==> Dated(db.listings[rid])
  }

  lemma ExecDated(db: Db, call: Call, now: Time, grace: Time)
    requires AllDated(db) && CallOk(db, call, now, grace)
    ensures AllDated(Exec(db, call, now))
  {
    hide Dated, Exec, Step;
    ExecListings(db, call, now);
    var s := StepOf(db, call, now);
    if s.Some? && s.value.0 in db.listings {
      StepDated(db.listings[s.value.0], s.value.1, now);
    }
    if call.CallCreateRequest? {
      NewListingDated(call.customer, call.clientId, call.expiresAt, now);
    }
  }

  /** In every interleaved run the closing date of a request and the dates of its matches are those at
      which the timeline entered the status they belong to. */
  lemma {:induction false} EveryDateIsLogged(calls: seq<Timed>, grace: Time)
    requires Interleaved(EMPTY, calls, grace)
    ensures AllDated(ExecAll(EMPTY, calls))
  {
    if calls != [] {
      var prefix, last := calls[..|calls| - 1], calls[|calls| - 1];
      assert forall i :: 0 <= i < |prefix| ==> calls[..i] == prefix[..i];
      EveryDateIsLogged(prefix, grace);
      assert CallOk(ExecAll(EMPTY, calls[..|prefix|]), last.call, last.at, grace);
      ExecDated(ExecAll(EMPTY, prefix), last.call, last.at, grace);
    }
  }
}
