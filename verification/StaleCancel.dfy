/** A concrete run in which a stale cancellation refunds a provider who backed out. */
module StaleCancel {
  import opened Common
  import opened Wallet
  import opened Topups
  import opened ServiceRequest
  import opened Marketplace
  import opened Refunds
  import opened Interleavings

  const GRACE := 600
  const DAY := 86400
  const POLICY := Policy(DAY, GRACE)
  const ANY_QUOTE := Quote(None, 30)

  const FIRST := OfferId(7, 10)
  const SECOND := OfferId(7, 20)

  function Welcome(p: ProviderId): Row {
    Row(p, WelcomeCredit, 30, 30, WelcomeKey(p))
  }

  function Fee(o: OfferId): Row {
    Row(o.provider, MatchFee, -20, 10, MatchFeeKey(o))
  }

  function Accounts(first: int, second: int): map<ProviderId, Account> {
    map[10 := Account(100, true, first), 20 := Account(200, true, second)]
  }

  function Rows(): seq<Row> {
    [Welcome(10), Welcome(20), Fee(FIRST)]
  }

  const PENDING := Offer(OfferPending, ANY_QUOTE, 1)

  function ActiveMatch(at: Time): Match {
    Match(20, false, MatchActive, None, None, at, None)
  }

  /** Customer 1's request with two offers, after the first provider has accepted. */
  function AtFirstMatch(): Listing {
    Listing(
      Request(1, None, Matched, None, None, DAY, None),
      map[10 := PENDING.(status := OfferAccepted), 20 := PENDING],
      map[10 := ActiveMatch(2)],
      [Event(Open, Customer, 0), Event(PendingConfirmation, Customer, 2), Event(Matched, Provider, 2)])
  }

  function WithOffers(): Db {
    Db(map[7 := NewListing(1, None, DAY, 0).(offers := map[10 := PENDING, 20 := PENDING])],
       Till(Purse(Accounts(30, 30), [Welcome(10), Welcome(20)]), map[]))
  }

  lemma OffersReachable()
    ensures var db := Exec(Exec(EMPTY, CallCreateProvider(10, 100, 30), 0), CallCreateProvider(20, 200, 30), 0);
            Exec(Exec(Exec(db, CallCreateRequest(7, 1, None, DAY), 0), CallSendOffer(FIRST, ANY_QUOTE), 1),
                 CallSendOffer(SECOND, ANY_QUOTE), 1) == WithOffers()
  {
  }

  lemma FirstMatchMade()
    ensures Before() ==
            Exec(Exec(WithOffers(), CallSelectOffer(7, FIRST, 1, 300), 2), CallAcceptOffer(FIRST, 10, 20, true), 2)
  {
    var f := Exec(WithOffers(), CallSelectOffer(7, FIRST, 1, 300), 2);
    assert f.listings[7].offers == map[10 := PENDING.(status := OfferSelected), 20 := PENDING];
    var g := Exec(f, CallAcceptOffer(FIRST, 10, 20, true), 2);
    assert g.listings[7].matches == map[10 := ActiveMatch(2)];
    assert g.listings[7] == AtFirstMatch();
    assert g.till.purse.ledger == Rows();
    assert g.listings == map[7 := AtFirstMatch()];
  }

  /** The rows the customer's cancellation is decided on are reachable. */
  lemma FirstMatchReachable()
    ensures var db0 := Exec(Exec(EMPTY, CallCreateProvider(10, 100, 30), 0), CallCreateProvider(20, 200, 30), 0);
            var db1 := Exec(Exec(Exec(db0, CallCreateRequest(7, 1, None, DAY), 0), CallSendOffer(FIRST, ANY_QUOTE), 1),
                            CallSendOffer(SECOND, ANY_QUOTE), 1);
            Exec(Exec(db1, CallSelectOffer(7, FIRST, 1, 300), 2), CallAcceptOffer(FIRST, 10, 20, true), 2) == Before()
  {
    hide *;
    OffersReachable();
    FirstMatchMade();
  }

  function Before(): Db {
    Db(map[7 := AtFirstMatch()], Till(Purse(Accounts(10, 30), Rows()), map[]))
  }

  /** Decided at instant 3, while the first match is the active one. */
  function Stale(): CancelParams {
    CancelParams(7, Matched, Customer, false, DAY, Some(Entry(10, Refund, 20, RefundKey(FIRST))))
  }

  lemma StaleIsDecided()
    ensures DecideCancel(Before(), 1, 7, POLICY, 3) == Some(Stale())
  {
    var l := AtFirstMatch();
    assert l.matches[10].status.MatchActive?;
    assert CurrentMatch(l.matches) == Some(10);
  }

  function BackOut(): CancelParams {
    CancelParams(7, Matched, Provider, true, DAY + 3, None)
  }

  lemma BackOutIsDecided()
    ensures DecideCancel(Before(), 100, 7, POLICY, 3) == Some(BackOut())
  {
    var l := AtFirstMatch();
    assert l.matches[10].status.MatchActive?;
    assert CurrentMatch(l.matches) == Some(10);
  }

  function BackedOut(): Match {
    ActiveMatch(2).(status := MatchCancelled, cancelledBy := Some(Provider), closedAt := Some(3))
  }

  function Reopened(): Listing {
    Listing(
      Request(1, None, Open, None, None, DAY + 3, None),
      map[10 := PENDING.(status := OfferRejected), 20 := PENDING],
      map[10 := BackedOut()],
      AtFirstMatch().events + [Event(Open, Provider, 3)])
  }

  function Rematched(): Listing {
    Listing(
      Request(1, None, Matched, None, None, DAY + 3, None),
      map[10 := PENDING.(status := OfferRejected), 20 := PENDING.(status := OfferAccepted)],
      map[10 := BackedOut(), 20 := ActiveMatch(3)],
      Reopened().events + [Event(PendingConfirmation, Customer, 3), Event(Matched, Provider, 3)])
  }

  function BetweenReadAndCommit(): Db {
    Db(map[7 := Rematched()], Till(Purse(Accounts(10, 10), Rows() + [Fee(SECOND)]), map[]))
  }

  lemma BacksOut()
    ensures Exec(Before(), CallCancel(BackOut()), 3) == Before().(listings := map[7 := Reopened()])
  {
    var db := Exec(Before(), CallCancel(BackOut()), 3);
    assert 10 in Active(AtFirstMatch().matches);
    assert db.listings[7].offers == Reopened().offers;
    assert db.listings[7].matches == Reopened().matches;
    assert db.listings == map[7 := Reopened()];
  }

  lemma MatchedAgain()
    ensures Exec(Exec(Before().(listings := map[7 := Reopened()]), CallSelectOffer(7, SECOND, 1, 300), 3),
            CallAcceptOffer(SECOND, 20, 20, true), 3)
            == BetweenReadAndCommit()
  {
    var selected := Exec(Before().(listings := map[7 := Reopened()]), CallSelectOffer(7, SECOND, 1, 300), 3);
    assert selected.listings[7].offers == Reopened().offers[20 := PENDING.(status := OfferSelected)];
    assert selected.till == Before().till;
    var db := Exec(selected, CallAcceptOffer(SECOND, 20, 20, true), 3);
    assert db.listings[7].matches == Rematched().matches;
    assert db.listings[7].offers == Rematched().offers;
    assert db.listings[7].events == Rematched().events;
    assert db.listings == map[7 := Rematched()];
    assert db.till.purse.ledger == Rows() + [Fee(SECOND)];
    assert db.till.purse.accounts == Accounts(10, 10);
  }

  function Misrefund(): Row {
    Row(10, Refund, 20, 30, RefundKey(FIRST))
  }

  lemma StaleCancelCommits()
    ensures var db' := Exec(BetweenReadAndCommit(), CallCancel(Stale()), 3);
            && db'.listings.Keys == {7} && db'.listings[7].matches == CancelMatches(Rematched().matches, Customer, 3)
            && db'.till.purse.ledger == Rows() + [Fee(SECOND), Misrefund()]
  {
  }

  /** The first provider backs out and the second one is matched before the customer's decision is
      committed: the first gets the refund, the second, whose match is cancelled, gets none. */
  lemma StaleCancelMisrefunds()
    ensures var db := BetweenReadAndCommit();
            var db' := Exec(db, CallCancel(Stale()), 3);
            && RefundRule(db, GRACE)
            && MayRefund(MatchAt(db', SECOND), GRACE) && !Posted(db'.till.purse.ledger, RefundKey(SECOND))
            && !MayRefund(MatchAt(db', FIRST), GRACE) && Posted(db'.till.purse.ledger, RefundKey(FIRST))
            && !RefundRule(db', GRACE)
  {
    StaleCancelCommits();
    hide Exec;
    var db' := Exec(BetweenReadAndCommit(), CallCancel(Stale()), 3);
    assert db'.listings[7].matches[20].cancelledBy == Some(Customer);
    assert db'.till.purse.ledger[4] == Misrefund();
  }

  // ---- the whole run ----

  function Opening(): seq<Timed> {
    [Timed(CallCreateProvider(10, 100, 30), 0), Timed(CallCreateProvider(20, 200, 30), 0),
     Timed(CallCreateRequest(7, 1, None, DAY), 0),
     Timed(CallSendOffer(FIRST, ANY_QUOTE), 1), Timed(CallSendOffer(SECOND, ANY_QUOTE), 1),
     Timed(CallSelectOffer(7, FIRST, 1, 300), 2), Timed(CallAcceptOffer(FIRST, 10, 20, true), 2)]
  }

  function Overtaking(): seq<Timed> {
    [Timed(CallCancel(BackOut()), 3), Timed(CallSelectOffer(7, SECOND, 1, 300), 3),
     Timed(CallAcceptOffer(SECOND, 20, 20, true), 3)]
  }

  lemma ExecAllFirst(db: Db, calls: seq<Timed>)
    requires calls != []
    ensures ExecAll(db, calls) == ExecAll(Exec(db, calls[0].call, calls[0].at), calls[1..])
  {
    ExecAllSplit(db, calls[..1], calls[1..]);
    assert calls[..1] + calls[1..] == calls && calls[..1][..0] == [];
  }

  lemma OpeningRuns()
    ensures ExecAll(EMPTY, Opening()) == Before()
  {
    FirstMatchReachable();
    hide Exec;
    var s := Opening();
    ExecAllFirst(EMPTY, s);
    var a := Exec(EMPTY, s[0].call, s[0].at);
    ExecAllFirst(a, s[1..]);
    var b := Exec(a, s[1].call, s[1].at);
    ExecAllFirst(b, s[2..]);
    var c := Exec(b, s[2].call, s[2].at);
    ExecAllFirst(c, s[3..]);
    var d := Exec(c, s[3].call, s[3].at);
    ExecAllFirst(d, s[4..]);
    var e := Exec(d, s[4].call, s[4].at);
    ExecAllFirst(e, s[5..]);
    ExecAllFirst(Exec(e, s[5].call, s[5].at), s[6..]);
    assert s[1..][1..] == s[2..] && s[2..][1..] == s[3..] && s[3..][1..] == s[4..] && s[4..][1..] == s[5..];
    assert s[5..][1..] == s[6..] && s[6..][1..] == [];
  }

  lemma OvertakingRuns()
    ensures ExecAll(Before(), Overtaking()) == BetweenReadAndCommit()
  {
    BacksOut();
    MatchedAgain();
    hide Exec;
    var s := Overtaking();
    ExecAllFirst(Before(), s);
    var a := Exec(Before(), s[0].call, s[0].at);
    ExecAllFirst(a, s[1..]);
    ExecAllFirst(Exec(a, s[1].call, s[1].at), s[2..]);
    assert s[1..][1..] == s[2..] && s[2..][1..] == [];
  }

  /** There is a run of the service, every decision of which was read at an earlier point of it, that
      ends with the refund rule broken. */
  lemma StaleRunBreaksRefundRule()
    ensures exists calls: seq<Timed> ::
              && (forall i :: 0 <= i < |calls| ==> DecidedEarlier(calls, i, POLICY))
              && !RefundRule(ExecAll(EMPTY, calls), GRACE)
  {
    var before := Opening() + Overtaking();
    var calls := before + [Timed(CallCancel(Stale()), 3)];
    OpeningRuns();
    OvertakingRuns();
    ExecAllSplit(EMPTY, Opening(), Overtaking());
    StaleCancelMisrefunds();
    hide Exec, RefundRule, DecidedEarlier;
    assert calls[..|calls| - 1] == before && calls[..7] == Opening();
    assert ExecAll(EMPTY, calls) == Exec(BetweenReadAndCommit(), CallCancel(Stale()), 3);
    EachWasDecided(calls);
  }

  lemma EachWasDecided(calls: seq<Timed>)
    requires calls == Opening() + Overtaking() + [Timed(CallCancel(Stale()), 3)]
    requires ExecAll(EMPTY, calls[..7]) == Before()
    ensures forall i :: 0 <= i < |calls| ==> DecidedEarlier(calls, i, POLICY)
  {
    StaleIsDecided();
    BackOutIsDecided();
    hide Exec, ExecAll, DecideCancel;
    assert DecideCancel(ExecAll(EMPTY, calls[..7]), 1, 7, POLICY, 3) == Some(Stale());
    assert DecideCancel(ExecAll(EMPTY, calls[..7]), 100, 7, POLICY, 3) == Some(BackOut());
  }

  // ---- the provider's decisions reach the second match too ----

  /** Committed a second time late, the first provider's back-out ends the second provider's match. */
  lemma StaleBackOutHitsAnother()
    ensures var l := Exec(BetweenReadAndCommit(), CallCancel(BackOut()), 3).listings[7];
            && DecideCancel(Before(), 100, 7, POLICY, 3) == Some(BackOut())
            && l.matches[20].status.MatchCancelled? && l.matches[20].cancelledBy == Some(Provider)
            && l.offers[20].status.OfferRejected?
  {
    BackOutIsDecided();
    assert 20 in Active(Rematched().matches);
  }

  /** And its decision to set out starts the second provider's travel. */
  lemma StaleTravelHitsAnother()
    ensures DecideTransition(Before(), 100, 7, OnTheWay, 3) == Some((Matched, Provider))
    ensures var l := Exec(BetweenReadAndCommit(), CallTransitionJob(7, Matched, OnTheWay, Provider), 3).listings[7];
            l.matches[20].startedTravelAt == Some(3)
  {
    var l := AtFirstMatch();
    assert l.matches[10].status.MatchActive?;
    assert CurrentMatch(l.matches) == Some(10);
  }
}
