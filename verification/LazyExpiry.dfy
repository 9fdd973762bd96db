/**
 Rows expire lazily: a time-out is only written by the next locking transaction, and every read
 goes through Effective and EffectiveOffer. Here is the system those reads pretend to be, one whose
 timers fire on time, and the proof that no caller can tell the two apart.
 */
module LazyExpiry {
  import opened Common
  import opened Wallet
  import opened ServiceRequest
  import opened Coupling
  import opened Timeline

  /** A request whose stored statuses are always true. */
  datatype Eager = Eager(
    customer: UserId,
    status: Status,
    selected: Option<ProviderId>,
    deadline: Option<Time>,
    expiresAt: Time,
    offers: map<ProviderId, OfferStatus>,
    matches: Matches)

  /** Closing a request ends every offer still in play. */
  function Sweep(offers: map<ProviderId, OfferStatus>): map<ProviderId, OfferStatus> {
    map p | p in offers :: if offers[p].OfferPending? || offers[p].OfferSelected? then OfferExpired else offers[p]
  }

  function Clear(e: Eager, to: Status): Eager {
    e.(status := to, selected := None, deadline := None)
  }

  function Mark(e: Eager, p: ProviderId, s: OfferStatus): Eager {
    e.(offers := e.offers[p := s])
  }

  /** Fires the expiry timer, then the confirmation timer, whichever is due at `now`. */
  function Fire(e: Eager, now: Time): Eager {
    if e.status.TakesOffers() && e.expiresAt <= now then
      Clear(e.(offers := Sweep(e.offers)), Expired)
    else if e.status.PendingConfirmation? && e.deadline.Some? && e.deadline.value <= now && e.selected.Some? then
      Clear(Mark(e, e.selected.value, OfferExpired), Open)
    else e
  }

  function OnMatches(m: Match, to: Status, actor: Role, now: Time): Match {
    if !m.status.MatchActive? then m
    else
      match to
      case OnTheWay => m.(startedTravelAt := Some(now))
      case Completed => m.(status := MatchCompleted, closedAt := Some(now))
      case Cancelled | Open => m.(status := MatchCancelled, cancelledBy := Some(actor), closedAt := Some(now))
      case _ => m
  }

  function OnAllMatches(matches: Matches, to: Status, actor: Role, now: Time): Matches {
    map p | p in matches :: OnMatches(matches[p], to, actor, now)
  }

  /** The operations on true statuses: no clock is consulted to decide anything. */
  function Do(e: Eager, op: Op, now: Time): (Eager, bool) {
    match op
    case Upsert(p, _) =>
      if e.status.TakesOffers() && (p in e.offers ==> e.offers[p].OfferPending?)
      then (Mark(e, p, OfferPending), true) else (e, false)
    case Select(customer, p, deadline) =>
      if e.customer == customer && e.status.Open? && p in e.offers && e.offers[p].OfferPending?
      then
        var marked := Mark(e, p, OfferSelected);
        (marked.(status := PendingConfirmation, selected := Some(p), deadline := Some(deadline)), true)
      else (e, false)
    case Reject(p, caller) =>
      if e.status.PendingConfirmation? && e.selected == Some(p) && p == caller
      then (Clear(Mark(e, p, OfferRejected), Open), true) else (e, false)
    case Accept(p, fee, waived, blocked) =>
      if e.status.PendingConfirmation? && e.selected == Some(p) && !blocked && p !in e.matches
      then (Clear(Mark(e, p, OfferAccepted), Matched).(matches := e.matches[p := NewMatch(fee, waived, now)]), true)
      else (e, false)
    case Transition(from, to, actor) =>
      if e.status == from
      then (e.(status := to, offers := if to.IsClosed() then Sweep(e.offers) else e.offers,
               matches := OnAllMatches(e.matches, to, actor, now)), true)
      else (e, false)
    case Cancel(from, actor, reopen, reopenExpiresAt) =>
      if e.status != from then (e, false)
      else if reopen then
        (Clear(e.(offers := map p | p in e.offers ::
                    if p in Active(e.matches) then OfferRejected else e.offers[p],
                  expiresAt := reopenExpiresAt,
                  matches := OnAllMatches(e.matches, Open, actor, now)), Open), true)
      else
        (Clear(e.(offers := Sweep(e.offers),
                  matches := OnAllMatches(e.matches, Cancelled, actor, now)), Cancelled), true)
  }

  /** One operation of the eager system: timers due before it and after it fire by themselves. */
  function EagerStep(e: Eager, op: Op, now: Time): (Eager, bool) {
    var (e', ok) := Do(Fire(e, now), op, now);
    (Fire(e', now), ok)
  }

  /** What reads return from the stored rows at `now`. */
  function View(l: Listing, now: Time): Eager {
    var eff := l.row.Effective(now);
    Eager(l.row.customer, eff,
          if eff.PendingConfirmation? then l.row.selected else None,
          if eff.PendingConfirmation? then l.row.selectionExpiresAt else None,
          l.row.expiresAt,
          map p | p in l.offers :: EffectiveOffer(l.offers[p].status, l.row, now),
          l.matches)
  }

  /** Reading late equals reading early and letting the timers run on. */
  lemma ViewFires(l: Listing, earlier: Time, later: Time)
    requires SelectionCoupled(l.row, l.offers) && earlier <= later
    ensures View(l, later) == Fire(View(l, earlier), later)
  {
  }

  /** Normalizing the rows is invisible, so rolling the normalization back is too. */
  lemma LockInvisible(l: Listing, now: Time)
    requires SelectionCoupled(l.row, l.offers)
    ensures View(Lock(l, now), now) == View(l, now)
  {
  }

  /** The rows behave like the eager system for this one operation. */
  ghost predicate Simulates(l: Listing, op: Op, now: Time) {
    var (l', ok) := Step(l, op, now);
    EagerStep(View(l, now), op, now) == (View(l', now), ok)
  }

  /** It is enough to follow the operation from the normalized rows, which no timer changes. */
  lemma SimulatesFromLocked(l: Listing, op: Op, now: Time)
    requires Coupled(l)
    requires var (e', ok) := Do(View(Lock(l, now), now), op, now);
             Fire(e', now) == View(Step(l, op, now).0, now) && ok == Step(l, op, now).1
    ensures Simulates(l, op, now)
  {
    hide Lock, Step, Do, View, Fire;
    LockInvisible(l, now);
    ViewFires(l, now, now);
  }

  lemma LockedIsSettled(l: Listing, now: Time)
    requires Coupled(l)
    ensures Coupled(Lock(l, now)) && Lock(l, now).row.Effective(now) == Lock(l, now).row.status
    ensures View(Lock(l, now), now) == View(l, now) && Fire(View(l, now), now) == View(l, now)
  {
    LockInvisible(l, now);
    LockCoupled(l, now);
    ViewFires(l, now, now);
  }

  lemma UpsertSimulates(l: Listing, p: ProviderId, quote: Quote, now: Time)
    requires Coupled(l)
    ensures Simulates(l, Upsert(p, quote), now)
  {
    hide Lock, AcceptedCoupled, MatchDated, Simulates, MatchesCoupled;
    LockedIsSettled(l, now);
    var m, op := Lock(l, now), Upsert(p, quote);
    var (e', ok) := Do(View(m, now), op, now);
    var l' := Step(l, op, now).0;
    if ok {
      assert View(l', now).offers == e'.offers;
    }
    SimulatesFromLocked(l, op, now);
  }

  lemma SelectSimulates(l: Listing, customer: UserId, p: ProviderId, deadline: Time, now: Time)
    requires Coupled(l)
    ensures Simulates(l, Select(customer, p, deadline), now)
  {
    hide Lock, AcceptedCoupled, MatchDated, Simulates, MatchesCoupled;
    LockedIsSettled(l, now);
    var m, op := Lock(l, now), Select(customer, p, deadline);
    var (e', ok) := Do(View(m, now), op, now);
    var l' := Step(l, op, now).0;
    if ok {
      assert View(l', now).offers == Fire(e', now).offers;
    }
    SimulatesFromLocked(l, op, now);
  }

  lemma RejectSimulates(l: Listing, p: ProviderId, caller: ProviderId, now: Time)
    requires Coupled(l)
    ensures Simulates(l, Reject(p, caller), now)
  {
    hide Lock, AcceptedCoupled, MatchDated, Simulates, MatchesCoupled;
    LockedIsSettled(l, now);
    var m, op := Lock(l, now), Reject(p, caller);
    var (e', ok) := Do(View(m, now), op, now);
    var l' := Step(l, op, now).0;
    if ok {
      assert View(l', now).offers == Fire(e', now).offers;
    }
    SimulatesFromLocked(l, op, now);
  }

  lemma AcceptSimulates(l: Listing, p: ProviderId, fee: int, waived: bool, blocked: bool, now: Time)
    requires Coupled(l)
    ensures Simulates(l, Accept(p, fee, waived, blocked), now)
  {
    hide Lock, AcceptedCoupled, MatchDated, Simulates;
    LockedIsSettled(l, now);
    var m, op := Lock(l, now), Accept(p, fee, waived, blocked);
    var (e', ok) := Do(View(m, now), op, now);
    var l' := Step(l, op, now).0;
    if ok {
      assert View(l', now).offers == Fire(e', now).offers;
    }
    SimulatesFromLocked(l, op, now);
  }

  lemma TransitionSimulates(l: Listing, from: Status, to: Status, actor: Role, now: Time)
    requires Coupled(l) && CanTransition(from, to, actor)
    ensures Simulates(l, Transition(from, to, actor), now)
  {
    hide AcceptedCoupled, MatchDated;
    ViewFires(l, now, now);
    var (e', ok) := Do(View(l, now), Transition(from, to, actor), now);
    var l' := TransitionStep(l, from, to, actor, now).0;
    assert View(l', now).offers == Fire(e', now).offers;
    assert l'.matches == e'.matches;
  }

  lemma CancelsAgree(matches: Matches, to: Status, actor: Role, now: Time)
    requires to.Cancelled? || to.Open?
    ensures OnAllMatches(matches, to, actor, now) == CancelMatches(matches, actor, now)
  {
  }

  lemma CustomerCancels(l: Listing, from: Status, at: Time, now: Time)
    requires Coupled(l) && CanCancel(from, Customer)
    ensures Simulates(l, Cancel(from, Customer, false, at), now)
  {
    hide Lock, AcceptedCoupled, MatchDated, Simulates, MatchesCoupled, RejectOffers, OnAllMatches, CancelMatches;
    LockedIsSettled(l, now);
    var m, op := Lock(l, now), Cancel(from, Customer, false, at);
    var (e', ok) := Do(View(m, now), op, now);
    var l' := Step(l, op, now).0;
    if ok {
      CancelsAgree(m.matches, Cancelled, Customer, now);
      assert View(l', now).offers == e'.offers;
    }
    SimulatesFromLocked(l, op, now);
  }

  lemma ProviderBacksOut(l: Listing, from: Status, at: Time, now: Time)
    requires Coupled(l) && CanCancel(from, Provider)
    ensures Simulates(l, Cancel(from, Provider, true, at), now)
  {
    hide Lock, AcceptedCoupled, MatchDated, Simulates, OnAllMatches, CancelMatches;
    LockedIsSettled(l, now);
    var m, op := Lock(l, now), Cancel(from, Provider, true, at);
    var (e', ok) := Do(View(m, now), op, now);
    var l' := Step(l, op, now).0;
    if ok {
      var p :| p in m.matches && m.matches[p].status.MatchActive?;
      assert p in Active(m.matches);
      CancelsAgree(m.matches, Open, Provider, now);
      assert View(l', now).offers == Fire(e', now).offers;
    }
    SimulatesFromLocked(l, op, now);
  }

  lemma StepSimulates(l: Listing, op: Op, now: Time)
    requires Coupled(l) && Admissible(op)
    ensures Simulates(l, op, now)
  {
    match op
    case Upsert(p, quote) => UpsertSimulates(l, p, quote, now);
    case Select(customer, p, deadline) => SelectSimulates(l, customer, p, deadline, now);
    case Reject(p, caller) => RejectSimulates(l, p, caller, now);
    case Accept(p, fee, waived, blocked) => AcceptSimulates(l, p, fee, waived, blocked, now);
    case Transition(from, to, actor) => TransitionSimulates(l, from, to, actor, now);
    case Cancel(from, actor, reopen, at) =>
      if reopen { ProviderBacksOut(l, from, at, now); } else { CustomerCancels(l, from, at, now); }
  }

  // ---- runs with a monotone clock ----

  function EagerRun(e: Eager, actions: seq<Action>): Eager {
    if actions == [] then e
    else
      var last := actions[|actions| - 1];
      EagerStep(EagerRun(e, actions[..|actions| - 1]), last.op, last.at).0
  }

  function LastAt(start: Time, actions: seq<Action>): Time {
    if actions == [] then start else actions[|actions| - 1].at
  }

  ghost predicate Monotone(start: Time, actions: seq<Action>) {
    forall i :: 0 <= i < |actions| ==> LastAt(start, actions[..i]) <= actions[i].at
  }

  lemma FireCatchesUp(e: Eager, op: Op, now: Time)
    ensures EagerStep(Fire(e, now), op, now) == EagerStep(e, op, now)
  {
  }

  /** At every later instant, and after every run, reads of the lazily kept rows return exactly the
      statuses of the system whose timers fire on time. */
  lemma {:induction false} LazyIsEager(l: Listing, start: Time, actions: seq<Action>, later: Time)
    requires Coupled(l) && Counted(l) && Replays(l) && AllAdmissible(actions)
    requires Monotone(start, actions) && LastAt(start, actions) <= later
    ensures View(Run(l, actions), later) == Fire(EagerRun(View(l, start), actions), later)
  {
    hide Step, View, Fire, EagerStep, Coupled, Counted, Replays, Admissible;
    RunKeeps(l, actions);
    if actions == [] {
      ViewFires(l, start, later);
    } else {
      var prefix, last := actions[..|actions| - 1], actions[|actions| - 1];
      RunKeeps(l, prefix);
      assert Monotone(start, prefix) by {
        assert forall i :: 0 <= i < |prefix| ==> actions[..i] == prefix[..i];
      }
      LazyIsEager(l, start, prefix, last.at);
      StepSimulates(Run(l, prefix), last.op, last.at);
      FireCatchesUp(EagerRun(View(l, start), prefix), last.op, last.at);
      ViewFires(Run(l, actions), last.at, later);
    }
  }

  /** The two systems also give every caller the same answer. */
  lemma {:induction false} SameAnswers(l: Listing, start: Time, actions: seq<Action>, op: Op, at: Time)
    requires Coupled(l) && Counted(l) && Replays(l) && AllAdmissible(actions) && Admissible(op)
    requires Monotone(start, actions) && LastAt(start, actions) <= at
    ensures Step(Run(l, actions), op, at).1 == EagerStep(EagerRun(View(l, start), actions), op, at).1
  {
    RunKeeps(l, actions);
    LazyIsEager(l, start, actions, at);
    StepSimulates(Run(l, actions), op, at);
    FireCatchesUp(EagerRun(View(l, start), actions), op, at);
  }
}
