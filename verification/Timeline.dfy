/** The timeline of a request replays its state machine, and counts how often it was matched. */
module Timeline {
  import opened Common
  import opened Wallet
  import opened ServiceRequest
  import opened Coupling

  /** Every move a timeline may record: job steps, accepting, cancelling, reopening, time-outs. */
  predicate Edge(from: Status, to: Status, actor: Role) {
    || (from.Open? && to.PendingConfirmation? && actor.Customer?)
    || (from.PendingConfirmation? && to.Open? && (actor.System? || actor.Provider?))
    || (from.TakesOffers() && to.Expired? && actor.System?)
    || (from.PendingConfirmation? && to.Matched? && actor.Provider?)
    || CanTransition(from, to, actor)
    || (CanCancel(from, actor) && to == if actor.Provider? then Open else Cancelled)
  }

  ghost predicate Path(events: seq<Event>) {
    && events != []
    && events[0].status.Open? && events[0].actor.Customer?
    && (forall i :: 1 <= i < |events| ==> Edge(events[i - 1].status, events[i].status, events[i].actor))
  }

  /** The timeline is a path from the creation to the stored status. */
  ghost predicate Replays(l: Listing) {
    Path(l.events) && l.events[|l.events| - 1].status == l.row.status
  }

  function Count(events: seq<Event>, s: Status): nat {
    if events == [] then 0
    else Count(events[..|events| - 1], s) + if events[|events| - 1].status == s then 1 else 0
  }

  lemma CountAppend(events: seq<Event>, e: Event, s: Status)
    ensures Count(events + [e], s) == Count(events, s) + if e.status == s then 1 else 0
  {
  }

  /** A job walks its steps in order: nothing is completed that did not arrive, nobody travels before
      being matched, and a match needs a selection. */
  lemma JobStepsInOrder(events: seq<Event>, i: nat)
    requires Path(events) && i < |events| && !events[i].status.Open?
    ensures i > 0
    ensures match events[i].status
            case PendingConfirmation => events[i - 1].status.Open?
            case Matched => events[i - 1].status.PendingConfirmation?
            case OnTheWay => events[i - 1].status.Matched?
            case Arrived => events[i - 1].status.OnTheWay?
            case Completed => events[i - 1].status.Arrived?
            case _ => !events[i - 1].status.IsClosed()
  {
  }

  /** The offers a customer has ever selected: an offer leaves `pending` in no other way. */
  function Picked(offers: Offers): set<ProviderId> {
    set p | p in offers && !offers[p].status.OfferPending?
  }

  /** Each selection used up one offer and each match belongs to one offer, for good. */
  ghost predicate Counted(l: Listing) {
    && Count(l.events, PendingConfirmation) == |Picked(l.offers)|
    && Count(l.events, Matched) == |l.matches|
  }

  lemma NewListingRecorded(customer: UserId, clientId: Option<string>, expiresAt: Time, now: Time)
    ensures Replays(NewListing(customer, clientId, expiresAt, now))
    ensures Counted(NewListing(customer, clientId, expiresAt, now))
  {
  }

  /** At most two events are appended: a normalization and the operation's own. */
  lemma Appended(events: seq<Event>, e: Event)
    requires Path(events) && Edge(events[|events| - 1].status, e.status, e.actor)
    ensures Path(events + [e])
  {
  }

  lemma LockReplays(l: Listing, now: Time)
    requires Replays(l)
    ensures Replays(Lock(l, now))
  {
  }

  lemma StepReplays(l: Listing, op: Op, now: Time)
    requires Replays(l) && Admissible(op)
    ensures Replays(Step(l, op, now).0)
    ensures l.events <= Step(l, op, now).0.events
  {
    LockReplays(l, now);
    var m := Lock(l, now);
    var l' := Step(l, op, now).0;
    var base := if op.Transition? then l.events else m.events;
    if Step(l, op, now).1 && !op.Upsert? {
      Appended(base, l'.events[|base|]);
    }
  }

  /** Normalizing picks nothing: it expires at most the offer already selected. */
  lemma LockPicked(l: Listing, now: Time)
    ensures Picked(Lock(l, now).offers) == Picked(l.offers)
    ensures Lock(l, now).offers.Keys == l.offers.Keys && Lock(l, now).matches == l.matches
  {
  }

  lemma ExpirePicked(offers: Offers, selected: Option<ProviderId>)
    ensures Picked(ExpireSelection(offers, selected)) == Picked(offers)
  {
  }

  lemma MatchesKeys(matches: Matches, to: Status, actor: Role, now: Time)
    ensures AdvanceMatches(matches, to, now).Keys == matches.Keys
    ensures CancelMatches(matches, actor, now).Keys == matches.Keys
  {
  }

  /** `l'` comes from `l` by picking the offers in `picked` and matching the providers in `matched`. */
  ghost predicate Uses(l: Listing, l': Listing, picked: set<ProviderId>, matched: set<ProviderId>) {
    && Picked(l'.offers) == Picked(l.offers) + picked && picked !! Picked(l.offers)
    && l'.matches.Keys == l.matches.Keys + matched && matched !! l.matches.Keys
  }

  lemma UpsertUses(l: Listing, p: ProviderId, quote: Quote, now: Time)
    ensures Uses(l, UpsertStep(l, p, quote, now).0, {}, {})
  {
  }

  lemma SelectUses(l: Listing, customer: UserId, p: ProviderId, deadline: Time, now: Time)
    ensures var (l', ok) := SelectStep(l, customer, p, deadline, now); Uses(l, l', if ok then {p} else {}, {})
  {
  }

  lemma RejectUses(l: Listing, p: ProviderId, caller: ProviderId, now: Time)
    ensures Uses(l, RejectStep(l, p, caller, now).0, {}, {})
  {
  }

  lemma AcceptUses(l: Listing, p: ProviderId, fee: int, waived: bool, blocked: bool, now: Time)
    requires SelectionCoupled(Lock(l, now).row, Lock(l, now).offers)
    ensures var (l', ok) := AcceptStep(l, p, fee, waived, blocked, now); Uses(l, l', {}, if ok then {p} else {})
  {
  }

  lemma TransitionUses(l: Listing, from: Status, to: Status, actor: Role, now: Time)
    ensures Uses(l, TransitionStep(l, from, to, actor, now).0, {}, {})
  {
  }

  lemma RejectPicked(offers: Offers, backedOut: set<ProviderId>)
    requires backedOut <= Picked(offers)
    ensures Picked(RejectOffers(offers, backedOut)) == Picked(offers)
  {
  }

  lemma ActivePicked(offers: Offers, matches: Matches)
    requires AcceptedCoupled(offers, matches)
    ensures Active(matches) <= Picked(offers)
  {
  }

  lemma CancelUses(l: Listing, from: Status, actor: Role, reopen: bool, reopenExpiresAt: Time, now: Time)
    requires AcceptedCoupled(l.offers, l.matches)
    ensures Uses(l, CancelStep(l, from, actor, reopen, reopenExpiresAt, now).0, {}, {})
  {
    hide Lock, AcceptedCoupled, ExpireSelection, RejectOffers, CancelMatches, Picked, Active;
    LockPicked(l, now);
    ActivePicked(l.offers, l.matches);
    var m := Lock(l, now);
    var (l', ok) := CancelStep(l, from, actor, reopen, reopenExpiresAt, now);
    if ok {
      MatchesKeys(m.matches, Open, actor, now);
      ExpirePicked(m.offers, m.row.selected);
      if reopen {
        RejectPicked(ExpireSelection(m.offers, m.row.selected), Active(m.matches));
      }
    }
  }

  /** Only a selection picks an offer and only an acceptance makes a match, each time a new one. */
  lemma StepUses(l: Listing, op: Op, now: Time)
    requires Coupled(l)
    ensures var (l', ok) := Step(l, op, now);
            Uses(l, l', if ok && op.Select? then {op.provider} else {}, if ok && op.Accept? then {op.provider} else {})
  {
    match op
    case Upsert(p, quote) => UpsertUses(l, p, quote, now);
    case Select(customer, p, deadline) => SelectUses(l, customer, p, deadline, now);
    case Reject(p, caller) => RejectUses(l, p, caller, now);
    case Accept(p, fee, waived, blocked) => LockCoupled(l, now); AcceptUses(l, p, fee, waived, blocked, now);
    case Transition(from, to, actor) => TransitionUses(l, from, to, actor, now);
    case Cancel(from, actor, reopen, at) => CancelUses(l, from, actor, reopen, at, now);
  }

  lemma LockCounts(l: Listing, now: Time, s: Status)
    requires s.PendingConfirmation? || s.Matched?
    ensures Count(Lock(l, now).events, s) == Count(l.events, s)
  {
  }

  /** What a step records, beyond a normalization. */
  function Recorded(op: Op, now: Time): Option<Event> {
    match op
    case Upsert(_, _) => None
    case Select(_, _, _) => Some(Event(PendingConfirmation, Customer, now))
    case Reject(_, _) => Some(Event(Open, Provider, now))
    case Accept(_, _, _, _) => Some(Event(Matched, Provider, now))
    case Transition(_, to, actor) => Some(Event(to, actor, now))
    case Cancel(_, actor, reopen, _) => Some(Event(if reopen then Open else Cancelled, actor, now))
  }

  lemma StepRecords(l: Listing, op: Op, now: Time)
    ensures var (l', ok) := Step(l, op, now);
            var base := if op.Transition? then l.events else Lock(l, now).events;
            && (ok && Recorded(op, now).Some? ==> l'.events == base + [Recorded(op, now).value])
            && (!ok || Recorded(op, now).None? ==> l'.events == l.events || l'.events == Lock(l, now).events)
  {
  }

  lemma StepCounts(l: Listing, op: Op, now: Time, s: Status)
    requires Admissible(op) && (s.PendingConfirmation? || s.Matched?)
    ensures var (l', ok) := Step(l, op, now);
            Count(l'.events, s) == Count(l.events, s)
              + if ok && ((op.Select? && s.PendingConfirmation?) || (op.Accept? && s.Matched?)) then 1 else 0
  {
    StepRecords(l, op, now);
    LockCounts(l, now, s);
    if Recorded(op, now).Some? {
      CountAppend(if op.Transition? then l.events else Lock(l, now).events, Recorded(op, now).value, s);
    }
  }

  lemma StepCounted(l: Listing, op: Op, now: Time)
    requires Coupled(l) && Counted(l) && Admissible(op)
    ensures Counted(Step(l, op, now).0)
  {
    StepUses(l, op, now);
    StepCounts(l, op, now, PendingConfirmation);
    StepCounts(l, op, now, Matched);
    var l' := Step(l, op, now).0;
    assert |l'.matches| == |l'.matches.Keys| && |l.matches| == |l.matches.Keys|;
  }

  // ---- runs ----

  datatype Action = Action(op: Op, at: Time)

  function Run(l: Listing, actions: seq<Action>): Listing {
    if actions == [] then l
    else
      var last := actions[|actions| - 1];
      Step(Run(l, actions[..|actions| - 1]), last.op, last.at).0
  }

  ghost predicate AllAdmissible(actions: seq<Action>) {
    forall i :: 0 <= i < |actions| ==> Admissible(actions[i].op)
  }

  /** Coupling, replay and the counts hold after every run, in any order and at any times. */
  lemma {:induction false} RunKeeps(l: Listing, actions: seq<Action>)
    requires Coupled(l) && Counted(l) && Replays(l) && AllAdmissible(actions)
    ensures var l' := Run(l, actions); Coupled(l') && Counted(l') && Replays(l')
  {
    if actions != [] {
      var prefix, last := actions[..|actions| - 1], actions[|actions| - 1];
      RunKeeps(l, prefix);
      var m := Run(l, prefix);
      StepCoupled(m, last.op, last.at);
      StepCounted(m, last.op, last.at);
      StepReplays(m, last.op, last.at);
    }
  }

  /** Only sending an offer adds one. */
  lemma StepOffersFrom(l: Listing, op: Op, now: Time)
    ensures Step(l, op, now).0.offers.Keys <= l.offers.Keys + (if op.Upsert? then {op.provider} else {})
  {
  }

  lemma {:induction false} RunOffersFrom(l: Listing, actions: seq<Action>, providers: set<ProviderId>)
    requires l.offers.Keys <= providers
    requires forall i :: 0 <= i < |actions| && actions[i].op.Upsert? ==> actions[i].op.provider in providers
    ensures Run(l, actions).offers.Keys <= providers
  {
    if actions != [] {
      var prefix, last := actions[..|actions| - 1], actions[|actions| - 1];
      RunOffersFrom(l, prefix, providers);
      StepOffersFrom(Run(l, prefix), last.op, last.at);
    }
  }

  /** With P providers a request waits for a confirmation at most P times and is matched at most P
      times, and never more often than it waited. */
  lemma {:induction false} MatchingBounded(customer: UserId, clientId: Option<string>, expiresAt: Time, start: Time,
                                           actions: seq<Action>, providers: set<ProviderId>)
    requires AllAdmissible(actions)
    requires forall i :: 0 <= i < |actions| && actions[i].op.Upsert? ==> actions[i].op.provider in providers
    ensures var events := Run(NewListing(customer, clientId, expiresAt, start), actions).events;
            Count(events, Matched) <= Count(events, PendingConfirmation) <= |providers|
  {
    var l := NewListing(customer, clientId, expiresAt, start);
    NewListingCoupled(customer, clientId, expiresAt, start);
    NewListingRecorded(customer, clientId, expiresAt, start);
    RunKeeps(l, actions);
    RunOffersFrom(l, actions, providers);
    var l' := Run(l, actions);
    SubsetSize(Picked(l'.offers), providers);
    SubsetSize(l'.matches.Keys, Picked(l'.offers));
    assert |l'.matches| == |l'.matches.Keys|;
  }

  /** A closed request stays closed: nothing is ever appended after its last entry. */
  lemma ClosedForever(l: Listing, op: Op, now: Time)
    requires Coupled(l) && Replays(l) && Admissible(op) && l.row.status.IsClosed()
    ensures Step(l, op, now).0.events == l.events && Step(l, op, now).0.row == l.row
  {
  }

  /** A timeline that ends completed ends with every step of the job. */
  lemma CompletedPath(events: seq<Event>)
    requires Path(events) && events[|events| - 1].status.Completed?
    ensures var n := |events|;
            && n >= 6 && events[n - 6].status.Open? && events[n - 5].status.PendingConfirmation?
            && events[n - 4].status.Matched?
            && events[n - 3].status.OnTheWay? && events[n - 2].status.Arrived?
  {
    hide Edge;
    var n := |events|;
    JobStepsInOrder(events, n - 1);
    JobStepsInOrder(events, n - 2);
    JobStepsInOrder(events, n - 3);
    JobStepsInOrder(events, n - 4);
    JobStepsInOrder(events, n - 5);
  }

  lemma CompletedOnce(events: seq<Event>)
    requires Path(events)
    ensures forall i :: 0 <= i < |events| - 1 ==> !events[i].status.Completed?
  {
    forall i | 0 <= i < |events| - 1
      ensures !events[i].status.Completed?
    {
      assert Edge(events[i].status, events[i + 1].status, events[i + 1].actor);
    }
  }

  lemma {:induction false} RunsReplay(customer: UserId, clientId: Option<string>, expiresAt: Time, start: Time,
                                      actions: seq<Action>)
    requires AllAdmissible(actions)
    ensures Replays(Run(NewListing(customer, clientId, expiresAt, start), actions))
  {
    NewListingCoupled(customer, clientId, expiresAt, start);
    NewListingRecorded(customer, clientId, expiresAt, start);
    RunKeeps(NewListing(customer, clientId, expiresAt, start), actions);
  }

  /** After any run a completed request was open, then pending on an offer, matched, travelled to and
      arrived at, in that order and with nothing in between; and it was completed once. */
  lemma {:induction false} CompletedJobsWalkEveryStep(customer: UserId, clientId: Option<string>, expiresAt: Time,
                                                      start: Time,
                                                      actions: seq<Action>)
    requires AllAdmissible(actions)
    requires Run(NewListing(customer, clientId, expiresAt, start), actions).row.status.Completed?
    ensures var events := Run(NewListing(customer, clientId, expiresAt, start), actions).events;
            var n := |events|;
            && n >= 6 && events[n - 6].status.Open? && events[n - 5].status.PendingConfirmation?
            && events[n - 4].status.Matched?
            && events[n - 3].status.OnTheWay? && events[n - 2].status.Arrived? && events[n - 1].status.Completed?
            && forall i :: 0 <= i < n - 1 ==> !events[i].status.Completed?
  {
    RunsReplay(customer, clientId, expiresAt, start, actions);
    hide Run, Path, NewListing, AllAdmissible;
    CompletedPath(Run(NewListing(customer, clientId, expiresAt, start), actions).events);
    CompletedOnce(Run(NewListing(customer, clientId, expiresAt, start), actions).events);
  }
}
