/**
 One service request and everything stored under it: the request row, its offers, its matches and
 its timeline. Each operation below is the effect of one transaction on those rows; `ok` is the
 boolean the transaction reports.
 */
module ServiceRequest {
  import opened Common
  import opened Wallet

  datatype Status =
    | Open
    | PendingConfirmation
    | Matched
    | OnTheWay
    | Arrived
    | Completed
    | Cancelled
    | Expired
  {
    predicate IsClosed() {
      Completed? || Cancelled? || Expired?
    }

    predicate IsMatched() {
      Matched? || OnTheWay? || Arrived?
    }

    predicate TakesOffers() {
      Open? || PendingConfirmation?
    }
  }

  datatype Role = Customer | Provider | System

  /** Who may move a matched job from one status to the next. */
  predicate CanTransition(from: Status, to: Status, role: Role) {
    match from
    case Matched => to.OnTheWay? && role.Provider?
    case OnTheWay => to.Arrived? && role.Provider?
    case Arrived => to.Completed? && (role.Provider? || role.Customer?)
    case _ => false
  }

  predicate CanCancel(s: Status, role: Role) {
    match role
    case Customer => !s.IsClosed()
    case Provider => s.Matched? || s.OnTheWay?
    case System => false
  }

  /** clientId is the customer's own idempotency key for the request, if it sent one. */
  datatype Request = Request(
    customer: UserId,
    clientId: Option<string>,
    status: Status,
    selected: Option<ProviderId>,
    selectionExpiresAt: Option<Time>,
    expiresAt: Time,
    closedAt: Option<Time>)
  {
    predicate SelectionTimedOut(now: Time) {
      status.PendingConfirmation? && selectionExpiresAt.Some? && now >= selectionExpiresAt.value
    }

    /** The status as of now, whatever the stored row still says. */
    function Effective(now: Time): Status {
      if status.TakesOffers() && now >= expiresAt then Expired
      else if SelectionTimedOut(now) then Open
      else status
    }
  }

  datatype OfferStatus = OfferPending | OfferSelected | OfferAccepted | OfferRejected | OfferExpired

  datatype Quote = Quote(price: Option<nat>, etaMinutes: nat)

  datatype Offer = Offer(status: OfferStatus, quote: Quote, createdAt: Time)

  /** The offer's status as of now, given its request. */
  function EffectiveOffer(s: OfferStatus, r: Request, now: Time): OfferStatus {
    var eff := r.Effective(now);
    match s
    case OfferSelected => if eff.PendingConfirmation? then s else OfferExpired
    case OfferPending => if eff.IsClosed() then OfferExpired else s
    case _ => s
  }

  datatype MatchStatus = MatchActive | MatchCompleted | MatchCancelled

  datatype Match = Match(
    fee: int,
    feeWaived: bool,
    status: MatchStatus,
    cancelledBy: Option<Role>,
    startedTravelAt: Option<Time>,
    createdAt: Time,
    closedAt: Option<Time>)
  {
    predicate Charged() {
      !feeWaived && fee > 0
    }
  }

  /** The cancellation refund rule. */
  predicate RefundEligible(m: Match, requestStatus: Status, cancelledBy: Role, now: Time, grace: Time) {
    && cancelledBy.Customer?
    && m.status.MatchActive?
    && m.Charged()
    && requestStatus.Matched?
    && m.startedTravelAt.None?
    && now - m.createdAt <= grace
  }

  datatype Event = Event(status: Status, actor: Role, at: Time)

  type Offers = map<ProviderId, Offer>
  type Matches = map<ProviderId, Match>

  /** The rows of one request. The offers and matches are keyed by provider (see OfferId). */
  datatype Listing = Listing(row: Request, offers: Offers, matches: Matches, events: seq<Event>)

  function NewListing(customer: UserId, clientId: Option<string>, expiresAt: Time, now: Time): Listing {
    Listing(Request(customer, clientId, Open, None, None, expiresAt, None), map[], map[], [Event(Open, Customer, now)])
  }

  // ---- the statements the transactions are made of ----

  function SetOffer(offers: Offers, p: ProviderId, s: OfferStatus): Offers {
    if p in offers then offers[p := offers[p].(status := s)] else offers
  }

  /** UPDATE ... SET status = 'expired' WHERE id = the selection AND status = 'selected'. */
  function ExpireSelection(offers: Offers, selected: Option<ProviderId>): Offers {
    if selected.Some? && selected.value in offers && offers[selected.value].status.OfferSelected?
    then SetOffer(offers, selected.value, OfferExpired)
    else offers
  }

  /** The providers whose match is active: at most one, by the partial unique index. */
  function Active(matches: Matches): set<ProviderId> {
    set p | p in matches && matches[p].status.MatchActive?
  }

  function StartTravel(m: Match, now: Time): Match {
    m.(startedTravelAt := Some(now))
  }

  function Complete(m: Match, now: Time): Match {
    m.(status := MatchCompleted, closedAt := Some(now))
  }

  function CancelMatch(m: Match, actor: Role, now: Time): Match {
    m.(status := MatchCancelled, cancelledBy := Some(actor), closedAt := Some(now))
  }

  /** The match UPDATE of a job step: every active match of the request. */
  function AdvanceMatches(matches: Matches, to: Status, now: Time): Matches {
    match to
    case OnTheWay =>
      map p | p in matches :: if matches[p].status.MatchActive? then StartTravel(matches[p], now) else matches[p]
    case Completed =>
      map p | p in matches :: if matches[p].status.MatchActive? then Complete(matches[p], now) else matches[p]
    case _ => matches
  }

  function CancelMatches(matches: Matches, actor: Role, now: Time): Matches {
    map p | p in matches :: if matches[p].status.MatchActive? then CancelMatch(matches[p], actor, now) else matches[p]
  }

  function RejectOffers(offers: Offers, backedOut: set<ProviderId>): Offers {
    map p | p in offers :: if p in backedOut then offers[p].(status := OfferRejected) else offers[p]
  }

  /** Locks the request row and brings it up to date first. */
  function Lock(l: Listing, now: Time): Listing {
    var eff := l.row.Effective(now);
    if eff == l.row.status then l
    else
      Listing(
        l.row.(status := eff, selected := None, selectionExpiresAt := None,
               closedAt := if eff.Expired? then Some(now) else None),
        if l.row.status.PendingConfirmation? then ExpireSelection(l.offers, l.row.selected) else l.offers,
        l.matches,
        l.events + [Event(eff, System, now)])
  }

  // ---- one transaction each ----

  datatype Op =
    | Upsert(provider: ProviderId, quote: Quote)
    | Select(customer: UserId, provider: ProviderId, deadline: Time)
    | Reject(provider: ProviderId, caller: ProviderId)
    | Accept(provider: ProviderId, fee: int, waived: bool, blocked: bool)
    | Transition(from: Status, to: Status, actor: Role)
    | Cancel(from: Status, actor: Role, reopen: bool, reopenExpiresAt: Time)

  /** An edit refused because the offer is no longer pending rolls the normalization back. */
  function UpsertStep(l: Listing, p: ProviderId, quote: Quote, now: Time): (Listing, bool) {
    var m := Lock(l, now);
    if !m.row.status.TakesOffers() then (m, false)
    else if p !in m.offers then (m.(offers := m.offers[p := Offer(OfferPending, quote, now)]), true)
    else if m.offers[p].status.OfferPending? then (m.(offers := m.offers[p := m.offers[p].(quote := quote)]), true)
    else (l, false)
  }

  function SelectStep(l: Listing, customer: UserId, p: ProviderId, deadline: Time, now: Time): (Listing, bool) {
    var m := Lock(l, now);
    if m.row.customer != customer || !m.row.status.Open? then (m, false)
    else if p !in m.offers || !m.offers[p].status.OfferPending? then (m, false)
    else
      (m.(row := m.row.(status := PendingConfirmation, selected := Some(p), selectionExpiresAt := Some(deadline)),
          offers := SetOffer(m.offers, p, OfferSelected),
          events := m.events + [Event(PendingConfirmation, Customer, now)]), true)
  }

  function RejectStep(l: Listing, p: ProviderId, caller: ProviderId, now: Time): (Listing, bool) {
    if p !in l.offers then (l, false)
    else
      var m := Lock(l, now);
      if !m.row.status.PendingConfirmation? || m.row.selected != Some(p) then (m, false)
      else if p != caller || !m.offers[p].status.OfferSelected? then (m, false)
      else
        (m.(row := m.row.(status := Open, selected := None, selectionExpiresAt := None),
            offers := SetOffer(m.offers, p, OfferRejected),
            events := m.events + [Event(Open, Provider, now)]), true)
  }

  predicate AwaitsConfirmationOf(l: Listing, p: ProviderId) {
    l.row.status.PendingConfirmation? && l.row.selected == Some(p)
  }

  function NewMatch(fee: int, waived: bool, now: Time): Match {
    Match(fee, waived, MatchActive, None, None, now, None)
  }

  /** `blocked` stands for every refusal decided on other rows (suspended, too little credit, a
      failed ledger write); like a second active match it rolls the whole transaction back. */
  function AcceptStep(l: Listing, p: ProviderId, fee: int, waived: bool, blocked: bool, now: Time): (Listing, bool) {
    var m := Lock(l, now);
    if p in m.matches || !AwaitsConfirmationOf(m, p) then (m, false)
    else if blocked || Active(m.matches) != {} then (l, false)
    else
      (Listing(m.row.(status := Matched, selected := None, selectionExpiresAt := None),
               SetOffer(m.offers, p, OfferAccepted),
               m.matches[p := NewMatch(fee, waived, now)],
               m.events + [Event(Matched, Provider, now)]), true)
  }

  /** A compare-and-set on the stored status, with no normalization. */
  function TransitionStep(l: Listing, from: Status, to: Status, actor: Role, now: Time): (Listing, bool) {
    if l.row.status != from then (l, false)
    else
      (Listing(l.row.(status := to, closedAt := if to.IsClosed() then Some(now) else None),
               l.offers,
               AdvanceMatches(l.matches, to, now),
               l.events + [Event(to, actor, now)]), true)
  }

  function CancelStep(l: Listing, from: Status, actor: Role, reopen: bool, reopenExpiresAt: Time, now: Time)
    : (Listing, bool)
  {
    var m := Lock(l, now);
    if m.row.status != from then (m, false)
    else if actor.Provider? && Active(m.matches) == {} then (l, false)
    else
      var offers := ExpireSelection(m.offers, m.row.selected);
      var matches := CancelMatches(m.matches, actor, now);
      if reopen then
        (Listing(m.row.(status := Open, selected := None, selectionExpiresAt := None, expiresAt := reopenExpiresAt),
                 RejectOffers(offers, Active(m.matches)),
                 matches,
                 m.events + [Event(Open, actor, now)]), true)
      else
        (Listing(m.row.(status := Cancelled, selected := None, selectionExpiresAt := None, closedAt := Some(now)),
                 offers,
                 matches,
                 m.events + [Event(Cancelled, actor, now)]), true)
  }

  function Step(l: Listing, op: Op, now: Time): (Listing, bool) {
    match op
    case Upsert(p, quote) => UpsertStep(l, p, quote, now)
    case Select(customer, p, deadline) => SelectStep(l, customer, p, deadline, now)
    case Reject(p, caller) => RejectStep(l, p, caller, now)
    case Accept(p, fee, waived, blocked) => AcceptStep(l, p, fee, waived, blocked, now)
    case Transition(from, to, actor) => TransitionStep(l, from, to, actor, now)
    case Cancel(from, actor, reopen, reopenExpiresAt) => CancelStep(l, from, actor, reopen, reopenExpiresAt, now)
  }

  /** What the service has checked on its own, possibly stale, read before it calls the repository. */
  predicate Admissible(op: Op) {
    match op
    case Transition(from, to, actor) => CanTransition(from, to, actor)
    case Cancel(from, actor, reopen, _) => CanCancel(from, actor) && reopen == actor.Provider?
    case _ => true
  }
}
