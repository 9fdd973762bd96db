/**
 The whole marketplace: every request's rows beside the wallet. Each function is one transaction,
 from the parameters the service passes to the rows it leaves and the answer it gives.
 */
module Marketplace {
  import opened Common
  import opened Wallet
  import opened Topups
  import opened ServiceRequest

  datatype Db = Db(listings: map<RequestId, Listing>, till: Till)

  function Put(db: Db, rid: RequestId, l: Listing): Db {
    db.(listings := db.listings[rid := l])
  }

  function SetPurse(db: Db, purse: Purse): Db {
    db.(till := db.till.(purse := purse))
  }

  function CreateProvider(db: Db, p: ProviderId, owner: UserId, welcome: int): Result<Db, LedgerError> {
    match Wallet.Open(db.till.purse, p, owner, welcome)
    case Ok(purse) => Ok(SetPurse(db, purse))
    case Err(e) => Err(e)
  }

  function SetProviderStatus(db: Db, p: ProviderId, active: bool): Db {
    var purse := db.till.purse;
    if p in purse.accounts
    then SetPurse(db, purse.(accounts := purse.accounts[p := purse.accounts[p].(active := active)]))
    else db
  }

  predicate SentAs(r: Request, customer: UserId, clientId: Option<string>) {
    r.customer == customer && r.clientId == clientId
  }

  /** The unique index on a customer's client ids. */
  predicate ClientIdTaken(listings: map<RequestId, Listing>, customer: UserId, clientId: Option<string>) {
    && clientId.Some?
    && exists rid :: rid in listings && SentAs(listings[rid].row, customer, clientId)
  }

  function CreateRequest(db: Db, rid: RequestId, customer: UserId, clientId: Option<string>, expiresAt: Time,
                         now: Time): (Db, bool) {
    if rid in db.listings || ClientIdTaken(db.listings, customer, clientId) then (db, false)
    else (Put(db, rid, NewListing(customer, clientId, expiresAt, now)), true)
  }

  /** The offer's foreign key: only a stored provider can send one. */
  function SendOffer(db: Db, o: OfferId, quote: Quote, now: Time): (Db, bool) {
    if o.request !in db.listings then (db, false)
    else
      var (l, ok) := UpsertStep(db.listings[o.request], o.provider, quote, now);
      if ok && o.provider !in db.till.purse.accounts then (db, false) else (Put(db, o.request, l), ok)
  }

  /** An offer of another request is not found under this one, so nothing is selected. */
  function SelectOffer(db: Db, rid: RequestId, o: OfferId, customer: UserId, deadline: Time, now: Time): (Db, bool) {
    if rid !in db.listings then (db, false)
    else if o.request != rid then (Put(db, rid, Lock(db.listings[rid], now)), false)
    else
      var (l, ok) := SelectStep(db.listings[rid], customer, o.provider, deadline, now);
      (Put(db, rid, l), ok)
  }

  function RejectSelection(db: Db, o: OfferId, caller: ProviderId, now: Time): (Db, bool) {
    if o.request !in db.listings then (db, false)
    else
      var (l, ok) := RejectStep(db.listings[o.request], o.provider, caller, now);
      (Put(db, o.request, l), ok)
  }

  datatype AcceptOutcome =
    | Accepted(m: Match)
    | AlreadyAccepted(m: Match)
    | OfferNotFound
    | NotWaiting
    | Suspended
    | TooLittleCredit(balance: int, fee: int)
    | AlreadyMatched
    | WriteRefused

  function FeeEntry(o: OfferId, fee: int): Entry {
    Entry(o.provider, MatchFee, -fee, MatchFeeKey(o))
  }

  /** The reasons to refuse that do not depend on the request's own rows. */
  function AcceptRefusal(w: Purse, o: OfferId, fee: int, charge: bool): Option<AcceptOutcome> {
    if o.provider !in w.accounts then Some(WriteRefused)
    else if !w.accounts[o.provider].active then Some(Suspended)
    else if charge && w.accounts[o.provider].balance < fee then
      Some(TooLittleCredit(w.accounts[o.provider].balance, fee))
    else if fee < 0 then Some(WriteRefused)
    else None
  }

  function Deduct(w: Purse, o: OfferId, fee: int, charge: bool): Purse {
    if charge && fee > 0 && Apply(w, FeeEntry(o, fee)).Ok? then Apply(w, FeeEntry(o, fee)).value.0 else w
  }

  /** The qualified match: it is made, charged and recorded together or not at all. */
  function AcceptOffer(db: Db, o: OfferId, caller: ProviderId, fee: int, charge: bool, now: Time): (Db, AcceptOutcome) {
    if o.request !in db.listings || o.provider !in db.listings[o.request].offers || caller != o.provider
      then (db, OfferNotFound)
    else
      var l := db.listings[o.request];
      var m := Lock(l, now);
      var w := db.till.purse;
      var refusal := AcceptRefusal(w, o, fee, charge);
      var (l', ok) := AcceptStep(l, o.provider, fee, !charge, refusal.Some?, now);
      if ok then (SetPurse(Put(db, o.request, l'), Deduct(w, o, fee, charge)), Accepted(l'.matches[o.provider]))
      else
        (Put(db, o.request, l'),
         if o.provider in m.matches then AlreadyAccepted(m.matches[o.provider])
         else if !AwaitsConfirmationOf(m, o.provider) then NotWaiting
         else if refusal.Some? then refusal.value
         else AlreadyMatched)
  }

  function TransitionJob(db: Db, rid: RequestId, from: Status, to: Status, actor: Role, now: Time): (Db, bool) {
    if rid !in db.listings then (db, false)
    else
      var (l, ok) := TransitionStep(db.listings[rid], from, to, actor, now);
      (Put(db, rid, l), ok)
  }

  datatype CancelParams = CancelParams(
    request: RequestId,
    from: Status,
    actor: Role,
    reopen: bool,
    reopenExpiresAt: Time,
    refund: Option<Entry>)

  /** A refund that cannot be written rolls the cancellation back. */
  function CancelRequest(db: Db, c: CancelParams, now: Time): (Db, bool) {
    if c.request !in db.listings then (db, false)
    else
      var (l, ok) := CancelStep(db.listings[c.request], c.from, c.actor, c.reopen, c.reopenExpiresAt, now);
      if !ok || c.refund.None? then (Put(db, c.request, l), ok)
      else
        match Apply(db.till.purse, c.refund.value)
        case Err(_) => (db, false)
        case Ok((purse, _)) => (SetPurse(Put(db, c.request, l), purse), true)
  }

  function AdjustCredit(db: Db, p: ProviderId, amount: int, operation: nat): Result<Db, LedgerError> {
    match Apply(db.till.purse, Entry(p, AdminAdjustment, amount, AdjustmentKey(operation)))
    case Ok((purse, _)) => Ok(SetPurse(db, purse))
    case Err(e) => Err(e)
  }

  // ---- the service's read phase ----

  datatype Policy = Policy(requestTtl: Time, refundGrace: Time)

  /** The match a party still has: the active or the completed one. */
  ghost function CurrentMatch(matches: Matches): Option<ProviderId> {
    if exists p :: p in matches && !matches[p].status.MatchCancelled? then
      var p :| p in matches && !matches[p].status.MatchCancelled?;
      Some(p)
    else None
  }

  ghost function RoleOf(db: Db, l: Listing, user: UserId): Option<Role> {
    var current := CurrentMatch(l.matches);
    if l.row.customer == user then Some(Customer)
    else if current.Some? && current.value in db.till.purse.accounts &&
      db.till.purse.accounts[current.value].owner == user
    then Some(Provider)
    else None
  }

  function RefundEntry(o: OfferId, m: Match): Entry {
    Entry(o.provider, Refund, m.fee, RefundKey(o))
  }

  /** The refund due when the request's current match is cancelled now. */
  ghost function RefundDue(l: Listing, rid: RequestId, from: Status, actor: Role, now: Time,
                           grace: Time): Option<Entry> {
    var current := CurrentMatch(l.matches);
    if current.Some? && RefundEligible(l.matches[current.value], from, actor, now, grace)
    then Some(RefundEntry(OfferId(rid, current.value), l.matches[current.value]))
    else None
  }

  /** What the service asks the repository to do, from the rows it has just read. */
  ghost function DecideCancel(db: Db, user: UserId, rid: RequestId, policy: Policy, now: Time): Option<CancelParams> {
    if rid !in db.listings then None
    else
      var l := db.listings[rid];
      var role := RoleOf(db, l, user);
      var from := l.row.Effective(now);
      if role.None? || !CanCancel(from, role.value) then None
      else
        var reopen := role.value.Provider?;
        var soonest := now + policy.requestTtl;
        Some(CancelParams(rid, from, role.value, reopen,
                          if reopen && l.row.expiresAt < soonest then soonest else l.row.expiresAt,
                          RefundDue(l, rid, from, role.value, now, policy.refundGrace)))
  }

  ghost function DecideTransition(db: Db, user: UserId, rid: RequestId, to: Status, now: Time): Option<(Status, Role)> {
    if rid !in db.listings then None
    else
      var l := db.listings[rid];
      var role := RoleOf(db, l, user);
      var from := l.row.Effective(now);
      if role.Some? && CanTransition(from, to, role.value) then Some((from, role.value)) else None
  }

  // ---- runs ----

  datatype Call =
    | CallCreateProvider(provider: ProviderId, owner: UserId, welcome: int)
    | CallSetProviderStatus(provider: ProviderId, active: bool)
    | CallCreateRequest(request: RequestId, customer: UserId, clientId: Option<string>, expiresAt: Time)
    | CallSendOffer(offer: OfferId, quote: Quote)
    | CallSelectOffer(request: RequestId, offer: OfferId, customer: UserId, deadline: Time)
    | CallRejectSelection(offer: OfferId, caller: ProviderId)
    | CallAcceptOffer(offer: OfferId, caller: ProviderId, fee: int, charge: bool)
    | CallTransitionJob(request: RequestId, from: Status, to: Status, actor: Role)
    | CallCancel(cancel: CancelParams)
    | CallAdjustCredit(provider: ProviderId, amount: int, operation: nat)
    | CallCreateTopup(topup: TopupId, provider: ProviderId, amount: int, currency: string, credits: int)
    | CallReceive(message: Message)

  function Exec(db: Db, call: Call, now: Time): Db {
    match call
    case CallCreateProvider(p, owner, welcome) =>
      var r := CreateProvider(db, p, owner, welcome); if r.Ok? then r.value else db
    case CallSetProviderStatus(p, active) => SetProviderStatus(db, p, active)
    case CallCreateRequest(rid, customer, clientId, expiresAt) =>
      CreateRequest(db, rid, customer, clientId, expiresAt, now).0
    case CallSendOffer(o, quote) => SendOffer(db, o, quote, now).0
    case CallSelectOffer(rid, o, customer, deadline) => SelectOffer(db, rid, o, customer, deadline, now).0
    case CallRejectSelection(o, caller) => RejectSelection(db, o, caller, now).0
    case CallAcceptOffer(o, caller, fee, charge) => AcceptOffer(db, o, caller, fee, charge, now).0
    case CallTransitionJob(rid, from, to, actor) => TransitionJob(db, rid, from, to, actor, now).0
    case CallCancel(c) => CancelRequest(db, c, now).0
    case CallAdjustCredit(p, amount, operation) =>
      var r := AdjustCredit(db, p, amount, operation); if r.Ok? then r.value else db
    case CallCreateTopup(id, p, amount, currency, credits) =>
      db.(till := CreateTopup(db.till, id, p, amount, currency, credits).0)
    case CallReceive(m) => db.(till := Receive(db.till, m))
  }

  const EMPTY := Db(map[], Till(Purse(map[], []), map[]))

  datatype Timed = Timed(call: Call, at: Time)

  function ExecAll(db: Db, calls: seq<Timed>): Db {
    if calls == [] then db
    else Exec(ExecAll(db, calls[..|calls| - 1]), calls[|calls| - 1].call, calls[|calls| - 1].at)
  }

  function MatchAt(db: Db, o: OfferId): Option<Match> {
    if o.request in db.listings && o.provider in db.listings[o.request].matches
    then Some(db.listings[o.request].matches[o.provider])
    else None
  }

  /** What remains true of the service's decisions however stale its read was: the table allowed the
      move, and a refund names some charged match of the request, still within the grace period. */
  ghost predicate CallOk(db: Db, call: Call, now: Time, grace: Time) {
    match call
    case CallTransitionJob(_, from, to, actor) => CanTransition(from, to, actor)
    case CallCancel(c) =>
      && CanCancel(c.from, c.actor) && c.reopen == c.actor.Provider?
      && (c.refund.Some? ==> RefundNamesMatch(db, c, now, grace))
    case CallReceive(m) => m.Mark? ==> m.to.TopupFailed? || m.to.TopupExpired?
    case _ => true
  }

  ghost predicate RefundNamesMatch(db: Db, c: CancelParams, now: Time, grace: Time)
    requires c.refund.Some?
  {
    && c.actor.Customer? && c.from.Matched?
    && c.refund.value.key.RefundKey?
    && var o := c.refund.value.key.match_;
       && o.request == c.request
       && MatchAt(db, o).Some?
       && MatchAt(db, o).value.Charged()
       && now - MatchAt(db, o).value.createdAt <= grace
       && c.refund.value == RefundEntry(o, MatchAt(db, o).value)
  }

  /** Any interleaving: each call was decided at some earlier point of the run. */
  ghost predicate Interleaved(db: Db, calls: seq<Timed>, grace: Time) {
    forall i :: 0 <= i < |calls| ==> CallOk(ExecAll(db, calls[..i]), calls[i].call, calls[i].at, grace)
  }

  /** Reading and committing form one step: each cancellation is what the service decides right then. */
  ghost predicate DecidedNow(db: Db, call: Call, now: Time, policy: Policy) {
    match call
    case CallTransitionJob(rid, from, to, actor) =>
      exists user :: DecideTransition(db, user, rid, to, now) == Some((from, actor))
    case CallCancel(c) => exists user :: DecideCancel(db, user, c.request, policy, now) == Some(c)
    case CallReceive(m) => m.Mark? ==> m.to.TopupFailed? || m.to.TopupExpired?
    case _ => true
  }

  ghost predicate Atomic(db: Db, calls: seq<Timed>, policy: Policy) {
    forall i :: 0 <= i < |calls| ==> DecidedNow(ExecAll(db, calls[..i]), calls[i].call, calls[i].at, policy)
  }
}
