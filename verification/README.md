# FloodNow verification

A Dafny model of the FloodNow API's hardest behaviour and proofs about it. `dafny verify dfyconfig.toml` checks it
all.

**Local-services marketplace and wallet.** `ServiceRequest` holds the rows of one request (its offers, matches and
timeline) and one function for each transaction on them. `Coupling` and `Timeline` prove what every transaction keeps.
`LazyExpiry` defines a second system whose time-outs fire on time and proves that reads of the lazily normalized rows
cannot be told apart from it. `Wallet` is the append-only ledger and `Topups` the purchases; `TopupStatuses` says
which message order ends in which status, and `Webhooks` covers handlers that read, decide and commit later.
`Marketplace` is the whole database and the service's read phase. `Billing`, `Refunds`, `Identities` and
`Interleavings` prove that money moves exactly once, and `LedgerOrigins` which call each row comes from. `Outcomes`
states when each transaction goes through and what it then leaves, in terms of what a caller can read beforehand, and
`Dates` ties every stored date to the timeline. `StaleSteps` says whose match a stale decision reaches, and
`StaleCancel` is a concrete run in which a refund goes to the wrong provider. `LocalServiceRepository` is the
repository as a class, each method proved equal to its function, and `WalletService` the webhook handler on top of it.

**Flood areas and their cache.** `FloodGeometry`, `DouglasPeucker`, `FloodRings` and `FloodAreas` follow the geometry
from the point-to-segment distance through the stack loop and ring clean-up to clipping; `FloodOutput` says which
rings and vertices a view receives. `SingleFlight` is the shared refresh with back-off and stale fallback as a
transition system, with the flood-area and road-camera services as two classes, and `ServedCopies` follows each copy
back to the provider call that returned it.

**Community protocols.** `Sos` and `SosRaces` cover SOS requests, first as row operations and then as racing calls
with row locks; `SosOutcomes` says which calls go through. `Reports` covers confirmation votes and complaint-driven
hiding on one report row and one event log, `ReportOutcomes` what the latest votes and complaints leave of it.

**Two algorithms.** `RateLimiter` is the fixed-window limiter, `Corridor` the route corridor.

The database is a set of maps, a transaction is one step that commits or changes nothing, and the row locks that a
property depends on are explicit. The constraints the code relies on come from the migrations: unique ledger keys, one
offer per request and provider (migrations/000011_local_services.up.sql:109), one match per offer (line 120 of the
same file), unique payment intents, one request for each of a customer's client ids (line 71), one open SOS request
per device (migrations/000003_community_safety.up.sql:68), one vote and one complaint per device and report. Offers
and matches are therefore named by their request and provider. Clock readings are parameters; they need not increase
unless a lemma says so.

## Findings

Where the code does not do what one would expect, a lemma exhibits it and another gives the exact condition.

- `Cancel` and `TransitionJob` recheck the status under their lock but not which match is active. A cancellation keeps
  the refund rule if and only if the refund decided by the earlier read is the one the locked rows give
  (`Refunds.CancelKeepsRuleIff`), and a real run breaks the rule (`StaleCancel.StaleRunBreaksRefundRule`). A
  provider's step concerns its own match if and only if the match it read is still the active one
  (`StaleSteps.StaleTransitionIsOwnIff`, `StaleSteps.StaleBackOutIsOwnIff`); otherwise it reaches another provider's
  job (`StaleCancel.StaleBackOutHitsAnother`, `StaleCancel.StaleTravelHitsAnother`).
- The comment at internal/application/localservice/wallet.go:104 calls every webhook branch order-independent. The
  credits are (`Webhooks.BalancesByArrival`); the statuses are not. A refund that arrives before its payment is lost
  (`TopupStatuses.RefundOvertakesPayment`). `TopupStatuses.StatusByOrder` gives the status of every run, and
  `TopupStatuses.StatusOrderIrrelevantIff` says exactly which runs may be reordered.
- The limiter's sweep is unobservable while the clock never steps back, and no tolerance beyond that is safe: one tick
  is enough to show it (`RateLimiter.UnobservableIff`), whatever the limit. `rateLimit` reads the time before `allow`
  takes the mutex (internal/adapters/inbound/http/auth_handler.go:132-145), so calls can be served out of time order.
- The limiter keeps its limit in every window if and only if the limit is at least one (`RateLimiter.LimitKeptIff`).
  The router builds it with 30 only.
- "Never present a copy older than a day" holds for every TTL that configuration allows, up to 24 hours
  (`SingleFlight.SingleFlightHolds`), and fails in some run for every longer one
  (`SingleFlight.LongTtlServesOldCopies`).

## Model

| member | source | states |
|---|---|---|
| LazyExpiry.LazyIsEager | internal/domain/localservice/request.go:116-134 | After every run of every mix of operations with a clock that never steps back, and at every later instant, the statuses read through Effective and EffectiveOffer from the lazily normalized rows are those of a separately defined system whose confirmation and expiry timers fire on time |
| LazyExpiry.SameAnswers | internal/adapters/outbound/postgres/localservice_repository.go:500-529 | Lazy and eager systems also accept and refuse exactly the same operations |
| LazyExpiry.LockInvisible | internal/adapters/outbound/postgres/localservice_repository.go:396-426 | Normalizing the rows changes nothing any reader sees, so neither does rolling the normalization back when an offer edit is refused |
| LazyExpiry.ViewFires | internal/domain/localservice/request.go:238-254 | Reading later equals reading earlier and letting the timers run on |
| LazyExpiry.StepSimulates | internal/adapters/outbound/postgres/localservice_repository.go:531-836 | Every single transaction on a request, refused ones included, does to what readers see what the eager operation does |
| Coupling.StepCoupled | internal/adapters/outbound/postgres/localservice_repository.go:396-836 | Each transaction keeps: an offer is selected iff the request is pending on it; the request is matched, on the way or arrived iff it has an active match, completed iff it has a completed one; at most one match is not cancelled; matched iff the active match has no travel start; an accepted offer is one with a match |
| Coupling.LockCoupled | internal/adapters/outbound/postgres/localservice_repository.go:500-529 | Locking leaves coupled rows whose stored status is the effective one |
| Timeline.StepReplays | internal/adapters/outbound/postgres/localservice_repository.go:226-232 | Timelines only grow, and stay paths of the state machine that end in the stored status, through time-outs, acceptance, cancellation and reopening |
| Timeline.StepUses | internal/adapters/outbound/postgres/localservice_repository.go:531-692 | Only a committed selection picks an offer and only a committed acceptance makes a match, each time one never used before |
| Timeline.MatchingBounded | internal/adapters/outbound/postgres/localservice_repository.go:409-425 | Over any run, a request with P providers enters pending confirmation at most P times and is matched at most as often |
| Timeline.CompletedJobsWalkEveryStep | internal/domain/localservice/request.go:60-89 | After any run a completed request was open, pending on an offer, matched, travelled to and arrived at, in that order with nothing in between, and is completed once |
| Timeline.ClosedForever | internal/domain/localservice/request.go:43-45 | No operation changes the row or timeline of a closed request |
| Timeline.RunKeeps | internal/adapters/outbound/postgres/localservice_repository.go:531-836 | Coupling, replay and counts hold after every run |
| Wallet.ApplySound | internal/adapters/outbound/postgres/localservice_repository.go:867-896 | A ledger write keeps: each balance is the sum of its rows, each row carries its prefix sum, nothing is negative, every row has its kind's sign, no key occurs twice |
| Wallet.ApplyMoves | internal/adapters/outbound/postgres/localservice_repository.go:867-896 | A write posts exactly its own key and moves exactly one balance by the amount, or, for a key already posted, changes nothing |
| Wallet.OpenSound | internal/adapters/outbound/postgres/localservice_repository.go:137-164 | Creating a profile with or without a welcome credit keeps the ledger sound |
| Billing.RunInv | internal/adapters/outbound/postgres/localservice_repository.go:605-692 | After every interleaved run of all transactions: requests coupled, timelines replay, ledger sound, top-ups in order, each match billed |
| Billing.ExecInv | internal/adapters/outbound/postgres/localservice_repository.go:137-1033 | Every transaction of the marketplace keeps that invariant |
| Billing.BilledExactlyOnce | internal/adapters/outbound/postgres/localservice_repository.go:626-677 | After every interleaved run: one fee row of minus the fee, to the right provider, for a charged match and none otherwise; at most one refund row, only beside a fee row, of the whole fee |
| Billing.AcceptIsIdempotent | internal/adapters/outbound/postgres/localservice_repository.go:626-650 | Accepting again, at any later time and with any fee, returns the same match and changes no row at all |
| Billing.RepeatChargesNothing | internal/adapters/outbound/postgres/localservice_repository.go:626-650 | Once an offer has a match, no acceptance touches the wallet |
| Billing.AcceptCharges | internal/adapters/outbound/postgres/localservice_repository.go:651-692 | The balance falls by the fee exactly when the match is made and charged; every other outcome leaves the wallet as it was |
| Billing.NeverAlreadyMatched | internal/adapters/outbound/postgres/localservice_repository.go:598-692 | The partial unique index on active matches is never what refuses an acceptance: the coupling under the lock excludes it |
| Refunds.CancelKeepsRuleIff | internal/adapters/outbound/postgres/localservice_repository.go:779-836 | A committed cancellation keeps "refund row iff the customer cancelled a charged match before travel within grace" if and only if the refund decided by the earlier read is the one the locked rows give |
| Refunds.ExecKeepsRule | internal/adapters/outbound/postgres/localservice_repository.go:779-836 | Every other transaction keeps the refund rule |
| Interleavings.AtomicRefunds | internal/domain/localservice/request.go:307-322 | When reading and committing are one step, after every run a refund exists iff the customer cancelled a charged match from matched, before travel and within the grace period |
| Interleavings.ServiceRunsInterleave | internal/application/localservice/service.go:449-539 | Whatever earlier point of the run each job step and cancellation was decided at, the table allowed it and a refund still names a charged match in time, so all claims for interleaved runs hold |
| Interleavings.StaleDecisionOk | internal/application/localservice/service.go:506-529 | A decision read at one point of a run still satisfies what the ledger claims need at every later point |
| Identities.IdentitiesAreUnique | internal/adapters/outbound/postgres/localservice_repository.go:234-256 | In every run an owner has one profile and a customer's client id names one request |
| Outcomes.AcceptsIff | internal/adapters/outbound/postgres/localservice_repository.go:605-692 | An acceptance makes the match iff the request as of now waits for this provider, it is the caller, it is active, the fee is not negative and, when it is charged, the balance covers it; suspended and too little credit are answered exactly in their own cases; the match has the agreed terms and is dated now |
| Outcomes.SuspensionStopsMatches | internal/adapters/outbound/postgres/localservice_repository.go:654-661 | From a suspension on, whatever is called, no match of that provider is made until a call reactivates it |
| Outcomes.ReactivationRestores | internal/adapters/outbound/postgres/localservice_repository.go:1061-1066 | Reactivating undoes a suspension, and neither concerns another provider |
| Outcomes.RequestsIff | internal/adapters/outbound/postgres/localservice_repository.go:234-256 | A request is stored iff its id is new and its customer has not used its client id; it then reads open, without offers, exactly until it expires |
| Outcomes.SendsOfferIff | internal/adapters/outbound/postgres/localservice_repository.go:396-426 | An offer is stored iff the request takes offers now, the provider exists and an earlier offer of it still reads pending; it then holds the quote sent, and one refused although the request takes offers changes no row |
| Outcomes.LatestQuoteWins | internal/adapters/outbound/postgres/localservice_repository.go:409-421 | After every run of calls a stored quote is that of the last offer of this provider that was accepted for storing |
| Outcomes.SelectsIff | internal/adapters/outbound/postgres/localservice_repository.go:531-560 | A selection goes through iff it is the customer's own, the request reads open and the offer is one of its own that reads pending; the request then waits for that provider exactly until the deadline |
| Outcomes.RejectsIff | internal/adapters/outbound/postgres/localservice_repository.go:562-596 | A rejection goes through iff the request waits for exactly this caller; it then reads open with that offer rejected |
| Outcomes.CancelsIff | internal/application/localservice/service.go:488-539 | Read and committed at once, a cancellation goes through, refund included, iff the user is the customer of a request not closed or the owner of the live match of a job not yet reached |
| Outcomes.CancelLeaves | internal/adapters/outbound/postgres/localservice_repository.go:779-836 | It ends the live match and no other, expires an offer still waiting for confirmation, rejects the offer of a provider who backs out and changes no other offer |
| Outcomes.ReopenedLongEnough | internal/application/localservice/service.go:509-517 | A request a provider backs out of is open for at least the usual time from then, and expires no earlier than before |
| Outcomes.StepsIff | internal/application/localservice/service.go:449-481 | Read and committed at once, a job step goes through iff it is the next one and the user owns the live match, or is the customer confirming an arrival |
| LedgerOrigins.EveryRowIsExplained | internal/adapters/outbound/postgres/localservice_repository.go:872-896 | In every interleaved run each ledger row was asked for by a call of the run with its provider and its amount: a welcome credit by the call that opened the account, a fee by the provider's own acceptance, a refund by a cancellation of that request, an adjustment by its operation, and a top-up credit by a purchase of so many credits and a payment of its price |
| LedgerOrigins.AdjustsBy | internal/adapters/outbound/postgres/localservice_repository.go:1013-1033 | An adjustment fails iff the provider is unknown, the amount is zero or the balance would become negative, with the matching error; a new operation moves exactly that balance by exactly the amount and appends one row saying so, a repeated one changes nothing |
| LedgerOrigins.OpensIff | internal/adapters/outbound/postgres/localservice_repository.go:137-164 | In every run a profile is opened iff neither it nor its owner has one, active, with exactly the welcome credit and its one row |
| LedgerOrigins.BuysIff | internal/adapters/outbound/postgres/localservice_repository.go:916-922 | A purchase is recorded iff its number is new, its provider known, its amounts positive and its currency the accepted one, with what was asked for, unpaid |
| LedgerOrigins.PurchaseIsCredited | internal/adapters/outbound/postgres/localservice_repository.go:916-997 | After a purchase, however messages are ordered, the credits bought are posted to the buyer, once, iff a payment of the price arrives |
| Dates.EveryDateIsLogged | internal/adapters/outbound/postgres/localservice_repository.go:226-232 | In every interleaved run a closed request is dated by the last entry of its timeline and an open one is not, and the creation, travel start and end of each match are dated by entries of the status they belong to |
| StaleSteps.StaleTransitionIsOwnIff | internal/adapters/outbound/postgres/localservice_repository.go:743-774 | A job step decided at any earlier point of any run: when it commits, the caller still holds the role it acts in iff it is the customer or the match it read is the active one |
| StaleSteps.StaleBackOutIsOwnIff | internal/adapters/outbound/postgres/localservice_repository.go:779-836 | A provider's cancellation decided at any earlier point ends the caller's own match iff the match it read is the active one |
| StaleSteps.OnlyTheActive | internal/adapters/outbound/postgres/localservice_repository.go:743-836 | Job steps and cancellations change no match but the active one |
| StaleCancel.FirstMatchReachable | internal/adapters/outbound/postgres/localservice_repository.go:605-692 | The starting rows of the next lemmas are reached from the empty database by real calls |
| StaleCancel.StaleIsDecided | internal/application/localservice/service.go:488-539 | On those rows the service decides, for the customer, to cancel with a refund for the first match |
| StaleCancel.BackOutIsDecided | internal/application/localservice/service.go:488-539 | On the same rows it decides, for the provider, to back out without one |
| StaleCancel.BacksOut | internal/adapters/outbound/postgres/localservice_repository.go:779-836 | Committing the provider's decision reopens the request and leaves the wallet alone |
| StaleCancel.MatchedAgain | internal/adapters/outbound/postgres/localservice_repository.go:531-692 | The request can then be matched with the second provider before the customer's decision commits |
| StaleCancel.StaleCancelMisrefunds | internal/adapters/outbound/postgres/localservice_repository.go:779-836 | A run in which Cancel, which rechecks the status but not the match, refunds the provider who backed out and not the one whose match it cancels |
| StaleCancel.StaleRunBreaksRefundRule | internal/application/localservice/service.go:488-539 | There is a run from the empty database, each of whose decisions was read at an earlier point of it, that ends with the refund rule broken |
| StaleCancel.StaleBackOutHitsAnother | internal/adapters/outbound/postgres/localservice_repository.go:779-836 | There the first provider's earlier decision to back out, committed late, cancels the second provider's match and rejects its offer |
| StaleCancel.StaleTravelHitsAnother | internal/adapters/outbound/postgres/localservice_repository.go:743-774 | And its earlier decision to set out records the second provider's travel |
| LocalServices.LocalServiceRepository.LockRequest | internal/adapters/outbound/postgres/localservice_repository.go:500-529 | Leaves exactly the normalized rows and the system time-out event |
| LocalServices.LocalServiceRepository.ApplyLedger | internal/adapters/outbound/postgres/localservice_repository.go:872-896 | Answers and leaves accounts and ledger as the ledger write specified and proved sound in Wallet |
| LocalServices.LocalServiceRepository.CreateProvider | internal/adapters/outbound/postgres/localservice_repository.go:137-164 | Creates the account and its welcome credit together or changes nothing |
| LocalServices.LocalServiceRepository.SetProviderStatus | internal/adapters/outbound/postgres/localservice_repository.go:1061-1066 | Changes that provider's status and nothing else |
| LocalServices.LocalServiceRepository.CreateRequest | internal/adapters/outbound/postgres/localservice_repository.go:234-256 | Inserts the open request with its first event, or changes nothing for a known id or a client id the customer has used |
| LocalServices.LocalServiceRepository.UpsertOffer | internal/adapters/outbound/postgres/localservice_repository.go:396-426 | Inserts or edits a pending offer; a refused edit rolls everything back, the normalization included |
| LocalServices.LocalServiceRepository.SelectOffer | internal/adapters/outbound/postgres/localservice_repository.go:531-560 | Selects one pending offer of an open request, or commits only the normalization |
| LocalServices.LocalServiceRepository.RejectSelection | internal/adapters/outbound/postgres/localservice_repository.go:562-596 | Rejects the selected offer and reopens the request, or commits only the normalization |
| LocalServices.LocalServiceRepository.AcceptOffer | internal/adapters/outbound/postgres/localservice_repository.go:605-692 | Answers and leaves all rows as the acceptance function whose exact conditions are Outcomes.AcceptsIff and about which idempotence, billing and coupling are proved; every refusal after the first write rolls back |
| LocalServices.LocalServiceRepository.TransitionJob | internal/adapters/outbound/postgres/localservice_repository.go:743-774 | A compare-and-set on the stored status, with the match's travel start or completion |
| LocalServices.LocalServiceRepository.Cancel | internal/adapters/outbound/postgres/localservice_repository.go:779-836 | Cancels or reopens, cancels the active match, rejects the offer of a provider who backs out and posts the refund, all or nothing |
| LocalServices.LocalServiceRepository.AdjustCredit | internal/adapters/outbound/postgres/localservice_repository.go:1013-1033 | Appends and returns the row of this provider, kind and amount under a new operation, returns the earlier row and changes nothing under a known one, or answers an error and changes nothing; what it does to balances is LedgerOrigins.AdjustsBy |
| LocalServices.LocalServiceRepository.CreateTopup | internal/adapters/outbound/postgres/localservice_repository.go:916-922 | Answers and leaves the top-ups as the purchase function that LedgerOrigins.BuysIff and PurchaseIsCredited characterise |
| LocalServices.LocalServiceRepository.SetTopupPayment | internal/adapters/outbound/postgres/localservice_repository.go:924-934 | Records the intent only where none is recorded yet |
| LocalServices.LocalServiceRepository.MarkTopupPaid | internal/adapters/outbound/postgres/localservice_repository.go:969-997 | Marks paid and posts the credit together, or leaves both alone |
| LocalServices.LocalServiceRepository.MarkTopup | internal/adapters/outbound/postgres/localservice_repository.go:999-1005 | Moves only a pending top-up |
| LocalServices.LocalServiceRepository.MarkTopupRefundedByPaymentIntent | internal/adapters/outbound/postgres/localservice_repository.go:1007-1011 | Moves the one paid top-up with that intent and returns it, or changes nothing |
| WalletService.Service.TopupFor | internal/application/localservice/wallet.go:170-185 | Finds the top-up by intent first, then by reference |
| WalletService.Service.HandlePaymentWebhook | internal/application/localservice/wallet.go:107-166 | Commits exactly the message its read decides on, keeps intents unique and touches no request |
| Topups.CreditedIffDelivered | internal/adapters/outbound/postgres/localservice_repository.go:964-1011 | Under any order, duplication and interleaving of committed messages, a top-up's credit is in the ledger iff a matching success is among them, then exactly once and in full |
| Topups.BalancesConfluent | internal/adapters/outbound/postgres/localservice_repository.go:964-1011 | Balances depend only on which successes were delivered: not on order, duplicates, failures, refunds or when intents were recorded |
| Topups.PermutationSameBalances | internal/adapters/outbound/postgres/localservice_repository.go:964-1011 | In particular permuting deliveries changes no balance |
| Topups.StatusMoves | internal/adapters/outbound/postgres/localservice_repository.go:969-1011 | Paid never goes back to pending, failed or expired; refunded comes only from paid and is final |
| Topups.ReceiveOk | internal/adapters/outbound/postgres/localservice_repository.go:924-1011 | Every message keeps: a top-up is settled iff its credit is posted, to its provider and in full |
| Topups.ReceiveIntentsUnique | internal/adapters/outbound/postgres/localservice_repository.go:924-934 | No message breaks the uniqueness of payment intents |
| Topups.IntentStays | internal/adapters/outbound/postgres/localservice_repository.go:924-997 | A recorded intent never changes; it comes from the first recording or matching success of that very top-up |
| Topups.DecisionStable | internal/application/localservice/wallet.go:107-197 | When an event carries the intent created for its top-up, the handler decides the same whenever it reads: it pays iff the success is confirmed and amount, currency and provider agree, marks failed or expired by the kind of failure, and refunds iff the charge was |
| Webhooks.CreditedExactlyOnce | internal/application/localservice/wallet.go:107-197 | For runs of webhooks that each read at one moment, decide, and commit later, mixed with SetTopupPayment: the credit is in the ledger iff a confirmed success with the right amount, currency and provider arrived, then exactly once and in full |
| Webhooks.BalancesByArrival | internal/application/localservice/wallet.go:107-197 | Two such runs in which the same top-ups were paid leave the same balances, however deliveries were ordered, repeated or read early |
| Webhooks.StatusByArrival | internal/application/localservice/wallet.go:107-197 | After such a run a top-up is refunded iff the refund arrived after a paying success, paid iff one arrived and no refund after it, and otherwise, if it was pending, failed or expired as the first failure event says |
| Webhooks.ReadingIsStable | internal/application/localservice/wallet.go:170-197 | The messages such a run commits do not depend on when its handlers read, and each carries the intent created for its top-up |
| TopupStatuses.StatusByOrder | internal/adapters/outbound/postgres/localservice_repository.go:964-1011 | The status after every run of messages, exactly: refunded iff a refund of the payment follows a matching success; paid iff a success came and no refund after it; else the first failure or expiry if it was pending |
| TopupStatuses.StatusOrderIrrelevantIff | internal/application/localservice/wallet.go:101-106 | Every order of a run's messages ends in the same status iff the run has no refund beside a payment and, without a payment, no failure beside an expiry of a pending top-up |
| TopupStatuses.RefundOvertakesPayment | internal/application/localservice/wallet.go:150-163 | From any unsettled top-up, its intent recorded or not, a refund event that overtakes the payment is lost: one order ends refunded, the other paid |
| FloodGeometry.SegDistIsMinimum | internal/domain/officialflood/officialflood.go:267-281 | sqSegDist is the least squared distance over all points of the segment, and one point attains it |
| FloodGeometry.NearestIsLeast | internal/domain/officialflood/officialflood.go:267-281 | The clamped projection is at least as near as any point of the segment |
| DouglasPeucker.Dp | internal/domain/officialflood/officialflood.go:243-260 | The stack loop terminates and marks exactly the vertices of the recursive definition, besides those already marked |
| DouglasPeucker.Scan | internal/domain/officialflood/officialflood.go:249-254 | The inner loop finds the first vertex farthest from the chord, or -1 when none exceeds the tolerance |
| DouglasPeucker.FarthestIs | internal/domain/officialflood/officialflood.go:249-254 | What the scan finds exceeds the tolerance, is beaten by no vertex and equalled by none before it |
| DouglasPeucker.DroppedWithinTolerance | internal/domain/officialflood/officialflood.go:243-260 | Every dropped vertex is within the tolerance of the chord between its two kept neighbours |
| DouglasPeucker.KeptForAReason | internal/domain/officialflood/officialflood.go:243-260 | Every kept vertex is off some chord of kept vertices by more than the tolerance |
| DouglasPeucker.Antitone | internal/domain/officialflood/officialflood.go:243-260 | A smaller tolerance keeps a superset |
| DouglasPeucker.KeepsItsOutput | internal/domain/officialflood/officialflood.go:243-260 | Applied to the vertices it kept, the selection keeps them all |
| FloodRings.SimplifyRing | internal/domain/officialflood/officialflood.go:205-238 | The loops return the rounded, de-duplicated kept vertices, or nothing when fewer than four remain |
| FloodRings.FarFromStart | internal/domain/officialflood/officialflood.go:211-218 | The split vertex is the first inner vertex farthest from the start |
| FloodRings.FarIs | internal/domain/officialflood/officialflood.go:211-218 | That vertex is beaten by none and equalled by none before it |
| FloodRings.SimplifiedIsWellFormed | internal/domain/officialflood/officialflood.go:205-238 | Every ring returned for a closed ring is closed, has at least four vertices and no equal neighbours |
| FloodRings.OutputTracksRing | internal/domain/officialflood/officialflood.go:205-238 | Every original vertex is within the tolerance of a chord of kept vertices whose rounded ends the ring returned visits one after the other |
| FloodRings.RoundedPointIsNear | internal/domain/officialflood/officialflood.go:201-201 | Rounding moves a vertex by at most half of the fifth decimal on each axis |
| FloodRings.RoundTwice | internal/domain/officialflood/officialflood.go:201-201 | Rounding is idempotent |
| FloodRings.FinerKeepsMore | internal/domain/officialflood/officialflood.go:205-221 | For whole rings, a smaller tolerance keeps a superset of vertices |
| FloodRings.SimplifyTwice | internal/domain/officialflood/officialflood.go:205-221 | Simplifying a ring's kept vertices again, before rounding, drops nothing |
| FloodAreas.NewArea | internal/domain/officialflood/officialflood.go:87-113 | Succeeds iff there are polygons, none is empty, every point is in range and every closed ring has four positions; the result has every ring closed and the smallest box around all points |
| FloodAreas.HullIsUnique | internal/domain/officialflood/officialflood.go:59-61 | Those bounds are determined by the points |
| FloodAreas.NewAreaIsBuilt | internal/domain/officialflood/officialflood.go:87-113 | Areas so built satisfy what clipping relies on, a proper box included |
| FloodAreas.SkippedIsOutside | internal/domain/officialflood/officialflood.go:55-57 | An area skipped because its bounds miss the view has no point of any edge in the view |
| FloodAreas.IntersectsIff | internal/domain/officialflood/officialflood.go:55-57 | Comparing the sides of two proper boxes decides whether some point lies in both |
| FloodAreas.Clip | internal/domain/officialflood/officialflood.go:163-199 | The areas returned are the longest prefix of the unlimited clip within both limits, truncated says whether it is a proper one, and the box of each shares a point with the view |
| FloodAreas.RefsAreStable | internal/domain/officialflood/officialflood.go:145-150 | For every view the query parser lets through, refs strictly increase, each entry is its own area with only the geometry simplified, and an area is listed iff its box shares a point with the view and something of it survives |
| FloodAreas.SentRingsAreWellFormed | internal/domain/officialflood/officialflood.go:170-187 | Every ring sent, outer or hole, is closed with at least four vertices and no equal neighbours |
| FloodOutput.RoundsTo | internal/domain/officialflood/officialflood.go:201-201 | A coordinate sent is the nearest hundred-thousandth of a degree, and of two equally near the one farther from zero |
| FloodOutput.RingSent | internal/domain/officialflood/officialflood.go:205-238 | A ring sent is its start followed by exactly those kept vertices that do not round to the same point as the one kept before, in order, rounded |
| FloodOutput.SurvivesIff | internal/domain/officialflood/officialflood.go:205-238 | A ring survives iff it has four vertices and at least three such vertices are left of it |
| FloodOutput.PolygonsSent | internal/domain/officialflood/officialflood.go:168-187 | A polygon is sent iff its outer ring survives, with exactly the holes that survive; polygons and holes keep their order |
| FloodOutput.AllVerticesCount | internal/domain/officialflood/officialflood.go:178-192 | What is counted against the limit is every vertex of every ring sent, holes included |
| FloodOutput.AcceptedIff | internal/domain/officialflood/officialflood.go:94-109 | A ring is accepted iff its points are on the globe and it has four positions once closed |
| SingleFlight.SingleFlightHolds | internal/application/officialflood/service.go:65-136 | In every interleaving of callers, refreshes and clock: at most one refresh runs; provider calls are at least the back-off after every earlier failure and the TTL after every earlier copy; a reply is stale iff its copy's age has reached the TTL, is under 24 h old, and is refused only when the copy in hand is not |
| SingleFlight.StepKeeps | internal/application/officialflood/service.go:65-127 | Each step keeps the invariant behind it |
| SingleFlight.CallsAreRare | internal/application/officialflood/service.go:19-28 | In every run n provider calls take at least n - 1 times the shorter of back-off and TTL |
| SingleFlight.CopiesOnlyGetNewer | internal/application/officialflood/service.go:111-127 | A cached copy is replaced only by one at least a TTL newer |
| SingleFlight.FetchedAtNeverDecreases | internal/application/officialflood/service.go:111-127 | Over whole runs the copy is never lost and its date never decreases |
| SingleFlight.FallsBackOnlyAfterFailure | internal/application/officialflood/service.go:78-94 | Without a fresh copy a caller is turned away iff no refresh runs and a failure is less than the back-off old; otherwise a refresh is in flight afterwards |
| SingleFlight.LongTtlServesOldCopies | internal/infrastructure/config/config.go:358-376 | The age bound needs the configured ceiling on the TTL: above 24 h some run serves an older copy as fresh |
| ServedCopies.CacheHoldsTheLatest | internal/application/officialflood/service.go:111-127 | In every run the cached copy is, data and date, what the latest successful provider call returned, there is none while none has succeeded, and a failure is remembered exactly until the next success |
| ServedCopies.ServedIsReturned | internal/application/officialflood/service.go:65-136 | In every run each copy handed to a caller, data and date, is one a finished provider call returned |
| ServedCopies.DayAndMinute | internal/application/officialflood/service.go:19-28 | In every run no copy a day old is handed out and a minute passes between a failed call and the next |
| SingleFlight.FloodAreaService.Check | internal/application/officialflood/service.go:70-100 | The locked part of Get decides and changes its period's entry as the transition system does, and no other period's |
| SingleFlight.FloodAreaService.Refresh | internal/application/officialflood/service.go:111-127 | The end of a refresh changes that period's entry, and no other, as the system does whose cached copy is proved to be the latest one returned |
| SingleFlight.CameraService.Check | internal/application/cctv/service.go:138-162 | The one-entry service refines the same step |
| SingleFlight.CameraService.Refresh | internal/application/cctv/service.go:173-189 | The one-entry service refines the same end of a refresh |
| SosRaces.EveryRunIsSafe | internal/adapters/outbound/postgres/sos_repository.go:132-209 | In every interleaving of reads, compare-and-sets and split accepts: no helper holds more than three open requests; active requests have a helper who is not the requester and waiting ones none; one open request per device; timelines replay |
| SosRaces.CompletedRequestsWalkEveryStep | internal/domain/sos/sos.go:116-143 | In every interleaving a completed request was waiting and then, by a helper, accepted, travelled to and arrived at, with nothing in between |
| SosRaces.CommitIsAllowedNow | internal/application/sos/service.go:141-172 | However stale the read, a change that is applied is one the table allows for the status and the caller's role at that moment |
| SosRaces.SplitAcceptIsAtomic | internal/adapters/outbound/postgres/sos_repository.go:172-209 | Committing an Accept split into lock, count, claim and commit leaves what the atomic Accept would at that moment; the helper it checked on locking is still active |
| SosRaces.WithoutLockCapFails | internal/adapters/outbound/postgres/sos_repository.go:169-195 | Without the helper's row lock, from every board where a helper has one place left and two requests wait, two overlapping accepts exceed the cap |
| SosRaces.StepKeeps | internal/adapters/outbound/postgres/sos_repository.go:132-209 | Each step keeps the invariant, including what every pending call still knows |
| Sos.TransitionedOk | internal/adapters/outbound/postgres/sos_repository.go:134-167 | A transition of the table keeps every board invariant |
| Sos.CreatedOk | internal/adapters/outbound/postgres/sos_repository.go:47-70 | An insert the unique indexes let through keeps one open request per device and one request per client id |
| Sos.ClaimAddsOne | internal/adapters/outbound/postgres/sos_repository.go:196-201 | A claim adds exactly that request to exactly that helper's assignments |
| Sos.TransitionAddsNone | internal/domain/sos/sos.go:120-138 | No transition adds to anybody's assignments |
| Sos.SosRepository.Create | internal/adapters/outbound/postgres/sos_repository.go:47-70 | Refuses exactly on a known id, a clash with an open request or a repeated client id; otherwise inserts the waiting request and its event |
| Sos.SosRepository.Transition | internal/adapters/outbound/postgres/sos_repository.go:134-167 | Applies the change and its event iff status, and assignment for helpers, still match |
| Sos.SosRepository.Accept | internal/adapters/outbound/postgres/sos_repository.go:172-209 | Answers and leaves the rows as the acceptance that SosOutcomes.AcceptsIff characterises and that keeps the cap |
| SosOutcomes.AcceptsIff | internal/adapters/outbound/postgres/sos_repository.go:172-209 | A helper gets a request iff its helper mode is on, it holds fewer matched, travelling or arrived ones than allowed, and the request waits and is another device's; the two refusals are answered exactly in their own cases; nothing else changes |
| SosOutcomes.AcceptKeepsCap | internal/adapters/outbound/postgres/sos_repository.go:169-195 | No call of Accept takes any helper above the cap |
| SosOutcomes.AloneIsAtomic | internal/adapters/outbound/postgres/sos_repository.go:172-209 | Lock, count, claim and commit run alone leave exactly the board the atomic Accept leaves, refusals included, and no call behind |
| SosOutcomes.OpensIff | internal/adapters/outbound/postgres/sos_repository.go:47-70 | A request is opened iff its id is new, its device has no open one and has not used its client id; nothing else changes |
| SosOutcomes.MovesIff | internal/application/sos/service.go:141-172 | Read and committed at once, a change goes through iff it is the requester cancelling an open request or confirming an arrival, or its helper taking the next step or withdrawing before arriving; only a withdrawal frees the request, only closing dates it |
| Reports.ResolvedExactlyByRule | internal/adapters/outbound/postgres/report_repository.go:462-538 | After any mix of votes, complaints and decisions: resolved iff cleared votes reach the threshold and outnumber still-active ones; the two counts sum to the distinct voters; resolved_at is the time of the last resolved entry of an alternating log |
| Reports.ReopenedBetween | internal/domain/report/lifecycle.go:116-126 | Between two resolved entries there is a reopened one |
| Reports.ConfirmedOk | internal/adapters/outbound/postgres/report_repository.go:462-538 | One vote keeps all report invariants |
| Reports.AgesByThePolicy | internal/domain/report/lifecycle.go:37-48 | While nobody confirms, an unresolved report is active, possibly stale or expired by the policy's distances for its category from its last verifying entry |
| Reports.LatestUpdateWins | internal/adapters/outbound/postgres/report_repository.go:540-574 | Over every run each part of the condition is what the latest applied update that sent it said, parts never sent stay as reported, and the exact water level is gone after any new depth |
| Reports.AutoHideNeedsFreshDevices | internal/adapters/outbound/postgres/moderation_repository.go:52-97 | Over every run, auto-hides times the threshold is at most the number of devices that ever complained; a visible report has fewer pending complaints than the threshold; hidden_at is what the log says |
| Reports.EveryComplainantIsKept | internal/adapters/outbound/postgres/moderation_repository.go:69-73 | The complaint table holds exactly the devices that ever complained |
| Reports.UnhiddenBetween | internal/adapters/outbound/postgres/moderation_repository.go:36-47 | Between two hidden entries there is an unhidden one |
| Reports.RepeatComplaintIsIgnored | internal/adapters/outbound/postgres/moderation_repository.go:69-73 | A device's second complaint changes nothing |
| Reports.DecisionSettles | internal/adapters/outbound/postgres/moderation_repository.go:197-224 | A decision shows or hides the report as asked, as an administrator's and as of now when that is a change, leaves nothing pending, resolves or dismisses as of now what was pending and keeps earlier outcomes |
| Reports.ReportTables.Confirm | internal/adapters/outbound/postgres/report_repository.go:462-574 | Vote, freshness, condition, resolution and both events, as one change of that report |
| Reports.ReportTables.AddComplaint | internal/adapters/outbound/postgres/moderation_repository.go:52-97 | Stores a first complaint, returns the stored one and hides the report iff the rule says so |
| Reports.ReportTables.Apply | internal/adapters/outbound/postgres/moderation_repository.go:197-224 | Flips visibility only when it differs and closes the pending complaints |
| Reports.ReportTables.SetHidden | internal/adapters/outbound/postgres/moderation_repository.go:36-47 | Flips visibility and records it |
| ReportOutcomes.ComplaintHidesIff | internal/adapters/outbound/postgres/moderation_repository.go:52-97 | A complaint hides a report, by the threshold and as of now, iff the report was visible and as many complaints as the threshold are then pending; nothing but the complaint and that moves |
| ReportOutcomes.LatestVoteWins | internal/adapters/outbound/postgres/report_repository.go:462-538 | Over every run a device's vote is the one it cast last |
| ReportOutcomes.LatestConfirmationVerifies | internal/adapters/outbound/postgres/report_repository.go:462-538 | Over every run a report was last verified by the latest still-active vote, or by its author: nothing else makes it look fresher |
| RateLimiter.Limiter.Allow | internal/adapters/inbound/http/auth_handler.go:107-128 | Answers and changes the table as the limiter the lemmas are about |
| RateLimiter.Limiter.Sweep | internal/adapters/inbound/http/auth_handler.go:110-117 | Deletes exactly the windows that are over |
| RateLimiter.SweepIsUnobservable | internal/adapters/inbound/http/auth_handler.go:107-128 | With a clock that never steps back, the sweeping limiter gives the answers of one that never sweeps |
| RateLimiter.UnobservableIff | internal/adapters/inbound/http/auth_handler.go:107-145 | How wrong the clock may be, exactly: the sweep is unobservable in all runs that step back by at most a given skew iff the skew is zero |
| RateLimiter.BackwardClockShows | internal/adapters/inbound/http/auth_handler.go:107-128 | For every limit and every window some run with a clock that steps back shows the sweep |
| RateLimiter.WindowsAreApart | internal/adapters/inbound/http/auth_handler.go:118-122 | Windows of a key start at least one window apart |
| RateLimiter.BurstsAreBounded | internal/adapters/inbound/http/auth_handler.go:107-128 | Any interval one window long admits at most 2 * limit - 1 calls of a key, a limit below one counting as one |
| RateLimiter.BoundIsAttained | internal/adapters/inbound/http/auth_handler.go:107-128 | For every limit of at least one that bound is reached |
| RateLimiter.RefusedOnlyWhenFull | internal/adapters/inbound/http/auth_handler.go:118-127 | A call is refused only when as many calls of its own key as the limit (at least one) were admitted less than a window ago; other keys and refused calls never count |
| RateLimiter.LimitKeptIff | internal/adapters/inbound/http/auth_handler.go:118-127 | Every window of every run with a monotone clock admits at most the limit iff the limit is at least one |
| RateLimiter.ZeroLimitStillAdmits | internal/adapters/inbound/http/auth_handler.go:118-122 | A key's first call is admitted whatever the limit, zero included |
| Corridor.CorridorBoxes | internal/domain/route/route.go:396-425 | The loops return the padded boxes of overlapping chunks, never more than the budget and none for an empty path or budget |
| Corridor.EverySegmentIsCovered | internal/domain/route/route.go:396-425 | For each pair of in-range neighbours one single box contains the whole segment and every in-range point within that box's degree padding of it |
| Corridor.PaddingIsMetric | internal/domain/route/route.go:417-422 | Every side of a box is that of its chunk moved out by the padding at 111320 metres a degree of latitude and that times the cosine of the southern side, at least a hundredth, a degree of longitude, or stops at the pole or antimeridian before that |
| Corridor.BoundingIsTight | internal/domain/route/route.go:410-416 | Before padding, each side of a box passes through a point of its chunk |
| Corridor.FewChunks | internal/domain/route/route.go:400-403 | Chunks of the chosen size never exceed the budget |
| Corridor.ChunksAreShort | internal/domain/route/route.go:400-412 | Chunks are as short as the budget allows, and each box is of that many consecutive points and the next one |

## Left out

- Webhooks.CreditedExactlyOnce: assumes, as the payment provider guarantees, that every event of a top-up carries the intent created for it; so do the other statements about runs of top-up messages.
- FloodAreas.NewArea: works on values, so it does not show that rings are closed inside the caller's own slice, also when a later ring is rejected; reals have no NaN or infinities to reject.
- FloodAreas.RefsAreStable: speaks of views whose minimum does not exceed their maximum, which is all that the query parser lets through (internal/adapters/inbound/http/report_handler.go:236-242).
- FloodAreas.Clip: works on values, so that the cached snapshot is unchanged holds by construction and is not a statement about shared memory.
- FloodRings.SimplifyTwice: is about the kept vertices before rounding; after rounding a second pass can drop more.
- Corridor.EverySegmentIsCovered: claims coverage in degrees; the padding in metres is Corridor.PaddingIsMetric, with an arbitrary function for the cosine, and distance over the globe is not modelled.
- SingleFlight.SingleFlightHolds: Get's retry loop is a caller that checks again, so fairness and the 60 s provider time-out are not modelled; a refresh ends in success or failure at any later time.
- Reports.LatestUpdateWins: which condition fields apply to which report category is not modelled; an update is what is left after that filter.
- Floating-point error: coordinates and tolerances are exact reals.
- Integer widths: credits, counts and times are unbounded integers.
- Text fields: notes, descriptions, phone numbers and the note strings of events, and the validation of these and of prices, times and distances.
- Views, redaction, browse and list queries, dismissals, issue reports, provider profile fields and verification badges are not modelled; none of them is read by an operation that is.
- The hourly complaint limit per device, the cap on a customer's open requests, reactions, follows, announcements, donations, image clean-up and sessions are not modelled.
- Helper capability and distance checks before Accept: the repository's own recheck is what safety rests on.
- `DistanceToPathM`, `Evaluate` and the haversine distance: trigonometry.
- HTTP handlers, configuration loading other than the TTL bound, payment, map and provider clients: input and output; a webhook is an already verified event and a provider call a success or a failure.
- Postgres deadlocks and isolation anomalies other than those the explicit row locks and the split reads show.
