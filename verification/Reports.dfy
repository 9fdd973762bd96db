/** Community reports: confirmation votes that resolve and reopen a report, complaints that hide it. */
module Reports {
  import opened Common

  type Device = string
  type Rid = nat

  datatype Vote = StillActive | Cleared

  datatype EventKind = WasCreated | WasConfirmed | WasUpdated | WasResolved | WasReopened | WasHidden | WasUnhidden

  datatype Event = Event(kind: EventKind, device: Option<Device>, at: Time)

  datatype ComplaintStatus = Pending | Resolved | Dismissed

  datatype Complaint = Complaint(status: ComplaintStatus, createdAt: Time, resolvedAt: Option<Time>)

  datatype Freshness = Freshness(staleAt: Time, expiresAt: Time)

  datatype HiddenReason = AutoThreshold | Admin

  /** The columns of a report's condition; details are keyed one by one. */
  datatype Field =
    | Severity | WaterDepth | WaterLevelCm
    | PassWalk | PassMotorcycle | PassSedan | PassSuvPickup
    | ImageKey | Detail(name: string)

  type Condition = map<Field, string>

  /** A condition update has no exact water level: only older clients sent one. */
  type Update = u: Condition | WaterLevelCm !in u witness map[]

  datatype Report = Report(
    longLived: bool,
    condition: Condition,
    lastVerifiedAt: Time,
    window: Freshness,
    resolvedAt: Option<Time>,
    votes: map<Device, Vote>,
    hiddenAt: Option<Time>,
    hiddenReason: Option<HiddenReason>,
    complaints: map<Device, Complaint>,
    events: seq<Event>)

  datatype Policy = Policy(
    staleAfter: Time, ttl: Time,
    facilityStaleAfter: Time, facilityTtl: Time,
    resolveThreshold: int,
    autoHideThreshold: int)
  {
    predicate Valid() {
      && 0 < staleAfter <= ttl && 0 < facilityStaleAfter <= facilityTtl
      && resolveThreshold >= 1 && autoHideThreshold >= 2
    }

    function Window(longLived: bool, verifiedAt: Time): Freshness {
      if longLived then Freshness(verifiedAt + facilityStaleAfter, verifiedAt + facilityTtl)
      else Freshness(verifiedAt + staleAfter, verifiedAt + ttl)
    }

    predicate Resolves(stillActive: int, cleared: int) {
      cleared >= resolveThreshold && cleared > stillActive
    }

    function NextResolvedAt(current: Option<Time>, stillActive: int, cleared: int, now: Time): Option<Time> {
      if !Resolves(stillActive, cleared) then None
      else if current.Some? then current
      else Some(now)
    }

    predicate ShouldAutoHide(pending: int) {
      pending >= autoHideThreshold
    }
  }

  datatype Status = Active | PossiblyStale | IsResolved | Expired

  /** The lifecycle state is derived, never stored. */
  function StatusAt(r: Report, now: Time): Status {
    if r.resolvedAt.Some? then IsResolved
    else if now >= r.window.expiresAt then Expired
    else if now >= r.window.staleAt then PossiblyStale
    else Active
  }

  // ---- the operations ----

  function NewReport(policy: Policy, longLived: bool, condition: Condition, now: Time): Report {
    Report(longLived, condition, now, policy.Window(longLived, now), None, map[], None, None, map[],
      [Event(WasCreated, None, now)])
  }

  function Voters(votes: map<Device, Vote>, v: Vote): set<Device> {
    set d | d in votes && votes[d] == v
  }

  function ResolutionEvent(before: Option<Time>, after: Option<Time>): Option<EventKind> {
    if before == None && after.Some? then Some(WasResolved)
    else if before.Some? && after == None then Some(WasReopened)
    else None
  }

  function Logged(r: Report, kind: EventKind, device: Option<Device>, now: Time): Report {
    r.(events := r.events + [Event(kind, device, now)])
  }

  /** The service's part: a still-active vote restarts the report's freshness window. */
  function Restart(policy: Policy, longLived: bool, vote: Vote, now: Time): Option<Freshness> {
    if vote == StillActive then Some(policy.Window(longLived, now)) else None
  }

  /** Sent fields replace, the others stay, and a new depth drops the exact level it would contradict. */
  function Merged(c: Condition, u: Update): Condition {
    (if WaterDepth in u then c - {WaterLevelCm} else c) + u
  }

  /** A device's vote replaces its earlier one; with a refresh the report is verified anew and may get a
      new condition. */
  function Voted(r: Report, device: Device, vote: Vote, refresh: Option<Freshness>, update: Option<Update>,
                 now: Time): Report {
    var r := r.(votes := r.votes[device := vote]);
    match refresh
    case None => r
    case Some(window) =>
      var condition := if update.Some? then Merged(r.condition, update.value) else r.condition;
      var kind := if update.Some? then WasUpdated else WasConfirmed;
      Logged(r.(lastVerifiedAt := now, window := window, condition := condition), kind, Some(device), now)
  }

  function Settled(policy: Policy, r: Report, device: Device, now: Time): Report {
    var next := policy.NextResolvedAt(r.resolvedAt, |Voters(r.votes, StillActive)|, |Voters(r.votes, Cleared)|, now);
    var r' := r.(resolvedAt := next);
    match ResolutionEvent(r.resolvedAt, next)
    case None => r'
    case Some(kind) => Logged(r', kind, Some(device), now)
  }

  function Confirmed(policy: Policy, r: Report, device: Device, vote: Vote, refresh: Option<Freshness>,
                     update: Option<Update>,
                     now: Time): Report {
    Settled(policy, Voted(r, device, vote, refresh, update, now), device, now)
  }

  function PendingOn(complaints: map<Device, Complaint>): set<Device> {
    set d | d in complaints && complaints[d].status == Pending
  }

  function Hidden(r: Report, conceal: bool, reason: HiddenReason, now: Time): Report {
    if conceal then Logged(r.(hiddenAt := Some(now), hiddenReason := Some(reason)), WasHidden, None, now)
    else Logged(r.(hiddenAt := None, hiddenReason := None), WasUnhidden, None, now)
  }

  /** A device's repeat is ignored, even when its first complaint has been dealt with. */
  function Complained(r: Report, device: Device, createdAt: Time): Report {
    if device in r.complaints then r
    else r.(complaints := r.complaints[device := Complaint(Pending, createdAt, None)])
  }

  predicate AutoHides(policy: Policy, r: Report) {
    r.hiddenAt == None && policy.ShouldAutoHide(|PendingOn(r.complaints)|)
  }

  function ComplaintAdded(policy: Policy, r: Report, device: Device, createdAt: Time, now: Time): Report {
    var r := Complained(r, device, createdAt);
    if AutoHides(policy, r) then Hidden(r, true, AutoThreshold, now) else r
  }

  datatype Action = Dismiss | Hide | Unhide {
    function Outcome(): (bool, ComplaintStatus) {
      match this
      case Hide => (true, Resolved)
      case Unhide => (false, Resolved)
      case Dismiss => (false, Dismissed)
    }
  }

  function Closed(complaints: map<Device, Complaint>, status: ComplaintStatus, now: Time): map<Device, Complaint> {
    map d | d in complaints ::
      if complaints[d].status != Pending then complaints[d]
      else complaints[d].(status := status, resolvedAt := Some(now))
  }

  function Applied(r: Report, action: Action, now: Time): Report {
    var (conceal, status) := action.Outcome();
    var r' := if conceal != r.hiddenAt.Some? then Hidden(r, conceal, Admin, now) else r;
    r'.(complaints := Closed(r.complaints, status, now))
  }

  // ---- the timelines ----

  /** Replaying the log gives when the report was last resolved, if it still is. */
  function ResolvedPer(events: seq<Event>): Option<Time> {
    if events == [] then None
    else
      var last := events[|events| - 1];
      match last.kind
      case WasResolved => Some(last.at)
      case WasReopened => None
      case _ => ResolvedPer(events[..|events| - 1])
  }

  function HiddenPer(events: seq<Event>): Option<Time> {
    if events == [] then None
    else
      var last := events[|events| - 1];
      match last.kind
      case WasHidden => Some(last.at)
      case WasUnhidden => None
      case _ => HiddenPer(events[..|events| - 1])
  }

  /** Resolved and reopened alternate, starting with resolved; so do hidden and unhidden. */
  ghost predicate Alternates(events: seq<Event>) {
    forall i :: 0 <= i < |events| ==>
      && (events[i].kind.WasResolved? ==> ResolvedPer(events[..i]) == None)
      && (events[i].kind.WasReopened? ==> ResolvedPer(events[..i]).Some?)
      && (events[i].kind.WasHidden? ==> HiddenPer(events[..i]) == None)
      && (events[i].kind.WasUnhidden? ==> HiddenPer(events[..i]).Some?)
  }

  predicate Verifies(kind: EventKind) {
    kind.WasCreated? || kind.WasConfirmed? || kind.WasUpdated?
  }

  function VerifiedPer(events: seq<Event>): Option<Time> {
    if events == [] then None
    else
      var last := events[|events| - 1];
      if Verifies(last.kind) then Some(last.at) else VerifiedPer(events[..|events| - 1])
  }

  lemma LogGrows(events: seq<Event>, e: Event)
    requires Alternates(events)
    requires e.kind.WasResolved? ==> ResolvedPer(events) == None
    requires e.kind.WasReopened? ==> ResolvedPer(events).Some?
    requires e.kind.WasHidden? ==> HiddenPer(events) == None
    requires e.kind.WasUnhidden? ==> HiddenPer(events).Some?
    ensures Alternates(events + [e])
  {
    var longer := events + [e];
    assert longer[..|events|] == events;
    assert forall i :: 0 <= i < |events| ==> longer[..i] == events[..i];
  }

  /** Between two resolved entries there is a reopened one. */
  lemma {:induction false} ReopenedBetween(events: seq<Event>, i: nat, k: nat)
    requires Alternates(events) && i < k < |events|
    requires events[i].kind.WasResolved? && events[k].kind.WasResolved?
    ensures exists j :: i < j < k && events[j].kind.WasReopened?
  {
    StillResolved(events, i, k);
  }

  lemma {:induction false} StillResolved(events: seq<Event>, i: nat, k: nat)
    requires i < k <= |events| && events[i].kind.WasResolved?
    ensures ResolvedPer(events[..k]).Some? || exists j :: i < j < k && events[j].kind.WasReopened?
    decreases k
  {
    assert events[..k][..k - 1] == events[..k - 1];
    if k - 1 > i {
      StillResolved(events, i, k - 1);
      assert events[k - 1].kind.WasReopened? || ResolvedPer(events[..k]).Some? || !ResolvedPer(events[..k - 1]).Some?;
    }
  }

  /** Between two hidden entries there is an unhidden one. */
  lemma {:induction false} UnhiddenBetween(events: seq<Event>, i: nat, k: nat)
    requires Alternates(events) && i < k < |events|
    requires events[i].kind.WasHidden? && events[k].kind.WasHidden?
    ensures exists j :: i < j < k && events[j].kind.WasUnhidden?
  {
    StillHidden(events, i, k);
  }

  lemma {:induction false} StillHidden(events: seq<Event>, i: nat, k: nat)
    requires i < k <= |events| && events[i].kind.WasHidden?
    ensures HiddenPer(events[..k]).Some? || exists j :: i < j < k && events[j].kind.WasUnhidden?
    decreases k
  {
    assert events[..k][..k - 1] == events[..k - 1];
    if k - 1 > i {
      StillHidden(events, i, k - 1);
      assert events[k - 1].kind.WasUnhidden? || HiddenPer(events[..k]).Some? || !HiddenPer(events[..k - 1]).Some?;
    }
  }

  // ---- what every run keeps ----

  ghost predicate TimelineOk(r: Report) {
    && Alternates(r.events)
    && r.resolvedAt == ResolvedPer(r.events)
    && r.hiddenAt == HiddenPer(r.events)
    && Some(r.lastVerifiedAt) == VerifiedPer(r.events)
  }

  /** Resolved exactly while cleared votes reach the threshold and outnumber the still-active ones. */
  ghost predicate ResolutionOk(policy: Policy, r: Report) {
    r.resolvedAt.Some? <==> policy.Resolves(|Voters(r.votes, StillActive)|, |Voters(r.votes, Cleared)|)
  }

  ghost predicate WindowOk(policy: Policy, r: Report) {
    r.window == policy.Window(r.longLived, r.lastVerifiedAt)
  }

  /** Complaints an operator has already dealt with can never hide the report again. */
  ghost predicate HidesOk(policy: Policy, r: Report, autoHides: nat) {
    var pending, all := |PendingOn(r.complaints)|, |r.complaints|;
    if r.hiddenAt == None
    then pending < policy.autoHideThreshold && autoHides * policy.autoHideThreshold <= all - pending
    else autoHides * policy.autoHideThreshold <= all
  }

  ghost predicate Inv(policy: Policy, r: Report, autoHides: nat) {
    TimelineOk(r) && ResolutionOk(policy, r) && WindowOk(policy, r) && HidesOk(policy, r, autoHides)
  }

  /** What one more entry says. */
  lemma LoggedPer(events: seq<Event>, e: Event)
    ensures ResolvedPer(events + [e]) ==
            if e.kind.WasResolved? then Some(e.at) else if e.kind.WasReopened? then None else ResolvedPer(events)
    ensures HiddenPer(events + [e]) ==
            if e.kind.WasHidden? then Some(e.at) else if e.kind.WasUnhidden? then None else HiddenPer(events)
    ensures VerifiedPer(events + [e]) == if Verifies(e.kind) then Some(e.at) else VerifiedPer(events)
  {
    assert (events + [e])[..|events|] == events;
  }

  lemma NewReportOk(policy: Policy, longLived: bool, condition: Condition, now: Time)
    requires policy.Valid()
    ensures Inv(policy, NewReport(policy, longLived, condition, now), 0)
  {
  }

  lemma VotedTimelineOk(r: Report, device: Device, vote: Vote, refresh: Option<Freshness>, update: Option<Update>,
                        now: Time)
    requires TimelineOk(r)
    ensures TimelineOk(Voted(r, device, vote, refresh, update, now))
  {
    hide Alternates, ResolvedPer, HiddenPer, VerifiedPer, Merged;
    if refresh.Some? {
      var kind := if update.Some? then WasUpdated else WasConfirmed;
      LogGrows(r.events, Event(kind, Some(device), now));
      LoggedPer(r.events, Event(kind, Some(device), now));
    }
  }

  lemma SettledTimelineOk(policy: Policy, r: Report, device: Device, now: Time)
    requires TimelineOk(r)
    ensures TimelineOk(Settled(policy, r, device, now))
  {
    hide Voters, Alternates, ResolvedPer, HiddenPer, VerifiedPer;
    var ev := ResolutionEvent(r.resolvedAt, Settled(policy, r, device, now).resolvedAt);
    if ev.Some? {
      LogGrows(r.events, Event(ev.value, Some(device), now));
      LoggedPer(r.events, Event(ev.value, Some(device), now));
    }
  }

  lemma ConfirmedOk(policy: Policy, r: Report, device: Device, vote: Vote, update: Option<Update>, now: Time,
                    autoHides: nat)
    requires Inv(policy, r, autoHides)
    ensures Inv(policy, Confirmed(policy, r, device, vote, Restart(policy, r.longLived, vote, now), update, now),
            autoHides)
  {
    hide TimelineOk;
    var refresh := Restart(policy, r.longLived, vote, now);
    VotedTimelineOk(r, device, vote, refresh, update, now);
    SettledTimelineOk(policy, Voted(r, device, vote, refresh, update, now), device, now);
  }

  lemma HiddenTimelineOk(r: Report, conceal: bool, reason: HiddenReason, now: Time)
    requires TimelineOk(r) && conceal == r.hiddenAt.None?
    ensures TimelineOk(Hidden(r, conceal, reason, now))
  {
    var kind := if conceal then WasHidden else WasUnhidden;
    LogGrows(r.events, Event(kind, None, now));
    LoggedPer(r.events, Event(kind, None, now));
  }

  lemma PendingIsPart(complaints: map<Device, Complaint>)
    ensures |PendingOn(complaints)| <= |complaints|
  {
    assert complaints.Keys == PendingOn(complaints) + (complaints.Keys - PendingOn(complaints));
  }

  lemma NewComplaintCounts(complaints: map<Device, Complaint>, device: Device, c: Complaint)
    requires device !in complaints && c.status == Pending
    ensures |PendingOn(complaints[device := c])| == |PendingOn(complaints)| + 1
    ensures |complaints[device := c]| == |complaints| + 1
  {
    var after := complaints[device := c];
    assert PendingOn(after) == PendingOn(complaints) + {device};
    assert after.Keys == complaints.Keys + {device};
    hide PendingOn;
    assert |after| == |after.Keys| && |complaints| == |complaints.Keys|;
  }

  lemma ComplaintAddedOk(policy: Policy, r: Report, device: Device, createdAt: Time, now: Time, autoHides: nat)
    requires policy.Valid() && Inv(policy, r, autoHides)
    ensures var hides := AutoHides(policy, Complained(r, device, createdAt));
            Inv(policy, ComplaintAdded(policy, r, device, createdAt, now), if hides then autoHides + 1 else autoHides)
  {
    var c := Complained(r, device, createdAt);
    if device !in r.complaints {
      NewComplaintCounts(r.complaints, device, Complaint(Pending, createdAt, None));
    }
    assert TimelineOk(c);
    if AutoHides(policy, c) {
      HiddenTimelineOk(c, true, AutoThreshold, now);
      assert |PendingOn(c.complaints)| == policy.autoHideThreshold;
      assert (autoHides + 1) * policy.autoHideThreshold ==
        autoHides * policy.autoHideThreshold + policy.autoHideThreshold;
    }
  }

  lemma NothingLeftPending(complaints: map<Device, Complaint>, status: ComplaintStatus, now: Time)
    requires status != Pending
    ensures PendingOn(Closed(complaints, status, now)) == {} && |Closed(complaints, status, now)| == |complaints|
  {
    assert Closed(complaints, status, now).Keys == complaints.Keys;
    assert |Closed(complaints, status, now).Keys| == |complaints.Keys|;
  }

  lemma AppliedTimelineOk(r: Report, action: Action, now: Time)
    requires TimelineOk(r)
    ensures TimelineOk(Applied(r, action, now))
  {
    var (conceal, _) := action.Outcome();
    if conceal != r.hiddenAt.Some? {
      HiddenTimelineOk(r, conceal, Admin, now);
    }
    hide Closed, Alternates, ResolvedPer, HiddenPer, VerifiedPer;
  }

  lemma AppliedHidesOk(policy: Policy, r: Report, action: Action, now: Time, autoHides: nat)
    requires policy.Valid() && HidesOk(policy, r, autoHides)
    ensures HidesOk(policy, Applied(r, action, now), autoHides)
  {
    NothingLeftPending(r.complaints, action.Outcome().1, now);
    PendingIsPart(r.complaints);
    hide Closed, PendingOn;
  }

  lemma AppliedOk(policy: Policy, r: Report, action: Action, now: Time, autoHides: nat)
    requires policy.Valid() && Inv(policy, r, autoHides)
    ensures Inv(policy, Applied(r, action, now), autoHides)
  {
    hide TimelineOk, HidesOk, Closed, Voters;
    AppliedTimelineOk(r, action, now);
    AppliedHidesOk(policy, r, action, now, autoHides);
  }

  /** A decision shows or hides the report as asked and leaves nothing pending: complaints are resolved,
      or dismissed when found baseless, and those already dealt with keep their outcome. */
  lemma DecisionSettles(r: Report, action: Action, now: Time)
    ensures var after := Applied(r, action, now);
            && (after.hiddenAt.Some? <==> action == Hide)
            && (r.hiddenAt.Some? && action == Hide ==>
                  after.hiddenAt == r.hiddenAt && after.hiddenReason == r.hiddenReason)
            && (r.hiddenAt == None && action == Hide ==>
                  after.hiddenAt == Some(now) && after.hiddenReason == Some(Admin))
            && (r.hiddenAt.Some? && action != Hide ==> after.hiddenReason == None)
            && PendingOn(after.complaints) == {}
            && (forall d :: d in r.complaints <==> d in after.complaints)
            && (forall d :: d in r.complaints && r.complaints[d].status != Pending ==>
                 after.complaints[d] == r.complaints[d])
            && (forall d :: d in PendingOn(r.complaints) ==>
                  after.complaints[d] == Complaint(if action == Dismiss then Dismissed else Resolved,
                                                   r.complaints[d].createdAt, Some(now)))
  {
  }

  // ---- runs ----

  /** Each operation holds the report's row lock; `now` was read earlier and need not increase. */
  datatype Op =
    | Confirm(device: Device, vote: Vote, update: Option<Update>, now: Time)
    | Complain(device: Device, createdAt: Time, now: Time)
    | Decide(action: Action, now: Time)

  datatype History = History(report: Report, autoHides: nat)

  function Step(policy: Policy, h: History, op: Op): History {
    match op
    case Confirm(device, vote, update, now) =>
      var refresh := Restart(policy, h.report.longLived, vote, now);
      h.(report := Confirmed(policy, h.report, device, vote, refresh, update, now))
    case Complain(device, createdAt, now) =>
      History(ComplaintAdded(policy, h.report, device, createdAt, now),
              if AutoHides(policy, Complained(h.report, device, createdAt)) then h.autoHides + 1 else h.autoHides)
    case Decide(action, now) => h.(report := Applied(h.report, action, now))
  }

  function Run(policy: Policy, h: History, ops: seq<Op>): History {
    if ops == [] then h else Step(policy, Run(policy, h, ops[..|ops| - 1]), ops[|ops| - 1])
  }

  lemma StepOk(policy: Policy, h: History, op: Op)
    requires policy.Valid() && Inv(policy, h.report, h.autoHides)
    ensures var after := Step(policy, h, op); Inv(policy, after.report, after.autoHides)
  {
    hide Inv, Confirmed, ComplaintAdded, Applied;
    match op
    case Confirm(device, vote, update, now) => ConfirmedOk(policy, h.report, device, vote, update, now, h.autoHides);
    case Complain(device, createdAt, now) => ComplaintAddedOk(policy, h.report, device, createdAt, now, h.autoHides);
    case Decide(action, now) => AppliedOk(policy, h.report, action, now, h.autoHides);
  }

  lemma {:induction false} RunOk(policy: Policy, h: History, ops: seq<Op>)
    requires policy.Valid() && Inv(policy, h.report, h.autoHides)
    ensures var after := Run(policy, h, ops); Inv(policy, after.report, after.autoHides)
    decreases |ops|
  {
    hide Inv, Step;
    if ops != [] {
      RunOk(policy, h, ops[..|ops| - 1]);
      StepOk(policy, Run(policy, h, ops[..|ops| - 1]), ops[|ops| - 1]);
    }
  }

  ghost function Whole(policy: Policy, longLived: bool, condition: Condition, at: Time, ops: seq<Op>): History {
    Run(policy, History(NewReport(policy, longLived, condition, at), 0), ops)
  }

  /** After any votes, complaints and decisions: the report is resolved exactly by the rule, since the
      last resolved entry of an alternating log, and each distinct voter is counted once. */
  lemma ResolvedExactlyByRule(policy: Policy, longLived: bool, condition: Condition, at: Time, ops: seq<Op>)
    requires policy.Valid()
    ensures var r := Whole(policy, longLived, condition, at, ops).report;
            && r.resolvedAt == ResolvedPer(r.events) && Alternates(r.events)
            && var stillActive, cleared := |Voters(r.votes, StillActive)|, |Voters(r.votes, Cleared)|;
               && (r.resolvedAt.Some? <==> cleared >= policy.resolveThreshold && cleared > stillActive)
               && stillActive + cleared == |r.votes|
  {
    NewReportOk(policy, longLived, condition, at);
    RunOk(policy, History(NewReport(policy, longLived, condition, at), 0), ops);
    EachVoterOnce(Whole(policy, longLived, condition, at, ops).report.votes);
  }

  lemma EachVoterOnce(votes: map<Device, Vote>)
    ensures |Voters(votes, StillActive)| + |Voters(votes, Cleared)| == |votes|
  {
    assert votes.Keys == Voters(votes, StillActive) + Voters(votes, Cleared);
  }

  /** Each auto-hide needs a threshold of devices that never complained before it. */
  lemma AutoHideNeedsFreshDevices(policy: Policy, longLived: bool, condition: Condition, at: Time, ops: seq<Op>)
    requires policy.Valid()
    ensures var h := Whole(policy, longLived, condition, at, ops);
            && h.autoHides * policy.autoHideThreshold <= |h.report.complaints|
            && (h.report.hiddenAt == None ==> |PendingOn(h.report.complaints)| < policy.autoHideThreshold)
            && h.report.hiddenAt == HiddenPer(h.report.events)
  {
    NewReportOk(policy, longLived, condition, at);
    RunOk(policy, History(NewReport(policy, longLived, condition, at), 0), ops);
  }

  lemma StepComplainants(policy: Policy, h: History, op: Op)
    ensures Step(policy, h, op).report.complaints.Keys
         == h.report.complaints.Keys + (if op.Complain? then {op.device} else {})
  {
  }

  /** The devices that ever complained are the keys of the complaint table. */
  lemma {:induction false} EveryComplainantIsKept(policy: Policy, h: History, ops: seq<Op>, device: Device)
    ensures device in Run(policy, h, ops).report.complaints
         <==> device in h.report.complaints || exists i :: 0 <= i < |ops| && ops[i].Complain? && ops[i].device == device
    decreases |ops|
  {
    hide Step;
    if ops != [] {
      var init := ops[..|ops| - 1];
      EveryComplainantIsKept(policy, h, init, device);
      StepComplainants(policy, Run(policy, h, init), ops[|ops| - 1]);
      assert forall i :: 0 <= i < |init| ==> init[i] == ops[i];
    }
  }

  /** A device that complains twice changes nothing the second time. */
  lemma RepeatComplaintIsIgnored(policy: Policy, r: Report, device: Device, createdAt: Time, now: Time, autoHides: nat)
    requires Inv(policy, r, autoHides) && device in r.complaints
    ensures ComplaintAdded(policy, r, device, createdAt, now) == r
  {
  }

  /** While nobody confirms, an unresolved report only ages: active, then possibly stale, then expired,
      at the policy's distances from the last verifying entry of its log. */
  lemma AgesByThePolicy(policy: Policy, longLived: bool, condition: Condition, at: Time, ops: seq<Op>, now: Time)
    requires policy.Valid()
    ensures var r := Whole(policy, longLived, condition, at, ops).report;
            VerifiedPer(r.events).Some? &&
            (r.resolvedAt == None ==>
               var age := now - VerifiedPer(r.events).value;
               var stale, ttl := if r.longLived then policy.facilityStaleAfter else policy.staleAfter,
                                 if r.longLived then policy.facilityTtl else policy.ttl;
               && (StatusAt(r, now) == Active <==> age < stale)
               && (StatusAt(r, now) == PossiblyStale <==> stale <= age < ttl)
               && (StatusAt(r, now) == Expired <==> age >= ttl))
  {
    NewReportOk(policy, longLived, condition, at);
    RunOk(policy, History(NewReport(policy, longLived, condition, at), 0), ops);
  }

  /** The update an operation applies: only a still-active vote carries one through. */
  function Applies(op: Op): Option<Update> {
    if op.Confirm? && op.vote == StillActive then op.update else None
  }

  function PartOf(c: Condition, f: Field): Option<string> {
    if f in c then Some(c[f]) else None
  }

  /** What the operation sends for this part. */
  function Sent(op: Op, f: Field): Option<string> {
    if Applies(op).Some? then PartOf(Applies(op).value, f) else None
  }

  /** A new depth removes the exact level. */
  predicate Drops(op: Op, f: Field) {
    f == WaterLevelCm && Sent(op, WaterDepth).Some?
  }

  lemma ConfirmedPart(policy: Policy, r: Report, device: Device, vote: Vote, refresh: Option<Freshness>,
                      update: Option<Update>, now: Time)
    ensures Confirmed(policy, r, device, vote, refresh, update, now).condition
         == if refresh.Some? && update.Some? then Merged(r.condition, update.value) else r.condition
  {
    hide Voters, Merged;
  }

  lemma StepCondition(policy: Policy, h: History, op: Op, f: Field)
    ensures PartOf(Step(policy, h, op).report.condition, f)
         == if Sent(op, f).Some? then Sent(op, f) else if Drops(op, f) then None else PartOf(h.report.condition, f)
  {
    hide Confirmed, PendingOn, Closed, AutoHides;
    if op.Confirm? {
      var refresh := Restart(policy, h.report.longLived, op.vote, op.now);
      ConfirmedPart(policy, h.report, op.device, op.vote, refresh, op.update, op.now);
    }
  }

  /** Each part of the condition is what the latest update that sent it said, at i; parts never sent (i is
      -1) are as reported, but for an exact water level, which the first new depth removes for good. */
  lemma {:induction false} LatestUpdateWins(policy: Policy, h: History, ops: seq<Op>, f: Field, i: int)
    requires -1 <= i < |ops| && (i >= 0 ==> Sent(ops[i], f).Some?)
    requires forall j :: i < j < |ops| ==> Sent(ops[j], f) == None
    ensures PartOf(Run(policy, h, ops).report.condition, f)
         == if i >= 0 then Sent(ops[i], f)
            else if exists k :: 0 <= k < |ops| && Drops(ops[k], f) then None
            else PartOf(h.report.condition, f)
    decreases |ops|
  {
    hide Step, PartOf;
    if ops != [] {
      var init, last := ops[..|ops| - 1], ops[|ops| - 1];
      StepCondition(policy, Run(policy, h, init), last, f);
      if i < |init| {
        LatestUpdateWins(policy, h, init, f, i);
        LevelNeverSent(last, f);
        if i >= 0 {
          LevelNeverSent(ops[i], f);
        }
        assert forall k :: 0 <= k < |init| ==> init[k] == ops[k];
      }
    }
    hide Sent, Drops;
  }

  lemma LevelNeverSent(op: Op, f: Field)
    ensures f == WaterLevelCm ==> Sent(op, f) == None
    ensures Drops(op, f) ==> f == WaterLevelCm
  {
  }

  // ---- the repositories ----

  /** The report tables. Each method is one transaction under the report's row lock. */
  class ReportTables {
    var reports: map<Rid, Report>

    constructor ()
      ensures reports == map[]
    {
      reports := map[];
    }

    method InsertEvent(id: Rid, kind: EventKind, device: Option<Device>, now: Time)
      requires id in reports
      modifies this
      ensures reports == old(reports)[id := Logged(old(reports[id]), kind, device, now)]
    {
      reports := reports[id := reports[id].(events := reports[id].events + [Event(kind, device, now)])];
    }

    /** The first statements of Confirm: the vote, and what a refresh changes. */
    method RecordVote(id: Rid, device: Device, vote: Vote, refresh: Option<Freshness>, update: Option<Update>,
                      now: Time)
      requires id in reports
      modifies this
      ensures reports == old(reports)[id := Voted(old(reports[id]), device, vote, refresh, update, now)]
    {
      hide Merged;
      reports := reports[id := reports[id].(votes := reports[id].votes[device := vote])];
      if refresh.Some? {
        reports := reports[id := reports[id].(lastVerifiedAt := now, window := refresh.value)];
        if update.Some? {
          reports := reports[id := reports[id].(condition := Merged(reports[id].condition, update.value))];
        }
        InsertEvent(id, if update.Some? then WasUpdated else WasConfirmed, Some(device), now);
      }
    }

    /** Its last ones: the resolution the new counts call for. */
    method Resolve(id: Rid, device: Device, now: Time, policy: Policy)
      requires id in reports
      modifies this
      ensures reports == old(reports)[id := Settled(policy, old(reports[id]), device, now)]
    {
      hide Voters;
      var resolvedAt := reports[id].resolvedAt;
      var stillActive, cleared := |Voters(reports[id].votes, StillActive)|, |Voters(reports[id].votes, Cleared)|;
      var next := policy.NextResolvedAt(resolvedAt, stillActive, cleared, now);
      reports := reports[id := reports[id].(resolvedAt := next)];
      var ev := ResolutionEvent(resolvedAt, next);
      if ev.Some? {
        InsertEvent(id, ev.value, Some(device), now);
      }
    }

    method Confirm(id: Rid, device: Device, vote: Vote, refresh: Option<Freshness>, update: Option<Update>, now: Time,
                   policy: Policy)
      returns (r: Option<Report>)
      modifies this
      ensures id !in old(reports) ==> r == None && reports == old(reports)
      ensures id in old(reports) ==>
                && r == Some(Confirmed(policy, old(reports[id]), device, vote, refresh, update, now))
                && reports == old(reports)[id := r.value]
    {
      hide Voted, Settled;
      if id !in reports {
        return None;
      }
      RecordVote(id, device, vote, refresh, update, now);
      Resolve(id, device, now, policy);
      r := Some(reports[id]);
    }

    method SetHidden(id: Rid, conceal: bool, reason: HiddenReason, now: Time)
      requires id in reports
      modifies this
      ensures reports == old(reports)[id := Hidden(old(reports[id]), conceal, reason, now)]
    {
      if conceal {
        reports := reports[id := reports[id].(hiddenAt := Some(now), hiddenReason := Some(reason))];
        InsertEvent(id, WasHidden, None, now);
      } else {
        reports := reports[id := reports[id].(hiddenAt := None, hiddenReason := None)];
        InsertEvent(id, WasUnhidden, None, now);
      }
    }

    method AddComplaint(id: Rid, device: Device, createdAt: Time, policy: Policy, now: Time)
      returns (stored: Option<Complaint>, hidden: bool)
      modifies this
      ensures id !in old(reports) ==> stored == None && !hidden && reports == old(reports)
      ensures id in old(reports) ==>
                && reports == old(reports)[id := ComplaintAdded(policy, old(reports[id]), device, createdAt, now)]
                && device in reports[id].complaints && stored == Some(reports[id].complaints[device])
                && hidden == AutoHides(policy, Complained(old(reports[id]), device, createdAt))
    {
      if id !in reports {
        return None, false;
      }
      var hiddenAt := reports[id].hiddenAt;
      if device !in reports[id].complaints {
        var complaints := reports[id].complaints[device := Complaint(Pending, createdAt, None)];
        reports := reports[id := reports[id].(complaints := complaints)];
      }
      stored, hidden := Some(reports[id].complaints[device]), false;
      if hiddenAt == None {
        var pending := |PendingOn(reports[id].complaints)|;
        if policy.ShouldAutoHide(pending) {
          SetHidden(id, true, AutoThreshold, now);
          hidden := true;
        }
      }
    }

    method Apply(id: Rid, action: Action, now: Time) returns (found: bool)
      modifies this
      ensures found == (id in old(reports))
      ensures reports == if found then old(reports)[id := Applied(old(reports[id]), action, now)] else old(reports)
    {
      if id !in reports {
        return false;
      }
      var hiddenAt := reports[id].hiddenAt;
      var (conceal, status) := action.Outcome();
      if conceal != hiddenAt.Some? {
        SetHidden(id, conceal, Admin, now);
      }
      reports := reports[id := reports[id].(complaints := Closed(reports[id].complaints, status, now))];
      found := true;
    }
  }
}
