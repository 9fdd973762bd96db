/** SOS requests: the row-level operations and what each of them keeps. */
module Sos {
  import opened Common

  type Rid = nat
  type Device = string

  const MAX_ACTIVE_ASSIGNMENTS: nat := 3

  datatype Status = Waiting | Matched | OnTheWay | Arrived | Completed | Cancelled {
    predicate IsClosed() { Completed? || Cancelled? }

    /** The helper is still engaged. */
    predicate IsActive() { Matched? || OnTheWay? || Arrived? }
  }

  datatype Role = Requester | Helper

  /** Waiting as a target means the helper withdrew. Accepting is not a transition of this table. */
  predicate CanTransition(from: Status, to: Status, role: Role) {
    match (from, to)
    case (Waiting, Cancelled) => role == Requester
    case (Matched, OnTheWay) => role == Helper
    case (Matched, Waiting) => role == Helper
    case (Matched, Cancelled) => role == Requester
    case (OnTheWay, Arrived) => role == Helper
    case (OnTheWay, Waiting) => role == Helper
    case (OnTheWay, Cancelled) => role == Requester
    case (Arrived, Completed) => true
    case (Arrived, Cancelled) => role == Requester
    case _ => false
  }

  datatype Event = Event(status: Status, actor: Role, at: Time)

  datatype Request = Request(
    device: Device,
    clientId: Option<string>,
    status: Status,
    helper: Option<Device>,
    closedAt: Option<Time>,
    events: seq<Event>)
  {
    function RoleOf(who: Device): Option<Role> {
      if who == "" then None
      else if device == who then Some(Requester)
      else if helper == Some(who) then Some(Helper)
      else None
    }
  }

  /** helpers says whether each opted-in device is active. */
  datatype Board = Board(requests: map<Rid, Request>, helpers: map<Device, bool>)

  datatype SosError = OpenRequestExists | NoHelperDevice | HelperModeOff | TooManyOpen(open: nat)

  // ---- the operations ----

  ghost predicate ClashesWith(r: Request, device: Device, clientId: Option<string>) {
    r.device == device && (!r.status.IsClosed() || (clientId.Some? && r.clientId == clientId))
  }

  ghost predicate Clashes(b: Board, device: Device, clientId: Option<string>) {
    exists id :: id in b.requests && ClashesWith(b.requests[id], device, clientId)
  }

  function NewRequest(device: Device, clientId: Option<string>, now: Time): Request {
    Request(device, clientId, Waiting, None, None, [Event(Waiting, Requester, now)])
  }

  /** The primary key and two unique indexes refuse a known id, a second open request of a device and a
      repeated client id. */
  ghost function Created(b: Board, id: Rid, device: Device, clientId: Option<string>, now: Time)
    : Result<Board, SosError>
  {
    if id in b.requests || Clashes(b, device, clientId) then Err(OpenRequestExists)
    else Ok(b.(requests := b.requests[id := NewRequest(device, clientId, now)]))
  }

  /** A decided status change, waiting to be committed. */
  datatype Ticket = Ticket(id: Rid, from: Status, to: Status, actor: Role, device: Option<Device>)

  predicate Applies(b: Board, t: Ticket) {
    && t.id in b.requests && b.requests[t.id].status == t.from
    && (t.actor == Helper ==> t.device.Some? && b.requests[t.id].helper == t.device)
  }

  function Moved(r: Request, to: Status, actor: Role, now: Time): Request {
    r.(status := to,
       helper := if to == Waiting then None else r.helper,
       closedAt := if to.IsClosed() then Some(now) else r.closedAt,
       events := r.events + [Event(to, actor, now)])
  }

  function Transitioned(b: Board, t: Ticket, now: Time): Board {
    if Applies(b, t) then b.(requests := b.requests[t.id := Moved(b.requests[t.id], t.to, t.actor, now)]) else b
  }

  ghost function Assignments(b: Board, helper: Device): set<Rid> {
    set id | id in b.requests && b.requests[id].helper == Some(helper) && b.requests[id].status.IsActive()
  }

  predicate Claimable(b: Board, id: Rid, helper: Device) {
    id in b.requests && b.requests[id].status == Waiting && b.requests[id].device != helper
  }

  function Claimed(r: Request, helper: Device, now: Time): Request {
    r.(status := Matched, helper := Some(helper), events := r.events + [Event(Matched, Helper, now)])
  }

  /** Accept when nothing runs beside it. */
  ghost function Accepted(b: Board, id: Rid, helper: Device, cap: nat, now: Time): Result<Board, SosError> {
    if helper !in b.helpers || !b.helpers[helper] then Err(HelperModeOff)
    else if |Assignments(b, helper)| >= cap then Err(TooManyOpen(|Assignments(b, helper)|))
    else if !Claimable(b, id, helper) then Ok(b)
    else Ok(b.(requests := b.requests[id := Claimed(b.requests[id], helper, now)]))
  }

  // ---- what every board keeps ----

  /** A step of the state machine, accepting included. */
  predicate Edge(from: Status, e: Event) {
    CanTransition(from, e.status, e.actor) || (from == Waiting && e.status == Matched && e.actor == Helper)
  }

  /** The timeline is a path through the state machine from the requester's own first entry. */
  ghost predicate Path(events: seq<Event>) {
    && |events| > 0 && events[0].status == Waiting && events[0].actor == Requester
    && forall i :: 0 < i < |events| ==> Edge(events[i - 1].status, events[i])
  }

  ghost predicate RequestOk(r: Request) {
    && Path(r.events) && r.events[|r.events| - 1].status == r.status
    && (r.status == Waiting ==> r.helper == None)
    && (r.status.IsActive() ==> r.helper.Some? && r.helper.value != r.device)
    && (r.status == Completed ==> r.helper.Some? && r.helper.value != r.device)
    && r.closedAt == (if r.status.IsClosed() then Some(r.events[|r.events| - 1].at) else None)
  }

  ghost predicate Rows(b: Board) {
    forall id :: id in b.requests ==> RequestOk(b.requests[id])
  }

  /** At most one open request of a device, and at most one request of a device's client id. */
  ghost predicate OneEach(b: Board) {
    forall i, j :: i in b.requests && j in b.requests && i != j && b.requests[i].device == b.requests[j].device ==>
      && (b.requests[i].status.IsClosed() || b.requests[j].status.IsClosed())
      && (b.requests[i].clientId.Some? ==> b.requests[i].clientId != b.requests[j].clientId)
  }

  ghost predicate BoardOk(b: Board) {
    Rows(b) && OneEach(b)
  }

  lemma CreatedOk(b: Board, id: Rid, device: Device, clientId: Option<string>, now: Time)
    requires BoardOk(b) && Created(b, id, device, clientId, now).Ok?
    ensures BoardOk(Created(b, id, device, clientId, now).value)
  {
    assert forall j :: j in b.requests ==> !ClashesWith(b.requests[j], device, clientId);
  }

  lemma MovedOk(r: Request, to: Status, actor: Role, now: Time)
    requires RequestOk(r) && CanTransition(r.status, to, actor)
    ensures RequestOk(Moved(r, to, actor, now))
  {
  }

  lemma TransitionedOk(b: Board, t: Ticket, now: Time)
    requires BoardOk(b) && CanTransition(t.from, t.to, t.actor)
    ensures BoardOk(Transitioned(b, t, now))
  {
    if Applies(b, t) {
      MovedOk(b.requests[t.id], t.to, t.actor, now);
    }
  }

  lemma ClaimedOk(b: Board, id: Rid, helper: Device, now: Time)
    requires BoardOk(b) && Claimable(b, id, helper)
    ensures BoardOk(b.(requests := b.requests[id := Claimed(b.requests[id], helper, now)]))
  {
  }

  /** A transition never adds to anybody's assignments: the table only leads out of them or along them. */
  lemma TransitionAddsNone(b: Board, t: Ticket, now: Time, helper: Device)
    requires BoardOk(b) && CanTransition(t.from, t.to, t.actor)
    ensures Assignments(Transitioned(b, t, now), helper) <= Assignments(b, helper)
    ensures |Assignments(Transitioned(b, t, now), helper)| <= |Assignments(b, helper)|
  {
    SubsetSize(Assignments(Transitioned(b, t, now), helper), Assignments(b, helper));
  }

  lemma ClaimAddsOne(b: Board, id: Rid, helper: Device, now: Time, other: Device)
    requires BoardOk(b) && Claimable(b, id, helper)
    ensures var after := b.(requests := b.requests[id := Claimed(b.requests[id], helper, now)]);
            Assignments(after, other) == Assignments(b, other) + (if other == helper then {id} else {})
    ensures id !in Assignments(b, helper)
  {
  }

  /** A helper walks the steps in order, and only the requester cancels. */
  lemma StepsInOrder(events: seq<Event>, i: nat)
    requires Path(events) && 0 < i < |events|
    ensures var before, e := events[i - 1].status, events[i];
            match e.status
            case Waiting => (before == Matched || before == OnTheWay) && e.actor == Helper
            case Matched => before == Waiting && e.actor == Helper
            case OnTheWay => before == Matched && e.actor == Helper
            case Arrived => before == OnTheWay && e.actor == Helper
            case Completed => before == Arrived
            case Cancelled => !before.IsClosed() && e.actor == Requester
  {
  }

  // ---- the repository ----

  class SosRepository {
    var requests: map<Rid, Request>
    var helpers: map<Device, bool>

    constructor ()
      ensures State() == Board(map[], map[])
    {
      requests, helpers := map[], map[];
    }

    ghost function State(): Board
      reads this
    {
      Board(requests, helpers)
    }

    method InsertEvent(id: Rid, e: Event)
      requires id in requests
      modifies `requests
      ensures requests == old(requests)[id := old(requests[id]).(events := old(requests[id]).events + [e])]
    {
      requests := requests[id := requests[id].(events := requests[id].events + [e])];
    }

    method Create(id: Rid, device: Device, clientId: Option<string>, now: Time) returns (r: Result<(), SosError>)
      modifies this
      ensures var expected := Created(old(State()), id, device, clientId, now);
              if expected.Err? then r == Err(expected.error) && State() == old(State())
              else r.Ok? && State() == expected.value
    {
      if id in requests {
        return Err(OpenRequestExists);
      }
      var rows := requests.Keys;
      while rows != {}
        invariant rows <= requests.Keys
        invariant forall k :: k in requests && k !in rows ==> !ClashesWith(requests[k], device, clientId)
        invariant State() == old(State())
        decreases |rows|
      {
        var k :| k in rows;
        var row := requests[k];
        if row.device == device && (!row.status.IsClosed() || (clientId.Some? && row.clientId == clientId)) {
          assert ClashesWith(requests[k], device, clientId);
          return Err(OpenRequestExists);
        }
        rows := rows - {k};
      }
      assert !Clashes(State(), device, clientId);
      requests := requests[id := Request(device, clientId, Waiting, None, None, [])];
      InsertEvent(id, Event(Waiting, Requester, now));
      assert [] + [Event(Waiting, Requester, now)] == [Event(Waiting, Requester, now)];
      r := Ok(());
    }

    /** A compare-and-set on the status, and on the assignment for helper actions. */
    method Transition(t: Ticket, now: Time) returns (r: Result<bool, SosError>)
      modifies this
      ensures r.Err? <==> t.actor == Helper && t.device == None
      ensures r.Ok? ==> r.value == Applies(old(State()), t)
      ensures State() == Transitioned(old(State()), t, now)
    {
      if t.actor == Helper && t.device == None {
        return Err(NoHelperDevice);
      }
      if t.id !in requests || requests[t.id].status != t.from
         || (t.actor == Helper && requests[t.id].helper != t.device) {
        return Ok(false);
      }
      var row := requests[t.id].(status := t.to);
      if t.to == Waiting {
        row := row.(helper := None);
      } else if t.to.IsClosed() {
        row := row.(closedAt := Some(now));
      }
      requests := requests[t.id := row];
      InsertEvent(t.id, Event(t.to, t.actor, now));
      r := Ok(true);
    }

    method CountAssignments(helper: Device) returns (open: nat)
      ensures open == |Assignments(State(), helper)|
    {
      var mine := set id | id in requests && requests[id].helper == Some(helper) && requests[id].status.IsActive();
      assert mine == Assignments(State(), helper);
      open := |mine|;
    }

    method Accept(id: Rid, helper: Device, maxActive: nat, now: Time) returns (r: Result<bool, SosError>)
      modifies this
      ensures var expected := Accepted(old(State()), id, helper, maxActive, now);
              if expected.Err? then r == Err(expected.error) && State() == old(State())
              else r == Ok(Claimable(old(State()), id, helper)) && State() == expected.value
    {
      if helper !in helpers || !helpers[helper] {
        return Err(HelperModeOff);
      }
      var open := CountAssignments(helper);
      if open >= maxActive {
        return Err(TooManyOpen(open));
      }
      if id !in requests || requests[id].status != Waiting || requests[id].device == helper {
        return Ok(false);
      }
      requests := requests[id := requests[id].(status := Matched, helper := Some(helper))];
      InsertEvent(id, Event(Matched, Helper, now));
      r := Ok(true);
    }
  }
}
