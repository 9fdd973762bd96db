/** When each SOS call goes through and what it then leaves, told in terms of the rows beforehand. */
module SosOutcomes {
  import opened Common
  import opened Sos
  import opened SosRaces

  /** Everything but this request is as before. */
  ghost predicate OnlyChanges(b: Board, after: Board, id: Rid) {
    && after.helpers == b.helpers && after.requests.Keys == b.requests.Keys + {id}
    && forall other :: other in b.requests && other != id ==> after.requests[other] == b.requests[other]
  }

  // ---- opening ----

  /** A request is opened iff its id is new, its device has no open one and has not sent its client id
      before; it then waits without a helper. */
  lemma OpensIff(b: Board, id: Rid, device: Device, clientId: Option<string>, now: Time)
    ensures var r := Created(b, id, device, clientId, now);
            && (r.Ok? <==>
                  && id !in b.requests
                  && forall other :: other in b.requests && b.requests[other].device == device ==>
                       && (b.requests[other].status == Completed || b.requests[other].status == Cancelled)
                       && (clientId.Some? ==> b.requests[other].clientId != clientId))
            && (r.Ok? ==>
                  && OnlyChanges(b, r.value, id)
                  && r.value.requests[id]
                     == Request(device, clientId, Waiting, None, None, [Event(Waiting, Requester, now)]))
  {
    assert forall other :: other in b.requests && b.requests[other].device == device ==>
             (ClashesWith(b.requests[other], device, clientId) <==>
              !(b.requests[other].status == Completed || b.requests[other].status == Cancelled)
              || (clientId.Some? && b.requests[other].clientId == clientId));
  }

  // ---- accepting ----

  ghost predicate IsAnothersWaiting(b: Board, id: Rid, helper: Device) {
    id in b.requests && b.requests[id].status == Waiting && b.requests[id].device != helper
  }

  /** A helper gets a request iff its helper mode is on, it holds fewer open ones than allowed, and the
      request is another device's and still waiting; the refusals name their reason. What counts as open
      is matched, on the way or arrived. */
  lemma AcceptsIff(b: Board, id: Rid, helper: Device, cap: nat, now: Time)
    ensures var r, open := Accepted(b, id, helper, cap, now), |Assignments(b, helper)|;
            && (r == Err(HelperModeOff) <==> !IsOn(b, helper))
            && (r.Err? && r.error.TooManyOpen? <==> IsOn(b, helper) && open >= cap)
            && (r.Err? ==> r.error == HelperModeOff || r.error == TooManyOpen(open))
            && (r.Ok? && r.value != b <==> IsOn(b, helper) && open < cap && IsAnothersWaiting(b, id, helper))
            && (r.Ok? && r.value != b ==>
                  && OnlyChanges(b, r.value, id)
                  && var before := b.requests[id];
                     r.value.requests[id] == before.(status := Matched, helper := Some(helper),
                                                     events := before.events + [Event(Matched, Helper, now)]))
    ensures forall x :: x in Assignments(b, helper) <==>
              && x in b.requests && b.requests[x].helper == Some(helper)
              && b.requests[x].status in [Matched, OnTheWay, Arrived]
  {
    hide Assignments;
    var r := Accepted(b, id, helper, cap, now);
    if r.Ok? && Claimable(b, id, helper) {
      assert r.value.requests[id].status != b.requests[id].status;
    }
    AssignmentsAreOpen(b, helper);
  }

  lemma AssignmentsAreOpen(b: Board, helper: Device)
    ensures forall x :: x in Assignments(b, helper) <==>
              && x in b.requests && b.requests[x].helper == Some(helper)
              && b.requests[x].status in [Matched, OnTheWay, Arrived]
  {
  }

  /** So no call of Accept takes a helper above the cap. */
  lemma AcceptKeepsCap(b: Board, id: Rid, helper: Device, cap: nat, now: Time)
    requires BoardOk(b) && Capped(b, cap) && Accepted(b, id, helper, cap, now).Ok?
    ensures BoardOk(Accepted(b, id, helper, cap, now).value) && Capped(Accepted(b, id, helper, cap, now).value, cap)
  {
    hide BoardOk, Capped, Assignments;
    if Claimable(b, id, helper) {
      ClaimedOk(b, id, helper, now);
      ClaimedCapped(b, id, helper, cap, now);
    }
  }

  ghost function Taken(w: World, step: Step, cap: nat, now: Time): World {
    if Enabled(w, step, true) then Next(w, step, true, cap, now) else w
  }

  lemma FourSteps(w: World, s: seq<Step>, cap: nat, now: Time)
    requires |s| == 4
    ensures RunAll(w, s, true, cap, now)
         == Taken(Taken(Taken(Taken(w, s[0], cap, now), s[1], cap, now), s[2], cap, now), s[3], cap, now)
  {
    hide Enabled, Next;
    var w1 := Taken(w, s[0], cap, now);
    var w2 := Taken(w1, s[1], cap, now);
    var w3 := Taken(w2, s[2], cap, now);
    assert s[1..][1..] == s[2..] && s[2..][1..] == s[3..] && s[3..][1..] == [];
    assert RunAll(w, s, true, cap, now) == RunAll(w1, s[1..], true, cap, now);
    assert RunAll(w1, s[1..], true, cap, now) == RunAll(w2, s[2..], true, cap, now);
    assert RunAll(w2, s[2..], true, cap, now) == RunAll(w3, s[3..], true, cap, now);
    assert s[3..][0] == s[3];
    assert RunAll(w3, s[3..], true, cap, now) == RunAll(Taken(w3, s[3], cap, now), [], true, cap, now);
  }

  /** A call that has stopped leaves no trace, and its later steps do nothing. */
  lemma NothingRuns(b: Board, cap: nat, now: Time)
    ensures forall step: Step :: step.Count? || step.Claim? || step.Commit? ==>
              Taken(World(b, map[]), step, cap, now) == World(b, map[])
  {
  }

  lemma AloneStep(b: Board, c: Call, cap: nat, now: Time)
    requires !c.Deciding?
    ensures var w := World(b, map[0 := c]);
            match c
            case Locked(helper, id) =>
              var open := |Assignments(b, helper)|;
              Taken(w, Count(0), cap, now)
              == World(b, if open < cap then map[0 := Counted(helper, id, open)] else map[])
            case Counted(helper, id, _) =>
              Taken(w, Claim(0), cap, now)
              == World(b, if Claimable(b, id, helper) then map[0 := Claiming(helper, id)] else map[])
            case Claiming(helper, id) =>
              id in b.requests ==>
                Taken(w, SosRaces.Commit(0), cap, now)
                == World(b.(requests := b.requests[id := Claimed(b.requests[id], helper, now)]), map[])
  {
    hide Assignments, Claimed;
    assert map[0 := c] - {0} == map[];
  }

  /** Run with nothing beside them, the steps an Accept is split into leave exactly what the Accept made of
      one piece leaves, and nothing of it when that one refuses. */
  lemma AloneIsAtomic(b: Board, helper: Device, id: Rid, cap: nat, now: Time)
    ensures RunAll(World(b, map[]), [Lock(0, helper, id), Count(0), Claim(0), SosRaces.Commit(0)], true, cap, now)
         == World(if Accepted(b, id, helper, cap, now).Ok? then Accepted(b, id, helper, cap, now).value else b, map[])
  {
    var s := [Lock(0, helper, id), Count(0), Claim(0), SosRaces.Commit(0)];
    FourSteps(World(b, map[]), s, cap, now);
    var w1 := Taken(World(b, map[]), s[0], cap, now);
    assert w1 == World(b, if IsOn(b, helper) then map[0 := Locked(helper, id)] else map[]);
    hide Taken, Assignments, Claimed;
    NothingRuns(b, cap, now);
    AloneStep(b, Locked(helper, id), cap, now);
    AloneStep(b, Counted(helper, id, |Assignments(b, helper)|), cap, now);
    AloneStep(b, Claiming(helper, id), cap, now);
  }

  // ---- moving ----

  /** The requester may cancel what is open and confirm an arrival; its helper takes the next step, or
      withdraws before arriving. */
  predicate MayMove(r: Request, who: Device, to: Status) {
    && who != ""
    && if r.device == who then
         (to == Cancelled && !r.status.IsClosed()) || (to == Completed && r.status == Arrived)
       else
         && r.helper == Some(who)
         && match r.status
            case Matched => to == OnTheWay || to == Waiting
            case OnTheWay => to == Arrived || to == Waiting
            case Arrived => to == Completed
            case _ => false
  }

  /** Read and committed at once a change goes through iff it is the caller's to make; only a withdrawal
      frees the request of its helper, and closing it dates it. */
  lemma MovesIff(b: Board, id: Rid, who: Device, to: Status, now: Time)
    requires id in b.requests
    ensures var d := Decided(b.requests[id], who, id, to);
            && (d.Some? <==> MayMove(b.requests[id], who, to))
            && (d.Some? ==>
                  && Applies(b, d.value)
                  && var after, before := Transitioned(b, d.value, now), b.requests[id];
                     && OnlyChanges(b, after, id)
                     && after.requests[id] == before.(
                          status := to,
                          helper := if to == Waiting then None else before.helper,
                          closedAt := if to == Completed || to == Cancelled then Some(now) else before.closedAt,
                          events := after.requests[id].events)
                     && after.requests[id].events
                        == before.events + [Event(to, if before.device == who then Requester else Helper, now)])
  {
  }
}
