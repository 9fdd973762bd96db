/** SOS calls racing: status changes read first and commit later, and Accept is split at its row locks. */
module SosRaces {
  import opened Common
  import opened Sos

  type Pid = nat

  /** Where a running call stands. */
  datatype Call =
    | Deciding(who: Device, ticket: Ticket)
    | Locked(helper: Device, id: Rid)
    | Counted(helper: Device, id: Rid, open: nat)
    | Claiming(helper: Device, id: Rid)

  /** board holds committed rows only; a claim is visible to others when its transaction commits. */
  datatype World = World(board: Board, calls: map<Pid, Call>)

  datatype Step =
    | Create(id: Rid, device: Device, clientId: Option<string>)
    | SetHelper(helper: Device, active: bool)
    | Read(pid: Pid, who: Device, id: Rid, to: Status)
    | Commit(pid: Pid)
    | Lock(pid: Pid, helper: Device, id: Rid)
    | Count(pid: Pid)
    | Claim(pid: Pid)
    | Abort(pid: Pid)

  /** The helper's row lock is held from Lock to the end of the transaction. */
  predicate HoldsHelper(c: Call, helper: Device) {
    !c.Deciding? && c.helper == helper
  }

  /** The request's row lock is held from the claim to the end of the transaction. */
  predicate HoldsRow(c: Call, id: Rid) {
    c.Claiming? && c.id == id
  }

  ghost predicate HelperFree(w: World, helper: Device) {
    forall p :: p in w.calls ==> !HoldsHelper(w.calls[p], helper)
  }

  ghost predicate RowFree(w: World, id: Rid) {
    forall p :: p in w.calls ==> !HoldsRow(w.calls[p], id)
  }

  /** What the service hands to the repository after reading the request. */
  function Decided(r: Request, who: Device, id: Rid, to: Status): Option<Ticket> {
    match r.RoleOf(who)
    case None => None
    case Some(role) =>
      if CanTransition(r.status, to, role)
      then Some(Ticket(id, r.status, to, role, if role == Helper then Some(who) else None))
      else None
  }

  /** locking says whether Accept takes the helper's row lock; a statement that needs a held lock waits. */
  ghost predicate Enabled(w: World, step: Step, locking: bool) {
    match step
    case Create(_, _, _) => true
    case SetHelper(helper, _) => HelperFree(w, helper)
    case Read(pid, who, id, to) =>
      pid !in w.calls && id in w.board.requests && Decided(w.board.requests[id], who, id, to).Some?
    case Commit(pid) =>
      pid in w.calls &&
      (match w.calls[pid]
       case Deciding(_, t) => RowFree(w, t.id)
       case Claiming(_, id) => id in w.board.requests
       case _ => false)
    case Lock(pid, helper, _) =>
      && pid !in w.calls && helper in w.board.helpers && w.board.helpers[helper]
      && (locking ==> HelperFree(w, helper))
    case Count(pid) => pid in w.calls && w.calls[pid].Locked?
    case Claim(pid) => pid in w.calls && w.calls[pid].Counted? && RowFree(w, w.calls[pid].id)
    case Abort(pid) => pid in w.calls
  }

  ghost function Next(w: World, step: Step, locking: bool, cap: nat, now: Time): World
    requires Enabled(w, step, locking)
  {
    match step
    case Create(id, device, clientId) =>
      (match Created(w.board, id, device, clientId, now)
       case Ok(board) => w.(board := board)
       case Err(_) => w)
    case SetHelper(helper, active) => w.(board := w.board.(helpers := w.board.helpers[helper := active]))
    case Read(pid, who, id, to) =>
      w.(calls := w.calls[pid := Deciding(who, Decided(w.board.requests[id], who, id, to).value)])
    case Commit(pid) =>
      var c := w.calls[pid];
      (match c
       case Deciding(_, t) => World(Transitioned(w.board, t, now), w.calls - {pid})
       case Claiming(helper, id) =>
         World(w.board.(requests := w.board.requests[id := Claimed(w.board.requests[id], helper, now)]),
           w.calls - {pid}))
    case Lock(pid, helper, id) => w.(calls := w.calls[pid := Locked(helper, id)])
    case Count(pid) =>
      var c := w.calls[pid];
      var open := |Assignments(w.board, c.helper)|;
      w.(calls := if open >= cap then w.calls - {pid} else w.calls[pid := Counted(c.helper, c.id, open)])
    case Claim(pid) =>
      var c := w.calls[pid];
      w.(calls := if Claimable(w.board, c.id, c.helper) then w.calls[pid := Claiming(c.helper, c.id)]
        else w.calls - {pid})
    case Abort(pid) => w.(calls := w.calls - {pid})
  }

  // ---- the invariant ----

  predicate IsOn(b: Board, helper: Device) {
    helper in b.helpers && b.helpers[helper]
  }

  /** What a pending call still knows, whatever the others did since: from Lock on its helper is active. */
  ghost predicate CallOk(b: Board, c: Call, cap: nat) {
    match c
    case Deciding(who, t) =>
      && t.id in b.requests && who != "" && CanTransition(t.from, t.to, t.actor)
      && (t.actor == Requester ==> b.requests[t.id].device == who)
      && (t.actor == Helper ==> b.requests[t.id].device != who && t.device == Some(who))
    case Locked(helper, _) => IsOn(b, helper)
    case Counted(helper, _, open) => IsOn(b, helper) && |Assignments(b, helper)| <= open < cap
    case Claiming(helper, id) => IsOn(b, helper) && |Assignments(b, helper)| < cap && Claimable(b, id, helper)
  }

  ghost predicate CallsOk(w: World, cap: nat) {
    forall p :: p in w.calls ==> CallOk(w.board, w.calls[p], cap)
  }

  ghost predicate LocksExclusive(w: World) {
    forall p, q :: p in w.calls && q in w.calls && p != q ==>
      && (!w.calls[p].Deciding? ==> !HoldsHelper(w.calls[q], w.calls[p].helper))
      && (w.calls[p].Claiming? ==> !HoldsRow(w.calls[q], w.calls[p].id))
  }

  ghost predicate Capped(b: Board, cap: nat) {
    forall helper :: |Assignments(b, helper)| <= cap
  }

  ghost predicate Inv(w: World, cap: nat) {
    BoardOk(w.board) && Capped(w.board, cap) && CallsOk(w, cap) && LocksExclusive(w)
  }

  lemma CommitTransitionKeeps(w: World, pid: Pid, cap: nat, now: Time)
    requires Inv(w, cap) && Enabled(w, Commit(pid), true) && w.calls[pid].Deciding?
    ensures Inv(Next(w, Commit(pid), true, cap, now), cap)
  {
    var t := w.calls[pid].ticket;
    var after := Transitioned(w.board, t, now);
    assert CallOk(w.board, w.calls[pid], cap);
    TransitionedOk(w.board, t, now);
    forall helper
      ensures |Assignments(after, helper)| <= |Assignments(w.board, helper)|
    {
      TransitionAddsNone(w.board, t, now, helper);
    }
    forall p | p in w.calls && p != pid
      ensures CallOk(after, w.calls[p], cap)
    {
      assert CallOk(w.board, w.calls[p], cap);
      assert !HoldsRow(w.calls[p], t.id);
    }
  }

  lemma ClaimedCapped(b: Board, id: Rid, helper: Device, cap: nat, now: Time)
    requires BoardOk(b) && Capped(b, cap) && Claimable(b, id, helper) && |Assignments(b, helper)| < cap
    ensures Capped(b.(requests := b.requests[id := Claimed(b.requests[id], helper, now)]), cap)
  {
    var after := b.(requests := b.requests[id := Claimed(b.requests[id], helper, now)]);
    forall other
      ensures |Assignments(after, other)| <= cap
    {
      ClaimAddsOne(b, id, helper, now, other);
    }
  }

  lemma ClaimedCallOk(b: Board, id: Rid, helper: Device, cap: nat, now: Time, c: Call)
    requires BoardOk(b) && Claimable(b, id, helper) && CallOk(b, c, cap)
    requires !HoldsHelper(c, helper) && !HoldsRow(c, id)
    ensures CallOk(b.(requests := b.requests[id := Claimed(b.requests[id], helper, now)]), c, cap)
  {
    if !c.Deciding? {
      ClaimAddsOne(b, id, helper, now, c.helper);
    }
  }

  lemma CommitClaimKeeps(w: World, pid: Pid, cap: nat, now: Time)
    requires Inv(w, cap) && Enabled(w, Commit(pid), true) && w.calls[pid].Claiming?
    ensures Inv(Next(w, Commit(pid), true, cap, now), cap)
  {
    hide Assignments, BoardOk, Capped, Claimed, CallOk;
    var c := w.calls[pid];
    CallAt(w, pid, cap);
    ClaimedOk(w.board, c.id, c.helper, now);
    ClaimedCapped(w.board, c.id, c.helper, cap, now);
    forall p | p in w.calls && p != pid
      ensures CallOk(Next(w, Commit(pid), true, cap, now).board, w.calls[p], cap)
    {
      assert !HoldsHelper(w.calls[p], c.helper) && !HoldsRow(w.calls[p], c.id);
      ClaimedCallOk(w.board, c.id, c.helper, cap, now, w.calls[p]);
    }
  }

  lemma CallAt(w: World, pid: Pid, cap: nat)
    requires CallsOk(w, cap) && pid in w.calls
    ensures CallOk(w.board, w.calls[pid], cap)
    ensures w.calls[pid].Claiming? ==>
              |Assignments(w.board, w.calls[pid].helper)| < cap &&
                Claimable(w.board, w.calls[pid].id, w.calls[pid].helper)
  {
  }

  lemma CreateKeeps(w: World, id: Rid, device: Device, clientId: Option<string>, cap: nat, now: Time)
    requires Inv(w, cap) && Enabled(w, Create(id, device, clientId), true)
    ensures Inv(Next(w, Create(id, device, clientId), true, cap, now), cap)
  {
    if Created(w.board, id, device, clientId, now).Ok? {
      var after := Created(w.board, id, device, clientId, now).value;
      CreatedOk(w.board, id, device, clientId, now);
      forall helper
        ensures Assignments(after, helper) == Assignments(w.board, helper)
      {
      }
      forall p | p in w.calls
        ensures CallOk(after, w.calls[p], cap)
      {
        assert CallOk(w.board, w.calls[p], cap);
      }
    }
  }

  lemma SetHelperKeeps(w: World, helper: Device, active: bool, cap: nat, now: Time)
    requires Inv(w, cap) && Enabled(w, SetHelper(helper, active), true)
    ensures Inv(Next(w, SetHelper(helper, active), true, cap, now), cap)
  {
    var after := w.board.(helpers := w.board.helpers[helper := active]);
    assert forall h :: Assignments(after, h) == Assignments(w.board, h);
    forall p | p in w.calls
      ensures CallOk(after, w.calls[p], cap)
    {
      assert CallOk(w.board, w.calls[p], cap);
    }
  }

  /** Steps that change no row. */
  lemma CallsKeep(w: World, step: Step, cap: nat, now: Time)
    requires Inv(w, cap) && Enabled(w, step, true)
    requires step.Read? || step.Lock? || step.Abort?
    ensures Inv(Next(w, step, true, cap, now), cap)
  {
    hide Assignments, BoardOk, Capped, Claimable;
  }

  lemma AcceptKeeps(w: World, step: Step, cap: nat, now: Time)
    requires Inv(w, cap) && Enabled(w, step, true) && (step.Count? || step.Claim?)
    ensures Inv(Next(w, step, true, cap, now), cap)
  {
    hide Assignments, BoardOk, Capped, Claimable;
    assert CallOk(w.board, w.calls[step.pid], cap);
  }

  lemma StepKeeps(w: World, step: Step, cap: nat, now: Time)
    requires Inv(w, cap) && Enabled(w, step, true)
    ensures Inv(Next(w, step, true, cap, now), cap)
  {
    hide Inv, Next;
    match step
    case Create(id, device, clientId) => CreateKeeps(w, id, device, clientId, cap, now);
    case SetHelper(helper, active) => SetHelperKeeps(w, helper, active, cap, now);
    case Commit(pid) =>
      if w.calls[pid].Deciding? {
        CommitTransitionKeeps(w, pid, cap, now);
      } else {
        CommitClaimKeeps(w, pid, cap, now);
      }
    case Count(_) => AcceptKeeps(w, step, cap, now);
    case Claim(_) => AcceptKeeps(w, step, cap, now);
    case _ => CallsKeep(w, step, cap, now);
  }

  datatype Timed = Timed(step: Step, at: Time)

  /** Steps that must wait, or make no sense yet, do not happen. */
  ghost function Run(w: World, steps: seq<Timed>, locking: bool, cap: nat): World
    decreases |steps|
  {
    if steps == [] then w
    else
      var before, last := Run(w, steps[..|steps| - 1], locking, cap), steps[|steps| - 1];
      if Enabled(before, last.step, locking) then Next(before, last.step, locking, cap, last.at) else before
  }

  const EMPTY: World := World(Board(map[], map[]), map[])

  lemma {:induction false} RunKeeps(w: World, steps: seq<Timed>, cap: nat)
    requires Inv(w, cap)
    ensures Inv(Run(w, steps, true, cap), cap)
    decreases |steps|
  {
    if steps != [] {
      RunKeeps(w, steps[..|steps| - 1], cap);
      var before, last := Run(w, steps[..|steps| - 1], true, cap), steps[|steps| - 1];
      if Enabled(before, last.step, true) {
        StepKeeps(before, last.step, cap, last.at);
      }
    }
  }

  /** In every interleaving no helper holds more than three open requests, every request is waiting
      without a helper or active with one who is not its requester, and every timeline replays. */
  lemma EveryRunIsSafe(steps: seq<Timed>)
    ensures var w := Run(EMPTY, steps, true, MAX_ACTIVE_ASSIGNMENTS);
            && BoardOk(w.board)
            && forall helper :: |Assignments(w.board, helper)| <= 3
  {
    assert forall helper :: Assignments(EMPTY.board, helper) == {};
    RunKeeps(EMPTY, steps, MAX_ACTIVE_ASSIGNMENTS);
  }

  /** In every interleaving a completed request was waiting, then accepted, travelled to and arrived at by
      a helper, in that order and with nothing in between. */
  lemma CompletedRequestsWalkEveryStep(steps: seq<Timed>, id: Rid)
    requires var w := Run(EMPTY, steps, true, MAX_ACTIVE_ASSIGNMENTS);
             id in w.board.requests && w.board.requests[id].status == Completed
    ensures var events := Run(EMPTY, steps, true, MAX_ACTIVE_ASSIGNMENTS).board.requests[id].events;
            var n := |events|;
            && n >= 5 && events[n - 5].status == Waiting && events[n - 1].status == Completed
            && (events[n - 4].status, events[n - 4].actor) == (Matched, Helper)
            && (events[n - 3].status, events[n - 3].actor) == (OnTheWay, Helper)
            && (events[n - 2].status, events[n - 2].actor) == (Arrived, Helper)
  {
    EveryRunIsSafe(steps);
    var events := Run(EMPTY, steps, true, MAX_ACTIVE_ASSIGNMENTS).board.requests[id].events;
    var n := |events|;
    assert RequestOk(Run(EMPTY, steps, true, MAX_ACTIVE_ASSIGNMENTS).board.requests[id]);
    hide Run, CanTransition;
    assert n >= 2;
    StepsInOrder(events, n - 1);
    StepsInOrder(events, n - 2);
    StepsInOrder(events, n - 3);
    StepsInOrder(events, n - 4);
  }

  // ---- read, then compare-and-set ----

  /** However stale the read, a change that is applied is one the table allows to the role the caller
      holds on the request at that moment. */
  lemma CommitIsAllowedNow(w: World, pid: Pid, cap: nat)
    requires Inv(w, cap) && pid in w.calls && w.calls[pid].Deciding? && Applies(w.board, w.calls[pid].ticket)
    ensures var c := w.calls[pid];
            var r := w.board.requests[c.ticket.id];
            r.RoleOf(c.who) == Some(c.ticket.actor) && CanTransition(r.status, c.ticket.to, c.ticket.actor)
  {
  }

  /** Committing a split Accept is the atomic Accept at that moment. */
  lemma SplitAcceptIsAtomic(w: World, pid: Pid, cap: nat, now: Time)
    requires Inv(w, cap) && pid in w.calls && w.calls[pid].Claiming?
    ensures Accepted(w.board, w.calls[pid].id, w.calls[pid].helper, cap, now)
         == Ok(Next(w, Commit(pid), true, cap, now).board)
  {
  }

  // ---- without the lock ----

  /** Two accepts of one helper, both counted before either commits. */
  function Overlapped(helper: Device, i: Rid, j: Rid): seq<Step> {
    [Lock(0, helper, i), Lock(1, helper, j), Count(0), Count(1), Claim(0), Claim(1), Commit(0), Commit(1)]
  }

  ghost function RunAll(w: World, steps: seq<Step>, locking: bool, cap: nat, now: Time): World
    decreases |steps|
  {
    if steps == [] then w
    else RunAll(if Enabled(w, steps[0], locking) then Next(w, steps[0], locking, cap, now) else w,
                steps[1..], locking, cap, now)
  }

  /** Without the helper's row lock the cap fails from every quiet board where a helper has one place
      left and two requests of others wait. */
  lemma WithoutLockCapFails(b: Board, helper: Device, i: Rid, j: Rid, cap: nat, now: Time)
    requires BoardOk(b) && helper in b.helpers && b.helpers[helper]
    requires i != j && Claimable(b, i, helper) && Claimable(b, j, helper)
    requires cap == |Assignments(b, helper)| + 1
    ensures |Assignments(RunAll(World(b, map[]), Overlapped(helper, i, j), false, cap, now).board, helper)| == cap + 1
  {
    var open := |Assignments(b, helper)|;
    var s := Overlapped(helper, i, j);
    var w4 := World(b, map[0 := Counted(helper, i, open), 1 := Counted(helper, j, open)]);
    BothCount(b, helper, i, j, cap, now);
    assert s[4..] == [Claim(0), Claim(1), Commit(0), Commit(1)];
    BothClaim(b, helper, i, j, open, cap, now);
    var after := b.(requests := b.requests[i := Claimed(b.requests[i], helper, now)]);
    ClaimAddsOne(b, i, helper, now, helper);
    ClaimedOk(b, i, helper, now);
    ClaimAddsOne(after, j, helper, now, helper);
  }

  lemma BothCount(b: Board, helper: Device, i: Rid, j: Rid, cap: nat, now: Time)
    requires helper in b.helpers && b.helpers[helper] && cap == |Assignments(b, helper)| + 1
    ensures RunAll(World(b, map[]), Overlapped(helper, i, j), false, cap, now)
         == RunAll(World(b, map[0 := Counted(helper, i, cap - 1), 1 := Counted(helper, j, cap - 1)]),
                   Overlapped(helper, i, j)[4..], false, cap, now)
  {
    var open, s := |Assignments(b, helper)|, Overlapped(helper, i, j);
    var w0 := World(b, map[]);
    var w1 := World(b, map[0 := Locked(helper, i)]);
    var w2 := World(b, map[0 := Locked(helper, i), 1 := Locked(helper, j)]);
    var w3 := World(b, map[0 := Counted(helper, i, open), 1 := Locked(helper, j)]);
    var w4 := World(b, map[0 := Counted(helper, i, open), 1 := Counted(helper, j, open)]);
    assert Next(w0, s[0], false, cap, now) == w1;
    assert Next(w1, s[1], false, cap, now) == w2;
    assert Next(w2, s[2], false, cap, now) == w3;
    assert Next(w3, s[3], false, cap, now) == w4;
    assert s[1..][1..] == s[2..] && s[2..][1..] == s[3..] && s[3..][1..] == s[4..];
    assert RunAll(w0, s, false, cap, now) == RunAll(w1, s[1..], false, cap, now);
    assert RunAll(w1, s[1..], false, cap, now) == RunAll(w2, s[2..], false, cap, now);
    assert RunAll(w2, s[2..], false, cap, now) == RunAll(w3, s[3..], false, cap, now);
    assert RunAll(w3, s[3..], false, cap, now) == RunAll(w4, s[4..], false, cap, now);
  }

  lemma BothClaim(b: Board, helper: Device, i: Rid, j: Rid, open: nat, cap: nat, now: Time)
    requires i != j && Claimable(b, i, helper) && Claimable(b, j, helper)
    ensures RunAll(World(b, map[0 := Counted(helper, i, open), 1 := Counted(helper, j, open)]),
                   [Claim(0), Claim(1), Commit(0), Commit(1)], false, cap, now).board
         == b.(requests := b.requests[i := Claimed(b.requests[i], helper, now)]
                                     [j := Claimed(b.requests[j], helper, now)])
  {
  }
}
