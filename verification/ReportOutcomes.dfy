/** What the latest votes and complaints leave of a report, over whole runs. */
module ReportOutcomes {
  import opened Common
  import opened Reports

  /** A complaint is stored as sent unless its device complained before; the report is then hidden, by the
      threshold and as of now, iff it was visible and so many complaints are pending; nothing else moves. */
  lemma ComplaintHidesIff(policy: Policy, r: Report, device: Device, createdAt: Time, now: Time)
    ensures var after := ComplaintAdded(policy, r, device, createdAt, now);
            && after.complaints == (if device in r.complaints then r.complaints
                                    else r.complaints[device := Complaint(Pending, createdAt, None)])
            && after.votes == r.votes && after.condition == r.condition && after.resolvedAt == r.resolvedAt
            && var hides := r.hiddenAt == None && |PendingOn(after.complaints)| >= policy.autoHideThreshold;
               && (hides ==> after.hiddenAt == Some(now) && after.hiddenReason == Some(AutoThreshold)
                             && after.events == r.events + [Event(WasHidden, None, now)])
               && (!hides ==> after == r.(complaints := after.complaints))
  {
    hide PendingOn;
  }

  // ---- votes ----

  /** The vote this device casts with the operation, if it does. */
  function Cast(op: Op, device: Device): Option<Vote> {
    if op.Confirm? && op.device == device then Some(op.vote) else None
  }

  function VoteOf(r: Report, device: Device): Option<Vote> {
    if device in r.votes then Some(r.votes[device]) else None
  }

  lemma ConfirmedVotes(policy: Policy, r: Report, voter: Device, vote: Vote, refresh: Option<Freshness>,
                       update: Option<Update>, now: Time)
    ensures Confirmed(policy, r, voter, vote, refresh, update, now).votes == r.votes[voter := vote]
  {
    hide Voters, Merged;
  }

  lemma StepVotes(policy: Policy, h: History, op: Op, device: Device)
    ensures VoteOf(Step(policy, h, op).report, device)
         == if Cast(op, device).Some? then Cast(op, device) else VoteOf(h.report, device)
  {
    hide Confirmed, AutoHides, Closed;
    if op.Confirm? {
      var refresh := Restart(policy, h.report.longLived, op.vote, op.now);
      ConfirmedVotes(policy, h.report, op.device, op.vote, refresh, op.update, op.now);
    }
  }

  /** A device's vote is the one it cast last (i says when, or -1 for never), and the one it had before if it
      cast none: nobody else's vote, no complaint and no decision changes it. */
  lemma {:induction false} LatestVoteWins(policy: Policy, h: History, ops: seq<Op>, device: Device, i: int)
    requires -1 <= i < |ops| && (i >= 0 ==> Cast(ops[i], device).Some?)
    requires forall j :: i < j < |ops| ==> Cast(ops[j], device) == None
    ensures VoteOf(Run(policy, h, ops).report, device)
         == if i < 0 then VoteOf(h.report, device) else Cast(ops[i], device)
    decreases |ops|
  {
    hide Step, VoteOf, Cast;
    if ops != [] {
      var init, last := ops[..|ops| - 1], ops[|ops| - 1];
      StepVotes(policy, Run(policy, h, init), last, device);
      if i < |init| {
        LatestVoteWins(policy, h, init, device, i);
      }
    }
  }

  // ---- freshness ----

  predicate Verifying(op: Op) {
    op.Confirm? && op.vote == StillActive
  }

  lemma StepVerified(policy: Policy, h: History, op: Op)
    ensures Step(policy, h, op).report.lastVerifiedAt == if Verifying(op) then op.now else h.report.lastVerifiedAt
  {
    hide Voters, PendingOn, Closed, AutoHides, ResolutionEvent, Merged;
  }

  /** A report was last verified by the latest still-active vote, or by its author if i is -1: a cleared
      vote, a complaint or a decision does not make it look fresher. */
  lemma {:induction false} LatestConfirmationVerifies(policy: Policy, h: History, ops: seq<Op>, i: int)
    requires -1 <= i < |ops| && (i >= 0 ==> Verifying(ops[i]))
    requires forall j :: i < j < |ops| ==> !Verifying(ops[j])
    ensures Run(policy, h, ops).report.lastVerifiedAt == if i < 0 then h.report.lastVerifiedAt else ops[i].now
    decreases |ops|
  {
    hide Step;
    if ops != [] {
      var init, last := ops[..|ops| - 1], ops[|ops| - 1];
      StepVerified(policy, Run(policy, h, init), last);
      if i < |init| {
        LatestConfirmationVerifies(policy, h, init, i);
      }
    }
  }
}
