/** Where a cached or served copy comes from: a provider call of the run, and which one. */
module ServedCopies {
  import opened Common
  import opened SingleFlight

  ghost predicate Succeeded<T>(f: Flight<T>) {
    f.end.Some? && f.end.value.Fetched?
  }

  /** Flight j returned this copy, data and date. */
  ghost predicate Returned<T>(flights: seq<Flight<T>>, copy: Copy<T>, j: int) {
    0 <= j < |flights| && Succeeded(flights[j]) && flights[j].end.value.copy == copy
  }

  ghost predicate Known<T>(flights: seq<Flight<T>>, snap: Option<Copy<T>>) {
    snap.Some? ==> exists j :: Returned(flights, snap.value, j)
  }

  /** No flight from j on returned a copy. */
  ghost predicate NoneSince<T>(flights: seq<Flight<T>>, j: int) {
    forall k :: j <= k < |flights| && 0 <= k ==> !Succeeded(flights[k])
  }

  /** The cached copy is exactly the one the latest successful flight returned. */
  ghost predicate IsLatest<T>(flights: seq<Flight<T>>, snap: Option<Copy<T>>) {
    match snap
    case None => NoneSince(flights, 0)
    case Some(copy) => exists j :: Returned(flights, copy, j) && NoneSince(flights, j + 1)
  }

  /** The entry remembers a failure exactly when the last finished flight failed, and then its time. */
  ghost predicate RemembersLast<T>(w: World<T>) {
    var n := if w.entry.inflight.Some? then |w.flights| - 1 else |w.flights|;
    if n <= 0 then w.entry.failedAt.None?
    else if w.flights[n - 1].end.None? then false
    else
      match w.flights[n - 1].end.value
      case Failed(at) => w.entry.failedAt == Some(at)
      case Fetched(_, _) => w.entry.failedAt.None?
  }

  ghost predicate Sourced<T>(w: World<T>) {
    && IsLatest(w.flights, w.entry.snap)
    && (forall c :: c in w.waiting ==> Known(w.flights, w.waiting[c].snap))
    && (forall i :: 0 <= i < |w.replies| ==> Known(w.flights, w.replies[i].seen))
  }

  lemma LatestIsKnown<T>(flights: seq<Flight<T>>, snap: Option<Copy<T>>)
    requires IsLatest(flights, snap)
    ensures Known(flights, snap)
  {
  }

  /** What has ended has ended: later flights and their ends take nothing back. */
  ghost predicate Extends<T>(flights: seq<Flight<T>>, after: seq<Flight<T>>) {
    |flights| <= |after| && forall j :: 0 <= j < |flights| && flights[j].end.Some? ==> after[j] == flights[j]
  }

  lemma {:induction false} KnownLater<T>(flights: seq<Flight<T>>, after: seq<Flight<T>>, snap: Option<Copy<T>>)
    requires Known(flights, snap) && Extends(flights, after)
    ensures Known(after, snap)
  {
    if snap.Some? {
      var j :| Returned(flights, snap.value, j);
      assert Returned(after, snap.value, j);
    }
  }

  lemma NextExtends<T>(w: World<T>, ttl: Time, step: Step<T>)
    requires OneInFlight(w) && Enabled(w, step)
    ensures Extends(w.flights, Next(w, ttl, step).flights)
  {
  }

  lemma {:induction false} LatestAfter<T>(w: World<T>, ttl: Time, step: Step<T>)
    requires OneInFlight(w) && Enabled(w, step) && IsLatest(w.flights, w.entry.snap)
    ensures var after := Next(w, ttl, step); IsLatest(after.flights, after.entry.snap)
  {
    var after := Next(w, ttl, step);
    if step.Finish? && step.fetched.Some? {
      assert Returned(after.flights, step.fetched.value, step.flight);
    } else if w.entry.snap.Some? {
      var j :| Returned(w.flights, w.entry.snap.value, j) && NoneSince(w.flights, j + 1);
      assert Returned(after.flights, w.entry.snap.value, j);
    }
  }

  lemma StepRemembers<T>(w: World<T>, ttl: Time, step: Step<T>)
    requires OneInFlight(w) && Enabled(w, step) && RemembersLast(w)
    ensures RemembersLast(Next(w, ttl, step))
  {
  }

  lemma StepSourced<T>(w: World<T>, ttl: Time, step: Step<T>)
    requires OneInFlight(w) && Enabled(w, step) && Sourced(w)
    ensures Sourced(Next(w, ttl, step))
  {
    var after := Next(w, ttl, step);
    LatestAfter(w, ttl, step);
    NextExtends(w, ttl, step);
    LatestIsKnown(w.flights, w.entry.snap);
    hide IsLatest, Known, Extends;
    KnownLater(w.flights, after.flights, w.entry.snap);
    forall c | c in after.waiting
      ensures Known(after.flights, after.waiting[c].snap)
    {
      if c in w.waiting { KnownLater(w.flights, after.flights, w.waiting[c].snap); }
    }
    forall i | 0 <= i < |after.replies|
      ensures Known(after.flights, after.replies[i].seen)
    {
      if i < |w.replies| {
        KnownLater(w.flights, after.flights, w.replies[i].seen);
      } else if step.GiveUp? {
        KnownLater(w.flights, after.flights, w.waiting[step.caller].snap);
      }
    }
  }

  lemma {:induction false} RunSourced<T>(start: Time, ttl: Time, steps: seq<Step<T>>)
    requires Configured(ttl)
    ensures Sourced(Run(Start(start), ttl, steps)) && RemembersLast(Run(Start(start), ttl, steps))
    decreases |steps|
  {
    if steps != [] {
      var prefix, last := steps[..|steps| - 1], steps[|steps| - 1];
      RunSourced(start, ttl, prefix);
      RunKeeps(Start(start), ttl, prefix);
      var before := Run(Start(start), ttl, prefix);
      if Enabled(before, last) {
        StepSourced(before, ttl, last);
        StepRemembers(before, ttl, last);
      }
    }
  }

  /** In every run the cached copy is the one the latest successful provider call returned, there is none
      while no call has succeeded, and a failure is remembered until the next success. */
  lemma {:induction false} CacheHoldsTheLatest<T>(start: Time, ttl: Time, steps: seq<Step<T>>)
    requires Configured(ttl)
    ensures var w := Run(Start(start), ttl, steps);
            IsLatest(w.flights, w.entry.snap) && RemembersLast(w)
  {
    RunSourced(start, ttl, steps);
  }

  /** In every run each copy handed to a caller, data and date, is one a finished provider call returned. */
  lemma {:induction false} ServedIsReturned<T>(start: Time, ttl: Time, steps: seq<Step<T>>, i: nat)
    requires Configured(ttl) && i < |Run(Start<T>(start), ttl, steps).replies|
    ensures var w := Run(Start<T>(start), ttl, steps);
            w.replies[i].outcome.Served? ==> exists j :: Returned(w.flights, w.replies[i].outcome.copy, j)
  {
    RunSourced(start, ttl, steps);
    SingleFlightHolds(start, ttl, steps);
    var w := Run(Start<T>(start), ttl, steps);
    assert Known(w.flights, w.replies[i].seen) && Honest(w.replies[i], ttl);
  }

  /** No copy a day old or older is ever handed out, and a minute passes after a failed call before the
      next one starts; instants count nanoseconds. */
  lemma {:induction false} DayAndMinute<T>(start: Time, ttl: Time, steps: seq<Step<T>>)
    requires Configured(ttl)
    ensures var w := Run(Start<T>(start), ttl, steps);
            && (forall i :: 0 <= i < |w.replies| && w.replies[i].outcome.Served? ==>
                  w.replies[i].at - w.replies[i].outcome.copy.fetchedAt < 86_400_000_000_000)
            && (forall j, k :: 0 <= j < k < |w.flights| && w.flights[j].end.Some? && w.flights[j].end.value.Failed? ==>
                  w.flights[k].started - w.flights[j].end.value.at >= 60_000_000_000)
  {
    SingleFlightHolds(start, ttl, steps);
    var w := Run(Start<T>(start), ttl, steps);
    assert forall i :: 0 <= i < |w.replies| ==> Honest(w.replies[i], ttl);
    assert forall j, k :: 0 <= j < k < |w.flights| ==> Spaced(w.flights[j], w.flights[k].started, ttl);
  }
}
