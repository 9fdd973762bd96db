/** The cache that stands in front of a slow provider: callers share one refresh, failures back off,
    and the last good copy is served as stale while the provider is down. */
module SingleFlight {
  import opened Common

  const SECOND: Time := 1_000_000_000
  const BACKOFF: Time := 60 * SECOND
  const MAX_STALE: Time := 24 * 60 * 60 * SECOND

  datatype Copy<T> = Copy(fetchedAt: Time, data: T)

  /** inflight names the running refresh. */
  datatype Entry<T> = Entry(snap: Option<Copy<T>>, failedAt: Option<Time>, inflight: Option<nat>)

  datatype Outcome<T> = Served(copy: Copy<T>, stale: bool) | Unavailable

  /** What a caller holding the mutex does next. */
  datatype Decision<T> = Answer(outcome: Outcome<T>) | Join | Launch

  /** Config bounds both caches' TTLs by 1440 minutes. */
  predicate Configured(ttl: Time) {
    0 < ttl <= MAX_STALE
  }

  function Fallback<T>(snap: Option<Copy<T>>, now: Time): Outcome<T> {
    if snap.Some? && now - snap.value.fetchedAt < MAX_STALE then Served(snap.value, true) else Unavailable
  }

  function Decide<T>(e: Entry<T>, now: Time, ttl: Time): Decision<T> {
    if e.snap.Some? && now - e.snap.value.fetchedAt < ttl then Answer(Served(e.snap.value, false))
    else if e.inflight.Some? then Join
    else if e.failedAt.Some? && now - e.failedAt.value < BACKOFF then Answer(Fallback(e.snap, now))
    else Launch
  }

  /** Only a launch changes the entry: `done` names the refresh it starts. */
  function Checked<T>(e: Entry<T>, now: Time, ttl: Time, done: nat): Entry<T> {
    if Decide(e, now, ttl).Launch? then e.(inflight := Some(done)) else e
  }

  /** A refresh that ends with a copy forgets the failure; one that fails keeps the copy. */
  function Ended<T>(e: Entry<T>, fetched: Option<Copy<T>>, now: Time): Entry<T> {
    match fetched
    case Some(copy) => Entry(fetched, None, None)
    case None => Entry(e.snap, Some(now), None)
  }

  // ---- callers, refreshes and a clock ----

  type Caller = nat

  datatype End<T> = Failed(at: Time) | Fetched(copy: Copy<T>, at: Time)

  /** One provider call. */
  datatype Flight<T> = Flight(started: Time, end: Option<End<T>>)

  /** A caller blocked on a refresh, with the copy it saw when it began to wait. */
  datatype Waiting<T> = Waiting(flight: nat, snap: Option<Copy<T>>)

  /** seen is the copy the caller had in hand when it answered. */
  datatype Reply<T> = Reply(caller: Caller, at: Time, seen: Option<Copy<T>>, outcome: Outcome<T>)

  datatype World<T> = World(
    now: Time,
    entry: Entry<T>,
    running: set<nat>,
    flights: seq<Flight<T>>,
    waiting: map<Caller, Waiting<T>>,
    replies: seq<Reply<T>>)

  datatype Step<T> =
    | Tick(elapsed: nat)
    | Check(caller: Caller)
    | Finish(flight: nat, fetched: Option<Copy<T>>)
    | GiveUp(caller: Caller)

  function Start<T>(now: Time): World<T> {
    World(now, Entry(None, None, None), {}, [], map[], [])
  }

  /** A new caller checks at once; a waiting one checks again when the refresh it waits on has finished
      and may give up at any time; the provider answers with a copy dated during the call. */
  ghost predicate Enabled<T>(w: World<T>, step: Step<T>) {
    match step
    case Tick(_) => true
    case Check(c) => c !in w.waiting || w.waiting[c].flight !in w.running
    case Finish(id, fetched) =>
      && id in w.running && id < |w.flights|
      && (fetched.Some? ==> w.flights[id].started <= fetched.value.fetchedAt <= w.now)
    case GiveUp(c) => c in w.waiting
  }

  function Replied<T>(w: World<T>, c: Caller, seen: Option<Copy<T>>, outcome: Outcome<T>): World<T> {
    w.(waiting := w.waiting - {c}, replies := w.replies + [Reply(c, w.now, seen, outcome)])
  }

  function Next<T>(w: World<T>, ttl: Time, step: Step<T>): World<T>
    requires Enabled(w, step)
  {
    match step
    case Tick(elapsed) => w.(now := w.now + elapsed)
    case Check(c) =>
      (match Decide(w.entry, w.now, ttl)
       case Answer(outcome) => Replied(w, c, w.entry.snap, outcome)
       case Join => w.(waiting := w.waiting[c := Waiting(w.entry.inflight.value, w.entry.snap)])
       case Launch =>
         var id := |w.flights|;
         w.(entry := Checked(w.entry, w.now, ttl, id),
            running := w.running + {id},
            flights := w.flights + [Flight(w.now, None)],
            waiting := w.waiting[c := Waiting(id, w.entry.snap)]))
    case Finish(id, fetched) =>
      var end := if fetched.Some? then Fetched(fetched.value, w.now) else Failed(w.now);
      w.(entry := Ended(w.entry, fetched, w.now),
         running := w.running - {id},
         flights := w.flights[id := w.flights[id].(end := Some(end))])
    case GiveUp(c) => Replied(w, c, w.waiting[c].snap, Fallback(w.waiting[c].snap, w.now))
  }

  // ---- what every run keeps ----

  /** The provider is not called again before the back-off of an earlier failure, or the TTL of an
      earlier copy, has passed. */
  ghost predicate Spaced<T>(earlier: Flight<T>, started: Time, ttl: Time) {
    && earlier.end.Some?
    && match earlier.end.value
       case Failed(at) => started >= at + BACKOFF
       case Fetched(copy, _) => started >= copy.fetchedAt + ttl
  }

  ghost predicate AllSpaced<T>(flights: seq<Flight<T>>, ttl: Time) {
    forall j, k :: 0 <= j < k < |flights| ==> Spaced(flights[j], flights[k].started, ttl)
  }

  /** The refresh in flight is the last one launched, and the only one running. */
  ghost predicate OneInFlight<T>(w: World<T>) {
    match w.entry.inflight
    case None => w.running == {} && forall j :: 0 <= j < |w.flights| ==> w.flights[j].end.Some?
    case Some(id) =>
      && w.running == {id} && id == |w.flights| - 1 && w.flights[id].end == None
      && forall j :: 0 <= j < id ==> w.flights[j].end.Some?
  }

  ghost predicate InOrder<T>(f: Flight<T>, now: Time) {
    && f.started <= now
    && (f.end.Some? ==>
          match f.end.value
          case Failed(at) => f.started <= at <= now
          case Fetched(copy, at) => f.started <= copy.fetchedAt <= at <= now)
  }

  /** The entry remembers enough of a finished call to keep the next one away from it. */
  ghost predicate Remembers<T>(e: Entry<T>, f: Flight<T>) {
    f.end.Some? ==>
      match f.end.value
      case Failed(at) =>
        || (e.failedAt.Some? && at <= e.failedAt.value)
        || (e.snap.Some? && at + BACKOFF <= e.snap.value.fetchedAt)
      case Fetched(copy, _) => e.snap.Some? && copy.fetchedAt <= e.snap.value.fetchedAt
  }

  ghost predicate Flights<T>(w: World<T>) {
    && (forall j :: 0 <= j < |w.flights| ==> InOrder(w.flights[j], w.now) && Remembers(w.entry, w.flights[j]))
    && (w.entry.snap.Some? ==> w.entry.snap.value.fetchedAt <= w.now)
  }

  ghost predicate Overdue<T>(snap: Option<Copy<T>>, now: Time, ttl: Time) {
    snap.Some? ==> now - snap.value.fetchedAt >= ttl
  }

  ghost predicate Waiters<T>(w: World<T>, ttl: Time) {
    forall c :: c in w.waiting ==> w.waiting[c].flight < |w.flights| && Overdue(w.waiting[c].snap, w.now, ttl)
  }

  /** A refresh in flight was launched when the cached copy had expired. */
  ghost predicate StartedOverdue<T>(w: World<T>, ttl: Time) {
    w.entry.inflight.Some? ==>
      w.entry.inflight.value < |w.flights| && Overdue(w.entry.snap, w.flights[w.entry.inflight.value].started, ttl)
  }

  /** The copy in hand is served exactly when it is under a day old, and marked stale exactly when
      its age has reached the TTL. */
  ghost predicate Honest<T>(reply: Reply<T>, ttl: Time) {
    match reply.outcome
    case Unavailable => reply.seen.Some? ==> reply.at - reply.seen.value.fetchedAt >= MAX_STALE
    case Served(copy, stale) =>
      && reply.seen == Some(copy)
      && (stale <==> reply.at - copy.fetchedAt >= ttl)
      && reply.at - copy.fetchedAt < MAX_STALE
  }

  ghost predicate Inv<T>(w: World<T>, ttl: Time) {
    && OneInFlight(w) && Flights(w) && AllSpaced(w.flights, ttl) && Waiters(w, ttl) && StartedOverdue(w, ttl)
    && (forall i :: 0 <= i < |w.replies| ==> Honest(w.replies[i], ttl))
  }

  /** A caller is turned away from a stale entry only while a failure is less than the back-off old: in
      every other case it waits for a refresh, of which it starts one if none runs. */
  lemma FallsBackOnlyAfterFailure<T>(e: Entry<T>, now: Time, ttl: Time)
    requires Overdue(e.snap, now, ttl)
    ensures Decide(e, now, ttl).Answer? <==>
            e.inflight.None? && e.failedAt.Some? && now - e.failedAt.value < BACKOFF
    ensures !Decide(e, now, ttl).Answer? ==> Checked(e, now, ttl, 0).inflight.Some?
  {
  }

  lemma CheckKeeps<T>(w: World<T>, ttl: Time, c: Caller)
    requires Configured(ttl) && Inv(w, ttl) && Enabled(w, Check(c))
    ensures Inv(Next(w, ttl, Check(c)), ttl)
  {
    if Decide(w.entry, w.now, ttl).Launch? {
      LaunchIsSpaced(w, ttl);
    }
  }

  /** When the entry lets a caller launch, every earlier call is far enough in the past. */
  lemma LaunchIsSpaced<T>(w: World<T>, ttl: Time)
    requires Configured(ttl) && OneInFlight(w) && Flights(w) && Decide(w.entry, w.now, ttl).Launch?
    ensures forall j :: 0 <= j < |w.flights| ==> Spaced(w.flights[j], w.now, ttl)
  {
  }

  lemma FinishKeeps<T>(w: World<T>, ttl: Time, id: nat, fetched: Option<Copy<T>>)
    requires Configured(ttl) && Inv(w, ttl) && Enabled(w, Finish(id, fetched))
    ensures Inv(Next(w, ttl, Finish(id, fetched)), ttl)
  {
  }

  lemma StepKeeps<T>(w: World<T>, ttl: Time, step: Step<T>)
    requires Configured(ttl) && Inv(w, ttl) && Enabled(w, step)
    ensures Inv(Next(w, ttl, step), ttl)
  {
    match step
    case Tick(_) =>
    case Check(c) => CheckKeeps(w, ttl, c);
    case Finish(id, fetched) => FinishKeeps(w, ttl, id, fetched);
    case GiveUp(_) =>
  }

  /** Steps that are not enabled do not happen. */
  ghost function Run<T>(w: World<T>, ttl: Time, steps: seq<Step<T>>): World<T>
    decreases |steps|
  {
    if steps == [] then w
    else
      var before := Run(w, ttl, steps[..|steps| - 1]);
      var step := steps[|steps| - 1];
      if Enabled(before, step) then Next(before, ttl, step) else before
  }

  lemma {:induction false} RunKeeps<T>(w: World<T>, ttl: Time, steps: seq<Step<T>>)
    requires Configured(ttl) && Inv(w, ttl)
    ensures Inv(Run(w, ttl, steps), ttl)
    decreases |steps|
  {
    if steps != [] {
      RunKeeps(w, ttl, steps[..|steps| - 1]);
      var before := Run(w, ttl, steps[..|steps| - 1]);
      if Enabled(before, steps[|steps| - 1]) {
        StepKeeps(before, ttl, steps[|steps| - 1]);
      }
    }
  }

  /** At most one refresh runs, provider calls are spaced, and every reply is honest: in every
      interleaving of callers, refreshes and clock. */
  lemma SingleFlightHolds<T>(start: Time, ttl: Time, steps: seq<Step<T>>)
    requires Configured(ttl)
    ensures var w := Run(Start(start), ttl, steps);
            && |w.running| <= 1
            && AllSpaced(w.flights, ttl)
            && (forall i :: 0 <= i < |w.replies| ==> Honest(w.replies[i], ttl))
  {
    RunKeeps(Start(start), ttl, steps);
  }

  /** The age bound needs the configured ceiling: with a longer TTL some run serves an older copy. */
  lemma LongTtlServesOldCopies<T(!new)>(start: Time, ttl: Time, data: T)
    requires ttl > MAX_STALE
    ensures exists steps: seq<Step<T>> ::
              var w := Run(Start(start), ttl, steps); exists i :: 0 <= i < |w.replies| && !Honest(w.replies[i], ttl)
  {
    var copy := Copy(start, data);
    var s1: seq<Step<T>> := [Check(0)];
    var s2 := s1 + [Finish(0, Some(copy))];
    var s3 := s2 + [Tick(MAX_STALE)];
    var s4 := s3 + [Check(1)];
    assert s1[..0] == [] && s2[..1] == s1 && s3[..2] == s2 && s4[..3] == s3;
    var w0: World<T> := Start(start);
    var w1 := Run(w0, ttl, s1);
    assert w1.running == {0} && w1.flights == [Flight(start, None)];
    var w2 := Run(w0, ttl, s2);
    assert w2.entry == Entry(Some(copy), None, None) && w2.waiting == map[0 := Waiting(0, None)];
    var w3 := Run(w0, ttl, s3);
    var w4 := Run(w0, ttl, s4);
    assert w4.replies == [Reply(1, start + MAX_STALE, Some(copy), Served(copy, false))];
    assert !Honest(w4.replies[0], ttl);
  }

  /** A cached copy is only ever replaced by one at least a TTL newer. */
  lemma CopiesOnlyGetNewer<T>(w: World<T>, ttl: Time, step: Step<T>)
    requires Configured(ttl) && Inv(w, ttl) && Enabled(w, step) && w.entry.snap.Some?
    ensures var after := Next(w, ttl, step).entry.snap;
            && after.Some?
            && (after == w.entry.snap || after.value.fetchedAt >= w.entry.snap.value.fetchedAt + ttl)
  {
  }

  /** Over whole runs the cached copy is never lost and its date never decreases. */
  lemma {:induction false} FetchedAtNeverDecreases<T>(w: World<T>, ttl: Time, steps: seq<Step<T>>, i: nat)
    requires Configured(ttl) && Inv(w, ttl) && i <= |steps|
    ensures var before, after := Run(w, ttl, steps[..i]).entry.snap, Run(w, ttl, steps).entry.snap;
            before.Some? ==> after.Some? && before.value.fetchedAt <= after.value.fetchedAt
    decreases |steps|
  {
    if i < |steps| {
      var init := steps[..|steps| - 1];
      assert init[..i] == steps[..i];
      FetchedAtNeverDecreases(w, ttl, init, i);
      RunKeeps(w, ttl, init);
    } else {
      assert steps[..i] == steps;
    }
  }

  function Gap(ttl: Time): Time {
    if ttl < BACKOFF then ttl else BACKOFF
  }

  lemma NextGap<T>(flights: seq<Flight<T>>, ttl: Time, now: Time, j: nat)
    requires AllSpaced(flights, ttl) && forall k :: 0 <= k < |flights| ==> InOrder(flights[k], now)
    requires j + 1 < |flights|
    ensures flights[j + 1].started >= flights[j].started + Gap(ttl)
  {
    assert Spaced(flights[j], flights[j + 1].started, ttl);
  }

  lemma {:induction false} SpacedFlights<T>(flights: seq<Flight<T>>, ttl: Time, gap: Time, now: Time, i: nat, j: nat)
    requires AllSpaced(flights, ttl) && forall k :: 0 <= k < |flights| ==> InOrder(flights[k], now)
    requires i <= j < |flights| && gap == Gap(ttl)
    ensures flights[j].started >= flights[i].started + (j - i) * gap
    decreases j
  {
    if i < j {
      SpacedFlights(flights, ttl, gap, now, i, j - 1);
      NextGap(flights, ttl, now, j - 1);
      assert (j - i) * gap == (j - 1 - i) * gap + gap;
    }
  }

  /** So in every run n provider calls take (n - 1) times the shorter of the back-off and the TTL. */
  lemma {:induction false} CallsAreRare<T>(start: Time, ttl: Time, steps: seq<Step<T>>, i: nat, j: nat)
    requires Configured(ttl) && i <= j < |Run(Start<T>(start), ttl, steps).flights|
    ensures var flights := Run(Start<T>(start), ttl, steps).flights;
            flights[j].started >= flights[i].started + (j - i) * Gap(ttl)
  {
    RunKeeps(Start<T>(start), ttl, steps);
    var w := Run(Start<T>(start), ttl, steps);
    SpacedFlights(w.flights, ttl, Gap(ttl), w.now, i, j);
  }

  // ---- the two services ----

  function NoEntry<T>(): Entry<T> {
    Entry(None, None, None)
  }

  /** Flood areas: one entry for each period, made on first use. Each method is one critical section. */
  class FloodAreaService<T> {
    const ttl: Time
    var entries: map<string, Entry<T>>

    constructor (ttl: Time)
      ensures this.ttl == ttl && entries == map[]
    {
      this.ttl := ttl;
      entries := map[];
    }

    function EntryOf(period: string): Entry<T>
      reads this
    {
      if period in entries then entries[period] else NoEntry()
    }

    /** The locked part of Get. */
    method Check(period: string, now: Time, done: nat) returns (d: Decision<T>)
      modifies this
      ensures d == Decide(old(EntryOf(period)), now, ttl)
      ensures EntryOf(period) == Checked(old(EntryOf(period)), now, ttl, done)
      ensures forall other :: other != period ==> EntryOf(other) == old(EntryOf(other))
    {
      if period !in entries {
        entries := entries[period := NoEntry()];
      }
      var e := entries[period];
      if e.snap.Some? && now - e.snap.value.fetchedAt < ttl {
        return Answer(Served(e.snap.value, false));
      }
      if e.inflight == None {
        if e.failedAt.Some? && now - e.failedAt.value < BACKOFF {
          return Answer(Fallback(e.snap, now));
        }
        entries := entries[period := e.(inflight := Some(done))];
        return Launch;
      }
      d := Join;
    }

    /** The locked part of refresh, once the provider has answered. */
    method Refresh(period: string, fetched: Option<Copy<T>>, now: Time)
      requires period in entries
      modifies this
      ensures EntryOf(period) == Ended(old(EntryOf(period)), fetched, now)
      ensures forall other :: other != period ==> EntryOf(other) == old(EntryOf(other))
    {
      var e := entries[period];
      if fetched == None {
        e := e.(failedAt := Some(now));
      } else {
        e := e.(snap := fetched, failedAt := None);
      }
      entries := entries[period := e.(inflight := None)];
    }
  }

  /** Road cameras: the same protocol with its one entry spread over three fields. */
  class CameraService<T> {
    const ttl: Time
    var catalog: Option<Copy<T>>
    var failedAt: Option<Time>
    var inflight: Option<nat>

    constructor (ttl: Time)
      ensures this.ttl == ttl && Contents() == NoEntry()
    {
      this.ttl := ttl;
      catalog, failedAt, inflight := None, None, None;
    }

    function Contents(): Entry<T>
      reads this
    {
      Entry(catalog, failedAt, inflight)
    }

    /** The locked part of load. */
    method Check(now: Time, done: nat) returns (d: Decision<T>)
      modifies this
      ensures d == Decide(old(Contents()), now, ttl)
      ensures Contents() == Checked(old(Contents()), now, ttl, done)
    {
      if catalog.Some? && now - catalog.value.fetchedAt < ttl {
        return Answer(Served(catalog.value, false));
      }
      if inflight == None {
        if failedAt.Some? && now - failedAt.value < BACKOFF {
          return Answer(Fallback(catalog, now));
        }
        inflight := Some(done);
        return Launch;
      }
      d := Join;
    }

    method Refresh(fetched: Option<Copy<T>>, now: Time)
      modifies this
      ensures Contents() == Ended(old(Contents()), fetched, now)
    {
      if fetched == None {
        failedAt := Some(now);
      } else {
        catalog, failedAt := fetched, None;
      }
      inflight := None;
    }
  }
}
