/** The fixed-window limiter: sweeping old keys is unobservable, and bursts are bounded. */
module RateLimiter {
  import opened Common

  type Key = string

  datatype Window = Window(start: Time, count: int)

  datatype Config = Config(limit: int, window: Time)

  datatype Call = Call(key: Key, at: Time)

  type Hits = map<Key, Window>

  /** No sweep has happened before the first call. */
  datatype State = State(hits: Hits, lastSweep: Option<Time>)

  const START: State := State(map[], None)

  predicate Over(c: Config, w: Window, now: Time) {
    now - w.start >= c.window
  }

  function Swept(c: Config, hits: Hits, now: Time): Hits {
    map k | k in hits && !Over(c, hits[k], now) :: hits[k]
  }

  predicate SweepDue(c: Config, s: State, now: Time) {
    s.lastSweep.Some? ==> now - s.lastSweep.value > c.window
  }

  function Decide(c: Config, hits: Hits, call: Call): (Hits, bool) {
    if call.key !in hits || Over(c, hits[call.key], call.at) then (hits[call.key := Window(call.at, 1)], true)
    else if hits[call.key].count >= c.limit then (hits, false)
    else (hits[call.key := hits[call.key].(count := hits[call.key].count + 1)], true)
  }

  function Allowed(c: Config, s: State, call: Call): (State, bool) {
    var s := if SweepDue(c, s, call.at) then State(Swept(c, s.hits, call.at), Some(call.at)) else s;
    var (hits, ok) := Decide(c, s.hits, call);
    (s.(hits := hits), ok)
  }

  class Limiter {
    const limit: int
    const window: Time
    var hits: Hits
    var lastSweep: Option<Time>

    constructor (limit: int, window: Time)
      ensures this.limit == limit && this.window == window && Contents() == START
    {
      this.limit, this.window, hits, lastSweep := limit, window, map[], None;
    }

    function Contents(): State
      reads this
    {
      State(hits, lastSweep)
    }

    method Sweep(now: Time)
      modifies this`hits
      ensures hits == Swept(Config(limit, window), old(hits), now)
    {
      var keys := hits.Keys;
      while keys != {}
        invariant keys <= hits.Keys <= old(hits).Keys
        invariant forall k :: k in hits ==> hits[k] == old(hits)[k]
        invariant forall k :: k in old(hits) && k !in keys ==>
                    (k in hits <==> !Over(Config(limit, window), old(hits)[k], now))
        decreases |keys|
      {
        var k :| k in keys;
        if now - hits[k].start >= window {
          hits := hits - {k};
        }
        keys := keys - {k};
      }
    }

    method Allow(key: Key, now: Time) returns (ok: bool)
      modifies this
      ensures (Contents(), ok) == Allowed(Config(limit, window), old(Contents()), Call(key, now))
    {
      if lastSweep == None || now - lastSweep.value > window {
        Sweep(now);
        lastSweep := Some(now);
      }
      if key !in hits || now - hits[key].start >= window {
        hits := hits[key := Window(now, 1)];
        return true;
      }
      if hits[key].count >= limit {
        return false;
      }
      hits := hits[key := hits[key].(count := hits[key].count + 1)];
      ok := true;
    }
  }

  // ---- sweeping is unobservable ----

  predicate Monotone(calls: seq<Call>) {
    forall i, j :: 0 <= i < j < |calls| ==> calls[i].at <= calls[j].at
  }

  function Run(c: Config, calls: seq<Call>): State {
    if calls == [] then START else Allowed(c, Run(c, calls[..|calls| - 1]), calls[|calls| - 1]).0
  }

  function Answers(c: Config, calls: seq<Call>): (answers: seq<bool>)
    ensures |answers| == |calls|
  {
    if calls == [] then []
    else
      var init := calls[..|calls| - 1];
      Answers(c, init) + [Allowed(c, Run(c, init), calls[|calls| - 1]).1]
  }

  /** The same limiter without the sweep. */
  function PlainRun(c: Config, calls: seq<Call>): Hits {
    if calls == [] then map[] else Decide(c, PlainRun(c, calls[..|calls| - 1]), calls[|calls| - 1]).0
  }

  function PlainAnswers(c: Config, calls: seq<Call>): (answers: seq<bool>)
    ensures |answers| == |calls|
  {
    if calls == [] then []
    else
      var init := calls[..|calls| - 1];
      PlainAnswers(c, init) + [Decide(c, PlainRun(c, init), calls[|calls| - 1]).1]
  }

  /** Whatever was swept away is over, and stays over. */
  ghost predicate SameButOver(c: Config, swept: Hits, plain: Hits, now: Time) {
    && (forall k :: k in swept ==> k in plain && plain[k] == swept[k])
    && (forall k :: k in plain && k !in swept ==> Over(c, plain[k], now))
  }

  lemma SweepStaysSame(c: Config, s: State, plain: Hits, call: Call)
    requires SameButOver(c, s.hits, plain, call.at)
    ensures Allowed(c, s, call).1 == Decide(c, plain, call).1
    ensures SameButOver(c, Allowed(c, s, call).0.hits, Decide(c, plain, call).0, call.at)
  {
  }

  lemma {:induction false} RunsAgree(c: Config, calls: seq<Call>, now: Time)
    requires Monotone(calls) && forall i :: 0 <= i < |calls| ==> calls[i].at <= now
    ensures SameButOver(c, Run(c, calls).hits, PlainRun(c, calls), now)
    ensures Answers(c, calls) == PlainAnswers(c, calls)
    decreases |calls|
  {
    if calls != [] {
      var init, last := calls[..|calls| - 1], calls[|calls| - 1];
      RunsAgree(c, init, last.at);
      SweepStaysSame(c, Run(c, init), PlainRun(c, init), last);
    }
  }

  /** With a clock that never steps back, the sweeping limiter answers as one that never forgets. */
  lemma SweepIsUnobservable(c: Config, calls: seq<Call>)
    requires Monotone(calls)
    ensures Answers(c, calls) == PlainAnswers(c, calls)
  {
    if calls != [] {
      RunsAgree(c, calls, calls[|calls| - 1].at);
    }
  }

  /** n more calls just like this one. */
  function Again(call: Call, n: nat): seq<Call> {
    if n == 0 then [] else Again(call, n - 1) + [call]
  }

  function AllTrue(n: nat): seq<bool> {
    if n == 0 then [] else AllTrue(n - 1) + [true]
  }

  lemma {:induction false} RunGrows(c: Config, calls: seq<Call>, last: Call)
    ensures PlainRun(c, calls + [last]) == Decide(c, PlainRun(c, calls), last).0
    ensures PlainAnswers(c, calls + [last]) == PlainAnswers(c, calls) + [Decide(c, PlainRun(c, calls), last).1]
    ensures Run(c, calls + [last]) == Allowed(c, Run(c, calls), last).0
    ensures Answers(c, calls + [last]) == Answers(c, calls) + [Allowed(c, Run(c, calls), last).1]
  {
    assert (calls + [last])[..|calls|] == calls;
  }

  /** Calls that find their key's window open and not full are all admitted, and counted. */
  lemma {:induction false} WindowFills(c: Config, calls: seq<Call>, call: Call, start: Time, count: int, n: nat)
    requires call.key in PlainRun(c, calls) && PlainRun(c, calls)[call.key] == Window(start, count)
    requires call.at - start < c.window && (n == 0 || count + n <= c.limit)
    ensures PlainRun(c, calls + Again(call, n)) == PlainRun(c, calls)[call.key := Window(start, count + n)]
    ensures PlainAnswers(c, calls + Again(call, n)) == PlainAnswers(c, calls) + AllTrue(n)
    decreases n
  {
    hide PlainRun, PlainAnswers, Run, Answers, Allowed;
    if n == 0 {
      assert calls + Again(call, 0) == calls;
    } else {
      WindowFills(c, calls, call, start, count, n - 1);
      RunGrows(c, calls + Again(call, n - 1), call);
      assert calls + Again(call, n) == calls + Again(call, n - 1) + [call];
      assert PlainAnswers(c, calls) + AllTrue(n) == PlainAnswers(c, calls) + AllTrue(n - 1) + [true];
    }
  }

  /** The same for the sweeping limiter, while no sweep is due. */
  lemma {:induction false} SweptWindowFills(c: Config, calls: seq<Call>, call: Call, start: Time, count: int, n: nat)
    requires var s := Run(c, calls);
             && call.key in s.hits && s.hits[call.key] == Window(start, count) && !SweepDue(c, s, call.at)
    requires call.at - start < c.window && (n == 0 || count + n <= c.limit)
    ensures Run(c, calls + Again(call, n)) ==
            Run(c, calls).(hits := Run(c, calls).hits[call.key := Window(start, count + n)])
    decreases n
  {
    hide PlainRun, PlainAnswers, Run, Answers;
    if n == 0 {
      assert calls + Again(call, 0) == calls;
    } else {
      SweptWindowFills(c, calls, call, start, count, n - 1);
      RunGrows(c, calls + Again(call, n - 1), call);
      assert calls + Again(call, n) == calls + Again(call, n - 1) + [call];
    }
  }

  /** A limit below one counts as one: the first call of a window is never refused. */
  function Burst(c: Config): (n: nat) {
    if c.limit < 1 then 1 else c.limit
  }

  const A_KEY: Key := "a"
  const B_KEY: Key := "b"

  /** a's window is full when another key's call sweeps it; then the clock steps back into it. */
  function StepBack(c: Config, begun: seq<Call>, at: Time, late: Time): seq<Call> {
    begun + Again(Call(A_KEY, at), Burst(c) - 1) + [Call(B_KEY, late)] + [Call(A_KEY, at)]
  }

  lemma {:induction false} StepBackShows(c: Config, begun: seq<Call>, at: Time, late: Time)
    requires var s := Run(c, begun);
             && A_KEY in s.hits && s.hits[A_KEY] == Window(0, 1) && s.lastSweep.Some?
             && at - s.lastSweep.value <= c.window < late - s.lastSweep.value
    requires A_KEY in PlainRun(c, begun) && PlainRun(c, begun)[A_KEY] == Window(0, 1)
    requires at < c.window <= late && at - late <= c.window
    ensures Answers(c, StepBack(c, begun, at, late)) != PlainAnswers(c, StepBack(c, begun, at, late))
  {
    hide PlainRun, PlainAnswers, Run, Answers, Again;
    var again, other := Call(A_KEY, at), Call(B_KEY, late);
    var filled := begun + Again(again, Burst(c) - 1);
    var swept := filled + [other];
    WindowFills(c, begun, again, 0, 1, Burst(c) - 1);
    SweptWindowFills(c, begun, again, 0, 1, Burst(c) - 1);
    RunGrows(c, filled, other);
    RunGrows(c, swept, again);
    assert A_KEY !in Run(c, swept).hits && PlainRun(c, swept)[A_KEY] == Window(0, Burst(c));
    var n := |swept|;
    assert Answers(c, StepBack(c, begun, at, late))[n] && !PlainAnswers(c, StepBack(c, begun, at, late))[n];
  }

  /** Whatever the limit and the window, some run with a clock that steps back shows the sweep. */
  lemma BackwardClockShows(c: Config)
    ensures exists calls: seq<Call> :: Answers(c, calls) != PlainAnswers(c, calls)
  {
    var far := if c.window < 0 then -c.window + 1 else c.window + 1;
    var begun := [] + [Call(A_KEY, 0)];
    RunGrows(c, [], Call(A_KEY, 0));
    StepBackShows(c, begun, -far, far);
  }

  /** No call is made more than `skew` before an earlier one. */
  predicate StepsBackAtMost(calls: seq<Call>, skew: nat) {
    forall i, j :: 0 <= i < j < |calls| ==> calls[i].at <= calls[j].at + skew
  }

  lemma {:induction false} AgainIs(call: Call, n: nat)
    ensures |Again(call, n)| == n && forall i :: 0 <= i < n ==> Again(call, n)[i] == call
    decreases n
  {
    if n > 0 {
      AgainIs(call, n - 1);
    }
  }

  lemma OneTickBack(c: Config, begun: seq<Call>, skew: nat)
    requires c.window > 0 && skew >= 1 && begun == [Call(B_KEY, -1), Call(A_KEY, 0)]
    ensures StepsBackAtMost(StepBack(c, begun, c.window - 1, c.window), skew)
  {
    AgainIs(Call(A_KEY, c.window - 1), Burst(c) - 1);
    hide Again;
  }

  lemma OneTickShows(c: Config, skew: nat)
    requires c.window > 0 && skew >= 1
    ensures exists calls: seq<Call> :: StepsBackAtMost(calls, skew) && Answers(c, calls) != PlainAnswers(c, calls)
  {
    var first := [] + [Call(B_KEY, -1)];
    var begun := first + [Call(A_KEY, 0)];
    RunGrows(c, [], Call(B_KEY, -1));
    RunGrows(c, first, Call(A_KEY, 0));
    var at, late := c.window - 1, c.window;
    StepBackShows(c, begun, at, late);
    hide Run, PlainRun, Answers, PlainAnswers, StepBack, StepsBackAtMost;
    OneTickBack(c, begun, skew);
  }

  /** Exactly how wrong the clock may be: the sweep is unobservable in all runs that step back by at
      most `skew` iff that is not at all. */
  lemma UnobservableIff(c: Config, skew: nat)
    requires c.window > 0
    ensures (forall calls: seq<Call> :: StepsBackAtMost(calls, skew) ==> Answers(c, calls) == PlainAnswers(c, calls))
            <==> skew == 0
  {
    if skew == 0 {
      forall calls: seq<Call> | StepsBackAtMost(calls, skew)
        ensures Answers(c, calls) == PlainAnswers(c, calls)
      {
        assert Monotone(calls);
        SweepIsUnobservable(c, calls);
      }
    } else {
      OneTickShows(c, skew);
    }
  }

  // ---- how much one key gets through ----

  /** An admitted call, with the window it fell in and its rank there. */
  datatype Hit = Hit(at: Time, start: Time, rank: int)

  function Trace(c: Config, calls: seq<Call>, key: Key): seq<Hit> {
    if calls == [] then []
    else
      var init, last := calls[..|calls| - 1], calls[|calls| - 1];
      var (hits, ok) := Decide(c, PlainRun(c, init), last);
      Trace(c, init, key) +
      if ok && last.key == key then [Hit(last.at, hits[key].start, hits[key].count)] else []
  }

  /** When calls of the key were admitted. */
  function Admitted(calls: seq<Call>, answers: seq<bool>, key: Key): seq<Time>
    requires |calls| == |answers|
  {
    if calls == [] then []
    else
      var init := Admitted(calls[..|calls| - 1], answers[..|calls| - 1], key);
      if answers[|calls| - 1] && calls[|calls| - 1].key == key then init + [calls[|calls| - 1].at] else init
  }

  lemma {:induction false} TraceIsAdmitted(c: Config, calls: seq<Call>, key: Key)
    ensures var times := Admitted(calls, PlainAnswers(c, calls), key);
            |Trace(c, calls, key)| == |times| && forall i :: 0 <= i < |times| ==> Trace(c, calls, key)[i].at == times[i]
    decreases |calls|
  {
    if calls != [] {
      var init := calls[..|calls| - 1];
      TraceIsAdmitted(c, init, key);
      assert PlainAnswers(c, calls)[..|calls| - 1] == PlainAnswers(c, init);
    }
  }

  ghost predicate HitOk(c: Config, h: Hit) {
    && 1 <= h.rank <= Burst(c) && h.start <= h.at
    && (h.rank == 1 ==> h.at == h.start) && (h.rank > 1 ==> h.at < h.start + c.window)
  }

  /** The next admitted call is in the same window, or starts one at least a window later. */
  ghost predicate Follows(c: Config, h: Hit, next: Hit) {
    && h.at <= next.at
    && ((next.start == h.start && next.rank == h.rank + 1) || (next.rank == 1 && next.start >= h.start + c.window))
  }

  ghost predicate Chained(c: Config, trace: seq<Hit>) {
    && (trace != [] ==> trace[0].rank == 1)
    && (forall i :: 0 <= i < |trace| ==> HitOk(c, trace[i]))
    && (forall i :: 0 <= i < |trace| - 1 ==> Follows(c, trace[i], trace[i + 1]))
  }

  /** The table holds the last admitted call's window. */
  ghost predicate Holds(hits: Hits, trace: seq<Hit>, key: Key, now: Time) {
    if trace == [] then key !in hits
    else
      var last := trace[|trace| - 1];
      key in hits && hits[key] == Window(last.start, last.rank) && last.at <= now
  }

  lemma {:induction false} TraceIsChained(c: Config, calls: seq<Call>, key: Key, now: Time)
    requires Monotone(calls) && forall i :: 0 <= i < |calls| ==> calls[i].at <= now
    ensures Chained(c, Trace(c, calls, key)) && Holds(PlainRun(c, calls), Trace(c, calls, key), key, now)
    decreases |calls|
  {
    if calls != [] {
      var init, last := calls[..|calls| - 1], calls[|calls| - 1];
      TraceIsChained(c, init, key, last.at);
      var trace := Trace(c, init, key);
      var (hits, ok) := Decide(c, PlainRun(c, init), last);
      if ok && last.key == key {
        var h := Hit(last.at, hits[key].start, hits[key].count);
        assert HitOk(c, h);
        assert trace != [] ==> Follows(c, trace[|trace| - 1], h);
      }
    }
  }

  lemma {:induction false} ChainOrdered(c: Config, trace: seq<Hit>, i: nat, j: nat)
    requires Chained(c, trace) && c.window > 0 && i <= j < |trace|
    ensures trace[i].at <= trace[j].at
    ensures trace[i].start == trace[j].start ==> trace[j].rank == trace[i].rank + (j - i)
    ensures trace[i].start != trace[j].start ==> trace[j].start >= trace[i].start + c.window
    decreases j
  {
    if i < j {
      ChainOrdered(c, trace, i, j - 1);
      assert Follows(c, trace[j - 1], trace[j]);
    }
  }

  /** The first call of the trace after i that starts another window. */
  lemma {:induction false} FirstOfNextWindow(trace: seq<Hit>, i: nat, j: nat) returns (m: nat)
    requires i < j < |trace| && trace[j].start != trace[i].start
    ensures i < m <= j && trace[m].start != trace[i].start && trace[m - 1].start == trace[i].start
    decreases j
  {
    if trace[j - 1].start == trace[i].start {
      m := j;
    } else {
      m := FirstOfNextWindow(trace, i, j - 1);
    }
  }

  /** Two windows can touch an interval, and the earlier one has spent a call on opening. */
  lemma ChainBounded(c: Config, trace: seq<Hit>, i: nat, j: nat)
    requires Chained(c, trace) && c.window > 0 && i <= j < |trace| && trace[j].at < trace[i].at + c.window
    ensures j - i + 1 <= 2 * Burst(c) - 1
  {
    ChainOrdered(c, trace, i, j);
    assert HitOk(c, trace[i]) && HitOk(c, trace[j]);
    if trace[i].start != trace[j].start {
      var m := FirstOfNextWindow(trace, i, j);
      ChainOrdered(c, trace, i, m - 1);
      ChainOrdered(c, trace, i, m);
      ChainOrdered(c, trace, m, j);
      assert HitOk(c, trace[m - 1]) && Follows(c, trace[m - 1], trace[m]);
    }
  }

  /** In any interval one window long, a key gets at most one call fewer than twice its limit; a limit
      below one counts as one. */
  lemma BurstsAreBounded(c: Config, calls: seq<Call>, key: Key, i: nat, j: nat)
    requires Monotone(calls)
    requires i <= j < |Admitted(calls, Answers(c, calls), key)|
    requires var times := Admitted(calls, Answers(c, calls), key); times[j] < times[i] + c.window
    ensures j - i + 1 <= 2 * Burst(c) - 1
  {
    SweepIsUnobservable(c, calls);
    TraceIsAdmitted(c, calls, key);
    TraceIsChained(c, calls, key, calls[|calls| - 1].at);
    var trace := Trace(c, calls, key);
    if c.window <= 0 {
      AdmittedInOrder(c, trace, i, j);
    }
    ChainBounded(c, trace, i, j);
  }

  lemma {:induction false} AdmittedInOrder(c: Config, trace: seq<Hit>, i: nat, j: nat)
    requires Chained(c, trace) && i <= j < |trace|
    ensures trace[i].at <= trace[j].at
    decreases j
  {
    if i < j {
      AdmittedInOrder(c, trace, i, j - 1);
      assert Follows(c, trace[j - 1], trace[j]);
    }
  }

  /** Windows of a key start at least one window apart. */
  lemma WindowsAreApart(c: Config, calls: seq<Call>, key: Key, i: nat, j: nat)
    requires Monotone(calls) && c.window > 0 && i <= j < |Trace(c, calls, key)|
    ensures var trace := Trace(c, calls, key);
            trace[i].start == trace[j].start || trace[j].start >= trace[i].start + c.window
  {
    TraceIsChained(c, calls, key, calls[|calls| - 1].at);
    ChainOrdered(c, Trace(c, calls, key), i, j);
  }

  /** The calls admitted just before one of rank r in its window opened that window and filled it. */
  lemma {:induction false} RanksBack(c: Config, trace: seq<Hit>, k: nat)
    requires Chained(c, trace) && trace != [] && k < trace[|trace| - 1].rank
    ensures var last := trace[|trace| - 1];
            k < |trace| && trace[|trace| - 1 - k].start == last.start && trace[|trace| - 1 - k].rank == last.rank - k
    decreases k
  {
    if k > 0 {
      RanksBack(c, trace, k - 1);
      var i := |trace| - k;
      assert Follows(c, trace[i - 1], trace[i]);
    }
  }

  /** A call is refused only when the limit is used up: so many calls of its own key were admitted less
      than a window ago. Other keys, and calls refused before, never count against it. */
  lemma {:induction false} RefusedOnlyWhenFull(c: Config, calls: seq<Call>, call: Call)
    requires Monotone(calls + [call])
    requires !Answers(c, calls + [call])[|calls|]
    ensures var times, n := Admitted(calls, Answers(c, calls), call.key), Burst(c);
            n <= |times| && call.at - times[|times| - n] < c.window
  {
    var all := calls + [call];
    assert all[..|calls|] == calls;
    assert forall i :: 0 <= i < |calls| ==> all[i] == calls[i];
    assert Monotone(calls);
    SweepIsUnobservable(c, all);
    SweepIsUnobservable(c, calls);
    TraceIsAdmitted(c, calls, call.key);
    TraceIsChained(c, calls, call.key, call.at);
    var trace := Trace(c, calls, call.key);
    var last := trace[|trace| - 1];
    assert HitOk(c, last) && last.rank == Burst(c);
    RanksBack(c, trace, last.rank - 1);
    assert HitOk(c, trace[|trace| - last.rank]);
  }

  /** Refusing everything is not expressible: even with limit zero a key's first call gets through. */
  lemma ZeroLimitStillAdmits(c: Config, key: Key, at: Time)
    ensures Answers(c, [Call(key, at)]) == [true]
  {
  }

  /** Admitted calls i to j of the key fell in one window. */
  ghost predicate SameWindow(c: Config, calls: seq<Call>, key: Key, i: nat, j: nat) {
    i <= j < |Trace(c, calls, key)| && Trace(c, calls, key)[i].start == Trace(c, calls, key)[j].start
  }

  /** No window of any run with a monotone clock admits more than the limit. */
  ghost predicate WindowsKeepLimit(c: Config) {
    forall calls: seq<Call>, key, i: nat, j: nat :: Monotone(calls) && SameWindow(c, calls, key, i, j) ==>
      j - i + 1 <= c.limit
  }

  /** The limit is kept in every window iff it is at least one. */
  lemma LimitKeptIff(c: Config)
    requires c.window > 0
    ensures WindowsKeepLimit(c) <==> c.limit >= 1
  {
    if c.limit >= 1 {
      forall calls: seq<Call>, key, i: nat, j: nat | Monotone(calls) && SameWindow(c, calls, key, i, j)
        ensures j - i + 1 <= c.limit
      {
        TraceIsChained(c, calls, key, calls[|calls| - 1].at);
        ChainOrdered(c, Trace(c, calls, key), i, j);
      }
    } else {
      var calls := [Call(A_KEY, 0)];
      assert calls[..0] == [];
      assert Trace(c, calls, A_KEY) == [Hit(0, 0, 1)];
      assert SameWindow(c, calls, A_KEY, 0, 0);
    }
  }

  /** One call that opens a window, the rest of the limit just before it closes, then a whole new window. */
  function Worst(c: Config, key: Key): seq<Call> {
    [Call(key, 0)] + Again(Call(key, c.window - 1), Burst(c) - 1) + [Call(key, c.window)]
      + Again(Call(key, c.window), Burst(c) - 1)
  }

  /** A call that opens a window, and more that fill it. */
  lemma {:induction false} OpensAndFills(c: Config, calls: seq<Call>, first: Call, again: Call, n: nat)
    requires n < c.limit && again.key == first.key && again.at - first.at < c.window
    requires first.key in PlainRun(c, calls) ==> Over(c, PlainRun(c, calls)[first.key], first.at)
    ensures var after := PlainRun(c, calls + [first] + Again(again, n));
            first.key in after && after[first.key].start == first.at
    ensures PlainAnswers(c, calls + [first] + Again(again, n)) == PlainAnswers(c, calls) + [true] + AllTrue(n)
  {
    hide PlainRun, PlainAnswers, Run, Answers, Again, AllTrue;
    RunGrows(c, calls, first);
    WindowFills(c, calls + [first], again, first.at, 1, n);
  }

  lemma FirstWindowAnswers(c: Config, key: Key)
    requires c.limit >= 1 && c.window >= 2
    ensures var calls := [Call(key, 0)] + Again(Call(key, c.window - 1), c.limit - 1);
            && PlainAnswers(c, calls) == [true] + AllTrue(c.limit - 1)
            && key in PlainRun(c, calls) && PlainRun(c, calls)[key].start == 0
  {
    var first := Call(key, 0);
    assert [] + [first] == [first] && PlainRun(c, []) == map[] && PlainAnswers(c, []) == [];
    hide PlainRun, PlainAnswers, Again, AllTrue;
    OpensAndFills(c, [], first, Call(key, c.window - 1), c.limit - 1);
    assert [] + [true] == [true];
  }

  lemma WorstAnswers(c: Config, key: Key)
    requires c.limit >= 1 && c.window >= 2
    ensures PlainAnswers(c, Worst(c, key)) == [true] + AllTrue(c.limit - 1) + [true] + AllTrue(c.limit - 1)
  {
    hide PlainRun, PlainAnswers, Again, AllTrue;
    var first, next := [Call(key, 0)] + Again(Call(key, c.window - 1), c.limit - 1), Call(key, c.window);
    FirstWindowAnswers(c, key);
    OpensAndFills(c, first, next, next, c.limit - 1);
  }

  lemma WorstIsMonotone(c: Config, key: Key)
    requires c.limit >= 1 && c.window >= 2
    ensures Monotone(Worst(c, key)) && |Worst(c, key)| == 2 * c.limit
    ensures Worst(c, key)[1].at >= c.window - 1 && Worst(c, key)[2 * c.limit - 1].at == c.window
    ensures forall i :: 0 <= i < |Worst(c, key)| ==> Worst(c, key)[i].key == key
  {
    hide Again;
    AgainIs(Call(key, c.window - 1), c.limit - 1);
    AgainIs(Call(key, c.window), c.limit - 1);
  }

  /** The bound is attained for every limit: from the second call on, 2 * limit - 1 calls are admitted
      within one window length. */
  lemma BoundIsAttained(c: Config, key: Key)
    requires c.limit >= 1 && c.window >= 2
    ensures Monotone(Worst(c, key))
    ensures var times := Admitted(Worst(c, key), Answers(c, Worst(c, key)), key);
            |times| == 2 * c.limit && times[2 * c.limit - 1] < times[1] + c.window
  {
    hide Monotone, Worst, Answers, PlainAnswers, AllTrue, Admitted;
    WorstIsMonotone(c, key);
    WorstAnswers(c, key);
    SweepIsUnobservable(c, Worst(c, key));
    AllTrueIs(c.limit - 1);
    AllAdmitted(Worst(c, key), PlainAnswers(c, Worst(c, key)), key);
  }

  lemma {:induction false} AllTrueIs(n: nat)
    ensures |AllTrue(n)| == n && forall i :: 0 <= i < n ==> AllTrue(n)[i]
    decreases n
  {
    if n > 0 {
      AllTrueIs(n - 1);
    }
  }

  lemma {:induction false} AllAdmitted(calls: seq<Call>, answers: seq<bool>, key: Key)
    requires |calls| == |answers| && forall i :: 0 <= i < |calls| ==> answers[i] && calls[i].key == key
    ensures var times := Admitted(calls, answers, key);
            |times| == |calls| && forall i :: 0 <= i < |calls| ==> times[i] == calls[i].at
    decreases |calls|
  {
    if calls != [] {
      AllAdmitted(calls[..|calls| - 1], answers[..|calls| - 1], key);
    }
  }
}
