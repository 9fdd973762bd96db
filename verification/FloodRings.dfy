/** Ring simplification: Douglas-Peucker over a closed ring, then rounding and removal of repeats. */
module FloodRings {
  import opened Common
  import opened FloodGeometry
  import opened DouglasPeucker

  const MIN_RING: nat := 4

  // ---- rounding to five decimals ----

  /** Rounds half away from zero. */
  function Round(x: real): int {
    if x >= 0.0 then (x + 0.5).Floor else -((-x + 0.5).Floor)
  }

  function Round5(v: real): real {
    Round(v * 100000.0) as real / 100000.0
  }

  function RoundPoint(p: Point): Point {
    Point(Round5(p.x), Round5(p.y))
  }

  lemma RoundTwice(v: real)
    ensures Round5(Round5(v)) == Round5(v)
  {
    var k := Round(v * 100000.0);
    assert Round5(v) * 100000.0 == k as real;
    assert Round(k as real) == k;
  }

  // ---- the vertices kept ----

  /** How far vertex i is from the start. */
  type Reach = int -> real

  function StartReach(ring: Ring): Reach {
    i => if 0 <= i < |ring| then SqDist(ring[i], ring[0]) else 0.0
  }

  /** The first of the inner vertices before `end` farthest from the start. */
  function Far(reach: Reach, end: int): (far: int)
    ensures if end <= 1 then far == 0 else 0 < far < end
    decreases end
  {
    if end <= 1 then 0
    else
      var far := Far(reach, end - 1);
      if end == 2 || reach(end - 1) > reach(far) then end - 1 else far
  }

  ghost predicate IsFar(reach: Reach, end: int, far: int) {
    && 1 <= far < end
    && (forall i :: 1 <= i < end ==> reach(i) <= reach(far))
    && (forall i :: 1 <= i < far ==> reach(i) < reach(far))
  }

  lemma {:induction false} FarIs(reach: Reach, end: int)
    requires end >= 2
    ensures IsFar(reach, end, Far(reach, end))
    decreases end
  {
    if end > 2 {
      FarIs(reach, end - 1);
    }
  }

  lemma FarUnique(reach: Reach, end: int, far: int)
    requires IsFar(reach, end, far)
    ensures far == Far(reach, end)
  {
  }

  lemma ReachNonNegative(ring: Ring)
    ensures forall i :: StartReach(ring)(i) >= 0.0
  {
  }

  method FarFromStart(ring: Ring) returns (far: int)
    requires |ring| >= 3
    ensures far == Far(StartReach(ring), |ring| - 1)
  {
    hide SqDist;
    ghost var reach := StartReach(ring);
    ReachNonNegative(ring);
    far := 0;
    var farD := -1.0;
    var i := 1;
    while i < |ring| - 1
      invariant 1 <= i <= |ring| - 1 && far == Far(reach, i)
      invariant farD == if i == 1 then -1.0 else reach(far)
    {
      var d := SqDist(ring[i], ring[0]);
      assert d == reach(i);
      if d > farD {
        far, farD := i, d;
      }
      i := i + 1;
    }
  }

  /** A closed ring has no baseline of its own: it is simplified in two halves, split at the vertex
      farthest from its start. `last` is the index of its closing vertex. */
  ghost function Selected(off: Gauge, reach: Reach, last: int, sqTol: real): (kept: set<int>)
    requires last >= 2
    ensures forall i :: i in kept ==> 0 <= i <= last
  {
    var far := Far(reach, last);
    {0, far, last} + Kept(off, 0, far, sqTol) + Kept(off, far, last, sqTol)
  }

  ghost function RingKept(ring: Ring, tolerance: real): (kept: set<int>)
    requires |ring| >= 3
    ensures forall i :: i in kept ==> 0 <= i < |ring|
  {
    Selected(ChordGauge(ring), StartReach(ring), |ring| - 1, tolerance * tolerance)
  }

  lemma {:induction false} KeptBefore(kept: set<int>, i: int) returns (l: int)
    requires i >= 0 && 0 in kept
    ensures 0 <= l <= i && l in kept && forall k :: l < k <= i ==> k !in kept
    decreases i
  {
    if i in kept {
      l := i;
    } else {
      l := KeptBefore(kept, i - 1);
    }
  }

  lemma {:induction false} KeptAfter(kept: set<int>, i: int, last: int) returns (r: int)
    requires 0 <= i <= last && last in kept
    ensures i <= r <= last && r in kept && forall k :: i <= k < r ==> k !in kept
    decreases last - i
  {
    if i in kept {
      r := i;
    } else {
      r := KeptAfter(kept, i + 1, last);
    }
  }

  /** A vertex dropped from the ring is within the tolerance of the chord between its kept neighbours. */
  lemma DroppedFromRing(off: Gauge, reach: Reach, last: int, sqTol: real, l: int, i: int, r: int)
    requires last >= 2 && 0 <= l < i < r <= last
    requires l in Selected(off, reach, last, sqTol) && r in Selected(off, reach, last, sqTol)
    requires forall k :: l < k < r ==> k !in Selected(off, reach, last, sqTol)
    ensures off(l, r, i) <= sqTol
  {
    var far := Far(reach, last);
    if r <= far {
      assert Neighbours(Kept(off, 0, far, sqTol), 0, far, l, r);
      DroppedWithinTolerance(off, 0, far, sqTol, l, i, r);
    } else {
      assert far in Selected(off, reach, last, sqTol);
      assert Neighbours(Kept(off, far, last, sqTol), far, last, l, r);
      DroppedWithinTolerance(off, far, last, sqTol, l, i, r);
    }
  }

  lemma SelectedAntitone(off: Gauge, reach: Reach, last: int, fine: real, coarse: real)
    requires last >= 2 && fine <= coarse
    ensures Selected(off, reach, last, coarse) <= Selected(off, reach, last, fine)
  {
    var far := Far(reach, last);
    Antitone(off, 0, far, fine, coarse);
    Antitone(off, far, last, fine, coarse);
  }

  lemma SquaresOrdered(x: real, y: real)
    requires 0.0 <= x <= y
    ensures x * x <= y * y
  {
  }

  /** Zooming in never loses a vertex: a smaller tolerance keeps a superset. */
  lemma FinerKeepsMore(ring: Ring, fine: real, coarse: real)
    requires |ring| >= 3 && 0.0 <= fine <= coarse
    ensures RingKept(ring, coarse) <= RingKept(ring, fine)
  {
    SquaresOrdered(fine, coarse);
    SelectedAntitone(ChordGauge(ring), StartReach(ring), |ring| - 1, fine * fine, coarse * coarse);
  }

  // ---- simplifying twice ----

  /** ks lists the kept vertices of a ring in order. */
  ghost predicate Picks(ks: seq<int>, kept: set<int>) {
    Increasing(ks) && forall k :: k in ks <==> k in kept
  }

  /** again measures from the start the vertices that ks picks out. */
  ghost predicate Follows(again: Reach, reach: Reach, ks: seq<int>) {
    forall j :: 0 <= j < |ks| ==> again(j) == reach(ks[j])
  }

  lemma {:induction false} PicksHalf(ks: seq<int>, u: int, v: int, half: set<int>, kept: set<int>)
    requires Picks(ks, kept) && 0 <= u < v < |ks|
    requires forall k :: ks[u] < k < ks[v] ==> (k in kept <==> k in half)
    requires forall k :: k in half ==> ks[u] < k < ks[v]
    ensures Lists(ks, u, v, half)
  {
  }

  /** Where the split vertex sits among the kept vertices. */
  lemma {:induction false} PicksFar(ks: seq<int>, kept: set<int>, far: int, last: int) returns (m: int)
    requires Picks(ks, kept) && 0 < far < last && {0, far, last} <= kept
    requires forall k :: k in kept ==> 0 <= k <= last
    ensures |ks| >= 3 && 0 < m < |ks| - 1 && ks[0] == 0 && ks[m] == far && ks[|ks| - 1] == last
    ensures forall j :: 0 <= j < |ks| ==> 0 <= ks[j] <= last
  {
    assert 0 in ks && far in ks && last in ks;
    assert forall j :: 0 <= j < |ks| ==> ks[j] in ks;
    m :| 0 <= m < |ks| && ks[m] == far;
    var first :| 0 <= first < |ks| && ks[first] == 0;
    var end :| 0 <= end < |ks| && ks[end] == last;
    assert ks[0] in ks && ks[|ks| - 1] in ks;
  }

  lemma {:induction false} SameFar(again: Reach, reach: Reach, ks: seq<int>, m: int, last: int)
    requires Increasing(ks) && Follows(again, reach, ks) && |ks| >= 3 && 0 < m < |ks| - 1
    requires ks[0] == 0 && ks[|ks| - 1] == last && ks[m] == Far(reach, last)
    ensures Far(again, |ks| - 1) == m
  {
    forall j | 1 <= j < |ks| - 1
      ensures 1 <= ks[j] < last && again(j) == reach(ks[j])
    {
      assert ks[0] < ks[j] < ks[|ks| - 1];
    }
    FarIs(reach, last);
    assert IsFar(again, |ks| - 1, m);
    FarUnique(again, |ks| - 1, m);
  }

  ghost predicate SelectsAll(off: Gauge, reach: Reach, last: int, sqTol: real)
    requires last >= 2
  {
    forall j :: 0 <= j <= last ==> j in Selected(off, reach, last, sqTol)
  }

  lemma {:induction false} SelectTwice(out: Gauge, off: Gauge, again: Reach, reach: Reach, last: int, sqTol: real,
                                       ks: seq<int>)
    requires last >= 2 && Picks(ks, Selected(off, reach, last, sqTol))
    requires Restricts(out, off, ks) && Follows(again, reach, ks)
    ensures |ks| >= 3 && SelectsAll(out, again, |ks| - 1, sqTol)
  {
    var far := Far(reach, last);
    var m := PicksFar(ks, Selected(off, reach, last, sqTol), far, last);
    SameFar(again, reach, ks, m, last);
    LeftTwice(out, off, reach, ks, m, last, sqTol);
    RightTwice(out, off, reach, ks, m, last, sqTol);
    HalvesSelectAll(out, again, |ks| - 1, m, sqTol);
  }

  lemma {:induction false} LeftTwice(out: Gauge, off: Gauge, reach: Reach, ks: seq<int>, m: int, last: int, sqTol: real)
    requires last >= 2 && Picks(ks, Selected(off, reach, last, sqTol)) && Restricts(out, off, ks)
    requires 0 < m < |ks| && ks[0] == 0 && ks[m] == Far(reach, last)
    ensures KeepsAll(out, 0, m, sqTol)
  {
    HalfTwice(out, off, ks, 0, m, Kept(off, 0, ks[m], sqTol), Selected(off, reach, last, sqTol), sqTol);
  }

  lemma {:induction false} RightTwice(out: Gauge, off: Gauge, reach: Reach, ks: seq<int>, m: int, last: int,
                                      sqTol: real)
    requires last >= 2 && Picks(ks, Selected(off, reach, last, sqTol)) && Restricts(out, off, ks)
    requires 0 <= m < |ks| - 1 && ks[m] == Far(reach, last) && ks[|ks| - 1] == last
    ensures KeepsAll(out, m, |ks| - 1, sqTol)
  {
    HalfTwice(out, off, ks, m, |ks| - 1, Kept(off, ks[m], last, sqTol), Selected(off, reach, last, sqTol), sqTol);
  }

  lemma {:induction false} HalfTwice(out: Gauge, off: Gauge, ks: seq<int>, u: int, v: int, half: set<int>,
                                     kept: set<int>, sqTol: real)
    requires Picks(ks, kept) && Restricts(out, off, ks) && 0 <= u < v < |ks|
    requires half == Kept(off, ks[u], ks[v], sqTol)
    requires forall k :: ks[u] < k < ks[v] ==> (k in kept <==> k in half)
    ensures KeepsAll(out, u, v, sqTol)
  {
    PicksHalf(ks, u, v, half, kept);
    KeepsItsOutput(out, off, ks, u, v, sqTol);
  }

  lemma HalvesSelectAll(off: Gauge, reach: Reach, last: int, far: int, sqTol: real)
    requires 0 < far < last && far == Far(reach, last)
    requires KeepsAll(off, 0, far, sqTol) && KeepsAll(off, far, last, sqTol)
    ensures SelectsAll(off, reach, last, sqTol)
  {
  }

  /** The kept vertices, before rounding. */
  ghost function Picked(ring: Ring, ks: seq<int>): Ring
    requires forall j :: 0 <= j < |ks| ==> 0 <= ks[j] < |ring|
  {
    seq(|ks|, j requires 0 <= j < |ks| => ring[ks[j]])
  }

  lemma {:induction false} PickedInRange(ks: seq<int>, kept: set<int>, last: int)
    requires Picks(ks, kept) && 0 in kept && forall k :: k in kept ==> 0 <= k <= last
    ensures |ks| > 0 && ks[0] == 0 && forall j :: 0 <= j < |ks| ==> 0 <= ks[j] <= last
  {
    forall j | 0 <= j < |ks|
      ensures 0 <= ks[j] <= last
    {
      assert ks[j] in ks;
    }
    assert 0 in ks;
    assert ks[0] == 0;
  }

  /** Simplifying the kept vertices again, before rounding, drops nothing. */
  lemma {:induction false} SimplifyTwice(ring: Ring, tolerance: real, ks: seq<int>)
    requires |ring| >= 3 && Picks(ks, RingKept(ring, tolerance))
    ensures |ks| >= 3 && forall j :: 0 <= j < |ks| ==> 0 <= ks[j] < |ring|
    ensures var again := Picked(ring, ks); forall j :: 0 <= j < |ks| ==> j in RingKept(again, tolerance)
  {
    hide SqSegDist, SqDist, ChordGauge, StartReach, Kept, Far;
    PickedInRange(ks, RingKept(ring, tolerance), |ring| - 1);
    MeasuresAgree(ring, ks);
    var again := Picked(ring, ks);
    SelectTwice(ChordGauge(again), ChordGauge(ring), StartReach(again), StartReach(ring), |ring| - 1,
                tolerance * tolerance, ks);
  }

  lemma {:induction false} MeasuresAgree(ring: Ring, ks: seq<int>)
    requires (forall j :: 0 <= j < |ks| ==> 0 <= ks[j] < |ring|) && |ks| > 0 && ks[0] == 0
    ensures Restricts(ChordGauge(Picked(ring, ks)), ChordGauge(ring), ks)
    ensures Follows(StartReach(Picked(ring, ks)), StartReach(ring), ks)
  {
  }

  // ---- the ring sent ----

  function Appended(out: Ring, p: Point): Ring {
    if |out| > 0 && out[|out| - 1] == p then out else out + [p]
  }

  /** The kept vertices among the first `end`, rounded, without immediate repeats. */
  ghost function Collected(ring: Ring, kept: set<int>, end: nat): Ring
    requires end <= |ring|
  {
    if end == 0 then []
    else
      var out := Collected(ring, kept, end - 1);
      if end - 1 in kept then Appended(out, RoundPoint(ring[end - 1])) else out
  }

  ghost function Simplified(ring: Ring, tolerance: real): Option<Ring> {
    if |ring| < MIN_RING then None
    else
      var out := Collected(ring, RingKept(ring, tolerance), |ring|);
      if |out| < MIN_RING then None else Some(out)
  }

  method MarkHalves(ring: Ring, far: int, sqTol: real, keep: array<bool>)
    requires 0 < far < |ring| - 1 && keep.Length == |ring| && far == Far(StartReach(ring), |ring| - 1)
    requires forall i :: 0 <= i < |ring| ==> (keep[i] <==> i in {0, far, |ring| - 1})
    modifies keep
    ensures forall i :: 0 <= i < |ring| ==>
              (keep[i] <==> i in Selected(ChordGauge(ring), StartReach(ring), |ring| - 1, sqTol))
  {
    Dp(ring, 0, far, sqTol, keep);
    Dp(ring, far, |ring| - 1, sqTol, keep);
  }

  method SimplifyRing(ring: Ring, tolerance: real) returns (out: Option<Ring>)
    ensures out == Simplified(ring, tolerance)
  {
    if |ring| < MIN_RING {
      return None;
    }
    var keep := new bool[|ring|](_ => false);
    keep[0], keep[|ring| - 1] := true, true;
    var far := FarFromStart(ring);
    keep[far] := true;
    MarkHalves(ring, far, tolerance * tolerance, keep);
    out := Collect(ring, keep, RingKept(ring, tolerance));
  }

  method Collect(ring: Ring, keep: array<bool>, ghost kept: set<int>) returns (out: Option<Ring>)
    requires keep.Length == |ring| && forall i :: 0 <= i < |ring| ==> (keep[i] <==> i in kept)
    ensures var points := Collected(ring, kept, |ring|);
            out == if |points| < MIN_RING then None else Some(points)
  {
    var points: Ring := [];
    for i := 0 to |ring|
      invariant points == Collected(ring, kept, i)
    {
      if keep[i] {
        var p := RoundPoint(ring[i]);
        if !(|points| > 0 && points[|points| - 1] == p) {
          points := points + [p];
        }
      }
    }
    out := if |points| < MIN_RING then None else Some(points);
  }

  // ---- what every ring sent is ----

  ghost predicate NoRepeats(ring: Ring) {
    forall i :: 0 <= i < |ring| - 1 ==> ring[i] != ring[i + 1]
  }

  ghost predicate Closed(ring: Ring) {
    |ring| > 0 && ring[0] == ring[|ring| - 1]
  }

  ghost predicate WellFormed(ring: Ring) {
    |ring| >= MIN_RING && Closed(ring) && NoRepeats(ring)
  }

  lemma {:induction false} CollectedKeepsEnds(ring: Ring, kept: set<int>, end: nat)
    requires 0 < end <= |ring| && 0 in kept
    ensures NoRepeats(Collected(ring, kept, end))
    ensures |Collected(ring, kept, end)| > 0 && Collected(ring, kept, end)[0] == RoundPoint(ring[0])
    ensures end - 1 in kept ==>
              var out := Collected(ring, kept, end); out[|out| - 1] == RoundPoint(ring[end - 1])
  {
    if end == 1 {
      assert Collected(ring, kept, 0) == [];
    } else {
      CollectedKeepsEnds(ring, kept, end - 1);
    }
  }

  /** A ring that survives is closed, has at least four vertices and no equal neighbours, whatever
      rounding merged. */
  lemma SimplifiedIsWellFormed(ring: Ring, tolerance: real)
    requires Closed(ring) && Simplified(ring, tolerance).Some?
    ensures WellFormed(Simplified(ring, tolerance).value)
  {
    CollectedKeepsEnds(ring, RingKept(ring, tolerance), |ring|);
  }

  // ---- how far a ring sent is from the original ----

  /** out visits p and then q, which may be the same vertex. */
  ghost predicate Visits(out: Ring, p: Point, q: Point) {
    exists j :: VisitsAt(out, p, q, j)
  }

  ghost predicate VisitsAt(out: Ring, p: Point, q: Point, j: int) {
    0 <= j < |out| && out[j] == p && (q == p || (j + 1 < |out| && out[j + 1] == q))
  }

  lemma VisitsExtended(out: Ring, more: Point, p: Point, q: Point)
    requires Visits(out, p, q)
    ensures Visits(Appended(out, more), p, q)
  {
    var j :| VisitsAt(out, p, q, j);
    assert VisitsAt(Appended(out, more), p, q, j);
  }

  lemma {:induction false} EndsAt(ring: Ring, kept: set<int>, l: nat, end: nat)
    requires l < end <= |ring| && l in kept && forall k :: l < k < end ==> k !in kept
    ensures var out := Collected(ring, kept, end); |out| > 0 && out[|out| - 1] == RoundPoint(ring[l])
    decreases end
  {
    if end - 1 != l {
      EndsAt(ring, kept, l, end - 1);
    }
  }

  lemma {:induction false} CollectedVisits(ring: Ring, kept: set<int>, l: nat, r: nat, end: nat)
    requires l < r < end <= |ring| && l in kept && r in kept && forall k :: l < k < r ==> k !in kept
    ensures Visits(Collected(ring, kept, end), RoundPoint(ring[l]), RoundPoint(ring[r]))
    decreases end
  {
    var out := Collected(ring, kept, end - 1);
    if end - 1 == r {
      EndsAt(ring, kept, l, r);
      assert VisitsAt(Collected(ring, kept, end), RoundPoint(ring[l]), RoundPoint(ring[r]), |out| - 1);
    } else {
      CollectedVisits(ring, kept, l, r, end - 1);
      if end - 1 in kept {
        VisitsExtended(out, RoundPoint(ring[end - 1]), RoundPoint(ring[l]), RoundPoint(ring[r]));
      }
    }
  }

  lemma {:induction false} Surrounded(off: Gauge, reach: Reach, last: int, sqTol: real, i: int) returns (l: int, r: int)
    requires last >= 2 && 0 <= i < last
    ensures 0 <= l <= i < r <= last
    ensures l in Selected(off, reach, last, sqTol) && r in Selected(off, reach, last, sqTol)
    ensures forall k :: l < k < r ==> k !in Selected(off, reach, last, sqTol)
    ensures l == i || off(l, r, i) <= sqTol
  {
    l := KeptBefore(Selected(off, reach, last, sqTol), i);
    r := KeptAfter(Selected(off, reach, last, sqTol), i + 1, last);
    if l < i {
      DroppedFromRing(off, reach, last, sqTol, l, i, r);
    }
  }

  lemma WithinChord(ring: Ring, tolerance: real, l: int, i: int, r: int)
    requires 0 <= l <= i < r < |ring| && (l == i || ChordGauge(ring)(l, r, i) <= tolerance * tolerance)
    ensures SqSegDist(ring[i], ring[l], ring[r]) <= tolerance * tolerance
  {
  }

  /** Every vertex of the original, kept or dropped, is within the tolerance of an edge of the kept
      polyline, and the ring sent walks along the rounded ends of that edge. */
  lemma OutputTracksRing(ring: Ring, tolerance: real, i: int) returns (l: int, r: int)
    requires Simplified(ring, tolerance).Some? && 0 <= i < |ring| - 1
    ensures 0 <= l <= i < r < |ring|
    ensures SqSegDist(ring[i], ring[l], ring[r]) <= tolerance * tolerance
    ensures Visits(Simplified(ring, tolerance).value, RoundPoint(ring[l]), RoundPoint(ring[r]))
  {
    hide SqSegDist, SqDist, ChordGauge, StartReach, Kept, Far;
    l, r := Surrounded(ChordGauge(ring), StartReach(ring), |ring| - 1, tolerance * tolerance, i);
    WithinChord(ring, tolerance, l, i, r);
    CollectedVisits(ring, RingKept(ring, tolerance), l, r, |ring|);
  }

  /** Rounding moves each kept vertex by at most half of the fifth decimal on each axis. */
  lemma RoundedPointIsNear(p: Point)
    ensures var q := RoundPoint(p);
            -0.000005 <= q.x - p.x <= 0.000005 && -0.000005 <= q.y - p.y <= 0.000005
  {
  }
}
