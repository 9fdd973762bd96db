/** Line simplification: the stack loop, the recursion it computes, and what the result guarantees. */
module DouglasPeucker {
  import opened FloodGeometry

  /** How far vertex i is off the chord between vertices a and b. The properties of the selection
      hold whatever this distance is. */
  type Gauge = (int, int, int) -> real

  function ChordGauge(ring: Ring): Gauge {
    (a, b, i) =>
      if 0 <= a < |ring| && 0 <= b < |ring| && 0 <= i < |ring| then SqSegDist(ring[i], ring[a], ring[b]) else 0.0
  }

  /** The first of the vertices farthest from the chord from a to b, among those before `end`, or -1
      when none exceeds the tolerance. */
  function FarthestBefore(off: Gauge, a: int, b: int, end: int, sqTol: real): (idx: int)
    ensures idx == -1 || a < idx < end
    decreases end - a
  {
    if end <= a + 1 then -1
    else
      var idx := FarthestBefore(off, a, b, end - 1, sqTol);
      if off(a, b, end - 1) > (if idx == -1 then sqTol else off(a, b, idx)) then end - 1 else idx
  }

  function Farthest(off: Gauge, a: int, b: int, sqTol: real): (idx: int)
    ensures idx == -1 || a < idx < b
  {
    FarthestBefore(off, a, b, b, sqTol)
  }

  ghost predicate IsFarthest(off: Gauge, a: int, b: int, end: int, sqTol: real, idx: int) {
    if idx == -1 then forall i :: a < i < end ==> off(a, b, i) <= sqTol
    else
      && a < idx < end && off(a, b, idx) > sqTol
      && (forall i :: a < i < end ==> off(a, b, i) <= off(a, b, idx))
      && (forall i :: a < i < idx ==> off(a, b, i) < off(a, b, idx))
  }

  lemma {:induction false} FarthestIs(off: Gauge, a: int, b: int, end: int, sqTol: real)
    requires 0 <= a
    ensures IsFarthest(off, a, b, end, sqTol, FarthestBefore(off, a, b, end, sqTol))
    decreases end - a
  {
    if end > a + 1 {
      FarthestIs(off, a, b, end - 1, sqTol);
    }
  }

  lemma FarthestUnique(off: Gauge, a: int, b: int, sqTol: real, idx: int)
    requires 0 <= a && IsFarthest(off, a, b, b, sqTol, idx)
    ensures idx == Farthest(off, a, b, sqTol)
  {
    FarthestIs(off, a, b, b, sqTol);
  }

  /** The recursive definition: the vertices strictly between a and b that are kept. */
  ghost function Kept(off: Gauge, a: int, b: int, sqTol: real): (kept: set<int>)
    requires 0 <= a <= b
    ensures forall i :: i in kept ==> a < i < b
    decreases b - a
  {
    var idx := Farthest(off, a, b, sqTol);
    if idx == -1 then {} else {idx} + Kept(off, a, idx, sqTol) + Kept(off, idx, b, sqTol)
  }

  lemma KeptSplits(off: Gauge, a: int, b: int, sqTol: real, idx: int)
    requires 0 <= a <= b && idx == Farthest(off, a, b, sqTol)
    ensures idx == -1 ==> Kept(off, a, b, sqTol) == {}
    ensures idx != -1 ==>
              Kept(off, a, b, sqTol) == {idx} + Kept(off, a, idx, sqTol) + Kept(off, idx, b, sqTol)
  {
  }

  // ---- the loop ----

  type Segment = (int, int)

  ghost predicate InRange(n: int, stack: seq<Segment>) {
    forall k :: 0 <= k < |stack| ==> 0 <= stack[k].0 <= stack[k].1 < n
  }

  /** What the segments still on the stack will keep. */
  ghost function Owed(off: Gauge, n: int, stack: seq<Segment>, sqTol: real): set<int>
    requires InRange(n, stack)
  {
    if stack == [] then {}
    else
      var top := stack[|stack| - 1];
      Owed(off, n, stack[..|stack| - 1], sqTol) + Kept(off, top.0, top.1, sqTol)
  }

  function Interior(s: Segment): nat {
    if s.1 > s.0 + 1 then s.1 - s.0 - 1 else 0
  }

  /** The vertices strictly inside the stacked segments: each split uses one up. */
  ghost function Inside(stack: seq<Segment>): nat {
    if stack == [] then 0 else Inside(stack[..|stack| - 1]) + Interior(stack[|stack| - 1])
  }

  lemma {:induction false} Pushed(off: Gauge, n: int, stack: seq<Segment>, s: Segment, sqTol: real)
    requires InRange(n, stack) && 0 <= s.0 <= s.1 < n
    ensures InRange(n, stack + [s])
    ensures Owed(off, n, stack + [s], sqTol) == Owed(off, n, stack, sqTol) + Kept(off, s.0, s.1, sqTol)
    ensures Inside(stack + [s]) == Inside(stack) + Interior(s)
  {
  }

  /** Splitting a segment at its farthest vertex owes the same vertices, less that one. */
  lemma {:induction false} Split(off: Gauge, n: int, rest: seq<Segment>, a: int, b: int, idx: int, sqTol: real)
    requires InRange(n, rest) && 0 <= a <= b < n && idx != -1 && idx == Farthest(off, a, b, sqTol)
    ensures InRange(n, rest + [(a, idx)] + [(idx, b)])
    ensures {idx} + Owed(off, n, rest + [(a, idx)] + [(idx, b)], sqTol)
         == Owed(off, n, rest, sqTol) + Kept(off, a, b, sqTol)
    ensures Inside(rest + [(a, idx)] + [(idx, b)]) < Inside(rest) + Interior((a, b))
  {
  }

  lemma {:induction false} Popped(off: Gauge, n: int, stack: seq<Segment>, sqTol: real)
    requires InRange(n, stack) && |stack| > 0
    ensures var rest, top := stack[..|stack| - 1], stack[|stack| - 1];
            && InRange(n, rest)
            && Owed(off, n, stack, sqTol) == Owed(off, n, rest, sqTol) + Kept(off, top.0, top.1, sqTol)
            && Inside(stack) == Inside(rest) + Interior(top)
  {
  }

  lemma NothingOwed(off: Gauge, n: int, sqTol: real)
    ensures Owed(off, n, [], sqTol) == {} && Inside([]) == 0
  {
  }

  /** The stack loop marks exactly the vertices of the recursive definition. */
  method Dp(ring: Ring, first: int, last: int, sqTol: real, keep: array<bool>)
    requires 0 <= first <= last < |ring| == keep.Length
    modifies keep
    ensures forall i :: 0 <= i < keep.Length ==>
              (keep[i] <==> old(keep[i]) || i in Kept(ChordGauge(ring), first, last, sqTol))
  {
    hide Owed, Inside, Interior, Kept, Farthest, ChordGauge;
    ghost var off := ChordGauge(ring);
    NothingOwed(off, |ring|, sqTol);
    var stack: seq<Segment> := [(first, last)];
    ghost var marked: set<int> := {};
    assert stack == [] + [(first, last)];
    Pushed(off, |ring|, [], (first, last), sqTol);
    while stack != []
      invariant InRange(|ring|, stack)
      invariant marked + Owed(off, |ring|, stack, sqTol) == Kept(off, first, last, sqTol)
      invariant forall i :: 0 <= i < keep.Length ==> (keep[i] <==> old(keep[i]) || i in marked)
      decreases Inside(stack), |stack|
    {
      var (a, b) := stack[|stack| - 1];
      Popped(off, |ring|, stack, sqTol);
      stack := stack[..|stack| - 1];
      var idx := Scan(ring, a, b, sqTol);
      if idx >= 0 {
        Split(off, |ring|, stack, a, b, idx, sqTol);
        keep[idx] := true;
        marked := marked + {idx};
        stack := stack + [(a, idx)] + [(idx, b)];
      } else {
        KeptSplits(off, a, b, sqTol, idx);
      }
    }
  }

  /** The inner loop: the first vertex farthest from the chord, if any exceeds the tolerance. */
  method Scan(ring: Ring, a: int, b: int, sqTol: real) returns (idx: int)
    requires 0 <= a <= b < |ring|
    ensures idx >= -1 && idx == Farthest(ChordGauge(ring), a, b, sqTol)
  {
    ghost var off := ChordGauge(ring);
    var maxD := sqTol;
    idx := -1;
    var i := a + 1;
    while i < b
      invariant a < i && (i <= b || i == a + 1) && idx >= -1
      invariant idx == FarthestBefore(off, a, b, i, sqTol)
      invariant maxD == (if idx == -1 then sqTol else off(a, b, idx))
    {
      var d := SqSegDist(ring[i], ring[a], ring[b]);
      assert d == off(a, b, i);
      if d > maxD {
        idx, maxD := i, d;
      }
      i := i + 1;
    }
  }

  // ---- what the kept vertices guarantee ----

  /** l and r are neighbouring kept vertices, counting the two ends. */
  ghost predicate Neighbours(kept: set<int>, a: int, b: int, l: int, r: int) {
    && (l == a || l in kept) && (r == b || r in kept) && l < r
    && (forall k :: l < k < r ==> k !in kept)
  }

  /** Every dropped vertex is within the tolerance of the chord between its two kept neighbours. */
  lemma {:induction false} DroppedWithinTolerance(off: Gauge, a: int, b: int, sqTol: real, l: int, i: int, r: int)
    requires 0 <= a <= l < i < r <= b && Neighbours(Kept(off, a, b, sqTol), a, b, l, r)
    ensures off(l, r, i) <= sqTol
    decreases b - a
  {
    var idx := Farthest(off, a, b, sqTol);
    if idx == -1 {
      assert l == a && r == b;
      FarthestIs(off, a, b, b, sqTol);
    } else if r <= idx {
      DroppedWithinTolerance(off, a, idx, sqTol, l, i, r);
    } else {
      assert idx in Kept(off, a, b, sqTol);
      DroppedWithinTolerance(off, idx, b, sqTol, l, i, r);
    }
  }

  /** No vertex is kept without need: each is off some chord of kept vertices by more than the tolerance. */
  lemma {:induction false} KeptForAReason(off: Gauge, a: int, b: int, sqTol: real, i: int) returns (l: int, r: int)
    requires 0 <= a <= b && i in Kept(off, a, b, sqTol)
    ensures a <= l < i < r <= b && off(l, r, i) > sqTol
    ensures (l == a || l in Kept(off, a, b, sqTol)) && (r == b || r in Kept(off, a, b, sqTol))
    decreases b - a
  {
    var idx := Farthest(off, a, b, sqTol);
    FarthestIs(off, a, b, b, sqTol);
    if i == idx {
      l, r := a, b;
    } else if i < idx {
      l, r := KeptForAReason(off, a, idx, sqTol, i);
    } else {
      l, r := KeptForAReason(off, idx, b, sqTol, i);
    }
  }

  /** A smaller tolerance keeps at least as many vertices. */
  lemma {:induction false} Antitone(off: Gauge, a: int, b: int, fine: real, coarse: real)
    requires 0 <= a <= b && fine <= coarse
    ensures Kept(off, a, b, coarse) <= Kept(off, a, b, fine)
    decreases b - a
  {
    var idx := Farthest(off, a, b, coarse);
    if idx != -1 {
      FarthestIs(off, a, b, b, coarse);
      assert IsFarthest(off, a, b, b, fine, idx);
      FarthestUnique(off, a, b, fine, idx);
      Antitone(off, a, idx, fine, coarse);
      Antitone(off, idx, b, fine, coarse);
    }
  }

  // ---- simplifying twice ----

  ghost predicate Increasing(ks: seq<int>) {
    && (forall j :: 0 <= j < |ks| ==> 0 <= ks[j])
    && (forall i, j :: 0 <= i < j < |ks| ==> ks[i] < ks[j])
  }

  /** Between positions u and v, ks lists exactly the given vertices. */
  ghost predicate Lists(ks: seq<int>, u: int, v: int, vertices: set<int>)
    requires 0 <= u <= v < |ks|
  {
    && (forall j :: u < j < v ==> ks[j] in vertices)
    && (forall k :: k in vertices ==> exists j :: u < j < v && ks[j] == k)
  }

  /** `out` measures the vertices that ks picks out. */
  ghost predicate Restricts(out: Gauge, off: Gauge, ks: seq<int>) {
    forall u, v, j {:trigger out(u, v, j)} :: 0 <= u < |ks| && 0 <= v < |ks| && 0 <= j < |ks| ==>
      out(u, v, j) == off(ks[u], ks[v], ks[j])
  }

  lemma {:induction false} SameFarthest(out: Gauge, off: Gauge, ks: seq<int>, u: int, m: int, v: int, sqTol: real)
    requires Increasing(ks) && 0 <= u < m < v < |ks| && Restricts(out, off, ks)
    requires ks[m] == Farthest(off, ks[u], ks[v], sqTol)
    ensures m == Farthest(out, u, v, sqTol)
  {
    FarthestIs(off, ks[u], ks[v], ks[v], sqTol);
    assert IsFarthest(out, u, v, v, sqTol, m);
    FarthestUnique(out, u, v, sqTol, m);
  }

  ghost predicate KeepsAll(off: Gauge, a: int, b: int, sqTol: real)
    requires 0 <= a <= b
  {
    forall j :: a < j < b ==> j in Kept(off, a, b, sqTol)
  }

  /** Running the simplification on the vertices it kept keeps all of them. */
  lemma {:induction false} KeepsItsOutput(out: Gauge, off: Gauge, ks: seq<int>, u: int, v: int, sqTol: real)
    requires Increasing(ks) && 0 <= u < v < |ks| && Restricts(out, off, ks)
    requires Lists(ks, u, v, Kept(off, ks[u], ks[v], sqTol))
    ensures KeepsAll(out, u, v, sqTol)
    decreases v - u
  {
    if Farthest(off, ks[u], ks[v], sqTol) == -1 {
      KeptSplits(off, ks[u], ks[v], sqTol, -1);
      NothingListed(ks, u, v, Kept(off, ks[u], ks[v], sqTol));
    } else {
      var m := SplitsAlike(out, off, ks, u, v, sqTol);
      KeepsItsOutput(out, off, ks, u, m, sqTol);
      KeepsItsOutput(out, off, ks, m, v, sqTol);
      HalvesKeepAll(out, u, m, v, sqTol);
    }
  }

  lemma {:induction false} NothingListed(ks: seq<int>, u: int, v: int, vertices: set<int>)
    requires 0 <= u < v < |ks| && Lists(ks, u, v, vertices)
    ensures vertices == {} ==> v == u + 1
  {
    if u + 1 < v {
      assert ks[u + 1] in vertices;
    }
  }

  lemma {:induction false} HalvesKeepAll(out: Gauge, u: int, m: int, v: int, sqTol: real)
    requires 0 <= u < m < v && KeepsAll(out, u, m, sqTol) && KeepsAll(out, m, v, sqTol)
    requires Kept(out, u, v, sqTol) == {m} + Kept(out, u, m, sqTol) + Kept(out, m, v, sqTol)
    ensures KeepsAll(out, u, v, sqTol)
  {
  }

  /** Both runs split at the same vertex, and each half is again a run on its own output. */
  lemma {:induction false} SplitsAlike(out: Gauge, off: Gauge, ks: seq<int>, u: int, v: int, sqTol: real)
    returns (m: int)
    requires Increasing(ks) && 0 <= u < v < |ks| && Restricts(out, off, ks)
    requires Lists(ks, u, v, Kept(off, ks[u], ks[v], sqTol)) && Farthest(off, ks[u], ks[v], sqTol) != -1
    ensures u < m < v && Kept(out, u, v, sqTol) == {m} + Kept(out, u, m, sqTol) + Kept(out, m, v, sqTol)
    ensures Lists(ks, u, m, Kept(off, ks[u], ks[m], sqTol)) && Lists(ks, m, v, Kept(off, ks[m], ks[v], sqTol))
  {
    var idx := Farthest(off, ks[u], ks[v], sqTol);
    KeptSplits(off, ks[u], ks[v], sqTol, idx);
    m := PositionOf(ks, u, v, Kept(off, ks[u], ks[v], sqTol), idx);
    SameFarthest(out, off, ks, u, m, v, sqTol);
    KeptSplits(out, u, v, sqTol, m);
    ListsLeft(ks, u, m, v, Kept(off, ks[u], idx, sqTol), Kept(off, idx, ks[v], sqTol));
    ListsRight(ks, u, m, v, Kept(off, ks[u], idx, sqTol), Kept(off, idx, ks[v], sqTol));
  }

  lemma PositionOf(ks: seq<int>, u: int, v: int, vertices: set<int>, k: int) returns (m: int)
    requires 0 <= u <= v < |ks| && Lists(ks, u, v, vertices) && k in vertices
    ensures u < m < v && ks[m] == k
  {
    m :| u < m < v && ks[m] == k;
  }

  lemma {:induction false} ListsLeft(ks: seq<int>, u: int, m: int, v: int, left: set<int>, right: set<int>)
    requires Increasing(ks) && 0 <= u < m < v < |ks|
    requires Lists(ks, u, v, {ks[m]} + left + right)
    requires (forall k :: k in left ==> k < ks[m]) && (forall k :: k in right ==> ks[m] < k)
    ensures Lists(ks, u, m, left)
  {
  }

  lemma {:induction false} ListsRight(ks: seq<int>, u: int, m: int, v: int, left: set<int>, right: set<int>)
    requires Increasing(ks) && 0 <= u < m < v < |ks|
    requires Lists(ks, u, v, {ks[m]} + left + right)
    requires (forall k :: k in left ==> k < ks[m]) && (forall k :: k in right ==> ks[m] < k)
    ensures Lists(ks, m, v, right)
  {
  }
}
