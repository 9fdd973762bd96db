/** What exactly a view of flood areas receives: which rings survive, which vertices they keep, how they
    are rounded and how they are counted. */
module FloodOutput {
  import opened Common
  import opened FloodGeometry
  import opened FloodRings
  import opened FloodAreas

  // ---- rounding ----

  /** x is nearer to k than to any other whole number, or exactly between two and k is the outer one. */
  predicate IsNearest(x: real, k: int) {
    || -0.5 < x - k as real < 0.5
    || (x > 0.0 && x == k as real - 0.5)
    || (x < 0.0 && x == k as real + 0.5)
  }

  lemma FloorIs(y: real, k: int)
    ensures y.Floor == k <==> k as real <= y < k as real + 1.0
  {
    if k as real <= y < k as real + 1.0 {
      var f := y.Floor;
      assert f as real <= y < f as real + 1.0;
      assert (f - k) as real < 1.0 && (k - f) as real < 1.0;
    }
  }

  lemma RoundIs(x: real, k: int)
    ensures Round(x) == k <==> IsNearest(x, k)
  {
    FloorIs(x + 0.5, k);
    FloorIs(-x + 0.5, -k);
    if x == 0.0 {
      assert IsNearest(x, k) <==> k == 0;
    }
  }

  /** A coordinate sent is the nearest whole number of hundred-thousandths of a degree; of two equally near,
      the one farther from zero. */
  lemma RoundsTo(v: real, k: int)
    ensures Round5(v) * 100000.0 == k as real <==> IsNearest(v * 100000.0, k)
  {
    var x := v * 100000.0;
    RoundIs(x, k);
    var n := Round(x);
    assert Round5(v) * 100000.0 == n as real;
    hide Round, IsNearest, Round5;
  }

  // ---- the vertices of one ring ----

  /** Vertex r is kept and does not round to the same point as the vertex kept before it. */
  ghost predicate IsTurn(ring: Ring, kept: set<int>, r: int) {
    0 < r < |ring| && r in kept && exists l :: Precedes(ring, kept, l, r)
  }

  ghost predicate Precedes(ring: Ring, kept: set<int>, l: int, r: int)
    requires 0 < r < |ring|
  {
    && 0 <= l < r && l in kept && (forall k :: l < k < r ==> k !in kept)
    && RoundPoint(ring[l]) != RoundPoint(ring[r])
  }

  /** out holds the rounded vertices at ks: the start and then the turns, in order. */
  ghost predicate Lists(ring: Ring, kept: set<int>, end: nat, out: Ring, ks: seq<int>) {
    && |ks| == |out| > 0 && ks[0] == 0
    && (forall i, j :: 0 <= i < j < |ks| ==> ks[i] < ks[j])
    && (forall j :: 0 < j < |ks| ==> IsTurn(ring, kept, ks[j]))
    && (forall j :: 0 <= j < |ks| ==> 0 <= ks[j] < end && ks[j] < |ring| && out[j] == RoundPoint(ring[ks[j]]))
    && (forall k :: 0 < k < end && IsTurn(ring, kept, k) ==> k in ks)
  }

  lemma {:induction false} ListsSkips(ring: Ring, kept: set<int>, r: nat, out: Ring, ks: seq<int>)
    requires Lists(ring, kept, r, out, ks) && !IsTurn(ring, kept, r)
    ensures Lists(ring, kept, r + 1, out, ks)
  {
    hide IsTurn, RoundPoint;
  }

  lemma {:induction false} ListsGrows(ring: Ring, kept: set<int>, r: nat, out: Ring, ks: seq<int>)
    requires r < |ring| && Lists(ring, kept, r, out, ks) && IsTurn(ring, kept, r)
    ensures Lists(ring, kept, r + 1, out + [RoundPoint(ring[r])], ks + [r])
  {
    hide IsTurn, RoundPoint;
    var more := ks + [r];
    forall k | 0 < k < r + 1 && IsTurn(ring, kept, k)
      ensures k in more
    {
      assert k == r || k in ks;
      assert more[|ks|] == r;
    }
  }

  lemma {:induction false} CollectedLists(ring: Ring, kept: set<int>, end: nat) returns (ks: seq<int>)
    requires 0 < end <= |ring| && 0 in kept
    ensures Lists(ring, kept, end, Collected(ring, kept, end), ks)
    decreases end
  {
    if end == 1 {
      ks := [0];
      assert Collected(ring, kept, 0) == [];
    } else {
      ks := CollectedLists(ring, kept, end - 1);
      hide Lists, RoundPoint, IsTurn;
      var out, r := Collected(ring, kept, end - 1), end - 1;
      if r in kept {
        var l := KeptBefore(kept, r - 1);
        EndsAt(ring, kept, l, r);
        TurnsIff(ring, kept, l, r);
      } else {
        NoTurn(ring, kept, r);
      }
      if IsTurn(ring, kept, r) {
        ListsGrows(ring, kept, r, out, ks);
        ks := ks + [r];
      } else {
        ListsSkips(ring, kept, r, out, ks);
      }
    }
  }

  lemma NoTurn(ring: Ring, kept: set<int>, r: int)
    ensures r !in kept ==> !IsTurn(ring, kept, r)
  {
  }

  lemma TurnsIff(ring: Ring, kept: set<int>, l: int, r: int)
    requires 0 <= l < r < |ring| && l in kept && r in kept && forall k :: l < k < r ==> k !in kept
    ensures IsTurn(ring, kept, r) <==> RoundPoint(ring[l]) != RoundPoint(ring[r])
  {
    hide RoundPoint;
    assert Precedes(ring, kept, l, r) <==> RoundPoint(ring[l]) != RoundPoint(ring[r]);
  }

  /** What a ring that survives becomes: its start and its turns, each rounded, in order and once. */
  lemma {:induction false} RingSent(ring: Ring, tolerance: real) returns (ks: seq<int>)
    requires Simplified(ring, tolerance).Some?
    ensures Lists(ring, RingKept(ring, tolerance), |ring|, Simplified(ring, tolerance).value, ks)
  {
    ks := CollectedLists(ring, RingKept(ring, tolerance), |ring|);
  }

  ghost predicate ThreeTurns(ring: Ring, kept: set<int>, a: int, b: int, c: int) {
    a < b < c && IsTurn(ring, kept, a) && IsTurn(ring, kept, b) && IsTurn(ring, kept, c)
  }

  lemma {:induction false} FourListed(ring: Ring, kept: set<int>, out: Ring, ks: seq<int>)
    requires Lists(ring, kept, |ring|, out, ks)
    ensures |out| >= 4 <==> exists a, b, c :: ThreeTurns(ring, kept, a, b, c)
  {
    hide IsTurn, RoundPoint;
    if |out| >= 4 {
      assert ThreeTurns(ring, kept, ks[1], ks[2], ks[3]);
    }
    if a, b, c :| ThreeTurns(ring, kept, a, b, c) {
      ThreeListed(ring, kept, out, ks, a, b, c);
    }
  }

  lemma {:induction false} ThreeListed(ring: Ring, kept: set<int>, out: Ring, ks: seq<int>, a: int, b: int, c: int)
    requires Lists(ring, kept, |ring|, out, ks) && ThreeTurns(ring, kept, a, b, c)
    ensures |ks| >= 4
  {
    assert 0 < a && 0 < b && 0 < c < |ring|;
    hide IsTurn, RoundPoint;
    assert a in ks && b in ks && c in ks;
    var i :| 0 <= i < |ks| && ks[i] == a;
    var j :| 0 <= j < |ks| && ks[j] == b;
    var k :| 0 <= k < |ks| && ks[k] == c;
    assert 0 < i < j < k;
  }

  /** A ring survives iff it has at least four vertices and three turns are left of it at this tolerance. */
  lemma {:induction false} SurvivesIff(ring: Ring, tolerance: real)
    ensures Simplified(ring, tolerance).Some? <==>
            |ring| >= 4 && exists a, b, c :: ThreeTurns(ring, RingKept(ring, tolerance), a, b, c)
  {
    if |ring| >= 4 {
      var kept := RingKept(ring, tolerance);
      var ks := CollectedLists(ring, kept, |ring|);
      FourListed(ring, kept, Collected(ring, kept, |ring|), ks);
    }
    hide RingKept, Collected, ThreeTurns;
  }

  // ---- the rings and polygons of an area ----

  /** out holds the results there are, in order; ks says which. */
  ghost predicate Filtered<T(!new)>(results: seq<Option<T>>, out: seq<T>, ks: seq<int>) {
    && |ks| == |out|
    && (forall i, j :: 0 <= i < j < |ks| ==> ks[i] < ks[j])
    && (forall j :: 0 <= j < |ks| ==> 0 <= ks[j] < |results| && results[ks[j]] == Some(out[j]))
    && (forall i :: 0 <= i < |results| && results[i].Some? ==> i in ks)
  }

  lemma {:induction false} FilteredGrows<T(!new)>(results: seq<Option<T>>, last: Option<T>, out: seq<T>, ks: seq<int>)
    returns (more: seq<int>)
    requires Filtered(results, out, ks)
    ensures Filtered(results + [last], if last.Some? then out + [last.value] else out, more)
  {
    more := if last.Some? then ks + [|results|] else ks;
    var all := results + [last];
    forall i | 0 <= i < |all| && all[i].Some?
      ensures i in more
    {
      if i < |results| {
        assert i in ks;
      } else {
        assert more[|ks|] == i;
      }
    }
  }

  ghost function RingResults(rings: seq<Ring>, tolerance: real): (results: seq<Option<Ring>>)
    ensures |results| == |rings|
  {
    seq(|rings|, i requires 0 <= i < |rings| => Simplified(rings[i], tolerance))
  }

  lemma NothingFiltered<T(!new)>()
    ensures Filtered<T>([], [], [])
  {
  }

  lemma {:induction false} RingResultsGrow(rings: seq<Ring>, last: Ring, tolerance: real)
    ensures RingResults(rings + [last], tolerance) == RingResults(rings, tolerance) + [Simplified(last, tolerance)]
  {
    hide Simplified;
  }

  lemma {:induction false} SurvivorsAre(rings: seq<Ring>, tolerance: real) returns (ks: seq<int>)
    ensures Filtered(RingResults(rings, tolerance), SurvivingRings(rings, tolerance), ks)
    decreases |rings|
  {
    hide Simplified, Filtered, RingResults;
    if rings == [] {
      ks := [];
      NothingFiltered<Ring>();
      assert RingResults(rings, tolerance) == [];
    } else {
      var init, last := rings[..|rings| - 1], rings[|rings| - 1];
      assert rings == init + [last];
      ks := SurvivorsAre(init, tolerance);
      ks := FilteredGrows(RingResults(init, tolerance), Simplified(last, tolerance),
                          SurvivingRings(init, tolerance), ks);
      RingResultsGrow(init, last, tolerance);
    }
  }

  ghost function PolygonResults(polygons: seq<Polygon>, tolerance: real): (results: seq<Option<Polygon>>)
    requires forall polygon :: polygon in polygons ==> |polygon| > 0
    ensures |results| == |polygons|
  {
    seq(|polygons|, i requires 0 <= i < |polygons| => ClippedPolygon(polygons[i], tolerance))
  }

  lemma {:induction false} PolygonResultsGrow(polygons: seq<Polygon>, last: Polygon, tolerance: real)
    requires forall polygon :: polygon in polygons + [last] ==> |polygon| > 0
    ensures |last| > 0 && forall polygon :: polygon in polygons ==> |polygon| > 0
    ensures PolygonResults(polygons + [last], tolerance)
         == PolygonResults(polygons, tolerance) + [ClippedPolygon(last, tolerance)]
  {
    hide ClippedPolygon;
    assert last in polygons + [last];
    assert forall polygon :: polygon in polygons ==> polygon in polygons + [last];
  }

  lemma {:induction false} PolygonsAre(polygons: seq<Polygon>, tolerance: real) returns (ks: seq<int>)
    requires forall polygon :: polygon in polygons ==> |polygon| > 0
    ensures Filtered(PolygonResults(polygons, tolerance), ClippedPolygons(polygons, tolerance), ks)
    decreases |polygons|
  {
    hide ClippedPolygon, Filtered, PolygonResults;
    if polygons == [] {
      ks := [];
      NothingFiltered<Polygon>();
      assert PolygonResults(polygons, tolerance) == [];
    } else {
      var init, last := polygons[..|polygons| - 1], polygons[|polygons| - 1];
      assert polygons == init + [last];
      PolygonResultsGrow(init, last, tolerance);
      ks := PolygonsAre(init, tolerance);
      ks := FilteredGrows(PolygonResults(init, tolerance), ClippedPolygon(last, tolerance),
                          ClippedPolygons(init, tolerance), ks);
    }
  }

  /** The polygon sent for this one: its outer ring and the holes that survive, in order. */
  ghost predicate SentFor(polygon: Polygon, tolerance: real, sent: Polygon)
    requires |polygon| > 0
  {
    && |sent| > 0 && Simplified(polygon[0], tolerance) == Some(sent[0])
    && exists ks :: Filtered(RingResults(polygon[1..], tolerance), sent[1..], ks)
  }

  /** A polygon is sent iff its outer ring survives, with exactly its surviving holes; the order of the
      polygons and of their holes stays. */
  lemma {:induction false} PolygonsSent(polygons: seq<Polygon>, tolerance: real) returns (ks: seq<int>)
    requires forall polygon :: polygon in polygons ==> |polygon| > 0
    ensures var sent := ClippedPolygons(polygons, tolerance);
            && |ks| == |sent| && (forall i, j :: 0 <= i < j < |ks| ==> ks[i] < ks[j])
            && (forall j :: 0 <= j < |ks| ==>
                  && 0 <= ks[j] < |polygons| && polygons[ks[j]] in polygons
                  && SentFor(polygons[ks[j]], tolerance, sent[j]))
            && (forall i :: 0 <= i < |polygons| ==>
                  polygons[i] in polygons && (i in ks <==> Simplified(polygons[i][0], tolerance).Some?))
  {
    hide Simplified, SurvivingRings, ClippedPolygons;
    ks := PolygonsAre(polygons, tolerance);
    var sent := ClippedPolygons(polygons, tolerance);
    forall j | 0 <= j < |ks|
      ensures 0 <= ks[j] < |polygons| && polygons[ks[j]] in polygons && SentFor(polygons[ks[j]], tolerance, sent[j])
    {
      HolesSent(polygons[ks[j]], tolerance);
    }
    hide SentFor;
    assert forall i :: i in ks ==> 0 <= i < |polygons| && ClippedPolygon(polygons[i], tolerance).Some?;
  }

  lemma {:induction false} HolesSent(polygon: Polygon, tolerance: real)
    requires |polygon| > 0
    ensures ClippedPolygon(polygon, tolerance).Some? ==>
              SentFor(polygon, tolerance, ClippedPolygon(polygon, tolerance).value)
  {
    hide Simplified, SurvivingRings, Filtered;
    var ks := SurvivorsAre(polygon[1..], tolerance);
    if ClippedPolygon(polygon, tolerance).Some? {
      var sent := ClippedPolygon(polygon, tolerance).value;
      assert sent[1..] == SurvivingRings(polygon[1..], tolerance);
    }
  }

  // ---- counting ----

  function Concat<T>(parts: seq<seq<T>>): seq<T> {
    if parts == [] then [] else Concat(parts[..|parts| - 1]) + parts[|parts| - 1]
  }

  lemma {:induction false} ConcatAppend<T>(parts: seq<seq<T>>, more: seq<seq<T>>)
    ensures Concat(parts + more) == Concat(parts) + Concat(more)
    decreases |more|
  {
    var all := parts + more;
    if more == [] {
      assert all == parts;
    } else {
      assert all[..|all| - 1] == parts + more[..|more| - 1];
      ConcatAppend(parts, more[..|more| - 1]);
    }
  }

  lemma {:induction false} RingsCounted(rings: seq<Ring>)
    ensures RingVertices(rings) == |Concat(rings)|
    decreases |rings|
  {
    if rings != [] {
      RingsCounted(rings[..|rings| - 1]);
    }
  }

  lemma {:induction false} PolygonsCounted(polygons: seq<Polygon>)
    ensures Vertices(polygons) == |Concat(Concat(polygons))|
    decreases |polygons|
  {
    if polygons != [] {
      var init, last := polygons[..|polygons| - 1], polygons[|polygons| - 1];
      PolygonsCounted(init);
      RingsCounted(last);
      ConcatAppend(Concat(init), last);
    }
  }

  function PolygonsOf(out: seq<ClippedArea>): seq<seq<Polygon>> {
    seq(|out|, i requires 0 <= i < |out| => out[i].area.polygons)
  }

  /** What is held against the limit is every vertex of every ring sent, holes included. */
  lemma {:induction false} AllVerticesCount(out: seq<ClippedArea>)
    ensures Total(out) == |Concat(Concat(Concat(PolygonsOf(out))))|
    decreases |out|
  {
    if out != [] {
      var init, last := out[..|out| - 1], out[|out| - 1].area.polygons;
      AllVerticesCount(init);
      PolygonsCounted(last);
      assert PolygonsOf(out)[..|out| - 1] == PolygonsOf(init);
      ConcatAppend(Concat(PolygonsOf(init)), last);
      ConcatAppend(Concat(Concat(PolygonsOf(init))), Concat(last));
    }
  }

  // ---- what an area may be made of ----

  /** A ring is accepted iff its points are on the globe and it has four positions once closed. */
  lemma {:induction false} AcceptedIff(ring: Ring)
    ensures ValidRing(ring) <==>
            && (forall p :: p in ring ==> -180.0 <= p.x <= 180.0 && -90.0 <= p.y <= 90.0)
            && (|ring| >= 4 || (|ring| == 3 && ring[0] != ring[2]))
  {
    assert |CloseRing(ring)| == |ring| + if |ring| > 0 && ring[0] != ring[|ring| - 1] then 1 else 0;
  }
}
