/** Flood areas: validation on the way in, clipping to a view and to response limits on the way out. */
module FloodAreas {
  import opened Common
  import opened FloodGeometry
  import opened FloodRings

  /** An outer ring followed by its holes. */
  type Polygon = seq<Ring>

  datatype Bounds = Bounds(minLng: real, minLat: real, maxLng: real, maxLat: real) {
    predicate Intersects(o: Bounds) {
      minLng <= o.maxLng && o.minLng <= maxLng && minLat <= o.maxLat && o.minLat <= maxLat
    }

    predicate Contains(p: Point) {
      minLng <= p.x <= maxLng && minLat <= p.y <= maxLat
    }

    predicate Proper() {
      minLng <= maxLng && minLat <= maxLat
    }
  }

  /** Some point lies in both boxes. */
  ghost predicate Meet(a: Bounds, b: Bounds) {
    exists p :: a.Contains(p) && b.Contains(p)
  }

  /** Comparing the sides of two proper boxes finds out whether they share a point. */
  lemma IntersectsIff(a: Bounds, b: Bounds)
    requires a.Proper() && b.Proper()
    ensures a.Intersects(b) <==> Meet(a, b)
  {
    if a.Intersects(b) {
      var p := Point(Max(a.minLng, b.minLng), Max(a.minLat, b.minLat));
      assert a.Contains(p) && b.Contains(p);
    }
  }

  datatype Area = Area(id: string, polygons: seq<Polygon>, observedAt: Option<Time>, bounds: Bounds)

  datatype AreaError = InvalidGeometry

  // ---- bounds ----

  /** Nothing yet stands for the infinitely inverted box the scan starts from. */
  function Extended(b: Option<Bounds>, p: Point): Option<Bounds> {
    match b
    case None => Some(Bounds(p.x, p.y, p.x, p.y))
    case Some(b) => Some(Bounds(Min(b.minLng, p.x), Min(b.minLat, p.y), Max(b.maxLng, p.x), Max(b.maxLat, p.y)))
  }

  /** b is the smallest box around the points: it contains them all and each side touches one. */
  ghost predicate IsHull(b: Option<Bounds>, points: set<Point>) {
    match b
    case None => points == {}
    case Some(b) =>
      && (forall p :: p in points ==> b.Contains(p))
      && (exists p :: p in points && p.x == b.minLng) && (exists p :: p in points && p.x == b.maxLng)
      && (exists p :: p in points && p.y == b.minLat) && (exists p :: p in points && p.y == b.maxLat)
  }

  lemma HullGrows(b: Option<Bounds>, points: set<Point>, p: Point)
    requires IsHull(b, points)
    ensures IsHull(Extended(b, p), points + {p})
  {
  }

  lemma HullIsUnique(a: Bounds, b: Bounds, points: set<Point>)
    requires IsHull(Some(a), points) && IsHull(Some(b), points)
    ensures a == b
  {
  }

  // ---- building an area ----

  function CloseRing(ring: Ring): (closed: Ring)
    ensures ring != [] ==> Closed(closed)
    ensures ring <= closed && forall p :: p in closed <==> p in ring
  {
    if |ring| > 0 && ring[0] != ring[|ring| - 1] then ring + [ring[0]] else ring
  }

  predicate ValidRing(ring: Ring) {
    (forall p :: p in ring ==> InRange(p)) && |CloseRing(ring)| >= MIN_RING
  }

  predicate ValidPolygon(polygon: Polygon) {
    |polygon| > 0 && forall ring :: ring in polygon ==> ValidRing(ring)
  }

  predicate ValidPolygons(polygons: seq<Polygon>) {
    |polygons| > 0 && forall polygon :: polygon in polygons ==> ValidPolygon(polygon)
  }

  function ClosePolygon(polygon: Polygon): Polygon {
    seq(|polygon|, i requires 0 <= i < |polygon| => CloseRing(polygon[i]))
  }

  function ClosePolygons(polygons: seq<Polygon>): seq<Polygon> {
    seq(|polygons|, i requires 0 <= i < |polygons| => ClosePolygon(polygons[i]))
  }

  ghost function Points(ring: Ring): set<Point> {
    set p | p in ring
  }

  ghost function PolygonPoints(polygon: Polygon): set<Point> {
    if polygon == [] then {} else PolygonPoints(polygon[..|polygon| - 1]) + Points(polygon[|polygon| - 1])
  }

  ghost function AllPoints(polygons: seq<Polygon>): set<Point> {
    if polygons == [] then {} else AllPoints(polygons[..|polygons| - 1]) + PolygonPoints(polygons[|polygons| - 1])
  }

  method ScanRing(ring: Ring, b: Option<Bounds>, ghost seen: set<Point>) returns (ok: bool, wider: Option<Bounds>)
    requires IsHull(b, seen)
    ensures ok <==> forall p :: p in ring ==> InRange(p)
    ensures ok ==> IsHull(wider, seen + Points(ring))
  {
    wider := b;
    assert seen + Points([]) == seen;
    for i := 0 to |ring|
      invariant forall p :: p in ring[..i] ==> InRange(p)
      invariant IsHull(wider, seen + Points(ring[..i]))
    {
      if !InRange(ring[i]) {
        assert ring[i] in ring;
        return false, b;
      }
      HullGrows(wider, seen + Points(ring[..i]), ring[i]);
      assert seen + Points(ring[..i]) + {ring[i]} == seen + Points(ring[..i + 1]);
      wider := Extended(wider, ring[i]);
    }
    assert ring[..|ring|] == ring;
    ok := true;
  }

  method ScanPolygon(polygon: Polygon, b: Option<Bounds>, ghost seen: set<Point>)
    returns (ok: bool, closed: Polygon, wider: Option<Bounds>)
    requires IsHull(b, seen)
    ensures ok <==> ValidPolygon(polygon)
    ensures ok ==> closed == ClosePolygon(polygon) && IsHull(wider, seen + PolygonPoints(polygon))
  {
    hide IsHull, InRange, CloseRing;
    closed, wider := [], b;
    if |polygon| == 0 {
      return false, closed, wider;
    }
    assert seen + PolygonPoints([]) == seen;
    for i := 0 to |polygon|
      invariant forall ring :: ring in polygon[..i] ==> ValidRing(ring)
      invariant closed == ClosePolygon(polygon[..i])
      invariant IsHull(wider, seen + PolygonPoints(polygon[..i]))
    {
      var ring := polygon[i];
      assert ring in polygon;
      ok, wider := ScanRing(ring, wider, seen + PolygonPoints(polygon[..i]));
      if !ok || |CloseRing(ring)| < MIN_RING {
        return false, closed, wider;
      }
      closed := closed + [CloseRing(ring)];
      assert polygon[..i + 1][..i] == polygon[..i];
      assert seen + PolygonPoints(polygon[..i]) + Points(ring) == seen + PolygonPoints(polygon[..i + 1]);
      assert closed == ClosePolygon(polygon[..i + 1]);
    }
    assert polygon[..|polygon|] == polygon;
    ok := true;
  }

  method NewArea(id: string, polygons: seq<Polygon>, observedAt: Option<Time>) returns (r: Result<Area, AreaError>)
    ensures r.Ok? <==> ValidPolygons(polygons)
    ensures r.Ok? ==>
              && r.value == Area(id, ClosePolygons(polygons), observedAt, r.value.bounds)
              && IsHull(Some(r.value.bounds), AllPoints(polygons))
  {
    assert IsHull(None, AllPoints([]));
    hide IsHull, ValidPolygon, ClosePolygon, PolygonPoints;
    if |polygons| == 0 {
      return Err(InvalidGeometry);
    }
    var closed: seq<Polygon>, b := [], None;
    for i := 0 to |polygons|
      invariant forall polygon :: polygon in polygons[..i] ==> ValidPolygon(polygon)
      invariant closed == ClosePolygons(polygons[..i])
      invariant IsHull(b, AllPoints(polygons[..i]))
    {
      assert polygons[i] in polygons;
      var ok, polygon, wider := ScanPolygon(polygons[i], b, AllPoints(polygons[..i]));
      if !ok {
        return Err(InvalidGeometry);
      }
      closed, b := closed + [polygon], wider;
      assert polygons[..i + 1][..i] == polygons[..i];
      assert closed == ClosePolygons(polygons[..i + 1]);
    }
    assert polygons[..|polygons|] == polygons;
    HasPoints(polygons, b);
    r := Ok(Area(id, closed, observedAt, b.value));
  }

  lemma HasPoints(polygons: seq<Polygon>, b: Option<Bounds>)
    requires ValidPolygons(polygons) && IsHull(b, AllPoints(polygons))
    ensures b.Some?
  {
    var polygon := polygons[|polygons| - 1];
    assert polygon in polygons;
    var ring := polygon[|polygon| - 1];
    assert ring in polygon;
    assert |ring| > 0;
    assert ring[0] in Points(ring);
  }

  lemma {:induction false} PointIsSeen(polygon: Polygon, j: int, k: int)
    requires 0 <= j < |polygon| && 0 <= k < |polygon[j]|
    ensures polygon[j][k] in PolygonPoints(polygon)
    decreases |polygon|
  {
    if j < |polygon| - 1 {
      PointIsSeen(polygon[..|polygon| - 1], j, k);
    }
  }

  lemma {:induction false} VertexIsSeen(polygons: seq<Polygon>, i: int, j: int, k: int)
    requires 0 <= i < |polygons| && 0 <= j < |polygons[i]| && 0 <= k < |polygons[i][j]|
    ensures polygons[i][j][k] in AllPoints(polygons)
    decreases |polygons|
  {
    if i < |polygons| - 1 {
      VertexIsSeen(polygons[..|polygons| - 1], i, j, k);
    } else {
      PointIsSeen(polygons[i], j, k);
    }
  }

  lemma {:induction false} EdgesInHull(polygons: seq<Polygon>, b: Bounds, i: int, j: int, k: int, l: int, t: real)
    requires IsHull(Some(b), AllPoints(polygons)) && 0.0 <= t <= 1.0
    requires 0 <= i < |polygons| && 0 <= j < |polygons[i]| && 0 <= k < |polygons[i][j]| && 0 <= l < |polygons[i][j]|
    ensures b.Contains(Along(polygons[i][j][k], polygons[i][j][l], t))
  {
    var p, q := polygons[i][j][k], polygons[i][j][l];
    VertexIsSeen(polygons, i, j, k);
    VertexIsSeen(polygons, i, j, l);
    assert b.Contains(p) && b.Contains(q);
    hide IsHull, AllPoints;
    Between(p.x, q.x, t, b.minLng, b.maxLng);
    Between(p.y, q.y, t, b.minLat, b.maxLat);
  }

  /** An area skipped because its bounds miss the view has no outline point in the view. */
  lemma {:induction false} SkippedIsOutside(polygons: seq<Polygon>, b: Bounds, view: Bounds, i: int, j: int, k: int,
                                            l: int, t: real)
    requires IsHull(Some(b), AllPoints(polygons)) && !b.Intersects(view)
    requires 0 <= i < |polygons| && 0 <= j < |polygons[i]| && 0 <= k < |polygons[i][j]| && 0 <= l < |polygons[i][j]|
    requires 0.0 <= t <= 1.0
    ensures !view.Contains(Along(polygons[i][j][k], polygons[i][j][l], t))
  {
    hide IsHull, AllPoints, Along;
    EdgesInHull(polygons, b, i, j, k, l, t);
  }

  // ---- clipping ----

  datatype ClipLimits = ClipLimits(maxAreas: int, maxVertices: int)

  /** An area as sent; ref is its index in the snapshot. */
  datatype ClippedArea = ClippedArea(area: Area, ref: nat)

  /** What every area of a snapshot has: each polygon has an outer ring, rings are closed, and the box
      around them is proper. */
  ghost predicate Built(area: Area) {
    && area.bounds.Proper()
    && forall polygon :: polygon in area.polygons ==> |polygon| > 0 && forall ring :: ring in polygon ==> Closed(ring)
  }

  lemma NewAreaIsBuilt(id: string, polygons: seq<Polygon>, observedAt: Option<Time>, b: Bounds)
    requires ValidPolygons(polygons) && IsHull(Some(b), AllPoints(polygons))
    ensures Built(Area(id, ClosePolygons(polygons), observedAt, b))
  {
    assert b.Proper() by {
      var p :| p in AllPoints(polygons) && p.x == b.minLng;
      assert b.Contains(p);
    }
    forall polygon | polygon in ClosePolygons(polygons)
      ensures |polygon| > 0 && forall ring :: ring in polygon ==> Closed(ring)
    {
      var i :| 0 <= i < |polygons| && polygon == ClosePolygon(polygons[i]);
      assert polygons[i] in polygons;
      forall ring | ring in polygon
        ensures Closed(ring)
      {
        var j :| 0 <= j < |polygons[i]| && ring == CloseRing(polygons[i][j]);
        assert polygons[i][j] in polygons[i];
      }
    }
  }

  ghost function SurvivingRings(rings: seq<Ring>, tolerance: real): seq<Ring> {
    if rings == [] then []
    else
      var rest := SurvivingRings(rings[..|rings| - 1], tolerance);
      match Simplified(rings[|rings| - 1], tolerance)
      case None => rest
      case Some(ring) => rest + [ring]
  }

  /** A polygon whose outer ring collapses disappears with its holes. */
  ghost function ClippedPolygon(polygon: Polygon, tolerance: real): Option<Polygon>
    requires |polygon| > 0
  {
    match Simplified(polygon[0], tolerance)
    case None => None
    case Some(outer) => Some([outer] + SurvivingRings(polygon[1..], tolerance))
  }

  ghost function ClippedPolygons(polygons: seq<Polygon>, tolerance: real): seq<Polygon>
    requires forall polygon :: polygon in polygons ==> |polygon| > 0
  {
    if polygons == [] then []
    else
      var rest := ClippedPolygons(polygons[..|polygons| - 1], tolerance);
      match ClippedPolygon(polygons[|polygons| - 1], tolerance)
      case None => rest
      case Some(polygon) => rest + [polygon]
  }

  ghost function RingVertices(rings: seq<Ring>): nat {
    if rings == [] then 0 else RingVertices(rings[..|rings| - 1]) + |rings[|rings| - 1]|
  }

  ghost function Vertices(polygons: seq<Polygon>): nat {
    if polygons == [] then 0 else Vertices(polygons[..|polygons| - 1]) + RingVertices(polygons[|polygons| - 1])
  }

  ghost predicate IsShown(area: Area, view: Bounds, tolerance: real)
    requires Built(area)
  {
    area.bounds.Intersects(view) && ClippedPolygons(area.polygons, tolerance) != []
  }

  /** The clip of the first `end` areas if there were no limits. */
  ghost function Unlimited(areas: seq<Area>, view: Bounds, tolerance: real, end: nat): seq<ClippedArea>
    requires end <= |areas| && forall area :: area in areas ==> Built(area)
  {
    if end == 0 then []
    else
      var rest, area := Unlimited(areas, view, tolerance, end - 1), areas[end - 1];
      if IsShown(area, view, tolerance)
      then rest + [ClippedArea(area.(polygons := ClippedPolygons(area.polygons, tolerance)), end - 1)]
      else rest
  }

  ghost function Total(out: seq<ClippedArea>): nat {
    if out == [] then 0 else Total(out[..|out| - 1]) + Vertices(out[|out| - 1].area.polygons)
  }

  ghost predicate Within(out: seq<ClippedArea>, limits: ClipLimits) {
    |out| <= limits.maxAreas && Total(out) <= limits.maxVertices
  }

  method ClipPolygon(polygon: Polygon, tolerance: real) returns (p: Option<Polygon>)
    requires |polygon| > 0
    ensures p == ClippedPolygon(polygon, tolerance)
  {
    hide Simplified;
    var outer := SimplifyRing(polygon[0], tolerance);
    if outer == None {
      return None;
    }
    var kept := [outer.value];
    ghost var holes := polygon[1..];
    for i := 1 to |polygon|
      invariant kept == [outer.value] + SurvivingRings(holes[..i - 1], tolerance)
    {
      var h := SimplifyRing(polygon[i], tolerance);
      if h.Some? {
        kept := kept + [h.value];
      }
      assert holes[..i][..i - 1] == holes[..i - 1];
    }
    assert holes[..|polygon| - 1] == holes;
    p := Some(kept);
  }

  method CountVertices(polygon: Polygon) returns (n: nat)
    ensures n == RingVertices(polygon)
  {
    n := 0;
    for i := 0 to |polygon|
      invariant n == RingVertices(polygon[..i])
    {
      n := n + |polygon[i]|;
      assert polygon[..i + 1][..i] == polygon[..i];
    }
    assert polygon[..|polygon|] == polygon;
  }

  method ClipPolygons(polygons: seq<Polygon>, tolerance: real) returns (polys: seq<Polygon>, n: nat)
    requires forall polygon :: polygon in polygons ==> |polygon| > 0
    ensures polys == ClippedPolygons(polygons, tolerance) && n == Vertices(polys)
  {
    hide ClippedPolygon;
    polys, n := [], 0;
    for i := 0 to |polygons|
      invariant polys == ClippedPolygons(polygons[..i], tolerance) && n == Vertices(polys)
    {
      var p := ClipPolygon(polygons[i], tolerance);
      assert polygons[..i + 1][..i] == polygons[..i];
      if p.Some? {
        var m := CountVertices(p.value);
        assert (polys + [p.value])[..|polys|] == polys;
        polys, n := polys + [p.value], n + m;
      }
    }
    assert polygons[..|polygons|] == polygons;
  }

  /** The areas sent are the longest prefix of the unlimited clip that fits the limits. */
  method Clip(areas: seq<Area>, view: Bounds, tolerance: real, limits: ClipLimits)
    returns (out: seq<ClippedArea>, truncated: bool)
    requires forall area :: area in areas ==> Built(area)
    ensures out <= Unlimited(areas, view, tolerance, |areas|)
    ensures truncated <==> out != Unlimited(areas, view, tolerance, |areas|)
    ensures out == [] || (|out| <= limits.maxAreas && Total(out) <= limits.maxVertices)
    ensures forall k :: |out| < k <= |Unlimited(areas, view, tolerance, |areas|)| ==>
              k > limits.maxAreas || Total(Unlimited(areas, view, tolerance, |areas|)[..k]) > limits.maxVertices
    ensures view.Proper() ==> forall c :: c in out ==> Meet(c.area.bounds, view)
  {
    hide ClippedPolygons, Vertices, Bounds.Intersects, Bounds.Proper, Meet;
    out := [];
    var vertices := 0;
    for i := 0 to |areas|
      invariant out == Unlimited(areas, view, tolerance, i) && vertices == Total(out)
      invariant out == [] || Within(out, limits)
      invariant view.Proper() ==> forall c :: c in out ==> Meet(c.area.bounds, view)
    {
      var a := areas[i];
      assert a in areas;
      UnlimitedGrows(areas, view, tolerance, i, |areas|);
      if a.bounds.Intersects(view) {
        assert view.Proper() ==> Meet(a.bounds, view) by { BuiltMeets(a, view); }
        var polys, n := ClipPolygons(a.polygons, tolerance);
        if |polys| != 0 {
          var next := out + [ClippedArea(a.(polygons := polys), i)];
          assert next[..|out|] == out;
          assert next == Unlimited(areas, view, tolerance, i + 1);
          if |out| >= limits.maxAreas || vertices + n > limits.maxVertices {
            assert !Within(next, limits);
            UnlimitedGrows(areas, view, tolerance, i + 1, |areas|);
            LongerIsBigger(next, Unlimited(areas, view, tolerance, |areas|), limits);
            return out, true;
          }
          vertices, out := vertices + n, next;
        }
      }
    }
    truncated := false;
  }

  lemma BuiltMeets(a: Area, view: Bounds)
    requires Built(a)
    ensures view.Proper() ==> (a.bounds.Intersects(view) <==> Meet(a.bounds, view))
  {
    if view.Proper() {
      IntersectsIff(a.bounds, view);
    }
  }

  lemma {:induction false} UnlimitedGrows(areas: seq<Area>, view: Bounds, tolerance: real, i: nat, j: nat)
    requires i <= j <= |areas| && forall area :: area in areas ==> Built(area)
    ensures Unlimited(areas, view, tolerance, i) <= Unlimited(areas, view, tolerance, j)
    decreases j
  {
    if i < j {
      UnlimitedGrows(areas, view, tolerance, i, j - 1);
    }
  }

  lemma {:induction false} TotalGrows(all: seq<ClippedArea>, i: nat, j: nat)
    requires i <= j <= |all|
    ensures Total(all[..i]) <= Total(all[..j])
    decreases j
  {
    if i < j {
      TotalGrows(all, i, j - 1);
      assert all[..j][..j - 1] == all[..j - 1];
    }
  }

  lemma {:induction false} LongerIsBigger(next: seq<ClippedArea>, all: seq<ClippedArea>, limits: ClipLimits)
    requires next <= all && !Within(next, limits)
    ensures forall k :: |next| <= k <= |all| ==> !Within(all[..k], limits)
  {
    forall k | |next| <= k <= |all|
      ensures !Within(all[..k], limits)
    {
      TotalGrows(all, |next|, k);
      assert all[..|next|] == next;
    }
  }

  // ---- what is sent ----

  lemma {:induction false} RefsByIndex(areas: seq<Area>, view: Bounds, tolerance: real, end: nat)
    requires end <= |areas| && forall area :: area in areas ==> Built(area)
    ensures var out := Unlimited(areas, view, tolerance, end);
            && (forall i, j :: 0 <= i < j < |out| ==> out[i].ref < out[j].ref)
            && (forall c :: c in out ==>
                  && c.ref < end && areas[c.ref] in areas
                  && c.area == areas[c.ref].(polygons := ClippedPolygons(areas[c.ref].polygons, tolerance)))
            && (forall r: nat :: r < end ==>
                  (IsShown(areas[r], view, tolerance) <==> exists c :: c in out && c.ref == r))
  {
    hide ClippedPolygons, IsShown, Built;
    if end > 0 {
      RefsByIndex(areas, view, tolerance, end - 1);
      var rest, out := Unlimited(areas, view, tolerance, end - 1), Unlimited(areas, view, tolerance, end);
      assert forall c :: c in rest ==> c in out;
      if IsShown(areas[end - 1], view, tolerance) {
        assert out[|out| - 1] in out;
        assert forall c :: c in out ==> c in rest || c == out[|out| - 1];
      }
    }
  }

  /** Some of the area's polygons survive, and its box shares a point with the view. */
  ghost predicate IsSeen(area: Area, view: Bounds, tolerance: real)
    requires Built(area)
  {
    Meet(area.bounds, view) && ClippedPolygons(area.polygons, tolerance) != []
  }

  lemma SeenIsShown(area: Area, view: Bounds, tolerance: real)
    requires Built(area) && view.Proper()
    ensures IsSeen(area, view, tolerance) <==> IsShown(area, view, tolerance)
  {
    hide ClippedPolygons, Bounds.Intersects, Meet;
    BuiltMeets(area, view);
  }

  ghost predicate Listed(out: seq<ClippedArea>, r: nat) {
    exists c :: c in out && c.ref == r
  }

  /** Refs strictly increase, each entry is its own area with only the geometry simplified, and an area is
      listed exactly when its box shares a point with the view and something of it survives. */
  lemma {:induction false} RefsAreStable(areas: seq<Area>, view: Bounds, tolerance: real)
    requires view.Proper() && forall area :: area in areas ==> Built(area)
    ensures var out := Unlimited(areas, view, tolerance, |areas|);
            && (forall i, j :: 0 <= i < j < |out| ==> out[i].ref < out[j].ref)
            && (forall c :: c in out ==>
                  && c.ref < |areas| && areas[c.ref] in areas
                  && c.area == areas[c.ref].(polygons := ClippedPolygons(areas[c.ref].polygons, tolerance)))
            && (forall r: nat :: r < |areas| ==>
                  areas[r] in areas && (IsSeen(areas[r], view, tolerance) <==> Listed(out, r)))
  {
    hide ClippedPolygons, IsShown, IsSeen, Built, Bounds.Proper;
    RefsByIndex(areas, view, tolerance, |areas|);
    var out := Unlimited(areas, view, tolerance, |areas|);
    forall r: nat | r < |areas|
      ensures areas[r] in areas && (IsSeen(areas[r], view, tolerance) <==> Listed(out, r))
    {
      assert areas[r] in areas;
      SeenIsShown(areas[r], view, tolerance);
    }
  }

  lemma {:induction false} SurvivorsAreWellFormed(rings: seq<Ring>, tolerance: real)
    requires forall ring :: ring in rings ==> Closed(ring)
    ensures forall ring :: ring in SurvivingRings(rings, tolerance) ==> WellFormed(ring)
    decreases |rings|
  {
    hide Simplified, WellFormed, Closed;
    if rings != [] {
      var last := rings[|rings| - 1];
      assert last in rings;
      SurvivorsAreWellFormed(rings[..|rings| - 1], tolerance);
      if Simplified(last, tolerance).Some? {
        SimplifiedIsWellFormed(last, tolerance);
      }
    }
  }

  /** Every ring sent, outer or hole, is closed, has at least four vertices and no equal neighbours. */
  lemma {:induction false} SentRingsAreWellFormed(polygons: seq<Polygon>, tolerance: real)
    requires forall polygon :: polygon in polygons ==> |polygon| > 0 && forall ring :: ring in polygon ==> Closed(ring)
    ensures forall polygon :: polygon in ClippedPolygons(polygons, tolerance) ==>
              |polygon| > 0 && forall ring :: ring in polygon ==> WellFormed(ring)
    decreases |polygons|
  {
    hide Simplified, WellFormed, Closed;
    if polygons != [] {
      var last := polygons[|polygons| - 1];
      assert last in polygons;
      SentRingsAreWellFormed(polygons[..|polygons| - 1], tolerance);
      if Simplified(last[0], tolerance).Some? {
        assert last[0] in last;
        SimplifiedIsWellFormed(last[0], tolerance);
        SurvivorsAreWellFormed(last[1..], tolerance);
      }
    }
  }
}
