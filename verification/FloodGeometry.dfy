/** Planar distances for flood areas. Coordinates are exact reals: rounding error is not modelled. */
module FloodGeometry {
  datatype Point = Point(x: real, y: real)

  type Ring = seq<Point>

  function Min(x: real, y: real): real {
    if x <= y then x else y
  }

  function Max(x: real, y: real): real {
    if x <= y then y else x
  }

  /** A longitude and a latitude in degrees. */
  predicate InRange(p: Point) {
    -180.0 <= p.x <= 180.0 && -90.0 <= p.y <= 90.0
  }

  function Minus(p: Point, q: Point): Point {
    Point(p.x - q.x, p.y - q.y)
  }

  function Dot(u: Point, v: Point): real {
    u.x * v.x + u.y * v.y
  }

  function SqDist(p: Point, q: Point): real {
    var d := Minus(p, q);
    Dot(d, d)
  }

  lemma SumOfSquares(x: real, y: real)
    requires x != 0.0 || y != 0.0
    ensures x * x + y * y > 0.0
  {
  }

  lemma DotPositive(d: Point)
    requires d.x != 0.0 || d.y != 0.0
    ensures Dot(d, d) > 0.0
  {
    SumOfSquares(d.x, d.y);
    calc {
      0.0;
    <
      d.x * d.x + d.y * d.y;
    ==
      Dot(d, d);
    }
  }

  /** The squared distance from p to the segment from a to b. */
  function SqSegDist(p: Point, a: Point, b: Point): real {
    var d := Minus(b, a);
    if d.x != 0.0 || d.y != 0.0 then
      DotPositive(d);
      var t := Dot(Minus(p, a), d) / Dot(d, d);
      if t > 1.0 then SqDist(p, b)
      else if t > 0.0 then SqDist(p, Point(a.x + d.x * t, a.y + d.y * t))
      else SqDist(p, a)
    else SqDist(p, a)
  }

  /** The point at parameter t of the segment. */
  function Along(a: Point, b: Point, t: real): Point {
    var d := Minus(b, a);
    Point(a.x + d.x * t, a.y + d.y * t)
  }

  /** The part of a squared distance that varies along a segment. */
  function Quadratic(q: real, r: real, t: real): real {
    (t * t) * q - 2.0 * (t * r)
  }

  /** The squared distance to a point of the segment is a parabola in its parameter. */
  lemma Parabola(p: Point, a: Point, b: Point, t: real)
    ensures var u, d := Minus(p, a), Minus(b, a);
            SqDist(p, Along(a, b, t)) == Dot(u, u) + Quadratic(Dot(d, d), Dot(u, d), t)
  {
  }

  lemma SameSigns(x: real, y: real)
    requires (x >= 0.0 && y >= 0.0) || (x <= 0.0 && y <= 0.0)
    ensures x * y >= 0.0
  {
  }

  /** A parabola with its vertex at s, restricted to [0, 1], is least at s clamped to [0, 1]. */
  lemma ClampIsLeast(q: real, r: real, s: real, k: real, t: real)
    requires q > 0.0 && 0.0 <= t <= 1.0 && s * q == r
    requires k == (if s > 1.0 then 1.0 else if s > 0.0 then s else 0.0)
    ensures Quadratic(q, r, k) <= Quadratic(q, r, t)
  {
    var x, y := t - k, t + k - 2.0 * s;
    SameSigns(x, y);
    SameSigns(x * y, q);
    assert x * y == t * t - k * k - 2.0 * (s * t) + 2.0 * (s * k);
    assert (x * y) * q == (t * t) * q - (k * k) * q - 2.0 * ((s * t) * q) + 2.0 * ((s * k) * q);
    assert (s * t) * q == t * r && (s * k) * q == k * r;
  }

  /** The parameter of the point of the segment nearest to p. */
  function NearestAt(p: Point, a: Point, b: Point): real {
    var d := Minus(b, a);
    if d.x != 0.0 || d.y != 0.0 then
      DotPositive(d);
      var t := Dot(Minus(p, a), d) / Dot(d, d);
      if t > 1.0 then 1.0 else if t > 0.0 then t else 0.0
    else 0.0
  }

  lemma SegDistIsNearest(p: Point, a: Point, b: Point)
    ensures 0.0 <= NearestAt(p, a, b) <= 1.0
    ensures SqSegDist(p, a, b) == SqDist(p, Along(a, b, NearestAt(p, a, b)))
  {
  }

  /** The parameter before it is clamped to the segment. */
  lemma NearestIsClamped(p: Point, a: Point, b: Point) returns (s: real)
    requires Dot(Minus(b, a), Minus(b, a)) > 0.0
    ensures s * Dot(Minus(b, a), Minus(b, a)) == Dot(Minus(p, a), Minus(b, a))
    ensures NearestAt(p, a, b) == (if s > 1.0 then 1.0 else if s > 0.0 then s else 0.0)
  {
    var d := Minus(b, a);
    if d.x == 0.0 && d.y == 0.0 {
      DotWithZero(d, d);
    }
    hide Dot, Minus;
    s := Dot(Minus(p, a), d) / Dot(d, d);
  }

  lemma NearestIsLeast(p: Point, a: Point, b: Point, t: real)
    requires 0.0 <= t <= 1.0
    ensures SqDist(p, Along(a, b, NearestAt(p, a, b))) <= SqDist(p, Along(a, b, t))
  {
    var d := Minus(b, a);
    if d.x == 0.0 && d.y == 0.0 {
      assert Along(a, b, t) == Along(a, b, NearestAt(p, a, b));
    } else {
      hide Dot, SqDist, Along, NearestAt, Minus, Quadratic;
      DotPositive(d);
      var s := NearestIsClamped(p, a, b);
      Parabola(p, a, b, t);
      Parabola(p, a, b, NearestAt(p, a, b));
      ClampIsLeast(Dot(d, d), Dot(Minus(p, a), d), s, NearestAt(p, a, b), t);
    }
  }

  lemma DotWithZero(u: Point, d: Point)
    requires u.x == 0.0 && u.y == 0.0
    ensures Dot(u, d) == 0.0
  {
  }

  /** SqSegDist is the minimum over all points of the segment, and it is attained. */
  lemma SegDistIsMinimum(p: Point, a: Point, b: Point)
    ensures forall t :: 0.0 <= t <= 1.0 ==> SqSegDist(p, a, b) <= SqDist(p, Along(a, b, t))
    ensures exists t :: 0.0 <= t <= 1.0 && SqSegDist(p, a, b) == SqDist(p, Along(a, b, t))
  {
    SegDistIsNearest(p, a, b);
    forall t | 0.0 <= t <= 1.0
      ensures SqSegDist(p, a, b) <= SqDist(p, Along(a, b, t))
    {
      NearestIsLeast(p, a, b, t);
    }
  }

  // ---- points of a segment stay between its ends ----

  lemma Scaled(d: real, t: real, e: real)
    requires d >= 0.0 && 0.0 <= t <= 1.0 && e == d * t
    ensures 0.0 <= e <= d
  {
  }

  lemma Between(x: real, y: real, t: real, lo: real, hi: real)
    requires lo <= x <= hi && lo <= y <= hi && 0.0 <= t <= 1.0
    ensures lo <= x + (y - x) * t <= hi
  {
    var d := y - x;
    var e := d * t;
    if d >= 0.0 {
      Scaled(d, t, e);
    } else {
      Scaled(-d, t, -e);
    }
    assert lo <= x + e <= hi;
    assert x + (y - x) * t == x + e;
  }
}
