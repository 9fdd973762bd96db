/** Route corridors: a few padded boxes that together cover every segment of a path. */
module Corridor {
  import opened FloodGeometry

  /** x is the longitude and y the latitude. */
  type Path = seq<Point>

  datatype Box = Box(minLat: real, maxLat: real, minLng: real, maxLng: real) {
    predicate Contains(p: Point) {
      minLat <= p.y <= maxLat && minLng <= p.x <= maxLng
    }
  }

  const METRES_PER_DEGREE: real := 111320.0

  /** The cosine of a latitude in degrees is not modelled: any function stands for it. */
  type Cosine = real -> real

  function Around(b: Box, q: Point): Box {
    Box(Min(b.minLat, q.y), Max(b.maxLat, q.y), Min(b.minLng, q.x), Max(b.maxLng, q.x))
  }

  /** The bounding box of a chunk, from the inverted box that no point has touched. */
  function Bounding(chunk: Path): Box {
    if chunk == [] then Box(90.0, -90.0, 180.0, -180.0)
    else Around(Bounding(chunk[..|chunk| - 1]), chunk[|chunk| - 1])
  }

  function PadLat(padM: real): real {
    padM / METRES_PER_DEGREE
  }

  function PadLng(cos: Cosine, b: Box, padM: real): real {
    padM / (METRES_PER_DEGREE * Max(cos(b.minLat), 0.01))
  }

  function Padded(cos: Cosine, b: Box, padM: real): Box {
    var dLat, dLng := PadLat(padM), PadLng(cos, b, padM);
    Box(Max(-90.0, b.minLat - dLat), Min(90.0, b.maxLat + dLat),
        Max(-180.0, b.minLng - dLng), Min(180.0, b.maxLng + dLng))
  }

  // ---- chunks ----

  /** The ceiling of n / maxBoxes, and at least one. */
  function ChunkSize(n: nat, maxBoxes: int): (size: nat)
    requires maxBoxes >= 1
    ensures size >= 1
  {
    if n == 0 then 1 else (n - 1) / maxBoxes + 1
  }

  /** Chunks overlap by one point, so that segments between chunks are covered. */
  function Chunk(path: Path, start: nat, size: nat): Path {
    if start >= |path| then []
    else path[start..if start + size + 1 > |path| then |path| else start + size + 1]
  }

  function BoxCount(n: nat, maxBoxes: int): nat {
    if n == 0 || maxBoxes < 1 then 0 else (n - 1) / ChunkSize(n, maxBoxes) + 1
  }

  function Bounded(path: Path, maxBoxes: int, k: nat): Box
    requires maxBoxes >= 1
  {
    Bounding(Chunk(path, k * ChunkSize(|path|, maxBoxes), ChunkSize(|path|, maxBoxes)))
  }

  function Boxes(cos: Cosine, path: Path, padM: real, maxBoxes: int): seq<Box> {
    seq(BoxCount(|path|, maxBoxes), k requires k >= 0 && maxBoxes >= 1 => Padded(cos, Bounded(path, maxBoxes, k), padM))
  }

  method CorridorBoxes(cos: Cosine, path: Path, padM: real, maxBoxes: int) returns (out: seq<Box>)
    ensures out == Boxes(cos, path, padM, maxBoxes)
    ensures |out| <= if maxBoxes < 1 then 0 else maxBoxes
  {
    out := [];
    if |path| == 0 || maxBoxes < 1 {
      return;
    }
    var size := ChunkSize(|path|, maxBoxes);
    var start := 0;
    while start < |path|
      invariant start == |out| * size && (|out| > 0 ==> (|out| - 1) * size < |path|)
      invariant forall k :: 0 <= k < |out| ==> out[k] == Padded(cos, Bounded(path, maxBoxes, k), padM)
    {
      var b := Bound(Chunk(path, start, size));
      NextStart(|out|, size);
      out := out + [Padded(cos, b, padM)];
      start := start + size;
    }
    CountIsExact(|path|, size, |out|);
    FewChunks(|path|, maxBoxes, |out|);
  }

  lemma CountIsExact(n: nat, size: nat, boxes: nat)
    requires n >= 1 && size >= 1 && boxes * size >= n && boxes > 0 && (boxes - 1) * size < n
    ensures boxes == (n - 1) / size + 1
  {
    var q := (n - 1) / size;
    assert n - 1 == q * size + (n - 1) % size;
    NextStart(q, size);
    if q + 1 < boxes {
      Larger(q + 1, boxes - 1, size);
    }
    if boxes < q + 1 {
      Larger(boxes, q, size);
    }
  }

  method Bound(chunk: Path) returns (b: Box)
    ensures b == Bounding(chunk)
  {
    b := Box(90.0, -90.0, 180.0, -180.0);
    for i := 0 to |chunk|
      invariant b == Bounding(chunk[..i])
    {
      assert chunk[..i + 1][..i] == chunk[..i];
      b := Around(b, chunk[i]);
    }
    assert chunk[..|chunk|] == chunk;
  }

  lemma NextStart(k: nat, size: nat)
    ensures (k + 1) * size == k * size + size
  {
  }

  /** Chunks of the chosen size never exceed the budget. */
  lemma FewChunks(n: nat, maxBoxes: int, boxes: nat)
    requires n >= 1 && maxBoxes >= 1 && (boxes > 0 ==> (boxes - 1) * ChunkSize(n, maxBoxes) < n)
    ensures boxes <= maxBoxes
  {
    var size := ChunkSize(n, maxBoxes);
    ChunksReach(n, maxBoxes);
    if boxes > maxBoxes {
      Larger(maxBoxes, boxes - 1, size);
    }
  }

  lemma ChunksReach(n: nat, maxBoxes: int)
    requires n >= 1 && maxBoxes >= 1
    ensures maxBoxes * ChunkSize(n, maxBoxes) >= n
  {
  }

  lemma Larger(a: int, b: int, size: nat)
    requires a <= b
    ensures a * size <= b * size
  {
  }

  /** The chunks are as short as the budget allows: one point fewer in each would not reach the end. Each box
      is of that many consecutive points and the one after them. */
  lemma ChunksAreShort(path: Path, maxBoxes: int, k: nat)
    requires path != [] && maxBoxes >= 1 && k < BoxCount(|path|, maxBoxes)
    ensures var n, size := |path|, ChunkSize(|path|, maxBoxes);
            && size * maxBoxes >= n && (size - 1) * maxBoxes < n
            && var start, chunk := k * size, Chunk(path, k * size, size);
               && start < n && |chunk| == (if n - start <= size then n - start else size + 1)
               && Bounded(path, maxBoxes, k) == Bounding(chunk)
               && forall i :: 0 <= i < |chunk| ==> chunk[i] == path[start + i]
  {
    var n, size := |path|, ChunkSize(|path|, maxBoxes);
    assert (size - 1) * maxBoxes == n - 1 - (n - 1) % maxBoxes;
    NextStart(size - 1, maxBoxes);
    var last := (n - 1) / size;
    assert last * size == n - 1 - (n - 1) % size;
    Larger(k, last, size);
    hide Bounding;
  }

  // ---- coverage ----

  lemma {:induction false} BoundingContains(chunk: Path, i: nat)
    requires i < |chunk| && InRange(chunk[i])
    ensures Bounding(chunk).Contains(chunk[i])
    decreases |chunk|
  {
    if i < |chunk| - 1 {
      BoundingContains(chunk[..|chunk| - 1], i);
    }
  }

  /** Each side of the box before padding passes through a point of its chunk. */
  lemma {:induction false} BoundingIsTight(chunk: Path)
    requires chunk != [] && forall i :: 0 <= i < |chunk| ==> InRange(chunk[i])
    ensures var b := Bounding(chunk);
            && (exists i :: 0 <= i < |chunk| && chunk[i].y == b.minLat)
            && (exists i :: 0 <= i < |chunk| && chunk[i].y == b.maxLat)
            && (exists i :: 0 <= i < |chunk| && chunk[i].x == b.minLng)
            && (exists i :: 0 <= i < |chunk| && chunk[i].x == b.maxLng)
    decreases |chunk|
  {
    var init, last := chunk[..|chunk| - 1], chunk[|chunk| - 1];
    assert last == chunk[|chunk| - 1];
    if init == [] {
      assert Bounding(init) == Box(90.0, -90.0, 180.0, -180.0);
    } else {
      assert forall i :: 0 <= i < |init| ==> init[i] == chunk[i];
      BoundingIsTight(init);
    }
  }

  lemma BoxIsConvex(b: Box, p: Point, q: Point, t: real)
    requires b.Contains(p) && b.Contains(q) && 0.0 <= t <= 1.0
    ensures b.Contains(Along(p, q, t))
  {
    Between(p.x, q.x, t, b.minLng, b.maxLng);
    Between(p.y, q.y, t, b.minLat, b.maxLat);
  }

  lemma PadsAreNonNegative(cos: Cosine, b: Box, padM: real)
    requires padM >= 0.0
    ensures PadLat(padM) >= 0.0 && PadLng(cos, b, padM) >= 0.0
  {
  }

  /** q is within the given degrees of p on each axis. */
  predicate Near(p: Point, q: Point, dLat: real, dLng: real) {
    -dLat <= q.y - p.y <= dLat && -dLng <= q.x - p.x <= dLng
  }

  /** The whole segment and everything in range near it. */
  ghost predicate Covers(box: Box, p: Point, q: Point, dLat: real, dLng: real) {
    forall t, s :: 0.0 <= t <= 1.0 && InRange(s) && Near(Along(p, q, t), s, dLat, dLng) ==> box.Contains(s)
  }

  lemma PaddedCovers(cos: Cosine, b: Box, padM: real, p: Point, q: Point)
    requires b.Contains(p) && b.Contains(q)
    ensures Covers(Padded(cos, b, padM), p, q, PadLat(padM), PadLng(cos, b, padM))
  {
    hide PadLat, PadLng, Along;
    forall t, s | 0.0 <= t <= 1.0 && InRange(s) && Near(Along(p, q, t), s, PadLat(padM), PadLng(cos, b, padM))
      ensures Padded(cos, b, padM).Contains(s)
    {
      BoxIsConvex(b, p, q, t);
    }
  }

  /** Which chunk holds the segment from i to its successor. */
  lemma ChunkOf(n: nat, maxBoxes: int, i: nat) returns (k: nat)
    requires i < n && maxBoxes >= 1
    ensures var size := ChunkSize(n, maxBoxes); k < BoxCount(n, maxBoxes) && k * size <= i < k * size + size
  {
    var size := ChunkSize(n, maxBoxes);
    k := i / size;
    assert i == k * size + i % size;
    var last := (n - 1) / size;
    assert n - 1 == last * size + (n - 1) % size;
    NextStart(last, size);
    if k > last {
      Larger(last + 1, k, size);
    }
  }

  /** The segment from i to its successor; the last point alone counts as one. */
  function Successor(path: Path, i: nat): nat {
    if i + 1 < |path| then i + 1 else i
  }

  lemma SegmentInChunk(path: Path, maxBoxes: int, i: nat) returns (k: nat)
    requires maxBoxes >= 1 && i < |path| && InRange(path[i]) && InRange(path[Successor(path, i)])
    ensures k < BoxCount(|path|, maxBoxes)
    ensures Bounded(path, maxBoxes, k).Contains(path[i])
    ensures Bounded(path, maxBoxes, k).Contains(path[Successor(path, i)])
  {
    hide Bounding;
    k := ChunkOf(|path|, maxBoxes, i);
    var size, j := ChunkSize(|path|, maxBoxes), Successor(path, i);
    var start := k * size;
    var chunk := Chunk(path, start, size);
    assert chunk[i - start] == path[i] && chunk[j - start] == path[j];
    BoundingContains(chunk, i - start);
    BoundingContains(chunk, j - start);
  }

  /** Every segment between in-range neighbours, with everything in range within that box's padding of
      it, lies in one single box. */
  lemma EverySegmentIsCovered(cos: Cosine, path: Path, padM: real, maxBoxes: int, i: nat) returns (k: nat)
    requires maxBoxes >= 1 && i < |path| && InRange(path[i]) && InRange(path[Successor(path, i)])
    ensures k < |Boxes(cos, path, padM, maxBoxes)|
    ensures Covers(Boxes(cos, path, padM, maxBoxes)[k], path[i], path[Successor(path, i)],
                   PadLat(padM), PadLng(cos, Bounded(path, maxBoxes, k), padM))
    ensures padM >= 0.0 ==>
              forall t :: 0.0 <= t <= 1.0 ==>
                Boxes(cos, path, padM, maxBoxes)[k].Contains(Along(path[i], path[Successor(path, i)], t))
  {
    hide Padded, PadLat, PadLng, Bounded, Covers, Along;
    k := SegmentInChunk(path, maxBoxes, i);
    var p, q := path[i], path[Successor(path, i)];
    PaddedCovers(cos, Bounded(path, maxBoxes, k), padM, p, q);
    if padM >= 0.0 {
      forall t | 0.0 <= t <= 1.0
        ensures Boxes(cos, path, padM, maxBoxes)[k].Contains(Along(p, q, t))
      {
        CoversSegment(cos, Bounded(path, maxBoxes, k), padM, p, q, t);
      }
    }
  }

  /** With a padding that is not negative the segment itself is near itself. */
  lemma CoversSegment(cos: Cosine, b: Box, padM: real, p: Point, q: Point, t: real)
    requires padM >= 0.0 && b.Contains(p) && b.Contains(q) && InRange(p) && InRange(q) && 0.0 <= t <= 1.0
    ensures Padded(cos, b, padM).Contains(Along(p, q, t))
  {
    hide PadLat, PadLng, Along;
    PadsAreNonNegative(cos, b, padM);
    PaddedCovers(cos, b, padM, p, q);
    BoxIsConvex(Box(-90.0, 90.0, -180.0, 180.0), p, q, t);
    assert Near(Along(p, q, t), Along(p, q, t), PadLat(padM), PadLng(cos, b, padM));
  }

  /** The side is moved out by so many metres at this many metres a degree, or stops at the limit that this
      would pass. */
  predicate MovedOut(side: real, bound: real, limit: real, scale: real, padM: real) {
    var out := if limit < 0.0 then bound - side else side - bound;
    || (out * scale == padM && (if limit < 0.0 then side >= limit else side <= limit))
    || (side == limit && (if limit < 0.0 then bound - limit else limit - bound) * scale <= padM)
  }

  lemma ScaledBack(padM: real, scale: real)
    requires scale > 0.0
    ensures padM / scale * scale == padM
  {
  }

  lemma ScaledLess(x: real, y: real, scale: real)
    requires x <= y && scale > 0.0
    ensures x * scale <= y * scale
  {
  }

  lemma LowerSide(bound: real, d: real, limit: real, scale: real, padM: real)
    requires limit < 0.0 && scale > 0.0 && d * scale == padM
    ensures MovedOut(Max(limit, bound - d), bound, limit, scale, padM)
  {
    if bound - d <= limit {
      ScaledLess(bound - limit, d, scale);
    } else {
      assert bound - (bound - d) == d;
    }
  }

  lemma UpperSide(bound: real, d: real, limit: real, scale: real, padM: real)
    requires limit > 0.0 && scale > 0.0 && d * scale == padM
    ensures MovedOut(Min(limit, bound + d), bound, limit, scale, padM)
  {
    if limit <= bound + d {
      ScaledLess(limit - bound, d, scale);
    } else {
      assert bound + d - bound == d;
    }
  }

  function AtLeastHundredth(x: real): real {
    if x < 0.01 then 0.01 else x
  }

  lemma PadsScale(cos: Cosine, b: Box, padM: real)
    ensures PadLat(padM) * 111320.0 == padM
    ensures PadLng(cos, b, padM) * (111320.0 * AtLeastHundredth(cos(b.minLat))) == padM
  {
    ScaledBack(padM, 111320.0);
    ScaledBack(padM, 111320.0 * AtLeastHundredth(cos(b.minLat)));
  }

  lemma PaddedMovesOut(cos: Cosine, b: Box, padM: real)
    ensures var box, scale := Padded(cos, b, padM), 111320.0 * AtLeastHundredth(cos(b.minLat));
            && MovedOut(box.minLat, b.minLat, -90.0, 111320.0, padM)
            && MovedOut(box.maxLat, b.maxLat, 90.0, 111320.0, padM)
            && MovedOut(box.minLng, b.minLng, -180.0, scale, padM)
            && MovedOut(box.maxLng, b.maxLng, 180.0, scale, padM)
  {
    var dLat, dLng, scale := PadLat(padM), PadLng(cos, b, padM), 111320.0 * AtLeastHundredth(cos(b.minLat));
    PadsScale(cos, b, padM);
    hide MovedOut, PadLat, PadLng;
    LowerSide(b.minLat, dLat, -90.0, 111320.0, padM);
    UpperSide(b.maxLat, dLat, 90.0, 111320.0, padM);
    LowerSide(b.minLng, dLng, -180.0, scale, padM);
    UpperSide(b.maxLng, dLng, 180.0, scale, padM);
  }

  /** Each box is the bounding box of its chunk with every side moved out by the padding: at 111320 metres a
      degree of latitude, and as many times the cosine of its southern side (but at least a hundredth of
      them) a degree of longitude, stopping at the poles and the antimeridian. */
  lemma {:induction false} PaddingIsMetric(cos: Cosine, path: Path, padM: real, maxBoxes: int, k: nat)
    requires maxBoxes >= 1 && k < |Boxes(cos, path, padM, maxBoxes)|
    ensures var b, box := Bounded(path, maxBoxes, k), Boxes(cos, path, padM, maxBoxes)[k];
            var scale := 111320.0 * AtLeastHundredth(cos(b.minLat));
            && MovedOut(box.minLat, b.minLat, -90.0, 111320.0, padM)
            && MovedOut(box.maxLat, b.maxLat, 90.0, 111320.0, padM)
            && MovedOut(box.minLng, b.minLng, -180.0, scale, padM)
            && MovedOut(box.maxLng, b.maxLng, 180.0, scale, padM)
  {
    hide MovedOut, Padded, Bounded;
    PaddedMovesOut(cos, Bounded(path, maxBoxes, k), padM);
  }
}
