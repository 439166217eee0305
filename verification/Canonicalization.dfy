/**
Canonicalization of geometries: coordinates are rounded onto the grid of their coordinate
space and polygon rings are closed. Coordinates are exact reals; the grid point nearest to a
value is chosen, and the even one of two equally near.
*/
module Canonicalization {
  import opened Common
  import opened Segments
  import opened Polygons
  import opened SelfIntersection

  datatype CoordinateSpace = ImageNormalized | VenueLocal

  datatype GeometryType = PointGeometry | LineString | Polygon

  const CLOSURE_EPSILON: real := 0.000001

  // 10 to the documented precision: 6 decimals for image space, 3 for venue space.
  function Scale(space: CoordinateSpace): real {
    if space.ImageNormalized? then 1000000.0 else 1000.0
  }

  function RoundHalfEven(v: real): int {
    var f := v.Floor;
    var rest := v - f as real;
    if rest < 0.5 then f else if rest > 0.5 then f + 1 else if f % 2 == 0 then f else f + 1
  }

  function Round(v: real, scale: real): real
    requires scale > 0.0
  {
    RoundHalfEven(v * scale) as real / scale
  }

  function Rounded(p: Point, scale: real): Point
    requires scale > 0.0
  {
    Point(Round(p.x, scale), Round(p.y, scale), if p.z.Some? then Some(Round(p.z.value, scale)) else None)
  }

  predicate Near(a: real, b: real) { Abs(a - b) <= CLOSURE_EPSILON }

  datatype Failure = LengthsDiffer   // zip(..., strict=True) over points of different dimension

  // all(abs(a - b) <= eps for a, b in zip(first, last, strict=True)): the comparison stops at
  // the first far pair, so the strict length check is reached only if x and y are near.
  function Closed(first: Point, last: Point): Result<bool, Failure> {
    if !Near(first.x, last.x) || !Near(first.y, last.y) then Ok(false)
    else if first.z.Some? != last.z.Some? then Err(LengthsDiffer)
    else Ok(first.z.None? || Near(first.z.value, last.z.value))
  }

  function RoundedAll(coords: seq<Point>, scale: real): (r: seq<Point>)
    requires scale > 0.0
    ensures |r| == |coords|
  {
    seq(|coords|, i requires 0 <= i < |coords| => Rounded(coords[i], scale))
  }

  function Canonicalize(coords: seq<Point>, space: CoordinateSpace, shape: GeometryType): Result<seq<Point>, Failure>
    requires coords != []
  {
    var c := RoundedAll(coords, Scale(space));
    if !shape.Polygon? then Ok(c)
    else
      match Closed(c[0], c[|c| - 1])
      case Err(e) => Err(e)
      case Ok(true) => Ok(c)
      case Ok(false) => Ok(c + [c[0]])
  }

  // ---- the grid ----

  predicate OnGrid(v: real, scale: real) {
    (v * scale).Floor as real == v * scale
  }

  predicate PointOnGrid(p: Point, scale: real) {
    OnGrid(p.x, scale) && OnGrid(p.y, scale) && (p.z.Some? ==> OnGrid(p.z.value, scale))
  }

  lemma DivMul(a: real, scale: real)
    requires scale > 0.0
    ensures (a / scale) * scale == a && (a * scale) / scale == a
  {
  }

  lemma RoundNearest(v: real, scale: real)
    requires scale > 0.0
    ensures OnGrid(Round(v, scale), scale)
    ensures OnGrid(v, scale) ==> Round(v, scale) == v
    ensures Abs(Round(v, scale) * scale - v * scale) <= 0.5
  {
    var k := RoundHalfEven(v * scale);
    DivMul(k as real, scale);
    DivMul(v, scale);
    assert Round(v, scale) * scale == k as real;
  }

  /** Of two equally near grid steps the even one is taken. */
  lemma TiesToEven(v: real, k: int)
    requires v == k as real + 0.5
    ensures RoundHalfEven(v) % 2 == 0 && (RoundHalfEven(v) == k || RoundHalfEven(v) == k + 1)
  {
    assert v.Floor == k;
  }

  // On the grid of 1/steps, and within half a grid step.
  predicate Precise(c: real, v: real, steps: real) { (c * steps).Floor as real == c * steps && -0.5 <= (c - v) * steps <= 0.5 }

  /** The documented precision: image coordinates move by at most half a millionth onto six decimals, venue
      coordinates by at most half a thousandth onto three; every point is kept, and a ring gets at
      most one more, its first again. */
  lemma DocumentedPrecision(coords: seq<Point>, space: CoordinateSpace, shape: GeometryType, i: nat)
    requires i < |coords| && Canonicalize(coords, space, shape).Ok?
    ensures var c, steps := Canonicalize(coords, space, shape).value, if space.ImageNormalized? then 1000000.0 else 1000.0;
            && |coords| <= |c| <= |coords| + (if shape.Polygon? then 1 else 0)
            && (|c| == |coords| + 1 ==> c[|coords|] == c[0])
            && Precise(c[i].x, coords[i].x, steps) && Precise(c[i].y, coords[i].y, steps)
            && (c[i].z.Some? <==> coords[i].z.Some?) && (c[i].z.Some? ==> Precise(c[i].z.value, coords[i].z.value, steps))
  {
    var p := coords[i];
    RoundNearest(p.x, Scale(space));
    RoundNearest(p.y, Scale(space));
    if p.z.Some? { RoundNearest(p.z.value, Scale(space)); }
    var c := Canonicalize(coords, space, shape).value;
    assert c[i] == Rounded(p, Scale(space));
  }

  lemma RoundedOnGrid(coords: seq<Point>, scale: real)
    requires scale > 0.0
    ensures forall i :: 0 <= i < |coords| ==> PointOnGrid(RoundedAll(coords, scale)[i], scale)
    ensures (forall i :: 0 <= i < |coords| ==> PointOnGrid(coords[i], scale)) ==> RoundedAll(coords, scale) == coords
  {
    forall i | 0 <= i < |coords|
      ensures PointOnGrid(RoundedAll(coords, scale)[i], scale)
      ensures PointOnGrid(coords[i], scale) ==> RoundedAll(coords, scale)[i] == coords[i]
    {
      var p := coords[i];
      RoundNearest(p.x, scale);
      RoundNearest(p.y, scale);
      if p.z.Some? { RoundNearest(p.z.value, scale); }
    }
  }

  /** Canonicalizing a canonical geometry changes nothing. */
  lemma CanonicalizeIdempotent(coords: seq<Point>, space: CoordinateSpace, shape: GeometryType)
    requires coords != [] && Canonicalize(coords, space, shape).Ok?
    ensures var c := Canonicalize(coords, space, shape).value;
            c != [] && Canonicalize(c, space, shape) == Ok(c)
  {
    var c := Canonicalize(coords, space, shape).value;
    RoundedOnGrid(coords, Scale(space));
    RoundedOnGrid(c, Scale(space));
  }

  // The grid step a coordinate is rounded to, and how many steps the closure tolerance spans.
  function Index(v: real, space: CoordinateSpace): int { RoundHalfEven(v * Scale(space)) }

  function Slack(space: CoordinateSpace): int { if space.ImageNormalized? then 1 else 0 }

  predicate Within(a: int, b: int, n: int) { -n <= a - b <= n }

  // The closure test on rounded coordinates counts grid steps.
  lemma NearInSteps(a: real, b: real, space: CoordinateSpace)
    ensures Near(Round(a, Scale(space)), Round(b, Scale(space))) <==> Within(Index(a, space), Index(b, space), Slack(space))
    ensures Round(a, Scale(space)) == Round(b, Scale(space)) <==> Index(a, space) == Index(b, space)
  {
    var k, m := Index(a, space), Index(b, space);
    var x, y := Round(a, Scale(space)), Round(b, Scale(space));
    DivMul(k as real, Scale(space));
    DivMul(m as real, Scale(space));
    assert (k - m) as real == (x - y) * Scale(space);
    if space.ImageNormalized? {
      assert (k - m) as real == (x - y) * 1000000.0;
    } else {
      assert (k - m) as real == (x - y) * 1000.0;
    }
  }

  predicate SameGridPoint(p: Point, q: Point, space: CoordinateSpace) {
    && Index(p.x, space) == Index(q.x, space) && Index(p.y, space) == Index(q.y, space)
    && (p.z.Some? <==> q.z.Some?) && (p.z.Some? ==> Index(p.z.value, space) == Index(q.z.value, space))
  }

  // Farther apart than the tolerance in some coordinate both have.
  predicate ApartOnGrid(p: Point, q: Point, space: CoordinateSpace) {
    || !Within(Index(p.x, space), Index(q.x, space), Slack(space)) || !Within(Index(p.y, space), Index(q.y, space), Slack(space))
    || (p.z.Some? && q.z.Some? && !Within(Index(p.z.value, space), Index(q.z.value, space), Slack(space)))
  }

  // Whether the canonical ring really ends where it starts.
  predicate EndsMeet(c: seq<Point>) { c != [] && c[0] == c[|c| - 1] }

  /** When a canonical polygon ring ends exactly where it starts, read off the input: when its two ends
      round to the same grid point, or lie farther apart than the tolerance, so that the ring is
      closed. The tolerance spans no step in venue space, whose rings are always closed, and one
      in image space, where ends one step apart stay apart. */
  lemma RingExactlyClosed(coords: seq<Point>, space: CoordinateSpace)
    requires |coords| >= 2 && Canonicalize(coords, space, Polygon).Ok?
    ensures var c, p, q := Canonicalize(coords, space, Polygon).value, coords[0], coords[|coords| - 1];
            && (EndsMeet(c) <==> SameGridPoint(p, q, space) || ApartOnGrid(p, q, space))
            && (space.VenueLocal? ==> ExactlyClosed(c))
  {
    var r, p, q := RoundedAll(coords, Scale(space)), coords[0], coords[|coords| - 1];
    NearInSteps(p.x, q.x, space);
    NearInSteps(p.y, q.y, space);
    if p.z.Some? && q.z.Some? { NearInSteps(p.z.value, q.z.value, space); }
    assert r[0] == Rounded(p, Scale(space)) && r[|r| - 1] == Rounded(q, Scale(space));
    assert r[0] == r[|r| - 1] <==> SameGridPoint(p, q, space);
  }

  /** An image-space ring that stays open by one grid step although it counts as closed. */
  lemma ImageRingLeftOpen()
    ensures var a, b := Point(0.0, 0.0, None), Point(0.000001, 0.0, None);
            var square := [a, Point(1.0, 0.0, None), Point(1.0, 1.0, None), b];
            && Canonicalize(square, ImageNormalized, Polygon) == Ok(square)
            && !EndsMeet(square)
  {
    var a, b := Point(0.0, 0.0, None), Point(0.000001, 0.0, None);
    var square := [a, Point(1.0, 0.0, None), Point(1.0, 1.0, None), b];
    assert 0.000001 * 1000000.0 == 1.0;
    RoundedOnGrid(square, 1000000.0);
    assert RoundedAll(square, 1000000.0) == square;
  }

  /** For every venue-space polygon that can be canonicalized, the area of its ring and the
      self-intersection verdict survive restarting and reversing the ring. */
  lemma VenuePolygonsInvariant(coords: seq<Point>, k: nat)
    requires |coords| >= 2 && Canonicalize(coords, VenueLocal, Polygon).Ok?
    requires k < |Canonicalize(coords, VenueLocal, Polygon).value| - 1
    ensures var ring := Canonicalize(coords, VenueLocal, Polygon).value;
            var vs := ring[..|ring| - 1];
            && ring == Ring(vs)
            && Shoelace(Ring(Started(vs, k))) == Shoelace(ring) == -Shoelace(Reversed(ring))
            && (SelfCrossing(Ring(Started(vs, k))) <==> SelfCrossing(ring))
            && (SelfCrossing(Reversed(ring)) <==> SelfCrossing(ring))
  {
    var ring := Canonicalize(coords, VenueLocal, Polygon).value;
    var vs := ring[..|ring| - 1];
    RingExactlyClosed(coords, VenueLocal);
    assert ring == vs + [vs[0]];
    AreaAnyStart(vs, k);
    AreaInvariant(vs, 0.0, 0.0);
    VerdictInvariant(vs, k);
  }
}
