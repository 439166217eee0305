/** Orientation tests and proper segment intersection, over exact coordinates. */
module Segments {
  import opened Common

  // [x, y] or [x, y, z]; the planar predicates read x and y only.
  datatype Point = Point(x: real, y: real, z: Option<real>)

  // Cross product of (b - a) and (c - a): the sign of the turn a, b, c.
  function Orientation(a: Point, b: Point, c: Point): real {
    (b.x - a.x) * (c.y - a.y) - (b.y - a.y) * (c.x - a.x)
  }

  function Min(p: real, q: real): real { if p <= q then p else q }
  function Max(p: real, q: real): real { if p <= q then q else p }

  // c lies in the bounding box of ab.
  predicate OnSegment(a: Point, b: Point, c: Point) {
    Min(a.x, b.x) <= c.x <= Max(a.x, b.x) && Min(a.y, b.y) <= c.y <= Max(a.y, b.y)
  }

  predicate ProperlyIntersect(a: Point, b: Point, c: Point, d: Point) {
    var o1 := Orientation(a, b, c);
    var o2 := Orientation(a, b, d);
    var o3 := Orientation(c, d, a);
    var o4 := Orientation(c, d, b);
    if o1 == 0.0 && OnSegment(a, b, c) then false
    else if o2 == 0.0 && OnSegment(a, b, d) then false
    else if o3 == 0.0 && OnSegment(c, d, a) then false
    else if o4 == 0.0 && OnSegment(c, d, b) then false
    else o1 * o2 < 0.0 && o3 * o4 < 0.0
  }

  // ---- what it decides ----

  // The directions of ab and cd, crossed: zero exactly for parallel (or degenerate) segments.
  function Det(a: Point, b: Point, c: Point, d: Point): real {
    (b.x - a.x) * (d.y - c.y) - (b.y - a.y) * (d.x - c.x)
  }

  // The point at parameter s of ab is the point at parameter t of cd.
  predicate MeetAt(a: Point, b: Point, c: Point, d: Point, s: real, t: real) {
    a.x + s * (b.x - a.x) == c.x + t * (d.x - c.x) && a.y + s * (b.y - a.y) == c.y + t * (d.y - c.y)
  }

  // The segments are not parallel and share a point strictly inside both.
  ghost predicate Cross(a: Point, b: Point, c: Point, d: Point) {
    Det(a, b, c, d) != 0.0 && exists s: real, t: real :: 0.0 < s < 1.0 && 0.0 < t < 1.0 && MeetAt(a, b, c, d, s, t)
  }

  lemma TurnsDifferByDet(a: Point, b: Point, c: Point, d: Point)
    ensures Orientation(a, b, d) - Orientation(a, b, c) == Det(a, b, c, d)
    ensures Orientation(c, d, a) - Orientation(c, d, b) == Det(a, b, c, d)
  {
  }

  lemma SignsOfProduct(p: real, q: real)
    ensures p * q < 0.0 <==> (p < 0.0 < q || q < 0.0 < p)
  {
  }

  lemma Scaled(k: real, p: real, q: real)
    requires k != 0.0 && k * p == k * q
    ensures p == q
  {
  }

  lemma ProperFraction(f: real, k: real, p: real)
    requires f * k == p && 0.0 < p < k
    ensures 0.0 < f < 1.0
  {
    Monotone(f, 0.0, k);
    Monotone(1.0, f, k);
    assert 0.0 * k == 0.0 && 1.0 * k == k;
  }

  lemma Quotient(p: real, D: real) returns (f: real)
    requires D != 0.0
    ensures f * D == p
  {
    f := p / D;
  }

  lemma NegatedFactor(f: real, k: real, p: real)
    requires f * k == p
    ensures f * -k == -p
  {
  }

  // p = D * f, and p is strictly between 0 and D: f is strictly between 0 and 1.
  lemma FractionInside(p: real, D: real) returns (f: real)
    requires (0.0 < p < D) || (D < p < 0.0)
    ensures 0.0 < f < 1.0 && f * D == p
  {
    f := Quotient(p, D);
    if D > 0.0 {
      assert p < D;
      ProperFraction(f, D, p);
    } else {
      assert D < p < 0.0;
      NegatedFactor(f, D, p);
      ProperFraction(f, -D, -p);
    }
  }

  lemma Monotone(p: real, q: real, k: real)
    requires k > 0.0
    ensures p * k > q * k <==> p > q
  {
  }

  // Cramer's rule, one coordinate at a time: u, v the directions, w = c - a.
  lemma Cramer(ux: real, uy: real, vx: real, vy: real, wx: real, wy: real)
    ensures (wx * vy - wy * vx) * ux - (wx * uy - wy * ux) * vx == (ux * vy - uy * vx) * wx
    ensures (wx * vy - wy * vx) * uy - (wx * uy - wy * ux) * vy == (ux * vy - uy * vx) * wy
  {
  }

  lemma Cancel(D: real, s: real, t: real, u: real, v: real, w: real, p: real, q: real)
    requires D != 0.0 && s * D == p && t * D == q && p * u - q * v == D * w
    ensures s * u - t * v == w
  {
    assert D * (s * u - t * v) == D * w by {
      assert D * (s * u) == p * u;
      assert D * (t * v) == q * v;
    }
    Scaled(D, s * u - t * v, w);
  }

  lemma IntersectMeansCross(a: Point, b: Point, c: Point, d: Point)
    requires ProperlyIntersect(a, b, c, d)
    ensures Cross(a, b, c, d)
  {
    var o1, o2, o3, o4 := Orientation(a, b, c), Orientation(a, b, d), Orientation(c, d, a), Orientation(c, d, b);
    var D := Det(a, b, c, d);
    TurnsDifferByDet(a, b, c, d);
    SignsOfProduct(o1, o2);
    SignsOfProduct(o3, o4);
    var s := FractionInside(o3, D);
    var t := FractionInside(-o1, D);
    var ux, uy, vx, vy, wx, wy := b.x - a.x, b.y - a.y, d.x - c.x, d.y - c.y, c.x - a.x, c.y - a.y;
    Cramer(ux, uy, vx, vy, wx, wy);
    assert o3 == wx * vy - wy * vx;
    assert -o1 == wx * uy - wy * ux;
    Cancel(D, s, t, ux, vx, wx, o3, -o1);
    Cancel(D, s, t, uy, vy, wy, o3, -o1);
    assert MeetAt(a, b, c, d, s, t);
  }

  // With a common point at parameters s and t, the turns are fractions of the determinant.
  lemma TurnsFromMeeting(a: Point, b: Point, c: Point, d: Point, s: real, t: real)
    requires MeetAt(a, b, c, d, s, t)
    ensures Orientation(a, b, c) == -(t * Det(a, b, c, d))
    ensures Orientation(c, d, a) == s * Det(a, b, c, d)
  {
    var ux, uy, vx, vy, wx, wy := b.x - a.x, b.y - a.y, d.x - c.x, d.y - c.y, c.x - a.x, c.y - a.y;
    assert wx == s * ux - t * vx && wy == s * uy - t * vy;
    TurnOfCombination(ux, uy, vx, vy, wx, wy, s, t);
  }

  lemma TurnOfCombination(ux: real, uy: real, vx: real, vy: real, wx: real, wy: real, s: real, t: real)
    requires wx == s * ux - t * vx && wy == s * uy - t * vy
    ensures ux * wy - uy * wx == -(t * (ux * vy - uy * vx))
    ensures wx * vy - wy * vx == s * (ux * vy - uy * vx)
  {
    assert ux * wy == s * (ux * uy) - t * (ux * vy);
    assert uy * wx == s * (ux * uy) - t * (uy * vx);
    assert wx * vy == s * (ux * vy) - t * (vx * vy);
    assert wy * vx == s * (uy * vx) - t * (vx * vy);
  }

  lemma CrossMeansIntersect(a: Point, b: Point, c: Point, d: Point)
    requires Cross(a, b, c, d)
    ensures ProperlyIntersect(a, b, c, d)
  {
    var s: real, t: real :| 0.0 < s < 1.0 && 0.0 < t < 1.0 && MeetAt(a, b, c, d, s, t);
    var D := Det(a, b, c, d);
    TurnsFromMeeting(a, b, c, d, s, t);
    TurnsDifferByDet(a, b, c, d);
    var o1, o2, o3, o4 := Orientation(a, b, c), Orientation(a, b, d), Orientation(c, d, a), Orientation(c, d, b);
    OppositeTurns(-o1, -o2, t, D);
    OppositeTurns(o3, o4, s, D);
    EarlyExitsRedundant(a, b, c, d);
  }

  // p is a proper fraction of D, and q lies D beyond it: they have opposite signs.
  lemma OppositeTurns(p: real, q: real, k: real, D: real)
    requires 0.0 < k < 1.0 && D != 0.0 && p == k * D && p - q == D
    ensures p * q < 0.0
  {
    PartOf(k, D, p);
    SignsOfProduct(p, q);
  }

  lemma PartOf(k: real, D: real, p: real)
    requires 0.0 < k < 1.0 && D != 0.0 && p == k * D
    ensures 0.0 < p < D || D < p < 0.0
  {
  }

  /** The intersection test answers true exactly when the two segments are not parallel and
      share a point strictly inside both. */
  lemma ProperlyIntersectIffCross(a: Point, b: Point, c: Point, d: Point)
    ensures ProperlyIntersect(a, b, c, d) <==> Cross(a, b, c, d)
  {
    if ProperlyIntersect(a, b, c, d) { IntersectMeansCross(a, b, c, d); }
    if Cross(a, b, c, d) { CrossMeansIntersect(a, b, c, d); }
  }

  /** The four collinear early exits never change the answer: without them the test is the same. */
  lemma EarlyExitsRedundant(a: Point, b: Point, c: Point, d: Point)
    ensures ProperlyIntersect(a, b, c, d) <==>
              Orientation(a, b, c) * Orientation(a, b, d) < 0.0 && Orientation(c, d, a) * Orientation(c, d, b) < 0.0
  {
    SignsOfProduct(Orientation(a, b, c), Orientation(a, b, d));
    SignsOfProduct(Orientation(c, d, a), Orientation(c, d, b));
  }

  /** The answer does not depend on which segment comes first or on the direction of either. */
  lemma IntersectSymmetric(a: Point, b: Point, c: Point, d: Point)
    ensures ProperlyIntersect(c, d, a, b) == ProperlyIntersect(a, b, c, d)
    ensures ProperlyIntersect(b, a, c, d) == ProperlyIntersect(a, b, c, d)
    ensures ProperlyIntersect(a, b, d, c) == ProperlyIntersect(a, b, c, d)
  {
    EarlyExitsRedundant(a, b, c, d);
    EarlyExitsRedundant(c, d, a, b);
    EarlyExitsRedundant(b, a, c, d);
    EarlyExitsRedundant(a, b, d, c);
    TurnReversed(a, b, c);
    TurnReversed(a, b, d);
    TurnReversed(c, d, a);
    TurnReversed(c, d, b);
    SignsOfProduct(Orientation(a, b, c), Orientation(a, b, d));
    SignsOfProduct(Orientation(c, d, a), Orientation(c, d, b));
    SignsOfProduct(Orientation(b, a, c), Orientation(b, a, d));
    SignsOfProduct(Orientation(d, c, a), Orientation(d, c, b));
    SignsOfProduct(Orientation(a, b, d), Orientation(a, b, c));
    SignsOfProduct(Orientation(c, d, b), Orientation(c, d, a));
  }

  lemma TurnReversed(a: Point, b: Point, c: Point)
    ensures Orientation(b, a, c) == -Orientation(a, b, c)
  {
  }
}
