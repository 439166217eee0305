/**
Polygon rings: the shoelace loop, the self-intersection double loop, and what both are
invariant under. A ring is exactly closed when its last point repeats its first; it is then
Ring(vs) for its list vs of distinct positions.
*/
module Polygons {
  import opened Common
  import opened Segments

  function Ring(vs: seq<Point>): seq<Point>
    requires vs != []
  {
    vs + [vs[0]]
  }

  predicate ExactlyClosed(ring: seq<Point>) {
    |ring| >= 2 && ring[0] == ring[|ring| - 1]
  }

  // ---- area ----

  function Term(p: Point, q: Point): real { p.x * q.y - q.x * p.y }

  // The shoelace sum along a path of points.
  function Shoelace(ps: seq<Point>): real {
    if |ps| < 2 then 0.0 else Term(ps[0], ps[1]) + Shoelace(ps[1..])
  }

  function Abs(r: real): real { if r < 0.0 then -r else r }

  /** GeometryModel.area on a ring. */
  method Area(ring: seq<Point>) returns (area: real)
    ensures area == Abs(Shoelace(ring)) / 2.0
    ensures area >= 0.0
  {
    var total := 0.0;
    var i := 0;
    assert ring[0..] == ring;
    while i < |ring| - 1
      invariant 0 <= i && (i <= |ring| - 1 || (i == 0 && ring == []))
      invariant total + Shoelace(ring[i..]) == Shoelace(ring)
    {
      assert ring[i..][1..] == ring[i + 1..];
      total := total + Term(ring[i], ring[i + 1]);
      i := i + 1;
    }
    area := Abs(total) / 2.0;
  }

  /** The sum along two paths joined at p is the sum of the sums. */
  lemma {:induction false} ShoelaceJoin(a: seq<Point>, p: Point, b: seq<Point>)
    ensures Shoelace(a + [p] + b) == Shoelace(a + [p]) + Shoelace([p] + b)
    decreases |a|
  {
    if a == [] {
      assert a + [p] + b == [p] + b;
      assert a + [p] == [p];
    } else {
      ShoelaceJoin(a[1..], p, b);
      assert (a + [p] + b)[1..] == a[1..] + [p] + b;
      assert (a + [p])[1..] == a[1..] + [p];
      assert (a + [p] + b)[1] == (a + [p])[1];
    }
  }

  function Moved(ps: seq<Point>, dx: real, dy: real): seq<Point> {
    seq(|ps|, i requires 0 <= i < |ps| => ps[i].(x := ps[i].x + dx, y := ps[i].y + dy))
  }

  lemma {:induction false} ShoelaceMoved(ps: seq<Point>, dx: real, dy: real)
    requires ps != []
    ensures var p, q := ps[0], ps[|ps| - 1];
            Shoelace(Moved(ps, dx, dy)) == Shoelace(ps) + (dx * (q.y - p.y) - dy * (q.x - p.x))
    decreases |ps|
  {
    if |ps| >= 2 {
      ShoelaceMoved(ps[1..], dx, dy);
      assert Moved(ps, dx, dy)[1..] == Moved(ps[1..], dx, dy);
      MovedTerm(ps[0], ps[1], dx, dy);
    }
  }

  lemma MovedTerm(p: Point, q: Point, dx: real, dy: real)
    ensures Term(p.(x := p.x + dx, y := p.y + dy), q.(x := q.x + dx, y := q.y + dy)) == Term(p, q) + (dx * (q.y - p.y) - dy * (q.x - p.x))
  {
  }

  function Reversed<T>(s: seq<T>): (r: seq<T>)
    ensures |r| == |s|
    ensures forall i :: 0 <= i < |s| ==> r[i] == s[|s| - 1 - i]
  {
    if s == [] then [] else Reversed(s[1..]) + [s[0]]
  }

  lemma {:induction false} ShoelaceReversed(ps: seq<Point>)
    ensures Shoelace(Reversed(ps)) == -Shoelace(ps)
    decreases |ps|
  {
    if |ps| >= 2 {
      ShoelaceReversed(ps[1..]);
      var rest := Reversed(ps[2..]);
      assert ps[1..][1..] == ps[2..];
      assert Reversed(ps[1..]) == rest + [ps[1]];
      assert Reversed(ps) == rest + [ps[1]] + [ps[0]];
      ShoelaceJoin(rest, ps[1], [ps[0]]);
      assert [ps[1]] + [ps[0]] == [ps[1], ps[0]];
    }
  }

  /** A closed ring has the same area after any translation, reversed, and with its signed sum
      only changing sign when reversed. */
  lemma AreaInvariant(vs: seq<Point>, dx: real, dy: real)
    requires vs != []
    ensures Shoelace(Moved(Ring(vs), dx, dy)) == Shoelace(Ring(vs))
    ensures Shoelace(Reversed(Ring(vs))) == -Shoelace(Ring(vs))
    ensures Abs(Shoelace(Reversed(Ring(vs)))) == Abs(Shoelace(Ring(vs)))
  {
    ShoelaceMoved(Ring(vs), dx, dy);
    ShoelaceReversed(Ring(vs));
  }

  // The ring started k vertices later.
  function Started<T>(vs: seq<T>, k: nat): seq<T>
    requires k <= |vs|
  {
    vs[k..] + vs[..k]
  }

  /** The signed sum does not depend on the starting vertex. */
  lemma AreaAnyStart(vs: seq<Point>, k: nat)
    requires k < |vs|
    ensures Shoelace(Ring(Started(vs, k))) == Shoelace(Ring(vs))
  {
    var a, b := vs[..k], vs[k + 1..];
    var p, o := vs[k], vs[0];
    // Ring(vs) runs a p b o; the restarted ring runs p b a p.
    assert vs == a + [p] + b;
    if k == 0 {
      assert Started(vs, 0) == vs;
      return;
    }
    assert Ring(vs) == a + [p] + (b + [o]);
    ShoelaceJoin(a, p, b + [o]);
    var rest := a[1..];
    assert a == [o] + rest;
    assert Ring(Started(vs, k)) == ([p] + b) + [o] + (rest + [p]);
    ShoelaceJoin([p] + b, o, rest + [p]);
    assert [p] + (b + [o]) == ([p] + b) + [o];
    assert [o] + (rest + [p]) == a + [p];
  }

  // The rings of a cut: a p m q b o is the whole, p m q p one side, a p q b o the other.
  lemma CutRings(vs: seq<Point>, i: nat, j: nat)
    requires i < j < |vs|
    ensures var a, p, m, q, b, o := vs[..i], vs[i], vs[i + 1..j], vs[j], vs[j + 1..], vs[0];
            && Ring(vs) == a + [p] + (m + [q] + (b + [o]))
            && Ring(vs[i..j + 1]) == ([p] + m) + [q] + [p]
            && Ring(vs[..i + 1] + vs[j..]) == a + [p] + ([q] + (b + [o]))
  {
    var a, p, m, q, b, o := vs[..i], vs[i], vs[i + 1..j], vs[j], vs[j + 1..], vs[0];
    assert vs == a + [p] + (m + [q] + b);
    assert vs[i..j + 1] == ([p] + m) + [q];
    assert vs[..i + 1] + vs[j..] == a + [p] + ([q] + b);
  }

  // Both sides run along the chord between p and q, in opposite directions.
  lemma ChordCancels(a: seq<Point>, p: Point, m: seq<Point>, q: Point, e: seq<Point>)
    ensures Shoelace(a + [p] + (m + [q] + e)) == Shoelace(([p] + m) + [q] + [p]) + Shoelace(a + [p] + ([q] + e))
  {
    ShoelaceJoin(a, p, m + [q] + e);
    assert [p] + (m + [q] + e) == ([p] + m) + [q] + e;
    ShoelaceJoin([p] + m, q, e);
    ShoelaceJoin([p] + m, q, [p]);
    assert [q] + [p] == [q, p];
    ShoelaceJoin(a, p, [q] + e);
    assert [p] + [q] + e == [p] + ([q] + e);
    ShoelaceJoin([p], q, e);
    assert [p] + [q] == [p, q];
    Chord(p, q);
  }

  lemma Chord(p: Point, q: Point)
    ensures Shoelace([p, q]) + Shoelace([q, p]) == 0.0
  {
    assert [p, q][1..] == [q] && [q, p][1..] == [p];
  }

  /** The signed sum is additive when the ring is cut along a chord between two vertices. */
  lemma AreaCutAlongChord(vs: seq<Point>, i: nat, j: nat)
    requires i < j < |vs|
    ensures Shoelace(Ring(vs)) == Shoelace(Ring(vs[i..j + 1])) + Shoelace(Ring(vs[..i + 1] + vs[j..]))
  {
    CutRings(vs, i, j);
    ChordCancels(vs[..i], vs[i], vs[i + 1..j], vs[j], vs[j + 1..] + [vs[0]]);
  }

  /** The signed sum of a triangle is its cross product, twice its signed area. */
  lemma TriangleSum(p: Point, q: Point, r: Point)
    ensures Shoelace(Ring([p, q, r])) == Orientation(p, q, r)
  {
    var ring := Ring([p, q, r]);
    assert ring == [p, q, r, p] && ring[1..] == [q, r, p] && ring[1..][1..] == [r, p] && ring[1..][1..][1..] == [p];
    assert Shoelace([p]) == 0.0;
    assert Shoelace([r, p]) == Term(r, p) + 0.0;
  }

  // The triangles of the fan around the first vertex, up to vertex n.
  function Fan(vs: seq<Point>, n: nat): real
    requires n <= |vs|
  {
    if n < 3 then 0.0 else Fan(vs, n - 1) + Orientation(vs[0], vs[n - 2], vs[n - 1])
  }

  lemma {:induction false} FanOfPrefix(vs: seq<Point>, n: nat)
    requires n < |vs|
    ensures Fan(vs[..|vs| - 1], n) == Fan(vs, n)
    decreases n
  {
    if n >= 3 { FanOfPrefix(vs, n - 1); }
  }

  /** The signed sum of any ring is the sum over the triangles of a fan. */
  lemma {:induction false} AreaByTriangles(vs: seq<Point>)
    requires |vs| >= 3
    ensures Shoelace(Ring(vs)) == Fan(vs, |vs|)
    decreases |vs|
  {
    var n := |vs|;
    if n == 3 {
      assert vs == [vs[0], vs[1], vs[2]] && Fan(vs, 2) == 0.0;
      TriangleSum(vs[0], vs[1], vs[2]);
    } else {
      AreaCutAlongChord(vs, 0, n - 2);
      assert vs[0..n - 1] == vs[..n - 1] && vs[..1] + vs[n - 2..] == [vs[0], vs[n - 2], vs[n - 1]];
      AreaByTriangles(vs[..n - 1]);
      FanOfPrefix(vs, n - 1);
      TriangleSum(vs[0], vs[n - 2], vs[n - 1]);
    }
  }

  /** A rectangle of width w and height h has signed sum 2 w h. */
  lemma RectangleSum(x: real, y: real, w: real, h: real)
    ensures Shoelace(Ring([Point(x, y, None), Point(x + w, y, None), Point(x + w, y + h, None), Point(x, y + h, None)])) == 2.0 * (w * h)
  {
    var a, b, c, d := Point(x, y, None), Point(x + w, y, None), Point(x + w, y + h, None), Point(x, y + h, None);
    var vs := [a, b, c, d];
    AreaByTriangles(vs);
    assert Fan(vs, 2) == 0.0;
    assert Fan(vs, 3) == Orientation(a, b, c) && Fan(vs, 4) == Fan(vs, 3) + Orientation(a, c, d);
    assert Orientation(a, b, c) == w * h;
    assert Orientation(a, c, d) == w * h;
  }
}
