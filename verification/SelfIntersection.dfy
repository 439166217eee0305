/** The self-intersection double loop, and the ring symmetries its verdict is blind to. */
module SelfIntersection {
  import opened Common
  import opened Segments
  import opened Polygons

  // Edge i of a ring of n edges next to edge j, as the loop skips them (i < j).
  predicate Neighbours(i: nat, j: nat, n: nat) {
    j == i + 1 || (i == 0 && j == n - 1)
  }

  // Two edges the loop compares, crossing through their interiors.
  ghost predicate CrossingPair(ring: seq<Point>, i: nat, j: nat) {
    i < j < |ring| - 1 && !Neighbours(i, j, |ring| - 1) && Cross(ring[i], ring[i + 1], ring[j], ring[j + 1])
  }

  ghost predicate SelfCrossing(ring: seq<Point>) {
    exists i: nat, j: nat :: CrossingPair(ring, i, j)
  }

  /** is_self_intersecting on a ring: true exactly when some two edges that are not neighbours
      properly cross. */
  method IsSelfIntersecting(ring: seq<Point>) returns (found: bool)
    ensures found <==> SelfCrossing(ring)
  {
    var n := |ring| - 1;
    var i: nat := 0;
    while i < n
      invariant forall p: nat, q: nat :: CrossingPair(ring, p, q) ==> i <= p
    {
      var j: nat := i + 1;
      while j < n
        invariant forall p: nat, q: nat :: CrossingPair(ring, p, q) ==> i < p || (i == p && j <= q)
      {
        if j == i + 1 || (i == 0 && j == n - 1) {
        } else {
          ProperlyIntersectIffCross(ring[i], ring[i + 1], ring[j], ring[j + 1]);
          if ProperlyIntersect(ring[i], ring[i + 1], ring[j], ring[j + 1]) {
            assert CrossingPair(ring, i, j);
            return true;
          }
        }
        j := j + 1;
      }
      i := i + 1;
    }
    return false;
  }

  // ---- the same verdict without a starting point or a direction ----

  function After(i: nat, n: nat): nat { if i + 1 == n then 0 else i + 1 }

  // Edges i and j of a closed ring, neither the same nor sharing a ring vertex.
  predicate Apart(i: nat, j: nat, n: nat) {
    i < n && j < n && i != j && After(i, n) != j && After(j, n) != i
  }

  ghost predicate Meets(vs: seq<Point>, i: nat, j: nat) {
    Apart(i, j, |vs|) && ProperlyIntersect(vs[i], vs[After(i, |vs|)], vs[j], vs[After(j, |vs|)])
  }

  ghost predicate Tangled(vs: seq<Point>) {
    exists i: nat, j: nat :: Meets(vs, i, j)
  }

  lemma MeetsSymmetric(vs: seq<Point>, i: nat, j: nat)
    ensures Meets(vs, i, j) <==> Meets(vs, j, i)
  {
    if Apart(i, j, |vs|) {
      IntersectSymmetric(vs[i], vs[After(i, |vs|)], vs[j], vs[After(j, |vs|)]);
    }
  }

  lemma PairMeansMeets(vs: seq<Point>, i: nat, j: nat)
    requires vs != []
    ensures i < j ==> (CrossingPair(Ring(vs), i, j) <==> Meets(vs, i, j))
  {
    if i < j < |vs| {
      var r := Ring(vs);
      assert r[i + 1] == vs[After(i, |vs|)] && r[j + 1] == vs[After(j, |vs|)];
      ProperlyIntersectIffCross(r[i], r[i + 1], r[j], r[j + 1]);
    }
  }

  lemma SelfCrossingIffTangled(vs: seq<Point>)
    requires vs != []
    ensures SelfCrossing(Ring(vs)) <==> Tangled(vs)
  {
    if SelfCrossing(Ring(vs)) {
      var i: nat, j: nat :| CrossingPair(Ring(vs), i, j);
      PairMeansMeets(vs, i, j);
    }
    if Tangled(vs) {
      var i: nat, j: nat :| Meets(vs, i, j);
      MeetsSymmetric(vs, i, j);
      if i < j { PairMeansMeets(vs, i, j); } else { PairMeansMeets(vs, j, i); }
    }
  }

  lemma TangledMovesOn(vs: seq<Point>)
    requires vs != [] && Tangled(vs)
    ensures Tangled(Started(vs, 1))
  {
    var i: nat, j: nat :| Meets(vs, i, j);
    var n, ws := |vs|, Started(vs, 1);
    // Position k of vs is position k - 1 of ws, and 0 is the last.
    var i', j' := if i == 0 then n - 1 else i - 1, if j == 0 then n - 1 else j - 1;
    assert ws[i'] == vs[i] && ws[After(i', n)] == vs[After(i, n)];
    assert ws[j'] == vs[j] && ws[After(j', n)] == vs[After(j, n)];
    assert Meets(ws, i', j');
  }

  lemma {:induction false} TangledAnyStart(vs: seq<Point>, k: nat)
    requires k <= |vs| && vs != [] && Tangled(vs)
    ensures Tangled(Started(vs, k))
    decreases k
  {
    if k == 0 {
      assert Started(vs, 0) == vs;
    } else {
      TangledAnyStart(vs, k - 1);
      TangledMovesOn(Started(vs, k - 1));
      StartedOnce(vs, k - 1);
    }
  }

  lemma StartedOnce<T>(vs: seq<T>, k: nat)
    requires k < |vs|
    ensures Started(Started(vs, k), 1) == Started(vs, k + 1)
  {
    var ws := Started(vs, k);
    assert ws[..1] == [vs[k]] && ws[1..] == vs[k + 1..] + vs[..k] && vs[..k + 1] == vs[..k] + [vs[k]];
  }

  lemma TangledReversed(vs: seq<Point>)
    requires vs != [] && Tangled(vs)
    ensures Tangled(Reversed(vs))
  {
    var i: nat, j: nat :| Meets(vs, i, j);
    var n, ws := |vs|, Reversed(vs);
    // Edge k of vs, run backwards, is the edge of ws that starts at vs[After(k)].
    var i', j' := n - 1 - After(i, n), n - 1 - After(j, n);
    assert ws[i'] == vs[After(i, n)] && ws[After(i', n)] == vs[i];
    assert ws[j'] == vs[After(j, n)] && ws[After(j', n)] == vs[j];
    IntersectSymmetric(vs[i], vs[After(i, n)], vs[j], vs[After(j, n)]);
    IntersectSymmetric(vs[After(i, n)], vs[i], vs[j], vs[After(j, n)]);
    assert Meets(ws, i', j');
  }

  lemma TangledStarted(vs: seq<Point>, k: nat)
    requires k <= |vs| && vs != []
    ensures Tangled(Started(vs, k)) <==> Tangled(vs)
  {
    if Tangled(vs) {
      TangledAnyStart(vs, k);
    } else if Tangled(Started(vs, k)) {
      StartedBack(vs, k);
      TangledAnyStart(Started(vs, k), |vs| - k);
    }
  }

  lemma StartedBack(vs: seq<Point>, k: nat)
    requires k <= |vs|
    ensures Started(Started(vs, k), |vs| - k) == vs
  {
  }

  lemma TangledBackwards(vs: seq<Point>)
    requires vs != []
    ensures Tangled(Reversed(vs)) <==> Tangled(vs)
  {
    assert Reversed(Reversed(vs)) == vs;
    if Tangled(vs) {
      TangledReversed(vs);
    } else if Tangled(Reversed(vs)) {
      TangledReversed(Reversed(vs));
    }
  }

  // A ring listed backwards is again a ring: the backwards list, started at the same vertex.
  lemma BackwardsRing(vs: seq<Point>)
    requires vs != []
    ensures Reversed(Ring(vs)) == Ring(Started(Reversed(vs), |vs| - 1))
  {
    var us := Started(Reversed(vs), |vs| - 1);
    assert us[0] == vs[0];
  }

  /** On an exactly closed ring the verdict does not depend on the starting vertex or on the
      direction the ring is listed in. */
  lemma VerdictInvariant(vs: seq<Point>, k: nat)
    requires k < |vs|
    ensures SelfCrossing(Ring(Started(vs, k))) <==> SelfCrossing(Ring(vs))
    ensures SelfCrossing(Reversed(Ring(vs))) <==> SelfCrossing(Ring(vs))
  {
    SelfCrossingIffTangled(vs);
    SelfCrossingIffTangled(Started(vs, k));
    TangledStarted(vs, k);
    BackwardsRing(vs);
    SelfCrossingIffTangled(Started(Reversed(vs), |vs| - 1));
    TangledStarted(Reversed(vs), |vs| - 1);
    TangledBackwards(vs);
  }
}
