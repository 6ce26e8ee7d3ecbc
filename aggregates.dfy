/** The accumulations SheepHerd.FixedUpdate performs: the centroid of a herd
    (sum of the positions over the number of sheep) and the predator estimate
    (sum of the other herds' centroids over the number of registered herds). */
module Aggregates {
  import opened Vectors

  /** Component-wise sum, accumulated front to back from the zero vector. */
  function Sum(vs: seq<Vec3>): Vec3 {
    if |vs| == 0 then Zero else Add(Sum(vs[..|vs| - 1]), vs[|vs| - 1])
  }

  /** Centroid of a non-empty sequence of points. */
  function Mean(vs: seq<Vec3>): Vec3
    requires |vs| > 0
  {
    Div(Sum(vs), |vs| as real)
  }

  /** The predator estimate: the sum of the other herds' centroids divided by
      the number of registered herds, the herd itself included. */
  function Threat(others: seq<Vec3>, registered: nat): Vec3
    requires registered > 0
  {
    Div(Sum(others), registered as real)
  }

  /** The axis-aligned box [lo, hi]. */
  predicate InBox(v: Vec3, lo: Vec3, hi: Vec3) {
    lo.x <= v.x <= hi.x && lo.y <= v.y <= hi.y && lo.z <= v.z <= hi.z
  }

  // ---------------------------------------------------------------------------
  // Real-number helpers

  lemma AddOneMore(a: real, n: real)
    ensures a * (n + 1.0) == a * n + a
  {
  }

  lemma QuotientWithin(l: real, s: real, h: real, n: real)
    requires 0.0 < n && l * n <= s <= h * n
    ensures l <= s / n <= h
  {
  }

  lemma QuotientChain(s: real, k: real, n: real)
    requires 0.0 < k && 0.0 < n
    ensures (s / k) * (k / n) == s / n
  {
  }

  // ---------------------------------------------------------------------------
  // Sum

  /** Sum distributes over concatenation. */
  lemma {:induction false} SumAppend(a: seq<Vec3>, b: seq<Vec3>)
    ensures Sum(a + b) == Add(Sum(a), Sum(b))
    decreases |b|
  {
    if |b| == 0 {
      assert a + b == a;
    } else {
      var b' := b[..|b| - 1];
      assert (a + b)[..|a + b| - 1] == a + b';
      SumAppend(a, b');
    }
  }

  /** Adding one more point adds it to the sum. */
  lemma SumSnoc(a: seq<Vec3>, v: Vec3)
    ensures Sum(a + [v]) == Add(Sum(a), v)
  {
    assert (a + [v])[..|a|] == a;
  }

  /** Adding a zero vector to the sequence leaves the sum unchanged. */
  lemma SumAppendZero(a: seq<Vec3>)
    ensures Sum(a + [Zero]) == Sum(a)
  {
    assert (a + [Zero])[..|a|] == a;
  }

  /** A sum of n points of the box [lo, hi] lies in the box [n lo, n hi]. */
  lemma {:induction false} SumInBox(vs: seq<Vec3>, lo: Vec3, hi: Vec3)
    requires forall i :: 0 <= i < |vs| ==> InBox(vs[i], lo, hi)
    ensures InBox(Sum(vs), Scale(lo, |vs| as real), Scale(hi, |vs| as real))
  {
    if |vs| > 0 {
      var init, last := vs[..|vs| - 1], vs[|vs| - 1];
      assert forall i :: 0 <= i < |init| ==> init[i] == vs[i];
      SumInBox(init, lo, hi);
      assert Sum(vs) == Add(Sum(init), last);
      BoxStep(Sum(init), last, lo, hi, |init| as real, |vs| as real);
    }
  }

  /** One more point of [lo, hi] moves a sum of n such points from [n lo, n hi]
      to [m lo, m hi], m = n + 1. */
  lemma BoxStep(s: Vec3, v: Vec3, lo: Vec3, hi: Vec3, n: real, m: real)
    requires m == n + 1.0
    requires InBox(s, Scale(lo, n), Scale(hi, n)) && InBox(v, lo, hi)
    ensures InBox(Add(s, v), Scale(lo, m), Scale(hi, m))
  {
    BoundStep(lo.x, hi.x, s.x, v.x, n, m);
    BoundStep(lo.y, hi.y, s.y, v.y, n, m);
    BoundStep(lo.z, hi.z, s.z, v.z, n, m);
  }

  /** The same step on one coordinate. */
  lemma BoundStep(l: real, h: real, s: real, x: real, n: real, m: real)
    requires m == n + 1.0 && l * n <= s <= h * n && l <= x <= h
    ensures l * m <= s + x <= h * m
  {
    AddOneMore(l, n);
    AddOneMore(h, n);
  }

  // ---------------------------------------------------------------------------
  // Mean

  /** The centroid lies in every axis-aligned box that holds all the points. */
  lemma MeanInBox(vs: seq<Vec3>, lo: Vec3, hi: Vec3)
    requires |vs| > 0
    requires forall i :: 0 <= i < |vs| ==> InBox(vs[i], lo, hi)
    ensures InBox(Mean(vs), lo, hi)
  {
    SumInBox(vs, lo, hi);
    BoxQuotient(Sum(vs), lo, hi, |vs| as real);
  }

  /** Dividing a point of [n lo, n hi] by a positive n gives a point of [lo, hi]. */
  lemma BoxQuotient(s: Vec3, lo: Vec3, hi: Vec3, n: real)
    requires 0.0 < n && InBox(s, Scale(lo, n), Scale(hi, n))
    ensures InBox(Div(s, n), lo, hi)
  {
    QuotientWithin(lo.x, s.x, hi.x, n);
    QuotientWithin(lo.y, s.y, hi.y, n);
    QuotientWithin(lo.z, s.z, hi.z, n);
  }

  /** The centroid of copies of one point is that point. */
  lemma MeanOfCopies(vs: seq<Vec3>, c: Vec3)
    requires |vs| > 0
    requires forall i :: 0 <= i < |vs| ==> vs[i] == c
    ensures Mean(vs) == c
  {
    MeanInBox(vs, c, c);
  }

  /** The sum of three points, in the order the accumulation adds them. */
  lemma SumOfThree(a: Vec3, b: Vec3, c: Vec3)
    ensures Sum([a, b, c]) == Add(Add(Add(Zero, a), b), c)
  {
    assert [a, b, c][..2] == [a, b];
    assert [a, b][..1] == [a];
    assert [a][..0] == [];
    assert Sum([a]) == Add(Zero, a);
    assert Sum([a, b]) == Add(Sum([a]), b);
  }

  /** The centroid of sheep at 0, 2 and 4 on one axis is 2 on that axis. */
  lemma MeanExample()
    ensures Mean([Vec3(0.0, 0.0, 0.0), Vec3(2.0, 0.0, 0.0), Vec3(4.0, 0.0, 0.0)]) == Vec3(2.0, 0.0, 0.0)
  {
    SumOfThree(Vec3(0.0, 0.0, 0.0), Vec3(2.0, 0.0, 0.0), Vec3(4.0, 0.0, 0.0));
  }

  // ---------------------------------------------------------------------------
  // Threat

  /** With no other herd the estimate is the origin. */
  lemma ThreatWithoutOthers(registered: nat)
    requires registered > 0
    ensures Threat([], registered) == Zero
  {
  }

  /** The estimate is the other herds' centroid damped by the fraction of
      registered herds that are other herds. */
  lemma ThreatDampedMean(others: seq<Vec3>, registered: nat)
    requires |others| > 0 && registered > 0
    ensures Threat(others, registered) == Scale(Mean(others), |others| as real / registered as real)
  {
    var s, k, n := Sum(others), |others| as real, registered as real;
    QuotientChain(s.x, k, n);
    QuotientChain(s.y, k, n);
    QuotientChain(s.z, k, n);
  }

  /** With two herds, one at the origin and one centred at (10, 0, 0), the
      first estimates the predator at (5, 0, 0) and the second at the origin. */
  lemma ThreatTwoHerdsExample()
    ensures Threat([Vec3(10.0, 0.0, 0.0)], 2) == Vec3(5.0, 0.0, 0.0)
    ensures Threat([Zero], 2) == Zero
  {
    assert [Vec3(10.0, 0.0, 0.0)][..0] == [];
    assert [Zero][..0] == [];
  }
}
