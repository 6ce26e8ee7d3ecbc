/** Properties of the scene-level specification functions that SheepBoid's
    rules and SheepHerd.FixedUpdate are proved against. */
module HerdingFacts {
  import opened Vectors
  import opened Steering
  import opened Aggregates
  import opened Herding

  // ---------------------------------------------------------------------------
  // Excluding oneself

  /** Others keeps every occurrence of every element except me, and none of me. */
  lemma {:induction false} OthersCount<T>(xs: seq<T>, me: T)
    ensures multiset(Others(xs, me)) == multiset(xs)[me := 0]
  {
    if |xs| > 0 {
      var init, last := xs[..|xs| - 1], xs[|xs| - 1];
      assert xs == init + [last];
      OthersCount(init, me);
    }
  }

  /** In particular me is never among the others. */
  lemma OthersExcludesSelf<T>(xs: seq<T>, me: T)
    ensures me !in Others(xs, me)
  {
    OthersCount(xs, me);
    assert multiset(Others(xs, me))[me] == 0;
  }

  /** Others distributes over concatenation. */
  lemma {:induction false} OthersAppend<T>(a: seq<T>, b: seq<T>, me: T)
    ensures Others(a + b, me) == Others(a, me) + Others(b, me)
    decreases |b|
  {
    if |b| == 0 {
      assert a + b == a;
    } else {
      var init, last := b[..|b| - 1], b[|b| - 1];
      assert a + b == (a + init) + [last];
      assert b == init + [last];
      OthersSnoc(a + init, last, me);
      OthersSnoc(init, last, me);
      OthersAppend(a, init, me);
    }
  }

  /** A sequence holding only me has no others. */
  lemma {:induction false} OthersOfSelfOnly<T>(xs: seq<T>, me: T)
    requires forall i :: 0 <= i < |xs| ==> xs[i] == me
    ensures Others(xs, me) == []
  {
    if |xs| > 0 {
      OthersOfSelfOnly(xs[..|xs| - 1], me);
    }
  }

  /** Others of a two-element sequence, one way round and the other. */
  lemma OthersOfPair<T>(a: T, b: T)
    requires a != b
    ensures Others([a, b], a) == [b] && Others([a, b], b) == [a]
  {
    assert [a, b] == [a] + [b];
    assert [a] == [] + [a];
    OthersSnoc([], a, a);
    OthersSnoc([], a, b);
    OthersSnoc([a], b, a);
    OthersSnoc([a], b, b);
  }

  // ---------------------------------------------------------------------------
  // SheepHerd: centroid and predator estimate

  /** The centroid of a herd lies in every axis-aligned box that holds all its sheep. */
  lemma CentroidInBox(sheeps: seq<SheepBoid>, lo: Vec3, hi: Vec3)
    requires |sheeps| > 0
    requires forall i :: 0 <= i < |sheeps| ==> InBox(sheeps[i].position, lo, hi)
    ensures InBox(Mean(Positions(sheeps)), lo, hi)
  {
    PositionsAt(sheeps);
    MeanInBox(Positions(sheeps), lo, hi);
  }

  lemma {:induction false} PositionsAt(sheeps: seq<SheepBoid>)
    ensures forall i :: 0 <= i < |sheeps| ==> Positions(sheeps)[i] == sheeps[i].position
  {
    if |sheeps| > 0 {
      PositionsAt(sheeps[..|sheeps| - 1]);
    }
  }

  /** Three sheep at 0, 2 and 4 on the x axis have their centroid at 2. */
  lemma CentroidExample(a: SheepBoid, b: SheepBoid, c: SheepBoid)
    requires a.position == Vec3(0.0, 0.0, 0.0) && b.position == Vec3(2.0, 0.0, 0.0)
    requires c.position == Vec3(4.0, 0.0, 0.0)
    ensures Mean(Positions([a, b, c])) == Vec3(2.0, 0.0, 0.0)
  {
    assert [a, b, c][..2] == [a, b];
    assert [a, b][..1] == [a];
    assert Positions([a]) == [a.position];
    assert Positions([a, b, c]) == [a.position, b.position, c.position];
    MeanExample();
  }

  /** A herd's own centroid never enters its predator estimate. */
  lemma OwnCentroidExcluded(herds: seq<SheepHerd>, me: SheepHerd)
    ensures me !in Others(herds, me)
  {
    OthersExcludesSelf(herds, me);
  }

  /** Alone in the registry, a herd estimates the predator at the origin. */
  lemma LoneHerdThreat(me: SheepHerd)
    ensures Threat(Centroids(Others([me], me)), 1) == Zero
  {
    assert [me][..0] == [];
  }

  /** Two herds centred at the origin and at (10, 0, 0): because the count
      includes the herd itself, the first estimates the predator at (5, 0, 0)
      and the second at the origin. */
  lemma TwoHerdThreat(a: SheepHerd, b: SheepHerd)
    requires a != b
    requires a.averageHerd == Zero && b.averageHerd == Vec3(10.0, 0.0, 0.0)
    ensures Threat(Centroids(Others([a, b], a)), 2) == Vec3(5.0, 0.0, 0.0)
    ensures Threat(Centroids(Others([a, b], b)), 2) == Zero
  {
    OthersOfPair(a, b);
    assert [a][..0] == [];
    assert [b][..0] == [];
    assert Centroids([b]) == [b.averageHerd];
    assert Centroids([a]) == [a.averageHerd];
    ThreatTwoHerdsExample();
  }

  // ---------------------------------------------------------------------------
  // RuleSeparation

  /** A sheep with no sibling gets no separation. */
  lemma SeparationAlone(lib: MathLib, sheeps: seq<SheepBoid>, me: SheepBoid)
    requires forall i :: 0 <= i < |sheeps| ==> sheeps[i] == me
    ensures Separation(lib, sheeps, me) == Zero
  {
    OthersOfSelfOnly(sheeps, me);
  }

  /** Wherever the sheep itself appears in the herd, it is skipped. */
  lemma SeparationSkipsSelf(lib: MathLib, a: seq<SheepBoid>, b: seq<SheepBoid>, me: SheepBoid)
    ensures Separation(lib, a + [me] + b, me) == Separation(lib, a + b, me)
  {
    OthersAppend(a + [me], b, me);
    OthersSnoc(a, me, me);
    OthersAppend(a, b, me);
  }

  /** A sibling at exactly the same position contributes the zero vector. */
  lemma SeparationIgnoresCoincident(lib: MathLib, sheeps: seq<SheepBoid>, s: SheepBoid, me: SheepBoid)
    requires Lawful(lib)
    requires s != me && s.position == me.position
    ensures Separation(lib, sheeps + [s], me) == Separation(lib, sheeps, me)
  {
    var others := Others(sheeps, me);
    OthersSnoc(sheeps, s, me);
    assert Others(sheeps + [s], me) == others + [s];
    var ps := Positions(others);
    PositionsSnoc(others, s);
    assert Positions(others + [s]) == ps + [me.position];
    var rs := Repulsions(lib, ps, me.position);
    RepulsionsSnoc(lib, ps, me.position, me.position);
    RepulsionCoincident(lib, me.position);
    assert Repulsions(lib, ps + [me.position], me.position) == rs + [Zero];
    SumAppendZero(rs);
  }

  /** With one sibling the separation is that sibling's repulsion, which
      points toward it as written. */
  lemma SeparationOfPair(lib: MathLib, me: SheepBoid, s: SheepBoid)
    requires Lawful(lib)
    requires s != me
    ensures Separation(lib, [me, s], me) == Repulsion(lib, s.position, me.position)
    ensures 0.0 <= Dot(Separation(lib, [me, s], me), Sub(s.position, me.position))
  {
    OthersOfPair(me, s);
    assert [s][..0] == [];
    assert Positions([s]) == [s.position];
    assert Repulsions(lib, [s.position], me.position) == [Repulsion(lib, s.position, me.position)];
    assert Sum([Repulsion(lib, s.position, me.position)]) == Add(Zero, Repulsion(lib, s.position, me.position));
    RepulsionTowardOther(lib, s.position, me.position);
  }

  // ---------------------------------------------------------------------------
  // RuleAlignment

  /** Whether s counts as an alignment neighbour of me. */
  predicate Neighbour(s: SheepBoid, me: SheepBoid)
    reads s, me
  {
    s != me && WithinAlignment(s.position, me.position)
  }

  /** Nearby distributes over concatenation. */
  lemma {:induction false} NearbyAppend(a: seq<SheepBoid>, b: seq<SheepBoid>, self: Vec3)
    ensures Nearby(a + b, self) == Nearby(a, self) + Nearby(b, self)
    decreases |b|
  {
    if |b| == 0 {
      assert a + b == a;
    } else {
      var init, last := b[..|b| - 1], b[|b| - 1];
      assert a + b == (a + init) + [last];
      assert b == init + [last];
      NearbySnoc(a + init, last, self);
      NearbySnoc(init, last, self);
      NearbyAppend(a, init, self);
    }
  }

  /** Velocities distributes over concatenation. */
  lemma {:induction false} VelocitiesAppend(a: seq<SheepBoid>, b: seq<SheepBoid>)
    ensures Velocities(a + b) == Velocities(a) + Velocities(b)
    decreases |b|
  {
    if |b| == 0 {
      assert a + b == a;
    } else {
      var init, last := b[..|b| - 1], b[|b| - 1];
      assert a + b == (a + init) + [last];
      assert b == init + [last];
      VelocitiesSnoc(a + init, last);
      VelocitiesSnoc(init, last);
      VelocitiesAppend(a, init);
    }
  }

  /** Aligned distributes over concatenation. */
  lemma AlignedAppend(a: seq<SheepBoid>, b: seq<SheepBoid>, me: SheepBoid)
    ensures Aligned(a + b, me) == Aligned(a, me) + Aligned(b, me)
  {
    var oa, ob := Others(a, me), Others(b, me);
    OthersAppend(a, b, me);
    NearbyAppend(oa, ob, me.position);
    VelocitiesAppend(Nearby(oa, me.position), Nearby(ob, me.position));
  }

  /** Without a neighbour nothing is averaged. */
  lemma {:induction false} AlignedEmpty(sheeps: seq<SheepBoid>, me: SheepBoid)
    requires forall i :: 0 <= i < |sheeps| ==> !Neighbour(sheeps[i], me)
    ensures Aligned(sheeps, me) == []
  {
    if |sheeps| > 0 {
      var init, last := sheeps[..|sheeps| - 1], sheeps[|sheeps| - 1];
      assert sheeps == init + [last];
      AlignedEmpty(init, me);
      AlignedSnoc(init, last, me);
    }
  }

  /** With no neighbour the alignment is the zero vector. */
  lemma AlignmentNone(sheeps: seq<SheepBoid>, me: SheepBoid)
    requires forall i :: 0 <= i < |sheeps| ==> !Neighbour(sheeps[i], me)
    ensures Alignment(sheeps, me) == Zero
  {
    AlignedEmpty(sheeps, me);
  }

  /** With exactly one neighbour the alignment is that neighbour's velocity. */
  lemma AlignmentSingle(a: seq<SheepBoid>, n: SheepBoid, b: seq<SheepBoid>, me: SheepBoid)
    requires Neighbour(n, me)
    requires forall i :: 0 <= i < |a| ==> !Neighbour(a[i], me)
    requires forall i :: 0 <= i < |b| ==> !Neighbour(b[i], me)
    ensures Alignment(a + [n] + b, me) == n.velocity
  {
    AlignedAppend(a + [n], b, me);
    AlignedSnoc(a, n, me);
    AlignedEmpty(a, me);
    AlignedEmpty(b, me);
    assert Aligned(a + [n] + b, me) == [n.velocity];
    assert [n.velocity][..0] == [];
    assert Sum([n.velocity]) == Add(Zero, n.velocity);
  }

  /** Every averaged velocity is in a box that holds all neighbours' velocities. */
  lemma {:induction false} AlignedInBox(sheeps: seq<SheepBoid>, me: SheepBoid, lo: Vec3, hi: Vec3)
    requires forall i :: 0 <= i < |sheeps| && Neighbour(sheeps[i], me) ==> InBox(sheeps[i].velocity, lo, hi)
    ensures forall i :: 0 <= i < |Aligned(sheeps, me)| ==> InBox(Aligned(sheeps, me)[i], lo, hi)
  {
    if |sheeps| > 0 {
      var init, last := sheeps[..|sheeps| - 1], sheeps[|sheeps| - 1];
      assert sheeps == init + [last];
      AlignedInBox(init, me, lo, hi);
      AlignedSnoc(init, last, me);
    }
  }

  /** A neighbour anywhere in the herd is averaged. */
  lemma AlignedNonEmpty(sheeps: seq<SheepBoid>, me: SheepBoid, j: nat)
    requires j < |sheeps| && Neighbour(sheeps[j], me)
    ensures |Aligned(sheeps, me)| > 0
  {
    assert sheeps == sheeps[..j] + [sheeps[j]] + sheeps[j + 1..];
    AlignedAppend(sheeps[..j] + [sheeps[j]], sheeps[j + 1..], me);
    AlignedSnoc(sheeps[..j], sheeps[j], me);
  }

  /** With at least one neighbour the alignment, their mean velocity, lies in
      every axis-aligned box holding all their velocities. */
  lemma AlignmentInBox(sheeps: seq<SheepBoid>, me: SheepBoid, j: nat, lo: Vec3, hi: Vec3)
    requires j < |sheeps| && Neighbour(sheeps[j], me)
    requires forall i :: 0 <= i < |sheeps| && Neighbour(sheeps[i], me) ==> InBox(sheeps[i].velocity, lo, hi)
    ensures InBox(Alignment(sheeps, me), lo, hi)
  {
    AlignedNonEmpty(sheeps, me, j);
    AlignedInBox(sheeps, me, lo, hi);
    MeanInBox(Aligned(sheeps, me), lo, hi);
  }

  /** Neighbours that all move with velocity c give alignment c. */
  lemma AlignmentOfCommonVelocity(sheeps: seq<SheepBoid>, me: SheepBoid, j: nat, c: Vec3)
    requires j < |sheeps| && Neighbour(sheeps[j], me)
    requires forall i :: 0 <= i < |sheeps| && Neighbour(sheeps[i], me) ==> sheeps[i].velocity == c
    ensures Alignment(sheeps, me) == c
  {
    AlignmentInBox(sheeps, me, j, c, c);
  }
}
