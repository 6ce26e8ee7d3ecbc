/** The per-sheep scalar helpers of SheepBoid (the sigmoid P, CombineWeight,
    the inverse square Inv), its tunable parameters, the rule blend computed by
    ApplyRules and the value-level effect of Move. */
module Steering {
  import opened Vectors

  /** Mathf.Epsilon, the smallest positive float. */
  const MathfEpsilon: real := 1.401298e-45

  /** Sigmoid used for the impact of the fear multiplier: (1/pi) atan(x/0.3) + 1/2. */
  function P(lib: MathLib, x: real): real {
    (1.0 / Pi) * lib.atan(x / 0.3) + 0.5
  }

  /** A rule's weight: the calm multiplier plus the fear multiplier scaled by P. */
  function CombineWeight(lib: MathLib, mult1: real, mult2: real, x: real): real {
    mult1 + mult1 * P(lib, x) * mult2
  }

  /** Inverse square with softness s; zero at zero distance or zero softness. */
  function Inv(lib: MathLib, x: real, s: real): real {
    if x == 0.0 || s == 0.0 then 0.0 else lib.pow(x / s + MathfEpsilon, -2.0)
  }

  /** RuleCohesion for a sheep at `self`: the unit vector toward the herd centroid. */
  function Cohesion(lib: MathLib, centroid: Vec3, self: Vec3): Vec3 {
    Normalized(lib, Sub(centroid, self))
  }

  /** One sibling's contribution to RuleSeparation: the unit vector from the
      sheep toward the sibling, scaled by the inverse square of their distance
      with softness 1. */
  function Repulsion(lib: MathLib, other: Vec3, self: Vec3): Vec3 {
    var v1 := Sub(other, self);
    Scale(Normalized(lib, v1), Inv(lib, Magnitude(lib, v1), 1.0))
  }

  /** Repulsion of every given sibling position, in order. */
  function Repulsions(lib: MathLib, others: seq<Vec3>, self: Vec3): (r: seq<Vec3>)
    ensures |r| == |others|
    ensures forall i :: 0 <= i < |others| ==> r[i] == Repulsion(lib, others[i], self)
  {
    if |others| == 0 then []
    else Repulsions(lib, others[..|others| - 1], self) + [Repulsion(lib, others[|others| - 1], self)]
  }

  lemma RepulsionsSnoc(lib: MathLib, others: seq<Vec3>, other: Vec3, self: Vec3)
    ensures Repulsions(lib, others + [other], self) == Repulsions(lib, others, self) + [Repulsion(lib, other, self)]
  {
    assert (others + [other])[..|others|] == others;
  }

  /** The squared length of v on the x and y axes only. */
  function PlanarSqrMagnitude(v: Vec3): real {
    v.x * v.x + v.y * v.y
  }

  /** The alignment neighbourhood: squared distance on x and y at most 50 * 50. */
  predicate WithinAlignment(other: Vec3, self: Vec3) {
    !(PlanarSqrMagnitude(Sub(other, self)) > 50.0 * 50.0)
  }

  /** RuleEscape: the unit vector toward the predator estimate scaled by the
      inverse square of the stored distance with softness 10. */
  function Escape(lib: MathLib, predator: Vec3, self: Vec3, distance: real): Vec3 {
    Scale(Normalized(lib, Sub(predator, self)), Inv(lib, distance, 10.0))
  }

  /** The serialized fields of SheepBoid. */
  datatype Tuning = Tuning(
    flightZoneRadius: real,
    minVelocity: real,
    maxVelocityBase: real,
    maxVelocityFear: real,
    weightCohesionBase: real,
    weightCohesionFear: real,
    weightSeparation: real,
    weightSeparationFear: real,
    weightAlignement: real,
    weightAlignementFear: real,
    weightEscape: real,
    clampToGround: bool)

  /** The field initialisers of SheepBoid. */
  const Defaults: Tuning := Tuning(7.0, 0.1, 1.0, 4.0, 0.5, 5.0, 2.0, 0.0, 0.1, 1.0, 6.0, true)

  /** ApplyRules: every rule but escape scaled by its combined weight at the
      (stored) distance to the predator, escape by its flat weight, summed. */
  function Blend(lib: MathLib, t: Tuning, distance: real,
                 cohesion: Vec3, separation: Vec3, alignment: Vec3, escape: Vec3): Vec3
  {
    var v := Zero;
    var v := Add(v, Scale(cohesion, CombineWeight(lib, t.weightCohesionBase, t.weightCohesionFear, distance)));
    var v := Add(v, Scale(separation, CombineWeight(lib, t.weightSeparation, t.weightSeparationFear, distance)));
    var v := Add(v, Scale(alignment, CombineWeight(lib, t.weightAlignement, t.weightAlignementFear, distance)));
    Add(v, Scale(escape, t.weightEscape))
  }

  /** The tick-local maximum speed of Move. */
  function MaxSpeed(t: Tuning, distance: real): real
    requires t.flightZoneRadius != 0.0
  {
    Lerp(t.maxVelocityBase, t.maxVelocityFear, 1.0 - distance / t.flightZoneRadius)
  }

  /** The part of a sheep's state that Move reads and writes. */
  datatype Motion = Motion(position: Vec3, velocity: Vec3, target: Vec3, distance: real)

  /** Move: measure the distance to the predator, clamp the target to the
      maximum speed, and unless it is below the minimum speed make it the
      velocity (flattened when clamped to the ground) and advance by velocity * dt. */
  function Step(lib: MathLib, t: Tuning, position: Vec3, velocity: Vec3, target: Vec3,
                predator: Vec3, dt: real): Motion
    requires t.flightZoneRadius != 0.0
  {
    var distance := Magnitude(lib, Sub(position, predator));
    var clamped := ClampMagnitude(lib, target, MaxSpeed(t, distance));
    if Magnitude(lib, clamped) < t.minVelocity then
      Motion(position, velocity, clamped, distance)
    else
      var v := if t.clampToGround then WithY(clamped, 0.0) else clamped;
      Motion(Add(position, Scale(v, dt)), v, clamped, distance)
  }

  /** Whether Step leaves the sheep where it is. */
  predicate Idle(lib: MathLib, t: Tuning, m: Motion) {
    Magnitude(lib, m.target) < t.minVelocity
  }

  // ---------------------------------------------------------------------------
  // Real-number helpers

  lemma ScaleByInversePi(a: real)
    requires -Pi / 2.0 < a < Pi / 2.0
    ensures -0.5 < (1.0 / Pi) * a < 0.5
  {
  }

  lemma ScaleByInversePiMonotone(a: real, b: real)
    requires a < b
    ensures (1.0 / Pi) * a < (1.0 / Pi) * b
  {
  }

  /** m1 * p * m2 == (m1 * m2) * p, named for the caller. */
  lemma Reassociate(m1: real, p: real, m2: real, q: real)
    requires q == m1 * p * m2
    ensures q == (m1 * m2) * p
  {
  }

  lemma ProductPositive(a: real, b: real)
    requires 0.0 < a && 0.0 < b
    ensures 0.0 < a * b
  {
  }

  lemma ProductNonNegative(a: real, b: real)
    requires 0.0 <= a && 0.0 <= b
    ensures 0.0 <= a * b
  {
  }

  lemma ProductStrictMonotone(k: real, a: real, b: real, p: real, q: real)
    requires 0.0 < k && a < b && p == k * a && q == k * b
    ensures p < q
  {
  }

  /** A factor whose product with a positive number is one is positive. */
  lemma ReciprocalPositive(p: real, q: real)
    requires 0.0 < q && p * q == 1.0
    ensures 0.0 < p && p == 1.0 / q
  {
  }

  /** Reciprocals reverse the order of positive numbers. */
  lemma ReciprocalOrder(p1: real, q1: real, p2: real, q2: real)
    requires 0.0 < q1 < q2 && p1 * q1 == 1.0 && p2 * q2 == 1.0
    ensures p2 < p1
  {
    ReciprocalPositive(p1, q1);
    ReciprocalPositive(p2, q2);
  }

  lemma QuotientPositive(x: real, s: real)
    requires 0.0 < x && 0.0 < s
    ensures 0.0 < x / s
  {
  }

  lemma QuotientMonotone(x: real, y: real, s: real)
    requires x < y && 0.0 < s
    ensures x / s < y / s
  {
  }

  lemma QuotientAtLeastOne(d: real, f: real)
    requires 0.0 < f <= d
    ensures 1.0 <= d / f
  {
  }

  // ---------------------------------------------------------------------------
  // P

  /** P lies strictly between 0 and 1. */
  lemma SigmoidBounds(lib: MathLib, x: real)
    requires Lawful(lib)
    ensures 0.0 < P(lib, x) < 1.0
  {
    ScaleByInversePi(lib.atan(x / 0.3));
  }

  /** P is one half at distance zero. */
  lemma SigmoidCentre(lib: MathLib)
    requires Lawful(lib)
    ensures P(lib, 0.0) == 0.5
  {
  }

  /** P is strictly increasing in the distance. */
  lemma SigmoidIncreasing(lib: MathLib, x: real, y: real)
    requires Lawful(lib)
    requires x < y
    ensures P(lib, x) < P(lib, y)
  {
    QuotientMonotone(x, y, 0.3);
    ScaleByInversePiMonotone(lib.atan(x / 0.3), lib.atan(y / 0.3));
  }

  // ---------------------------------------------------------------------------
  // CombineWeight

  /** With no fear multiplier the weight is the calm multiplier at every distance. */
  lemma CombineWeightWithoutFear(lib: MathLib, mult1: real, x: real)
    ensures CombineWeight(lib, mult1, 0.0, x) == mult1
  {
    var q := mult1 * P(lib, x) * 0.0;
    Reassociate(mult1, P(lib, x), 0.0, q);
  }

  /** For non-negative multipliers the weight lies between the calm multiplier
      and the calm multiplier raised by the full fear multiplier. */
  lemma CombineWeightBetween(lib: MathLib, mult1: real, mult2: real, x: real)
    requires Lawful(lib)
    requires 0.0 <= mult1 && 0.0 <= mult2
    ensures mult1 <= CombineWeight(lib, mult1, mult2, x) <= mult1 + mult1 * mult2
  {
    SigmoidBounds(lib, x);
    var q := mult1 * P(lib, x) * mult2;
    Reassociate(mult1, P(lib, x), mult2, q);
    ProductNonNegative(mult1, mult2);
    FractionOf(mult1 * mult2, P(lib, x), q);
  }

  /** As written, for positive multipliers the weight grows with the distance
      to the predator, because P increases with its argument. */
  lemma CombineWeightIncreasing(lib: MathLib, mult1: real, mult2: real, x: real, y: real)
    requires Lawful(lib)
    requires 0.0 < mult1 && 0.0 < mult2 && x < y
    ensures CombineWeight(lib, mult1, mult2, x) < CombineWeight(lib, mult1, mult2, y)
  {
    SigmoidIncreasing(lib, x, y);
    var qx := mult1 * P(lib, x) * mult2;
    var qy := mult1 * P(lib, y) * mult2;
    Reassociate(mult1, P(lib, x), mult2, qx);
    Reassociate(mult1, P(lib, y), mult2, qy);
    ProductPositive(mult1, mult2);
    ProductStrictMonotone(mult1 * mult2, P(lib, x), P(lib, y), qx, qy);
  }

  // ---------------------------------------------------------------------------
  // Inv

  /** Zero distance or zero softness gives no influence. */
  lemma InvDegenerate(lib: MathLib, x: real, s: real)
    requires x == 0.0 || s == 0.0
    ensures Inv(lib, x, s) == 0.0
  {
  }

  /** Otherwise Inv is 1 / (x/s + eps)^2, positive whenever that base is nonzero. */
  lemma InvValue(lib: MathLib, x: real, s: real)
    requires Lawful(lib)
    requires x != 0.0 && s != 0.0 && x / s + MathfEpsilon != 0.0
    ensures var b := x / s + MathfEpsilon;
            Inv(lib, x, s) == 1.0 / (b * b) && 0.0 < Inv(lib, x, s)
  {
    var b := x / s + MathfEpsilon;
    SquarePositive(b);
    ReciprocalPositive(lib.pow(b, -2.0), b * b);
  }

  /** For a positive distance and softness Inv is positive. */
  lemma InvPositive(lib: MathLib, x: real, s: real)
    requires Lawful(lib)
    requires 0.0 < x && 0.0 < s
    ensures 0.0 < Inv(lib, x, s)
  {
    QuotientPositive(x, s);
    InvValue(lib, x, s);
  }

  /** For a positive softness Inv is never negative on distances. */
  lemma InvNonNegative(lib: MathLib, x: real, s: real)
    requires Lawful(lib)
    requires 0.0 <= x && 0.0 < s
    ensures 0.0 <= Inv(lib, x, s)
  {
    if x != 0.0 {
      QuotientPositive(x, s);
      InvValue(lib, x, s);
    }
  }

  /** For a positive softness Inv strictly decreases on positive distances. */
  lemma InvDecreasing(lib: MathLib, x: real, y: real, s: real)
    requires Lawful(lib)
    requires 0.0 < x < y && 0.0 < s
    ensures Inv(lib, y, s) < Inv(lib, x, s)
  {
    QuotientPositive(x, s);
    QuotientMonotone(x, y, s);
    var bx, bz := x / s + MathfEpsilon, y / s + MathfEpsilon;
    SquareStrictMonotone(bx, bz);
    SquarePositive(bx);
    ReciprocalOrder(lib.pow(bx, -2.0), bx * bx, lib.pow(bz, -2.0), bz * bz);
  }

  // ---------------------------------------------------------------------------
  // Rule terms

  /** A sheep at the centroid (within Vector3.kEpsilon of it) gets no cohesion. */
  lemma CohesionNearCentroid(lib: MathLib, centroid: Vec3, self: Vec3)
    requires Magnitude(lib, Sub(centroid, self)) <= KEpsilon
    ensures Cohesion(lib, centroid, self) == Zero
  {
  }

  /** Any other sheep gets a unit vector pointing exactly along centroid - self:
      its component along that difference is the whole length of the difference. */
  lemma CohesionTowardCentroid(lib: MathLib, centroid: Vec3, self: Vec3)
    requires Lawful(lib)
    requires Magnitude(lib, Sub(centroid, self)) > KEpsilon
    ensures Magnitude(lib, Cohesion(lib, centroid, self)) == 1.0
    ensures Dot(Cohesion(lib, centroid, self), Sub(centroid, self)) == Magnitude(lib, Sub(centroid, self))
    ensures 0.0 < Dot(Cohesion(lib, centroid, self), Sub(centroid, self))
  {
    NormalizedUnit(lib, Sub(centroid, self));
  }

  /** A sibling at exactly the same position contributes nothing, since Inv(0, 1) == 0. */
  lemma RepulsionCoincident(lib: MathLib, p: Vec3)
    requires Lawful(lib)
    ensures Repulsion(lib, p, p) == Zero
  {
    assert Sub(p, p) == Zero;
    MagnitudeZero(lib);
    NormalizedZero(lib);
    ScaleOfZero(Inv(lib, 0.0, 1.0));
  }

  /** As written (other minus self), a repulsion never points away from the sibling. */
  lemma RepulsionTowardOther(lib: MathLib, other: Vec3, self: Vec3)
    requires Lawful(lib)
    ensures 0.0 <= Dot(Repulsion(lib, other, self), Sub(other, self))
  {
    var v1 := Sub(other, self);
    var k := Inv(lib, Magnitude(lib, v1), 1.0);
    MagnitudeFacts(lib, v1);
    InvNonNegative(lib, Magnitude(lib, v1), 1.0);
    NormalizedBounded(lib, v1);
    DotOfScaleLeft(Normalized(lib, v1), v1, k, Dot(Normalized(lib, v1), v1));
    ProductNonNegative(k, Dot(Normalized(lib, v1), v1));
  }

  /** Farther than kEpsilon, a repulsion points along other - self: its
      component along the difference is Inv(|d|, 1) * |d|, which is positive. */
  lemma RepulsionAlongOther(lib: MathLib, other: Vec3, self: Vec3)
    requires Lawful(lib)
    requires Magnitude(lib, Sub(other, self)) > KEpsilon
    ensures var d := Sub(other, self);
            && Dot(Repulsion(lib, other, self), d) == Inv(lib, Magnitude(lib, d), 1.0) * Magnitude(lib, d)
            && 0.0 < Dot(Repulsion(lib, other, self), d)
  {
    var v1 := Sub(other, self);
    var m := Magnitude(lib, v1);
    var k := Inv(lib, m, 1.0);
    NormalizedUnit(lib, v1);
    DotOfScaleLeft(Normalized(lib, v1), v1, k, m);
    InvPositive(lib, m, 1.0);
    ProductPositive(k, m);
  }

  /** A sibling closer than kEpsilon, but not at the same spot, also contributes
      nothing: `normalized` is the zero vector there, although Inv is huge. */
  lemma RepulsionNearlyCoincident(lib: MathLib, other: Vec3, self: Vec3)
    requires Magnitude(lib, Sub(other, self)) <= KEpsilon
    ensures Repulsion(lib, other, self) == Zero
  {
    ScaleOfZero(Inv(lib, Magnitude(lib, Sub(other, self)), 1.0));
  }

  /** A repulsion's strength is the inverse square of the distance to the sibling. */
  lemma RepulsionStrength(lib: MathLib, other: Vec3, self: Vec3)
    requires Lawful(lib)
    requires Magnitude(lib, Sub(other, self)) > KEpsilon
    ensures Magnitude(lib, Repulsion(lib, other, self)) == Inv(lib, Magnitude(lib, Sub(other, self)), 1.0)
  {
    var v1 := Sub(other, self);
    InvNonNegative(lib, Magnitude(lib, v1), 1.0);
    NormalizedUnit(lib, v1);
    MagnitudeOfScale(lib, Normalized(lib, v1), Inv(lib, Magnitude(lib, v1), 1.0));
  }

  /** As written, the alignment neighbourhood ignores the z axis: a sibling
      straight along z counts at any distance. */
  lemma WithinAlignmentIgnoresZ(other: Vec3, self: Vec3, z: real)
    ensures WithinAlignment(other, self) == WithinAlignment(Vec3(other.x, other.y, z), self)
  {
  }

  /** The boundary of the neighbourhood is included: (30, 40) from the sheep counts. */
  lemma WithinAlignmentBoundary(self: Vec3)
    ensures WithinAlignment(Add(self, Vec3(30.0, 40.0, 0.0)), self)
    ensures !WithinAlignment(Add(self, Vec3(51.0, 0.0, 0.0)), self)
  {
    assert Sub(Add(self, Vec3(30.0, 40.0, 0.0)), self) == Vec3(30.0, 40.0, 0.0);
    assert Sub(Add(self, Vec3(51.0, 0.0, 0.0)), self) == Vec3(51.0, 0.0, 0.0);
  }

  /** With the stored distance still zero, as before the first Move, there is no escape. */
  lemma EscapeWithoutDistance(lib: MathLib, predator: Vec3, self: Vec3)
    ensures Escape(lib, predator, self, 0.0) == Zero
  {
  }

  /** As written (predator minus position), the escape vector never points away
      from the predator estimate. */
  lemma EscapeTowardPredator(lib: MathLib, predator: Vec3, self: Vec3, distance: real)
    requires Lawful(lib)
    requires 0.0 <= distance
    ensures 0.0 <= Dot(Escape(lib, predator, self, distance), Sub(predator, self))
  {
    var v1 := Sub(predator, self);
    var k := Inv(lib, distance, 10.0);
    InvNonNegative(lib, distance, 10.0);
    NormalizedBounded(lib, v1);
    DotOfScaleLeft(Normalized(lib, v1), v1, k, Dot(Normalized(lib, v1), v1));
    ProductNonNegative(k, Dot(Normalized(lib, v1), v1));
  }

  /** With the predator estimate farther than kEpsilon, escape points along
      predator - position: its component along the difference is
      Inv(distance, 10) * |d|, positive for a positive stored distance. */
  lemma EscapeAlongPredator(lib: MathLib, predator: Vec3, self: Vec3, distance: real)
    requires Lawful(lib)
    requires Magnitude(lib, Sub(predator, self)) > KEpsilon
    ensures var d := Sub(predator, self);
            Dot(Escape(lib, predator, self, distance), d) == Inv(lib, distance, 10.0) * Magnitude(lib, d)
    ensures 0.0 < distance ==> 0.0 < Dot(Escape(lib, predator, self, distance), Sub(predator, self))
  {
    var v1 := Sub(predator, self);
    var m := Magnitude(lib, v1);
    var k := Inv(lib, distance, 10.0);
    var e := Escape(lib, predator, self, distance);
    assert e == Scale(Normalized(lib, v1), k);
    NormalizedUnit(lib, v1);
    DotOfScaleLeft(Normalized(lib, v1), v1, k, m);
    assert Dot(e, v1) == k * m;
    if 0.0 < distance {
      InvPositive(lib, distance, 10.0);
      ProductPositive(k, m);
    }
  }

  /** With the predator estimate within kEpsilon of the sheep there is no
      escape, whatever the stored distance. */
  lemma EscapeAtPredator(lib: MathLib, predator: Vec3, self: Vec3, distance: real)
    requires Magnitude(lib, Sub(predator, self)) <= KEpsilon
    ensures Escape(lib, predator, self, distance) == Zero
  {
    ScaleOfZero(Inv(lib, distance, 10.0));
  }

  /** Its strength is the inverse square of the stored distance with softness 10. */
  lemma EscapeStrength(lib: MathLib, predator: Vec3, self: Vec3, distance: real)
    requires Lawful(lib)
    requires 0.0 <= distance && Magnitude(lib, Sub(predator, self)) > KEpsilon
    ensures Magnitude(lib, Escape(lib, predator, self, distance)) == Inv(lib, distance, 10.0)
  {
    var v1 := Sub(predator, self);
    InvNonNegative(lib, distance, 10.0);
    NormalizedUnit(lib, v1);
    MagnitudeOfScale(lib, Normalized(lib, v1), Inv(lib, distance, 10.0));
  }

  // ---------------------------------------------------------------------------
  // Blend

  /** With every fear multiplier zero the blend does not depend on the distance. */
  lemma BlendWithoutFear(lib: MathLib, t: Tuning, d1: real, d2: real,
                         cohesion: Vec3, separation: Vec3, alignment: Vec3, escape: Vec3)
    requires t.weightCohesionFear == 0.0 && t.weightSeparationFear == 0.0 && t.weightAlignementFear == 0.0
    ensures Blend(lib, t, d1, cohesion, separation, alignment, escape) ==
            Blend(lib, t, d2, cohesion, separation, alignment, escape)
  {
    CombineWeightWithoutFear(lib, t.weightCohesionBase, d1);
    CombineWeightWithoutFear(lib, t.weightCohesionBase, d2);
    CombineWeightWithoutFear(lib, t.weightSeparation, d1);
    CombineWeightWithoutFear(lib, t.weightSeparation, d2);
    CombineWeightWithoutFear(lib, t.weightAlignement, d1);
    CombineWeightWithoutFear(lib, t.weightAlignement, d2);
  }

  /** With the default fear multiplier of zero, separation enters the blend
      with its calm weight 2 at every distance. */
  lemma BlendDefaultSeparation(lib: MathLib, distance: real, separation: Vec3)
    ensures Blend(lib, Defaults, distance, Zero, separation, Zero, Zero) == Scale(separation, 2.0)
  {
    CombineWeightWithoutFear(lib, 2.0, distance);
    ScaleOfZero(CombineWeight(lib, Defaults.weightCohesionBase, Defaults.weightCohesionFear, distance));
    ScaleOfZero(CombineWeight(lib, Defaults.weightAlignement, Defaults.weightAlignementFear, distance));
    ScaleOfZero(Defaults.weightEscape);
  }

  lemma ScaleOfZero(k: real)
    ensures Scale(Zero, k) == Zero
  {
  }

  // ---------------------------------------------------------------------------
  // MaxSpeed

  /** Because Lerp clamps, the maximum speed lies between the calm and the fear maximum. */
  lemma MaxSpeedBetween(t: Tuning, distance: real)
    requires t.flightZoneRadius != 0.0
    ensures Min(t.maxVelocityBase, t.maxVelocityFear) <= MaxSpeed(t, distance)
                                                       <= Max(t.maxVelocityBase, t.maxVelocityFear)
  {
    LerpBetween(t.maxVelocityBase, t.maxVelocityFear, 1.0 - distance / t.flightZoneRadius);
  }

  /** At or beyond the flight zone the maximum speed is the calm maximum. */
  lemma MaxSpeedOutsideFlightZone(t: Tuning, distance: real)
    requires 0.0 < t.flightZoneRadius <= distance
    ensures MaxSpeed(t, distance) == t.maxVelocityBase
  {
    QuotientAtLeastOne(distance, t.flightZoneRadius);
    LerpEnds(t.maxVelocityBase, t.maxVelocityFear, 1.0 - distance / t.flightZoneRadius);
  }

  /** On top of the predator the maximum speed is the fear maximum. */
  lemma MaxSpeedAtPredator(t: Tuning)
    requires t.flightZoneRadius != 0.0
    ensures MaxSpeed(t, 0.0) == t.maxVelocityFear
  {
  }

  // ---------------------------------------------------------------------------
  // Step

  /** The clamped target never exceeds the maximum speed in absolute value, and
      that maximum lies between the calm and the fear maximum. With non-negative
      maxima the maximum speed is itself non-negative, so it bounds the target. */
  lemma StepTargetBounded(lib: MathLib, t: Tuning, position: Vec3, velocity: Vec3,
                          target: Vec3, predator: Vec3, dt: real)
    requires Lawful(lib)
    requires t.flightZoneRadius != 0.0
    ensures var m := Step(lib, t, position, velocity, target, predator, dt);
            && Magnitude(lib, m.target) <= Abs(MaxSpeed(t, m.distance))
            && Min(t.maxVelocityBase, t.maxVelocityFear) <= MaxSpeed(t, m.distance)
                                                        <= Max(t.maxVelocityBase, t.maxVelocityFear)
    ensures var m := Step(lib, t, position, velocity, target, predator, dt);
            0.0 <= t.maxVelocityBase && 0.0 <= t.maxVelocityFear ==>
              Magnitude(lib, m.target) <= MaxSpeed(t, m.distance)
  {
    var m := Step(lib, t, position, velocity, target, predator, dt);
    MaxSpeedBetween(t, m.distance);
    ClampMagnitudeBound(lib, target, MaxSpeed(t, m.distance));
  }

  /** A sheep that moves gets a velocity no faster than the maximum speed in
      absolute value; with non-negative maxima, no faster than the maximum speed. */
  lemma StepSpeedBounded(lib: MathLib, t: Tuning, position: Vec3, velocity: Vec3,
                         target: Vec3, predator: Vec3, dt: real)
    requires Lawful(lib)
    requires t.flightZoneRadius != 0.0
    requires !Idle(lib, t, Step(lib, t, position, velocity, target, predator, dt))
    ensures var m := Step(lib, t, position, velocity, target, predator, dt);
            Magnitude(lib, m.velocity) <= Abs(MaxSpeed(t, m.distance))
    ensures var m := Step(lib, t, position, velocity, target, predator, dt);
            0.0 <= t.maxVelocityBase && 0.0 <= t.maxVelocityFear ==>
              Magnitude(lib, m.velocity) <= MaxSpeed(t, m.distance)
  {
    StepTargetBounded(lib, t, position, velocity, target, predator, dt);
    var m := Step(lib, t, position, velocity, target, predator, dt);
    MagnitudeWithoutY(lib, m.target);
  }

  /** A clamped target below the minimum speed leaves velocity and position
      exactly as they were; otherwise the position advances by exactly
      velocity * dt and the velocity is the clamped target, flattened when
      clamped to the ground. */
  lemma StepOutcome(lib: MathLib, t: Tuning, position: Vec3, velocity: Vec3,
                    target: Vec3, predator: Vec3, dt: real)
    requires t.flightZoneRadius != 0.0
    ensures var m := Step(lib, t, position, velocity, target, predator, dt);
            && m.distance == Magnitude(lib, Sub(position, predator))
            && (Idle(lib, t, m) ==> m.position == position && m.velocity == velocity)
            && (!Idle(lib, t, m) ==>
                  Sub(m.position, position) == Scale(m.velocity, dt) &&
                  m.velocity == (if t.clampToGround then WithY(m.target, 0.0) else m.target))
  {
  }

  /** With dt == 0 no sheep changes position. */
  lemma StepWithoutTime(lib: MathLib, t: Tuning, position: Vec3, velocity: Vec3,
                        target: Vec3, predator: Vec3)
    requires t.flightZoneRadius != 0.0
    ensures Step(lib, t, position, velocity, target, predator, 0.0).position == position
  {
  }

  /** Clamped to the ground, a sheep keeps its height, and when it moves its
      velocity is horizontal. */
  lemma StepOnGround(lib: MathLib, t: Tuning, position: Vec3, velocity: Vec3,
                     target: Vec3, predator: Vec3, dt: real)
    requires t.flightZoneRadius != 0.0 && t.clampToGround
    ensures var m := Step(lib, t, position, velocity, target, predator, dt);
            && m.position.y == position.y
            && (!Idle(lib, t, m) ==> m.velocity.y == 0.0)
  {
  }

  /** An idle step is a fixed point: repeating it changes nothing. */
  lemma StepIdleRepeats(lib: MathLib, t: Tuning, position: Vec3, velocity: Vec3,
                        target: Vec3, predator: Vec3, dt: real, dt': real)
    requires Lawful(lib)
    requires t.flightZoneRadius != 0.0
    requires Idle(lib, t, Step(lib, t, position, velocity, target, predator, dt))
    ensures var m := Step(lib, t, position, velocity, target, predator, dt);
            Step(lib, t, m.position, m.velocity, m.target, predator, dt') == m
  {
    var m := Step(lib, t, position, velocity, target, predator, dt);
    ClampMagnitudeIdempotent(lib, target, MaxSpeed(t, m.distance));
  }
}
