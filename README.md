# Sheep herding boids, modelled in Dafny

This project models the steering and herding logic of a Unity sheep simulation. It has two scripts.

- **SheepBoid** steers each sheep by four rules and then moves it:
  - cohesion toward the herd's centroid;
  - separation from its siblings;
  - alignment with the velocities of nearby siblings;
  - escape from the predator estimate.

  The rules are weighted by a distance-dependent sigmoid and an inverse-square falloff. The sheep moves at a speed clamped to a maximum that depends on the predator distance. It stays put below a minimum speed, and it is optionally kept on the ground.
- **SheepHerd** does three things:
  - registers itself in a static list of herds;
  - adopts its sheep;
  - on every fixed update, computes its centroid (`averageHerd`) and a predator estimate (`predator`). The estimate is the sum of the other herds' centroids divided by the number of registered herds.

Vectors are `Vec3` over `real`. Unity's `Vector3` operations (`normalized`, `magnitude`, `ClampMagnitude`) and `Mathf.Lerp` are written out as Unity defines them. `sqrt`, `atan` and `pow` are fields of a `MathLib` value. The predicate `Lawful` states the few facts the proofs use about them:

- a square root is non-negative and squares back to its argument;
- `atan` lies strictly between −`Pi`/2 and `Pi`/2, is strictly increasing and is zero at zero. `Pi` is the single-precision value of `Mathf.PI`, 3.1415927410125732421875. That is slightly above π, so the true arc tangent meets this bound;
- `pow(b, −2) · b² = 1` for a nonzero `b`.

The files and modules:

- `vectors.dfy` (`Vectors`): Vector3 and Mathf over the reals.
- `steering.dfy` (`Steering`): the scalar helpers `P`, `CombineWeight` and `Inv`. It also holds:
  - the per-sibling rule terms;
  - the `Tuning` record of serialized fields with the scripts' defaults;
  - the weighted blend of `ApplyRules`;
  - the move step `Step` as a function of the old state.
- `aggregates.dfy` (`Aggregates`): the sums, means and the predator estimate that `SheepHerd.FixedUpdate` accumulates.
- `herding.dfy` (`Herding`): the classes `SheepBoid`, `SheepHerd` and `Registry` (the static `Instances` list). Their methods keep the scripts' loops, early returns and field updates. Each method is proved against the specification functions above them. The two accumulating loops of `SheepHerd.FixedUpdate` are read-only methods of their own, `SumOtherCentroids` and `SumPositions`. `FixedUpdate` calls them in the source's order and divides their results.
- `herding_facts.dfy` (`HerdingFacts`): properties of those specification functions, over whole herds and registries.

The model follows the code where it departs from its own doc comments:

- Separation and escape use `other − self` and `predator − position`. They point **toward** the other object, not away (`Steering.RepulsionTowardOther`, `Steering.EscapeTowardPredator`).
- The predator estimate divides by the number of registered herds, **including** the herd itself. Two herds centred at 0 and 10 estimate 5 and 0 (`HerdingFacts.TwoHerdThreat`). A lone herd therefore gets the zero vector, not its previous estimate (`HerdingFacts.LoneHerdThreat`).
- `ApplyRules` reads `distanceToPredator` before `Move` refreshes it, so the rules see the previous tick's distance. `SheepBoid.FixedUpdate` states this: the blend is taken in the old state.
- Alignment's 50-unit radius is tested on x and y only (`Steering.WithinAlignmentIgnoresZ`).
- `Mathf.Lerp` clamps its parameter, so the maximum speed stays between the calm and the fear maximum.
- `P` grows with its argument, the distance. With positive multipliers, the combined weight therefore grows as the predator moves away (`Steering.CombineWeightIncreasing`).
- `normalized` returns the zero vector at or below kEpsilon (1e-5). So a sibling closer than that, but not at the same spot, contributes nothing to separation, in real arithmetic, even though `Inv` is huge there (`Steering.RepulsionNearlyCoincident`). Likewise escape is zero whenever the predator estimate is within kEpsilon of the sheep, whatever the stored distance (`Steering.EscapeAtPredator`).
- The check `v2.x == float.NaN` is never true, so `RuleSeparation` never skips a sibling for it. The model has no such branch.

## Model

| member | source | states |
|---|---|---|
| Vectors.Magnitude | Assets/Scripts/SheepBoid.cs:201 | definition, no contract: `Vector3.magnitude`, the square root of the squared magnitude (also used at lines 94 and 209) |
| Aggregates.Sum | Assets/Scripts/SheepHerd.cs:43 | definition, no contract: the `+=` accumulation from the zero vector, front to back (also SheepHerd.cs:50 and SheepBoid.cs:99) |
| Steering.WithinAlignment | Assets/Scripts/SheepBoid.cs:124-127 | definition, no contract: dx² + dy² of other − self is not above 50 · 50 |
| Steering.Idle | Assets/Scripts/SheepBoid.cs:209 | definition, no contract: the clamped target's magnitude is below minVelocity |
| Steering.Defaults | Assets/Scripts/SheepBoid.cs:176-195 | definition, no contract: the field initialisers 7, 0.1, 1, 4, 0.5, 5, 2, 0, 0.1, 1, 6 and true |
| Herding.Others | Assets/Scripts/SheepBoid.cs:91 | every element it keeps is an element of the input; the `== this` skip, also at SheepBoid.cs:122 and SheepHerd.cs:40-41 |
| Steering.P | Assets/Scripts/SheepBoid.cs:29-32 | definition, no contract: (1/Pi)·atan(x/0.3) + 0.5 |
| Steering.CombineWeight | Assets/Scripts/SheepBoid.cs:42-45 | definition, no contract: m1 + m1·P(x)·m2 |
| Steering.Inv | Assets/Scripts/SheepBoid.cs:55-60 | definition, no contract: 0 if x or s is 0, else pow(x/s + ε, −2) |
| Steering.Cohesion | Assets/Scripts/SheepBoid.cs:70-73 | definition, no contract: normalized(centroid − position) |
| Steering.Repulsion | Assets/Scripts/SheepBoid.cs:93-94 | definition, no contract: normalized(other − self) · Inv(\|other − self\|, 1) |
| Steering.Escape | Assets/Scripts/SheepBoid.cs:148-151 | definition, no contract: normalized(predator − position) · Inv(stored distance, 10) |
| Steering.Blend | Assets/Scripts/SheepBoid.cs:158-166 | definition, no contract: the weighted sum of the four rule vectors, in the source's order |
| Steering.MaxSpeed | Assets/Scripts/SheepBoid.cs:204 | definition, no contract: Lerp(maxVelocityBase, maxVelocityFear, 1 − distance/flightZoneRadius) |
| Steering.Step | Assets/Scripts/SheepBoid.cs:199-223 | definition, no contract: the state after `Move` as a function of the state before it |
| Herding.SheepBoid.RuleCohesion | Assets/Scripts/SheepBoid.cs:70-73 | definition, no contract: Cohesion of the herd's centroid and the sheep's position |
| Herding.SheepBoid.RuleEscape | Assets/Scripts/SheepBoid.cs:148-151 | definition, no contract: Escape of the herd's estimate, the position and the stored distance |
| Herding.Separation | Assets/Scripts/SheepBoid.cs:86-101 | definition, no contract: the sum of the repulsions of the other sheep, in herd order |
| Herding.Alignment | Assets/Scripts/SheepBoid.cs:116-137 | definition, no contract: zero without neighbours, otherwise the mean of their velocities |
| Aggregates.Mean | Assets/Scripts/SheepHerd.cs:52 | definition, no contract: the accumulated sum divided by the number of points |
| Aggregates.Threat | Assets/Scripts/SheepHerd.cs:45 | definition, no contract: the sum of the other centroids divided by the number of registered herds |
| Vectors.Normalized | Assets/Scripts/SheepBoid.cs:72 | definition, no contract: v/\|v\| above kEpsilon, otherwise the zero vector |
| Vectors.ClampMagnitude | Assets/Scripts/SheepBoid.cs:206 | definition, no contract: normalized(v)·max when \|v\|² > max², otherwise v |
| Vectors.Lerp | Assets/Scripts/SheepBoid.cs:204 | definition, no contract: a + (b − a)·clamp01(t) |
| Steering.SigmoidBounds | Assets/Scripts/SheepBoid.cs:29-32 | P(x) lies strictly between 0 and 1 |
| Steering.SigmoidCentre | Assets/Scripts/SheepBoid.cs:29-32 | P(0) is one half |
| Steering.SigmoidIncreasing | Assets/Scripts/SheepBoid.cs:29-32 | P is strictly increasing in the distance |
| Steering.CombineWeightWithoutFear | Assets/Scripts/SheepBoid.cs:42-45 | with a zero second multiplier (the separation defaults) the weight is the first multiplier at every distance |
| Steering.CombineWeightBetween | Assets/Scripts/SheepBoid.cs:42-45 | for non-negative multipliers, m1 ≤ weight ≤ m1 + m1·m2 |
| Steering.CombineWeightIncreasing | Assets/Scripts/SheepBoid.cs:42-45 | for positive multipliers, the weight strictly grows with the distance |
| Steering.InvDegenerate | Assets/Scripts/SheepBoid.cs:55-57 | Inv(x, s) is 0 whenever x or s is 0 |
| Steering.InvValue | Assets/Scripts/SheepBoid.cs:55-60 | otherwise Inv(x, s) = 1 / (x/s + ε)², and it is positive when that base is nonzero |
| Steering.InvPositive | Assets/Scripts/SheepBoid.cs:55-60 | Inv is positive for a positive distance and softness |
| Steering.InvNonNegative | Assets/Scripts/SheepBoid.cs:55-60 | Inv is never negative for a distance ≥ 0 and a positive softness |
| Steering.InvDecreasing | Assets/Scripts/SheepBoid.cs:55-60 | Inv strictly decreases over positive distances |
| Steering.CohesionNearCentroid | Assets/Scripts/SheepBoid.cs:70-73 | a sheep within kEpsilon of the centroid gets the zero cohesion vector |
| Steering.CohesionTowardCentroid | Assets/Scripts/SheepBoid.cs:70-73 | farther than kEpsilon from the centroid, cohesion is a unit vector exactly along centroid − position: its component along that difference d is \|d\|, which is positive |
| Steering.RepulsionCoincident | Assets/Scripts/SheepBoid.cs:93-94 | a sibling at exactly the sheep's position contributes the zero vector |
| Steering.RepulsionTowardOther | Assets/Scripts/SheepBoid.cs:93-94 | at any distance, a sibling's contribution never points away from that sibling |
| Steering.RepulsionAlongOther | Assets/Scripts/SheepBoid.cs:93-94 | farther than kEpsilon, the contribution points along d = other − self: its component along d is Inv(\|d\|, 1)·\|d\|, which is positive |
| Steering.RepulsionNearlyCoincident | Assets/Scripts/SheepBoid.cs:93-94 | a sibling within kEpsilon contributes the zero vector, because `normalized` is zero there |
| Steering.RepulsionStrength | Assets/Scripts/SheepBoid.cs:93-94 | for a sibling farther than kEpsilon, the contribution's magnitude is Inv of the distance with softness 1 |
| Steering.WithinAlignmentIgnoresZ | Assets/Scripts/SheepBoid.cs:124-127 | the neighbourhood test does not depend on z |
| Steering.WithinAlignmentBoundary | Assets/Scripts/SheepBoid.cs:124-127 | dx² + dy² = 2500 is inside the neighbourhood and (51, 0) is outside |
| Steering.EscapeWithoutDistance | Assets/Scripts/SheepBoid.cs:148-151 | with the stored distance 0 (its initial value, SheepBoid.cs:184) there is no escape |
| Steering.EscapeTowardPredator | Assets/Scripts/SheepBoid.cs:148-151 | for any stored distance ≥ 0, the escape vector never points away from the predator estimate |
| Steering.EscapeAlongPredator | Assets/Scripts/SheepBoid.cs:148-151 | with the estimate farther than kEpsilon, escape points along d = predator − position: its component along d is Inv(distance, 10)·\|d\|, which is positive for a positive stored distance |
| Steering.EscapeAtPredator | Assets/Scripts/SheepBoid.cs:148-151 | with the estimate within kEpsilon of the sheep, escape is zero whatever the stored distance |
| Steering.EscapeStrength | Assets/Scripts/SheepBoid.cs:148-151 | with the estimate farther than kEpsilon, the escape magnitude is Inv of the stored distance with softness 10 |
| Steering.BlendWithoutFear | Assets/Scripts/SheepBoid.cs:158-166 | with all fear multipliers zero, the blended target does not depend on the distance |
| Steering.BlendDefaultSeparation | Assets/Scripts/SheepBoid.cs:158-166 | with the default tuning, separation enters the blend with weight 2 at every distance |
| Steering.MaxSpeedBetween | Assets/Scripts/SheepBoid.cs:204 | the maximum speed lies between maxVelocityBase and maxVelocityFear |
| Steering.MaxSpeedOutsideFlightZone | Assets/Scripts/SheepBoid.cs:204 | at or beyond flightZoneRadius the maximum speed is maxVelocityBase |
| Steering.MaxSpeedAtPredator | Assets/Scripts/SheepBoid.cs:204 | at distance 0 the maximum speed is maxVelocityFear |
| Steering.StepTargetBounded | Assets/Scripts/SheepBoid.cs:201-206 | for any maxima, the clamped target is no faster than the absolute value of the maximum speed, which lies between the two maxima; with non-negative maxima, no faster than the maximum speed itself |
| Steering.StepSpeedBounded | Assets/Scripts/SheepBoid.cs:206-219 | for any maxima, a sheep that moves has a velocity no faster than the absolute value of the maximum speed; with non-negative maxima, no faster than the maximum speed itself |
| Steering.StepOutcome | Assets/Scripts/SheepBoid.cs:199-223 | the new distance is to the predator estimate; below minVelocity velocity and position are unchanged; otherwise velocity is the clamped target (y zeroed when clampToGround) and position advances by exactly velocity·dt |
| Steering.StepWithoutTime | Assets/Scripts/SheepBoid.cs:215-222 | with dt = 0 the position does not change |
| Steering.StepOnGround | Assets/Scripts/SheepBoid.cs:215-222 | with clampToGround the height is kept and a moving sheep's velocity has y = 0 |
| Steering.StepIdleRepeats | Assets/Scripts/SheepBoid.cs:206-210 | for any tuning with a nonzero flight-zone radius, repeating an idle step changes nothing |
| Vectors.NormalizedZero | Assets/Scripts/SheepBoid.cs:72 | `normalized` of the zero vector is the zero vector |
| Vectors.NormalizedUnit | Assets/Scripts/SheepBoid.cs:72 | above kEpsilon, `normalized` has magnitude 1 and points along the vector |
| Vectors.NormalizedBounded | Assets/Scripts/SheepBoid.cs:94 | `normalized` never has magnitude above 1 and never points against the vector |
| Vectors.ClampMagnitudeBound | Assets/Scripts/SheepBoid.cs:206 | for every maximum m, negative ones included, ClampMagnitude never exceeds \|m\| |
| Vectors.ClampMagnitudeWithin | Assets/Scripts/SheepBoid.cs:206 | ClampMagnitude leaves a vector already within the maximum unchanged |
| Vectors.ClampMagnitudeIdempotent | Assets/Scripts/SheepBoid.cs:206 | for every maximum, negative ones included, clamping twice to it is clamping once |
| Vectors.LerpBetween | Assets/Scripts/SheepBoid.cs:204 | Lerp lies between its two ends because it clamps t |
| Vectors.LerpEnds | Assets/Scripts/SheepBoid.cs:204 | Lerp is the first end for t ≤ 0 and the second for t ≥ 1 |
| Vectors.MagnitudeWithoutY | Assets/Scripts/SheepBoid.cs:218-219 | zeroing y never increases the magnitude |
| Aggregates.SumAppend | Assets/Scripts/SheepHerd.cs:47-51 | the accumulated sum distributes over concatenation |
| Aggregates.SumInBox | Assets/Scripts/SheepHerd.cs:47-51 | a sum of n points of a box lies in the box scaled by n |
| Aggregates.MeanInBox | Assets/Scripts/SheepHerd.cs:47-52 | the mean lies in every axis-aligned box holding all the points |
| Aggregates.MeanOfCopies | Assets/Scripts/SheepHerd.cs:47-52 | the mean of copies of one point is that point |
| Aggregates.MeanExample | Assets/Scripts/SheepHerd.cs:47-52 | points 0, 2 and 4 on x have mean 2 |
| Aggregates.ThreatWithoutOthers | Assets/Scripts/SheepHerd.cs:37-45 | with no other herd the estimate is the origin |
| Aggregates.ThreatDampedMean | Assets/Scripts/SheepHerd.cs:37-45 | the estimate is the other herds' mean centroid scaled by (other herds)/(registered herds) |
| Aggregates.ThreatTwoHerdsExample | Assets/Scripts/SheepHerd.cs:37-45 | a single other centroid at (10,0,0) with two herds registered gives (5,0,0) |
| Herding.AlignedSnoc | Assets/Scripts/SheepBoid.cs:120-131 | one more sibling adds its velocity to the averaged set exactly when it is not the sheep itself and is inside the neighbourhood |
| Herding.Registry.constructor | Assets/Scripts/SheepHerd.cs:12 | the list of herds starts empty |
| Herding.SheepBoid.constructor | Assets/Scripts/SheepBoid.cs:14-21 | a sheep starts with zero velocities, stored distance 0 and no herd |
| Herding.SheepBoid.RuleSeparation | Assets/Scripts/SheepBoid.cs:86-102 | the loop returns the sum of the repulsions of every other sheep of the herd, in order |
| Herding.SheepBoid.RuleAlignment | Assets/Scripts/SheepBoid.cs:116-137 | the loop returns zero with no neighbour, otherwise the mean velocity of the other sheep inside the x/y radius |
| Herding.SheepBoid.ApplyRules | Assets/Scripts/SheepBoid.cs:158-166 | the target is cohesion, separation and alignment each weighted by CombineWeight at the stored distance, plus escape weighted by weightEscape |
| Herding.SheepBoid.Move | Assets/Scripts/SheepBoid.cs:199-223 | the new position, velocity, target and distance are exactly one Step from the old state |
| Herding.SheepBoid.FixedUpdate | Assets/Scripts/SheepBoid.cs:168-172 | the new state is one Step from the blend taken with the previous tick's distance |
| Herding.SheepHerd.constructor | Assets/Scripts/SheepHerd.cs:30-31 | a herd starts with no sheep and with centroid and estimate at the origin |
| Herding.SheepHerd.Awake | Assets/Scripts/SheepHerd.cs:14-17 | the list of herds grows by exactly this herd, at the end |
| Herding.SheepHerd.Start | Assets/Scripts/SheepHerd.cs:19-28 | the herd's sheep are the ones given, each now points back to this herd, and nothing else changes |
| Herding.SheepHerd.FixedUpdate | Assets/Scripts/SheepHerd.cs:32-55 | with no sheep nothing changes; otherwise the estimate is the sum of the other herds' stored centroids (taken before this herd's centroid is refreshed) over the number of registered herds, and the centroid is the mean of the sheep positions |
| Herding.SheepHerd.SumOtherCentroids | Assets/Scripts/SheepHerd.cs:37-44 | the first loop sums the stored centroids of every registered herd except this one, in registry order |
| Herding.SheepHerd.SumPositions | Assets/Scripts/SheepHerd.cs:47-51 | the second loop sums the positions of all the herd's sheep |
| HerdingFacts.OthersCount | Assets/Scripts/SheepHerd.cs:38-44 | skipping oneself keeps every occurrence of every other element and drops every occurrence of oneself |
| HerdingFacts.OthersExcludesSelf | Assets/Scripts/SheepBoid.cs:89-91 | the object itself is never among the others |
| HerdingFacts.OthersAppend | Assets/Scripts/SheepBoid.cs:89-91 | skipping oneself distributes over concatenation |
| HerdingFacts.CentroidInBox | Assets/Scripts/SheepHerd.cs:47-52 | the centroid lies in every axis-aligned box holding all the herd's sheep |
| HerdingFacts.CentroidExample | Assets/Scripts/SheepHerd.cs:47-52 | sheep at 0, 2 and 4 on x have the centroid 2 |
| HerdingFacts.OwnCentroidExcluded | Assets/Scripts/SheepHerd.cs:40-41 | a herd's own centroid is never summed into its estimate |
| HerdingFacts.LoneHerdThreat | Assets/Scripts/SheepHerd.cs:37-45 | a herd alone in the registry estimates the predator at the origin |
| HerdingFacts.TwoHerdThreat | Assets/Scripts/SheepHerd.cs:37-45 | herds centred at 0 and (10,0,0) estimate (5,0,0) and 0 |
| HerdingFacts.SeparationAlone | Assets/Scripts/SheepBoid.cs:86-101 | a sheep with no sibling gets the zero separation vector |
| HerdingFacts.SeparationSkipsSelf | Assets/Scripts/SheepBoid.cs:89-91 | the sheep itself, wherever it appears in the herd, does not count |
| HerdingFacts.SeparationIgnoresCoincident | Assets/Scripts/SheepBoid.cs:93-99 | a sibling at exactly the same position leaves the separation unchanged |
| HerdingFacts.SeparationOfPair | Assets/Scripts/SheepBoid.cs:86-101 | with one sibling the separation is its repulsion, which does not point away from it |
| HerdingFacts.AlignmentNone | Assets/Scripts/SheepBoid.cs:116-137 | with no qualifying sibling the alignment is zero |
| HerdingFacts.AlignmentSingle | Assets/Scripts/SheepBoid.cs:116-137 | with exactly one qualifying sibling the alignment is its velocity |
| HerdingFacts.AlignmentInBox | Assets/Scripts/SheepBoid.cs:116-137 | with at least one qualifying sibling, the alignment lies in every box holding all their velocities |
| HerdingFacts.AlignmentOfCommonVelocity | Assets/Scripts/SheepBoid.cs:116-137 | qualifying siblings that all move with velocity c give the alignment c |

## Left out

- `Debug.DrawRay` (SheepBoid.cs:213) is rendering only.
- `GetComponentsInChildren` (SheepHerd.cs:22) is Unity's scene lookup. `SheepHerd.Start` takes the found sheep as a parameter.
- The MonoBehaviour lifecycle and the order in which Unity calls `Awake`, `Start` and `FixedUpdate` across objects are controlled by the host. No tick orchestrator is modelled.
- IEEE-754 floats are not modelled. All arithmetic is on `real`:
  - there is no rounding, overflow, infinity or NaN;
  - in particular, the float source's `Mathf.Pow(x + ε, −2)` overflows to +∞ once 0 < |other − self| is below about 5.4e-20. `Vector3.zero * ∞` is then NaN in every component, and the NaN test at SheepBoid.cs:96 does not catch it. So the NaN flows into the separation, the velocity and the position. `RuleEscape` does the same for a stored distance below about 5.4e-19 when the estimate is within kEpsilon. The model's zero contributions there (`Steering.RepulsionNearlyCoincident`, `Steering.EscapeAtPredator`) hold only in real arithmetic;
  - that is why the never-true NaN test at SheepBoid.cs:96 is absent;
  - `Mathf.Epsilon` is the positive constant 1.401298e-45, not a subnormal.
- `Mathf.Atan`, `Mathf.Pow` and the square root inside `magnitude` have no definitions here. They are arguments of type `MathLib`, and only the facts in `Lawful` are assumed of them.
- `transform.Translate(…, Space.World)` is modelled only as adding the displacement to `position`.
- Herding.SheepBoid.Move, Steering.MaxSpeed, Steering.Step and the `MaxSpeed…`/`Step…` lemmas: require `flightZoneRadius != 0`. With a zero radius, the source divides by zero in floats and gets an infinite or NaN Lerp parameter, which this model does not capture.
- Herding.SheepBoid.RuleSeparation: requires a herd, as do the other rules, `Move` and `FixedUpdate`. The source throws a NullReferenceException without one, and that path is not modelled.
- Herding.SheepHerd.FixedUpdate: requires at least one registered herd. `Awake` makes this hold (`Herding.SheepHerd.Awake`). An empty list would give a float division by zero, which is not modelled.
- `RuleCohesion` and `RuleEscape` are class functions with no contract of their own. Their properties are the `Steering.Cohesion…` and `Steering.Escape…` lemmas about the terms they return.
