/** The two MonoBehaviours as classes: a SheepBoid steers by the herding rules
    and moves; a SheepHerd registers itself, adopts its sheep and aggregates
    their centroid and the predator estimate. The static list of herds is the
    Registry object. Transforms are the `position` field, the fixed time step
    is the parameter `dt`. */
module Herding {
  import opened Vectors
  import opened Steering
  import opened Aggregates

  // ---------------------------------------------------------------------------
  // Specification functions over the scene

  /** The elements of xs other than me, in order. */
  function Others<T(==)>(xs: seq<T>, me: T): (r: seq<T>)
    ensures forall i :: 0 <= i < |r| ==> r[i] in xs
  {
    if |xs| == 0 then []
    else
      var rest := Others(xs[..|xs| - 1], me);
      if xs[|xs| - 1] == me then rest else rest + [xs[|xs| - 1]]
  }

  function Positions(sheeps: seq<SheepBoid>): (r: seq<Vec3>)
    reads sheeps
    ensures |r| == |sheeps|
  {
    if |sheeps| == 0 then [] else Positions(sheeps[..|sheeps| - 1]) + [sheeps[|sheeps| - 1].position]
  }

  function Velocities(sheeps: seq<SheepBoid>): (r: seq<Vec3>)
    reads sheeps
    ensures |r| == |sheeps|
  {
    if |sheeps| == 0 then [] else Velocities(sheeps[..|sheeps| - 1]) + [sheeps[|sheeps| - 1].velocity]
  }

  function Centroids(herds: seq<SheepHerd>): (r: seq<Vec3>)
    reads herds
    ensures |r| == |herds|
  {
    if |herds| == 0 then [] else Centroids(herds[..|herds| - 1]) + [herds[|herds| - 1].averageHerd]
  }

  /** The sheep of `sheeps` inside the alignment neighbourhood of `self`, in order. */
  function Nearby(sheeps: seq<SheepBoid>, self: Vec3): (r: seq<SheepBoid>)
    reads sheeps
    ensures forall i :: 0 <= i < |r| ==> r[i] in sheeps
  {
    if |sheeps| == 0 then []
    else
      var last := sheeps[|sheeps| - 1];
      var rest := Nearby(sheeps[..|sheeps| - 1], self);
      if WithinAlignment(last.position, self) then rest + [last] else rest
  }

  /** RuleSeparation: the sum of the repulsions of every other sheep of the herd. */
  function Separation(lib: MathLib, sheeps: seq<SheepBoid>, me: SheepBoid): Vec3
    reads sheeps, me
  {
    Sum(Repulsions(lib, Positions(Others(sheeps, me)), me.position))
  }

  /** The velocities RuleAlignment averages: those of the other sheep of the
      herd inside the neighbourhood. */
  function Aligned(sheeps: seq<SheepBoid>, me: SheepBoid): seq<Vec3>
    reads sheeps, me
  {
    Velocities(Nearby(Others(sheeps, me), me.position))
  }

  /** RuleAlignment: zero without neighbours, otherwise their mean velocity. */
  function Alignment(sheeps: seq<SheepBoid>, me: SheepBoid): Vec3
    reads sheeps, me
  {
    var vs := Aligned(sheeps, me);
    if |vs| == 0 then Zero else Mean(vs)
  }

  // ---------------------------------------------------------------------------
  // Classes

  /** SheepHerd.Instances */
  class Registry {
    var instances: seq<SheepHerd>

    constructor ()
      ensures instances == []
    {
      instances := [];
    }
  }

  class SheepBoid {
    var position: Vec3
    var velocity: Vec3
    var targetVelocity: Vec3
    var distanceToPredator: real
    var herd: SheepHerd?
    const tuning: Tuning

    constructor (tuning: Tuning, position: Vec3)
      ensures this.tuning == tuning && this.position == position
      ensures velocity == Zero && targetVelocity == Zero && distanceToPredator == 0.0 && herd == null
    {
      this.tuning := tuning;
      this.position := position;
      velocity := Zero;
      targetVelocity := Zero;
      distanceToPredator := 0.0;
      herd := null;
    }

    function RuleCohesion(lib: MathLib): Vec3
      requires herd != null
      reads this, herd
    {
      Cohesion(lib, herd.averageHerd, position)
    }

    function RuleEscape(lib: MathLib): Vec3
      requires herd != null
      reads this, herd
    {
      Escape(lib, herd.predator, position, distanceToPredator)
    }

    method RuleSeparation(lib: MathLib) returns (v: Vec3)
      requires herd != null
      ensures v == Separation(lib, herd.sheeps, this)
    {
      var sheeps := herd.sheeps;
      v := Zero;
      for k := 0 to |sheeps|
        invariant v == Sum(Repulsions(lib, Positions(Others(sheeps[..k], this)), position))
      {
        var other := sheeps[k];
        RepulsionsPrefix(lib, sheeps, k, this);
        if other == this {
          continue;
        }
        var v1 := Sub(other.position, position);
        var v2 := Scale(Normalized(lib, v1), Inv(lib, Magnitude(lib, v1), 1.0));
        SumSnoc(Repulsions(lib, Positions(Others(sheeps[..k], this)), position), v2);
        v := Add(v, v2);
      }
      assert sheeps[..|sheeps|] == sheeps;
    }

    method RuleAlignment() returns (v: Vec3)
      requires herd != null
      ensures v == Alignment(herd.sheeps, this)
    {
      var sheeps := herd.sheeps;
      v := Zero;
      var i := 0;
      for k := 0 to |sheeps|
        invariant v == Sum(Aligned(sheeps[..k], this))
        invariant i == |Aligned(sheeps[..k], this)|
      {
        var other := sheeps[k];
        AlignedPrefix(sheeps, k, this);
        if other == this {
          continue;
        }
        var distVec := Sub(other.position, position);
        var distPow := PlanarSqrMagnitude(distVec);
        if distPow > 50.0 * 50.0 {
          continue;
        }
        SumSnoc(Aligned(sheeps[..k], this), other.velocity);
        v := Add(v, other.velocity);
        i := i + 1;
      }
      assert sheeps[..|sheeps|] == sheeps;
      if i == 0 {
        return Zero;
      }
      v := Div(v, i as real);
    }

    method ApplyRules(lib: MathLib) returns (v: Vec3)
      requires herd != null
      ensures v == Blend(lib, tuning, distanceToPredator, RuleCohesion(lib),
                         Separation(lib, herd.sheeps, this), Alignment(herd.sheeps, this), RuleEscape(lib))
    {
      var separation := RuleSeparation(lib);
      var alignment := RuleAlignment();
      v := Zero;
      v := Add(v, Scale(RuleCohesion(lib), CombineWeight(lib, tuning.weightCohesionBase, tuning.weightCohesionFear, distanceToPredator)));
      v := Add(v, Scale(separation, CombineWeight(lib, tuning.weightSeparation, tuning.weightSeparationFear, distanceToPredator)));
      v := Add(v, Scale(alignment, CombineWeight(lib, tuning.weightAlignement, tuning.weightAlignementFear, distanceToPredator)));
      v := Add(v, Scale(RuleEscape(lib), tuning.weightEscape));
    }

    method Move(lib: MathLib, dt: real)
      requires herd != null && tuning.flightZoneRadius != 0.0
      modifies this`position, this`velocity, this`targetVelocity, this`distanceToPredator
      ensures Motion(position, velocity, targetVelocity, distanceToPredator) ==
              Step(lib, tuning, old(position), old(velocity), old(targetVelocity), herd.predator, dt)
    {
      distanceToPredator := Magnitude(lib, Sub(position, herd.predator));
      var currentMaxVelocity := Lerp(tuning.maxVelocityBase, tuning.maxVelocityFear,
                                     1.0 - distanceToPredator / tuning.flightZoneRadius);
      targetVelocity := ClampMagnitude(lib, targetVelocity, currentMaxVelocity);
      if Magnitude(lib, targetVelocity) < tuning.minVelocity {
        return;
      }
      velocity := targetVelocity;
      if tuning.clampToGround {
        velocity := WithY(velocity, 0.0);
      }
      position := Add(position, Scale(velocity, dt));
    }

    method FixedUpdate(lib: MathLib, dt: real)
      requires herd != null && tuning.flightZoneRadius != 0.0
      modifies this`position, this`velocity, this`targetVelocity, this`distanceToPredator
      ensures Motion(position, velocity, targetVelocity, distanceToPredator) ==
              Step(lib, tuning, old(position), old(velocity),
                   old(Blend(lib, tuning, distanceToPredator, RuleCohesion(lib),
                             Separation(lib, herd.sheeps, this), Alignment(herd.sheeps, this), RuleEscape(lib))),
                   herd.predator, dt)
    {
      targetVelocity := ApplyRules(lib);
      Move(lib, dt);
    }
  }

  class SheepHerd {
    var sheeps: seq<SheepBoid>
    var averageHerd: Vec3
    var predator: Vec3

    constructor ()
      ensures sheeps == [] && averageHerd == Zero && predator == Zero
    {
      sheeps := [];
      averageHerd := Zero;
      predator := Zero;
    }

    method Awake(registry: Registry)
      modifies registry
      ensures registry.instances == old(registry.instances) + [this]
    {
      registry.instances := registry.instances + [this];
    }

    /** `found` stands for the SheepBoid components under the herd's object. */
    method Start(found: seq<SheepBoid>)
      modifies this, found
      ensures sheeps == found
      ensures forall s :: s in found ==> s.herd == this
      ensures averageHerd == old(averageHerd) && predator == old(predator)
      ensures forall s :: s in found ==>
                s.position == old(s.position) && s.velocity == old(s.velocity) &&
                s.targetVelocity == old(s.targetVelocity) && s.distanceToPredator == old(s.distanceToPredator)
    {
      sheeps := found;
      for k := 0 to |sheeps|
        invariant sheeps == found
        invariant averageHerd == old(averageHerd) && predator == old(predator)
        invariant forall j :: 0 <= j < k ==> found[j].herd == this
        invariant forall s :: s in found ==>
                    s.position == old(s.position) && s.velocity == old(s.velocity) &&
                    s.targetVelocity == old(s.targetVelocity) && s.distanceToPredator == old(s.distanceToPredator)
      {
        sheeps[k].herd := this;
      }
    }

    method FixedUpdate(registry: Registry)
      requires |registry.instances| > 0
      modifies this`predator, this`averageHerd
      ensures |sheeps| == 0 ==> predator == old(predator) && averageHerd == old(averageHerd)
      ensures |sheeps| > 0 ==>
                predator == old(Threat(Centroids(Others(registry.instances, this)), |registry.instances|))
      ensures |sheeps| > 0 ==> averageHerd == Mean(Positions(sheeps))
    {
      if |sheeps| < 1 {
        return;
      }
      var threat := SumOtherCentroids(registry.instances);
      predator := Div(threat, |registry.instances| as real);
      var centroid := SumPositions();
      averageHerd := Div(centroid, |sheeps| as real);
    }

    /** The first loop of FixedUpdate: the other herds' centroids, summed in
        registry order. */
    method SumOtherCentroids(instances: seq<SheepHerd>) returns (threat: Vec3)
      ensures threat == Sum(Centroids(Others(instances, this)))
    {
      threat := Zero;
      for k := 0 to |instances|
        invariant threat == Sum(Centroids(Others(instances[..k], this)))
      {
        var h := instances[k];
        CentroidsPrefix(instances, k, this);
        if h == this {
          continue;
        }
        SumSnoc(Centroids(Others(instances[..k], this)), h.averageHerd);
        threat := Add(threat, h.averageHerd);
      }
      assert instances[..|instances|] == instances;
    }

    /** The second loop of FixedUpdate: the positions of the herd's sheep, summed. */
    method SumPositions() returns (centroid: Vec3)
      ensures centroid == Sum(Positions(sheeps))
    {
      centroid := Zero;
      for k := 0 to |sheeps|
        invariant centroid == Sum(Positions(sheeps[..k]))
      {
        PositionsPrefix(sheeps, k);
        SumSnoc(Positions(sheeps[..k]), sheeps[k].position);
        centroid := Add(centroid, sheeps[k].position);
      }
      assert sheeps[..|sheeps|] == sheeps;
    }
  }

  // ---------------------------------------------------------------------------
  // One more element at the end

  lemma OthersSnoc<T>(xs: seq<T>, x: T, me: T)
    ensures Others(xs + [x], me) == if x == me then Others(xs, me) else Others(xs, me) + [x]
  {
    assert (xs + [x])[..|xs|] == xs;
  }

  lemma PositionsSnoc(sheeps: seq<SheepBoid>, s: SheepBoid)
    ensures Positions(sheeps + [s]) == Positions(sheeps) + [s.position]
  {
    assert (sheeps + [s])[..|sheeps|] == sheeps;
  }

  lemma VelocitiesSnoc(sheeps: seq<SheepBoid>, s: SheepBoid)
    ensures Velocities(sheeps + [s]) == Velocities(sheeps) + [s.velocity]
  {
    assert (sheeps + [s])[..|sheeps|] == sheeps;
  }

  lemma NearbySnoc(sheeps: seq<SheepBoid>, s: SheepBoid, self: Vec3)
    ensures Nearby(sheeps + [s], self) ==
            if WithinAlignment(s.position, self) then Nearby(sheeps, self) + [s] else Nearby(sheeps, self)
  {
    assert (sheeps + [s])[..|sheeps|] == sheeps;
  }

  lemma AlignedPrefix(sheeps: seq<SheepBoid>, k: nat, me: SheepBoid)
    requires k < |sheeps|
    ensures Aligned(sheeps[..k + 1], me) ==
            if sheeps[k] == me || !WithinAlignment(sheeps[k].position, me.position) then Aligned(sheeps[..k], me)
            else Aligned(sheeps[..k], me) + [sheeps[k].velocity]
  {
    assert sheeps[..k + 1] == sheeps[..k] + [sheeps[k]];
    AlignedSnoc(sheeps[..k], sheeps[k], me);
  }

  lemma AlignedSnoc(sheeps: seq<SheepBoid>, s: SheepBoid, me: SheepBoid)
    ensures Aligned(sheeps + [s], me) ==
            if s == me || !WithinAlignment(s.position, me.position) then Aligned(sheeps, me)
            else Aligned(sheeps, me) + [s.velocity]
  {
    OthersSnoc(sheeps, s, me);
    if s != me {
      NearbySnoc(Others(sheeps, me), s, me.position);
      if WithinAlignment(s.position, me.position) {
        VelocitiesSnoc(Nearby(Others(sheeps, me), me.position), s);
      }
    }
  }

  lemma CentroidsPrefix(herds: seq<SheepHerd>, k: nat, me: SheepHerd)
    requires k < |herds|
    ensures Centroids(Others(herds[..k + 1], me)) ==
            if herds[k] == me then Centroids(Others(herds[..k], me))
            else Centroids(Others(herds[..k], me)) + [herds[k].averageHerd]
  {
    assert herds[..k + 1] == herds[..k] + [herds[k]];
    OthersSnoc(herds[..k], herds[k], me);
    if herds[k] != me {
      var os := Others(herds[..k], me);
      assert (os + [herds[k]])[..|os|] == os;
    }
  }

  lemma PositionsPrefix(sheeps: seq<SheepBoid>, k: nat)
    requires k < |sheeps|
    ensures Positions(sheeps[..k + 1]) == Positions(sheeps[..k]) + [sheeps[k].position]
  {
    assert sheeps[..k + 1] == sheeps[..k] + [sheeps[k]];
    PositionsSnoc(sheeps[..k], sheeps[k]);
  }

  lemma RepulsionsPrefix(lib: MathLib, sheeps: seq<SheepBoid>, k: nat, me: SheepBoid)
    requires k < |sheeps|
    ensures Repulsions(lib, Positions(Others(sheeps[..k + 1], me)), me.position) ==
            if sheeps[k] == me then Repulsions(lib, Positions(Others(sheeps[..k], me)), me.position)
            else Repulsions(lib, Positions(Others(sheeps[..k], me)), me.position) +
                 [Repulsion(lib, sheeps[k].position, me.position)]
  {
    assert sheeps[..k + 1] == sheeps[..k] + [sheeps[k]];
    OthersSnoc(sheeps[..k], sheeps[k], me);
    if sheeps[k] != me {
      PositionsSnoc(Others(sheeps[..k], me), sheeps[k]);
      RepulsionsSnoc(lib, Positions(Others(sheeps[..k], me)), sheeps[k].position, me.position);
    }
  }
}
