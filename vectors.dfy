/** Unity's Vector3 and Mathf over the reals, with the transcendental library
    calls (square root, arc tangent, power) taken as parameters. */
module Vectors {

  datatype Vec3 = Vec3(x: real, y: real, z: real)

  /** Vector3.zero */
  const Zero: Vec3 := Vec3(0.0, 0.0, 0.0)

  /** Vector3.kEpsilon: below this magnitude `normalized` yields the zero vector. */
  const KEpsilon: real := 1.0e-5

  /** Mathf.PI: the single-precision value 3.14159274..., just above pi, so the
      true arc tangent lies strictly within (-Pi/2, Pi/2). */
  const Pi: real := 3.1415927410125732421875

  /** The library calls the scripts make whose definitions are not modelled. */
  datatype MathLib = MathLib(sqrt: real -> real, atan: real -> real, pow: (real, real) -> real)

  /** The few facts about those calls that the model relies on. */
  ghost predicate Lawful(lib: MathLib) {
    && (forall a :: 0.0 <= a ==> 0.0 <= lib.sqrt(a) && lib.sqrt(a) * lib.sqrt(a) == a)
    && (forall a :: -Pi / 2.0 < lib.atan(a) < Pi / 2.0)
    && (forall a, b :: a < b ==> lib.atan(a) < lib.atan(b))
    && lib.atan(0.0) == 0.0
    && (forall b :: b != 0.0 ==> lib.pow(b, -2.0) * (b * b) == 1.0)
  }

  function Add(a: Vec3, b: Vec3): Vec3 {
    Vec3(a.x + b.x, a.y + b.y, a.z + b.z)
  }

  function Sub(a: Vec3, b: Vec3): Vec3 {
    Vec3(a.x - b.x, a.y - b.y, a.z - b.z)
  }

  /** v * k */
  function Scale(v: Vec3, k: real): Vec3 {
    Vec3(v.x * k, v.y * k, v.z * k)
  }

  /** v / d */
  function Div(v: Vec3, d: real): Vec3
    requires d != 0.0
  {
    Vec3(v.x / d, v.y / d, v.z / d)
  }

  function Dot(a: Vec3, b: Vec3): real {
    a.x * b.x + a.y * b.y + a.z * b.z
  }

  function SqrMagnitude(v: Vec3): real {
    v.x * v.x + v.y * v.y + v.z * v.z
  }

  function Magnitude(lib: MathLib, v: Vec3): real {
    lib.sqrt(SqrMagnitude(v))
  }

  /** Vector3.normalized */
  function Normalized(lib: MathLib, v: Vec3): Vec3 {
    var m := Magnitude(lib, v);
    if m > KEpsilon then Div(v, m) else Zero
  }

  /** Vector3.ClampMagnitude */
  function ClampMagnitude(lib: MathLib, v: Vec3, maxLength: real): Vec3 {
    if SqrMagnitude(v) > maxLength * maxLength then Scale(Normalized(lib, v), maxLength) else v
  }

  /** Mathf.Clamp01 */
  function Clamp01(t: real): real {
    if t < 0.0 then 0.0 else if t > 1.0 then 1.0 else t
  }

  /** Mathf.Lerp, which clamps its parameter to [0, 1]. */
  function Lerp(a: real, b: real, t: real): real {
    a + (b - a) * Clamp01(t)
  }

  /** The vector with its y component replaced. */
  function WithY(v: Vec3, y: real): Vec3 {
    Vec3(v.x, y, v.z)
  }

  function Abs(a: real): real {
    if a < 0.0 then -a else a
  }

  function Min(a: real, b: real): real {
    if a < b then a else b
  }

  function Max(a: real, b: real): real {
    if a < b then b else a
  }

  // ---------------------------------------------------------------------------
  // Products and squares (kept in small lemmas: the solver's nonlinear
  // reasoning is not reliable once a proof also splits cases)

  lemma SquarePositive(a: real)
    requires a != 0.0
    ensures 0.0 < a * a
  {
  }

  lemma SquareNonNegative(a: real)
    ensures 0.0 <= a * a
  {
  }

  lemma SquareStrictMonotone(q: real, p: real)
    requires 0.0 <= q < p
    ensures q * q < p * p
  {
    var qq, qp, pp := q * q, q * p, p * p;
    assert qq <= qp;
    assert qp < pp;
  }

  lemma SquareInjective(q: real, r: real)
    requires 0.0 <= q && 0.0 <= r && q * q == r * r
    ensures q == r
  {
    if q < r {
      SquareStrictMonotone(q, r);
    } else if r < q {
      SquareStrictMonotone(r, q);
    }
  }

  /** 0 <= d * c <= d for a fraction c of a non-negative d. */
  lemma FractionBetween(d: real, c: real)
    requires 0.0 <= d && 0.0 <= c <= 1.0
    ensures 0.0 <= d * c <= d
  {
  }

  /** The same, for a product the caller already holds under another name. */
  lemma FractionOf(d: real, c: real, p: real)
    requires 0.0 <= d && 0.0 <= c <= 1.0 && p == d * c
    ensures 0.0 <= p <= d
  {
    FractionBetween(d, c);
  }

  // ---------------------------------------------------------------------------
  // Square roots

  lemma SqrtUnique(lib: MathLib, a: real, r: real)
    requires Lawful(lib)
    requires 0.0 <= r && r * r == a
    ensures lib.sqrt(a) == r
  {
    assert 0.0 <= a;
    SquareInjective(lib.sqrt(a), r);
  }

  lemma SqrtMonotone(lib: MathLib, a: real, b: real)
    requires Lawful(lib)
    requires 0.0 <= a <= b
    ensures lib.sqrt(a) <= lib.sqrt(b)
  {
    var p, q := lib.sqrt(a), lib.sqrt(b);
    assert 0.0 <= p && p * p == a;
    assert 0.0 <= q && q * q == b;
    if q < p {
      SquareStrictMonotone(q, p);
    }
  }

  // ---------------------------------------------------------------------------
  // Magnitudes

  lemma SqrMagnitudeNonNegative(v: Vec3)
    ensures 0.0 <= SqrMagnitude(v)
  {
    SquareNonNegative(v.x);
    SquareNonNegative(v.y);
    SquareNonNegative(v.z);
  }

  /** The magnitude is non-negative and squares to the squared magnitude. */
  lemma MagnitudeFacts(lib: MathLib, v: Vec3)
    requires Lawful(lib)
    ensures 0.0 <= Magnitude(lib, v)
    ensures Magnitude(lib, v) * Magnitude(lib, v) == SqrMagnitude(v)
  {
    SqrMagnitudeNonNegative(v);
  }

  lemma MagnitudeZero(lib: MathLib)
    requires Lawful(lib)
    ensures Magnitude(lib, Zero) == 0.0
  {
    SqrtUnique(lib, 0.0, 0.0);
  }

  /** Scaling by a non-negative factor scales the magnitude by that factor. */
  lemma MagnitudeOfScale(lib: MathLib, v: Vec3, k: real)
    requires Lawful(lib)
    requires 0.0 <= k
    ensures Magnitude(lib, Scale(v, k)) == k * Magnitude(lib, v)
  {
    MagnitudeFacts(lib, v);
    var m := Magnitude(lib, v);
    ScaledSquares(v, k);
    ProductSquare(k, m);
    SqrtUnique(lib, SqrMagnitude(Scale(v, k)), k * m);
  }

  lemma ScaledSquares(v: Vec3, k: real)
    ensures SqrMagnitude(Scale(v, k)) == (k * k) * SqrMagnitude(v)
  {
  }

  lemma ProductSquare(k: real, m: real)
    ensures (k * m) * (k * m) == (k * k) * (m * m)
  {
  }

  /** The magnitude of a vector with y set to zero is at most the original's. */
  lemma MagnitudeWithoutY(lib: MathLib, v: Vec3)
    requires Lawful(lib)
    ensures Magnitude(lib, WithY(v, 0.0)) <= Magnitude(lib, v)
  {
    SqrMagnitudeNonNegative(WithY(v, 0.0));
    SquareNonNegative(v.y);
    assert SqrMagnitude(WithY(v, 0.0)) <= SqrMagnitude(v);
    SqrtMonotone(lib, SqrMagnitude(WithY(v, 0.0)), SqrMagnitude(v));
  }

  // ---------------------------------------------------------------------------
  // Normalisation

  lemma NormalizedZero(lib: MathLib)
    requires Lawful(lib)
    ensures Normalized(lib, Zero) == Zero
  {
    MagnitudeZero(lib);
  }

  /** Above kEpsilon, `normalized` has magnitude one and its component along v is |v|. */
  lemma NormalizedUnit(lib: MathLib, v: Vec3)
    requires Lawful(lib)
    requires Magnitude(lib, v) > KEpsilon
    ensures Magnitude(lib, Normalized(lib, v)) == 1.0
    ensures Dot(Normalized(lib, v), v) == Magnitude(lib, v)
  {
    var m := Magnitude(lib, v);
    MagnitudeFacts(lib, v);
    assert Normalized(lib, v) == Scale(v, 1.0 / m);
    MagnitudeOfScale(lib, v, 1.0 / m);
    InverseTimes(m);
    DotOfScale(v, 1.0 / m);
    assert SqrMagnitude(v) == m * m;
    InverseTimesSquare(m);
  }

  lemma InverseTimes(m: real)
    requires 0.0 < m
    ensures (1.0 / m) * m == 1.0
  {
  }

  lemma InverseTimesSquare(m: real)
    requires 0.0 < m
    ensures (1.0 / m) * (m * m) == m
  {
  }

  lemma DotOfScale(v: Vec3, k: real)
    ensures Dot(Scale(v, k), v) == k * SqrMagnitude(v)
  {
  }

  /** Dot(v * k, w) == k * Dot(v, w), with the caller's dot product named d. */
  lemma DotOfScaleLeft(v: Vec3, w: Vec3, k: real, d: real)
    requires d == Dot(v, w)
    ensures Dot(Scale(v, k), w) == k * d
  {
  }

  /** `normalized` never has magnitude above one and never points against v. */
  lemma NormalizedBounded(lib: MathLib, v: Vec3)
    requires Lawful(lib)
    ensures Magnitude(lib, Normalized(lib, v)) <= 1.0
    ensures 0.0 <= Dot(Normalized(lib, v), v)
  {
    MagnitudeFacts(lib, v);
    if Magnitude(lib, v) > KEpsilon {
      NormalizedUnit(lib, v);
    } else {
      MagnitudeZero(lib);
    }
  }

  // ---------------------------------------------------------------------------
  // Clamping

  /** ClampMagnitude never yields more than the maximum's absolute value. For a
      negative maximum it flips the direction, and the bound still holds. */
  lemma ClampMagnitudeBound(lib: MathLib, v: Vec3, maxLength: real)
    requires Lawful(lib)
    ensures Magnitude(lib, ClampMagnitude(lib, v, maxLength)) <= Abs(maxLength)
  {
    ClampedSqrMagnitude(lib, v, maxLength);
    MagnitudeWithinSquare(lib, ClampMagnitude(lib, v, maxLength), maxLength);
  }

  /** The clamped vector's squared magnitude is at most the squared maximum. */
  lemma ClampedSqrMagnitude(lib: MathLib, v: Vec3, maxLength: real)
    requires Lawful(lib)
    ensures SqrMagnitude(ClampMagnitude(lib, v, maxLength)) <= maxLength * maxLength
  {
    var q := maxLength * maxLength;
    if SqrMagnitude(v) > q {
      var n := Normalized(lib, v);
      var c := Scale(n, maxLength);
      assert ClampMagnitude(lib, v, maxLength) == c;
      NormalizedBounded(lib, v);
      UnitSqrMagnitude(lib, n);
      ScaledSquares(n, maxLength);
      assert SqrMagnitude(c) == q * SqrMagnitude(n);
      SquareNonNegative(maxLength);
      ShrunkProduct(q, SqrMagnitude(n));
    }
  }

  /** A squared magnitude at most k * k means a magnitude at most |k|. */
  lemma MagnitudeWithinSquare(lib: MathLib, v: Vec3, k: real)
    requires Lawful(lib)
    requires SqrMagnitude(v) <= k * k
    ensures Magnitude(lib, v) <= Abs(k)
  {
    assert Abs(k) * Abs(k) == k * k;
    SqrtUnique(lib, k * k, Abs(k));
    SqrMagnitudeNonNegative(v);
    SqrtMonotone(lib, SqrMagnitude(v), k * k);
  }

  /** ClampMagnitude leaves a vector already within a non-negative maximum as it is. */
  lemma ClampMagnitudeWithin(lib: MathLib, v: Vec3, maxLength: real)
    requires Lawful(lib)
    requires 0.0 <= maxLength && Magnitude(lib, v) <= maxLength
    ensures ClampMagnitude(lib, v, maxLength) == v
  {
    MagnitudeFacts(lib, v);
    var m := Magnitude(lib, v);
    if m < maxLength {
      SquareStrictMonotone(m, maxLength);
    }
  }

  /** Clamping twice to the same maximum is clamping once. */
  lemma ClampMagnitudeIdempotent(lib: MathLib, v: Vec3, maxLength: real)
    requires Lawful(lib)
    ensures ClampMagnitude(lib, ClampMagnitude(lib, v, maxLength), maxLength) ==
            ClampMagnitude(lib, v, maxLength)
  {
    ClampedSqrMagnitude(lib, v, maxLength);
    if SqrMagnitude(v) <= maxLength * maxLength {
      assert ClampMagnitude(lib, v, maxLength) == v;
    }
  }

  /** A vector of magnitude at most one has squared magnitude at most one. */
  lemma UnitSqrMagnitude(lib: MathLib, n: Vec3)
    requires Lawful(lib) && Magnitude(lib, n) <= 1.0
    ensures SqrMagnitude(n) <= 1.0
  {
    var m := Magnitude(lib, n);
    MagnitudeFacts(lib, n);
    UnitSquare(m);
  }

  lemma UnitSquare(m: real)
    requires 0.0 <= m <= 1.0
    ensures m * m <= 1.0
  {
    ShrunkProduct(m, m);
  }

  /** q s <= q for q >= 0 and s <= 1. */
  lemma ShrunkProduct(q: real, s: real)
    requires 0.0 <= q && s <= 1.0
    ensures q * s <= q
  {
    var r := 1.0 - s;
    assert 0.0 <= q * r;
    assert q * s == q - q * r;
  }

  // ---------------------------------------------------------------------------
  // Interpolation

  /** Because Lerp clamps its parameter, the result lies between the two ends. */
  lemma LerpBetween(a: real, b: real, t: real)
    ensures Min(a, b) <= Lerp(a, b, t) <= Max(a, b)
  {
    var c := Clamp01(t);
    if a <= b {
      FractionBetween(b - a, c);
    } else {
      FractionBetween(a - b, c);
      NegatedProduct(a - b, c);
    }
  }

  lemma NegatedProduct(d: real, c: real)
    ensures (-d) * c == -(d * c)
  {
  }

  /** Lerp is the first end for t <= 0 and the second for t >= 1. */
  lemma LerpEnds(a: real, b: real, t: real)
    ensures t <= 0.0 ==> Lerp(a, b, t) == a
    ensures 1.0 <= t ==> Lerp(a, b, t) == b
  {
  }
}
