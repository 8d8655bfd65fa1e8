/** Value types of the engine and the engine services the helpers call.

    Floating-point numbers are modelled as `real`. The engine's transcendental
    functions, its spline component and its vector clamp are collaborators
    whose code is not part of this model: they appear as fields of the
    records `Maths` and `Spline`, constrained only by what the helpers rely on.
 */
module Engine {

  /** FVector */
  datatype Vec3 = Vec3(x: real, y: real, z: real)

  /** FRotator, in the engine's (pitch, yaw, roll) order */
  datatype Rotator = Rotator(pitch: real, yaw: real, roll: real)

  /** FTransform: orientation, location and scale */
  datatype Transform = Transform(rotation: Rotator, location: Vec3, scale: Vec3)

  /** EAxis::Type */
  datatype Axis = None | X | Y | Z

  /** FMath::Abs */
  function Abs(x: real): (r: real)
    ensures 0.0 <= r && (r == x || r == -x)
  {
    if x < 0.0 then -x else x
  }

  /** FMath::Max */
  function Max(a: real, b: real): (r: real)
    ensures a <= r && b <= r && (r == a || r == b)
  {
    if a >= b then a else b
  }

  /** FMath::Min */
  function Min(a: real, b: real): (r: real)
    ensures r <= a && r <= b && (r == a || r == b)
  {
    if a <= b then a else b
  }

  /** FMath::Lerp: A + Alpha * (B - A) */
  function Lerp(a: real, b: real, alpha: real): real
  {
    a + alpha * (b - a)
  }

  /** FMath::CeilToInt, without the 32-bit range */
  function Ceil(x: real): (r: int)
    ensures (r - 1) as real < x <= r as real
  {
    -((-x).Floor)
  }

  /** FMath::TruncToInt: rounds toward zero, without the 32-bit range */
  function Trunc(x: real): (r: int)
    ensures 0.0 <= x ==> 0 <= r && r as real <= x < (r + 1) as real
    ensures x < 0.0 ==> r <= 0 && (r - 1) as real < x <= r as real
  {
    if 0.0 <= x then x.Floor else -((-x).Floor)
  }

  function Sub(a: Vec3, b: Vec3): Vec3
  {
    Vec3(a.x - b.x, a.y - b.y, a.z - b.z)
  }

  /** FMath::Square */
  function Square(x: real): (r: real)
    ensures 0.0 <= r
    ensures x != 0.0 <==> 0.0 < r
  {
    SquareStrictlyMonotone(0.0, Abs(x));
    assert Abs(x) * Abs(x) == x * x;
    x * x
  }

  /** FVector::SizeSquared */
  function SizeSquared(v: Vec3): real
  {
    Square(v.x) + Square(v.y) + Square(v.z)
  }

  /** FVector::PointsAreNear: every component differs by less than `dist` */
  predicate PointsAreNear(a: Vec3, b: Vec3, dist: real)
  {
    Abs(a.x - b.x) < dist && Abs(a.y - b.y) < dist && Abs(a.z - b.z) < dist
  }

  /** The scalar and vector services of the engine's math library. */
  datatype Maths = Maths(
    sqrt: real -> real,
    sinh: real -> real,
    cosh: real -> real,
    loge: real -> real,
    isInf: real -> bool,
    clampToSize: (Vec3, real) -> Vec3, // FVector::GetClampedToSize(0, max)
    nonFinite: real // what a float division by zero yields, left abstract
  )
  {
    /** What the helpers rely on: `sqrt` is the non-negative square root on
        the non-negative reals, and clamping to a non-negative size gives a
        vector no longer than that size. */
    ghost predicate Valid()
    {
      && (forall x :: 0.0 <= x ==> 0.0 <= Sqrt(x) && Square(Sqrt(x)) == x)
      && (forall v, hi :: 0.0 <= hi ==> Size(ClampedToSize(v, hi)) <= hi)
    }

    function Sqrt(x: real): real { sqrt(x) }
    function Sinh(x: real): real { sinh(x) }
    function Cosh(x: real): real { cosh(x) }
    function Loge(x: real): real { loge(x) }
    predicate IsInf(x: real) { isInf(x) }
    function ClampedToSize(v: Vec3, max: real): Vec3 { clampToSize(v, max) }

    /** FVector::Size */
    function Size(v: Vec3): real
    {
      Sqrt(SizeSquared(v))
    }

    /** FVector::Dist */
    function Dist(a: Vec3, b: Vec3): real
    {
      Size(Sub(b, a))
    }

    /** A float division: the real quotient unless the divisor is zero. */
    function Div(x: real, y: real): real
    {
      if y == 0.0 then nonFinite else x / y
    }
  }

  /** USplineComponent, read only, in local coordinates: GetSplineLength,
      GetTransformAtDistanceAlongSpline, GetLocationAtDistanceAlongSpline,
      GetTangentAtDistanceAlongSpline and GetDistanceAlongSplineAtSplinePoint. */
  datatype Spline = Spline(
    length: real,
    transformAt: real -> Transform,
    locationAt: real -> Vec3,
    tangentAt: real -> Vec3,
    distanceAtPoint: int -> real
  )
  {
    function GetSplineLength(): real { length }
    function GetTransformAtDistance(distance: real): Transform { transformAt(distance) }
    function GetLocationAtDistance(distance: real): Vec3 { locationAt(distance) }
    function GetTangentAtDistance(distance: real): Vec3 { tangentAt(distance) }
    function GetDistanceAtSplinePoint(point: int): real { distanceAtPoint(point) }
  }

  /** FVector::Size is never negative, and is zero exactly for the zero
      vector. */
  lemma SizeSign(m: Maths, v: Vec3)
    requires m.Valid()
    ensures 0.0 <= m.Size(v)
    ensures m.Size(v) == 0.0 <==> v.x == 0.0 && v.y == 0.0 && v.z == 0.0
  {
    SizeSquaredSign(v);
    SqrtSign(m, SizeSquared(v));
  }

  lemma SizeSquaredSign(v: Vec3)
    ensures 0.0 <= SizeSquared(v)
    ensures SizeSquared(v) == 0.0 <==> v.x == 0.0 && v.y == 0.0 && v.z == 0.0
  {
  }

  lemma SqrtSign(m: Maths, x: real)
    requires m.Valid() && 0.0 <= x
    ensures 0.0 <= m.Sqrt(x)
    ensures m.Sqrt(x) == 0.0 <==> x == 0.0
  {
    assert Square(m.Sqrt(x)) == x;
  }

  lemma SqrtOfPositive(m: Maths, x: real)
    requires m.Valid() && 0.0 < x
    ensures 0.0 < m.Sqrt(x)
  {
    assert Square(m.Sqrt(x)) == x;
  }

  /** A non-negative root of something at least y * y is at least |y|. */
  lemma SqrtBelow(m: Maths, x: real, y: real)
    requires m.Valid() && Square(y) <= x
    ensures Abs(y) <= m.Sqrt(x)
  {
    var s, b := m.Sqrt(x), Abs(y);
    assert 0.0 <= s && Square(s) == x;
    assert Square(b) == Square(y);
    SquareIsMonotone(s, b);
  }

  lemma QuotientTimesDivisor(x: real, p: real)
    requires p != 0.0
    ensures (x / p) * p == x
  {
  }

  lemma ProductSigns(x: real, y: real)
    ensures 0.0 <= x && 0.0 <= y ==> 0.0 <= x * y
    ensures 0.0 <= x && y <= 0.0 ==> x * y <= 0.0
  {
    ScaleWeakly(0.0, x, y);
    ScaleWeakly(0.0, x, -y);
    assert x * -y == -(x * y);
  }

  lemma ScaleStrictly(a: real, b: real, c: real)
    ensures a < b && 0.0 < c ==> a * c < b * c
  {
    assert b * c - a * c == (b - a) * c;
  }

  lemma ScaleWeakly(a: real, b: real, c: real)
    ensures a <= b && 0.0 < c ==> a * c <= b * c
  {
    assert b * c - a * c == (b - a) * c;
  }

  lemma SquareOfNegation(x: real)
    ensures Square(-x) == Square(x)
  {
    assert (-x) * (-x) == x * x;
  }

  /** A non-negative root of something above y * y, for y >= 0, exceeds y. */
  lemma SqrtAbove(m: Maths, x: real, y: real)
    requires m.Valid() && 0.0 <= y && Square(y) < x
    ensures y < m.Sqrt(x)
  {
    var s := m.Sqrt(x);
    assert 0.0 <= s && Square(s) == x;
    SquareIsMonotone(s, y);
  }

  lemma SquareIsMonotone(a: real, b: real)
    ensures 0.0 <= a < b ==> Square(a) < Square(b)
  {
    SquareStrictlyMonotone(a, b);
  }

  lemma SquareStrictlyMonotone(a: real, b: real)
    ensures 0.0 <= a < b ==> a * a < b * b
  {
    if 0.0 <= a < b {
      var d := b - a;
      assert 0.0 < d;
      assert b * b == a * a + d * (a + b);
      assert 0.0 < d * (a + b);
    }
  }
}
