/** Three-component vectors over the reals, standing in for the engine's single-precision
    FVector. Rounding is not modelled; the engine's tolerances are explicit parameters. */
module Vectors {

  datatype Vec3 = Vec3(x: real, y: real, z: real)

  function Zero(): Vec3 { Vec3(0.0, 0.0, 0.0) }

  /** The world up vector (0, 0, 1). */
  function Up(): Vec3 { Vec3(0.0, 0.0, 1.0) }

  function Add(a: Vec3, b: Vec3): Vec3 { Vec3(a.x + b.x, a.y + b.y, a.z + b.z) }

  function Sub(a: Vec3, b: Vec3): Vec3 { Vec3(a.x - b.x, a.y - b.y, a.z - b.z) }

  function Neg(a: Vec3): Vec3 { Vec3(-a.x, -a.y, -a.z) }

  function Scale(v: Vec3, k: real): Vec3 { Vec3(v.x * k, v.y * k, v.z * k) }

  function Dot(a: Vec3, b: Vec3): real { a.x * b.x + a.y * b.y + a.z * b.z }

  function SizeSquared(v: Vec3): real { Dot(v, v) }

  /** The horizontal part of a vector: its Z component zeroed. */
  function Horizontal(v: Vec3): Vec3 { Vec3(v.x, v.y, 0.0) }

  function Abs(r: real): real { if r < 0.0 then -r else r }

  function Max(a: real, b: real): real { if a < b then b else a }

  /** Every component is within `tolerance` of zero (the engine's IsNearlyZero). */
  predicate IsNearlyZero(v: Vec3, tolerance: real)
  {
    Abs(v.x) <= tolerance && Abs(v.y) <= tolerance && Abs(v.z) <= tolerance
  }

  /** `sqrt` is a square root on the non-negative reals. The engine's square root enters the
      model as a parameter satisfying this predicate. */
  ghost predicate IsSqrt(sqrt: real -> real)
  {
    forall x :: 0.0 <= x ==> 0.0 <= sqrt(x) && sqrt(x) * sqrt(x) == x
  }

  /** The Euclidean length of `v`. */
  function Length(v: Vec3, sqrt: real -> real): (r: real)
    requires IsSqrt(sqrt)
    ensures 0.0 <= r && r * r == SizeSquared(v)
  {
    assert 0.0 <= SizeSquared(v) by { SizeSquaredNonNegative(v); }
    sqrt(SizeSquared(v))
  }

  /** The engine's GetSafeNormal: the unit vector along `v`, the vector itself when its squared
      length is exactly 1, and the zero vector when its squared length is below `tolerance`. */
  function SafeNormal(v: Vec3, tolerance: real, sqrt: real -> real): (r: Vec3)
    requires IsSqrt(sqrt) && 0.0 < tolerance
    ensures r == Zero() || SizeSquared(r) == 1.0
    ensures SizeSquared(v) < tolerance && SizeSquared(v) != 1.0 ==> r == Zero()
    ensures tolerance <= SizeSquared(v) || SizeSquared(v) == 1.0 ==>
              SizeSquared(r) == 1.0 && r == Scale(v, 1.0 / Length(v, sqrt))
  {
    var sq := SizeSquared(v);
    if sq == 1.0 then
      assert Length(v, sqrt) == 1.0 by { SqrtUnique(Length(v, sqrt), 1.0); }
      v
    else if sq < tolerance then
      Zero()
    else
      var len := Length(v, sqrt);
      var r := Scale(v, 1.0 / len);
      assert SizeSquared(r) == 1.0 by { UnitScale(v, len); }
      r
  }

  /** The engine's GetClampedToMaxSize: the zero vector when `maxSize` is below `tolerance`,
      otherwise `v` shortened to length `maxSize` when it is longer, and `v` itself when not. */
  function ClampedToMaxSize(v: Vec3, maxSize: real, tolerance: real, sqrt: real -> real): (r: Vec3)
    requires IsSqrt(sqrt) && 0.0 < tolerance
    ensures maxSize < tolerance ==> r == Zero()
    ensures tolerance <= maxSize ==> SizeSquared(r) <= maxSize * maxSize
    ensures tolerance <= maxSize && SizeSquared(v) <= maxSize * maxSize ==> r == v
    ensures tolerance <= maxSize && SizeSquared(v) > maxSize * maxSize ==>
              SizeSquared(r) == maxSize * maxSize && r == Scale(v, maxSize / Length(v, sqrt))
  {
    if maxSize < tolerance then
      Zero()
    else
      var sq := SizeSquared(v);
      if sq > maxSize * maxSize then
        var len := Length(v, sqrt);
        var r := Scale(v, maxSize / len);
        assert SizeSquared(r) == maxSize * maxSize by {
          assert len > 0.0;
          SizeSquaredScale(v, maxSize / len);
          assert (maxSize / len) * (maxSize / len) * (len * len) == maxSize * maxSize;
        }
        r
      else
        v
  }

  /** The engine's VectorPlaneProject: `v` minus its component along `n`. When `n` has unit
      length the result lies in the plane through the origin with normal `n`. */
  function PlaneProject(v: Vec3, n: Vec3): (r: Vec3)
    ensures SizeSquared(n) == 1.0 ==> Dot(r, n) == 0.0
  {
    Sub(v, Scale(n, Dot(v, n)))
  }

  lemma SizeSquaredNonNegative(v: Vec3)
    ensures 0.0 <= SizeSquared(v)
  {
    assert 0.0 <= v.x * v.x && 0.0 <= v.y * v.y && 0.0 <= v.z * v.z;
  }

  /** Scaling a vector by `k` scales its squared length by `k * k`. */
  lemma SizeSquaredScale(v: Vec3, k: real)
    ensures SizeSquared(Scale(v, k)) == k * k * SizeSquared(v)
  {
    assert (v.x * k) * (v.x * k) == k * k * (v.x * v.x);
    assert (v.y * k) * (v.y * k) == k * k * (v.y * v.y);
    assert (v.z * k) * (v.z * k) == k * k * (v.z * v.z);
  }

  /** Two non-negative reals with equal squares are equal: square roots are unique. */
  lemma SqrtUnique(a: real, b: real)
    requires 0.0 <= a && 0.0 <= b && a * a == b * b
    ensures a == b
  {
    assert (a - b) * (a + b) == 0.0;
    if a + b == 0.0 {
    } else {
      assert a - b == 0.0;
    }
  }

  /** Dividing a vector by its (positive) length gives a unit vector. */
  lemma UnitScale(v: Vec3, len: real)
    requires 0.0 < len && len * len == SizeSquared(v)
    ensures SizeSquared(Scale(v, 1.0 / len)) == 1.0
  {
    SizeSquaredScale(v, 1.0 / len);
    assert (1.0 / len) * (1.0 / len) * (len * len) == 1.0;
  }

  /** The length of `v` scaled by a non-negative factor is that factor times its length. */
  lemma LengthScale(v: Vec3, k: real, sqrt: real -> real)
    requires IsSqrt(sqrt) && 0.0 <= k
    ensures Length(Scale(v, k), sqrt) == k * Length(v, sqrt)
  {
    var l := Length(v, sqrt);
    SizeSquaredScale(v, k);
    assert (k * l) * (k * l) == k * k * (l * l);
    SqrtUnique(Length(Scale(v, k), sqrt), k * l);
  }

  /** A vector that is not nearly zero has squared length above the square of the tolerance. */
  lemma NotNearlyZeroSize(v: Vec3, tolerance: real)
    requires 0.0 <= tolerance && !IsNearlyZero(v, tolerance)
    ensures tolerance * tolerance < SizeSquared(v)
  {
    assert 0.0 <= v.x * v.x && 0.0 <= v.y * v.y && 0.0 <= v.z * v.z;
    if Abs(v.x) > tolerance {
      SquareAbove(v.x, tolerance);
    } else if Abs(v.y) > tolerance {
      SquareAbove(v.y, tolerance);
    } else {
      SquareAbove(v.z, tolerance);
    }
  }

  lemma SquareAbove(a: real, t: real)
    requires 0.0 <= t < Abs(a)
    ensures t * t < a * a
  {
    var b := Abs(a);
    assert b * b == a * a;
    assert b * b - t * t == (b - t) * (b + t);
    var u, w := b - t, b + t;
    assert 0.0 < u && 0.0 < w;
    assert 0.0 < u * w;
    assert u * w == b * b - t * t;
    assert t * t < b * b;
  }

  /** Projecting onto the plane of a unit normal is idempotent, and never lengthens the vector:
      the squared length splits into the in-plane part and the part along the normal. */
  lemma {:induction false} PlaneProjectUnit(v: Vec3, n: Vec3)
    requires SizeSquared(n) == 1.0
    ensures PlaneProject(PlaneProject(v, n), n) == PlaneProject(v, n)
    ensures SizeSquared(v) == SizeSquared(PlaneProject(v, n)) + Dot(v, n) * Dot(v, n)
    ensures SizeSquared(PlaneProject(v, n)) <= SizeSquared(v)
  {
    var p := PlaneProject(v, n);
    var d := Dot(v, n);
    assert Dot(p, n) == 0.0;
    assert Scale(n, Dot(p, n)) == Zero();
    assert v == Add(p, Scale(n, d));
    assert SizeSquared(Add(p, Scale(n, d))) == SizeSquared(p) + 2.0 * d * Dot(p, n) + d * d * SizeSquared(n) by {
      SizeSquaredScale(n, d);
    }
  }
}
