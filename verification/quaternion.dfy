/**
 * `Quaternion`: a Hamilton-convention quaternion over exact reals.  The
 * algebra (dot product, conjugate inverse, negation, Hamilton product) is
 * modelled exactly.  For the rotation helpers only the decisions are
 * modelled: the zero-axis case of the axis-angle constructor, the early
 * returns and sign alignment of `slerp` / `slerp_ni`, and the flip rule of
 * `spherical_cubic_interpolate`.  `sin`, `cos`, `acos` and `sqrt` are
 * parameters, since their values are not modelled.
 */
module Quaternion {
  import opened Utils
  import V3 = Vector3

  datatype Quaternion = Quaternion(x: real, y: real, z: real, w: real)

  const IDENTITY: Quaternion := Quaternion(0.0, 0.0, 0.0, 1.0)
  const ZERO: Quaternion := Quaternion(0.0, 0.0, 0.0, 0.0)

  /** `Default` is the identity rotation. */
  const DEFAULT: Quaternion := IDENTITY

  // ---------------------------------------------------------------------
  // Component-wise operations.
  // ---------------------------------------------------------------------

  function Add(a: Quaternion, b: Quaternion): Quaternion {
    Quaternion(a.x + b.x, a.y + b.y, a.z + b.z, a.w + b.w)
  }

  function Sub(a: Quaternion, b: Quaternion): Quaternion {
    Quaternion(a.x - b.x, a.y - b.y, a.z - b.z, a.w - b.w)
  }

  function Scale(q: Quaternion, s: real): Quaternion {
    Quaternion(q.x * s, q.y * s, q.z * s, q.w * s)
  }

  /** `Neg`: every component, the real part included, changes sign. */
  function Neg(q: Quaternion): (r: Quaternion)
    ensures Add(q, r) == ZERO
    ensures r == Scale(q, -1.0)
    ensures Dot(q, r) == -Dot(q, q)
  {
    Quaternion(-q.x, -q.y, -q.z, -q.w)
  }

  function Dot(a: Quaternion, b: Quaternion): real {
    a.x * b.x + a.y * b.y + a.z * b.z + a.w * b.w
  }

  /** `length_squared` is `dot(self)`: non-negative, and zero only for the zero quaternion. */
  function LengthSquared(q: Quaternion): (r: real)
    ensures r >= 0.0
    ensures r == 0.0 <==> q == ZERO
  {
    RealSquareFacts(q.x);
    RealSquareFacts(q.y);
    RealSquareFacts(q.z);
    RealSquareFacts(q.w);
    Dot(q, q)
  }

  /** `inverse`: the conjugate, which keeps `w` and negates the vector part. */
  function Inverse(q: Quaternion): (r: Quaternion)
    ensures Add(q, r) == Quaternion(0.0, 0.0, 0.0, 2.0 * q.w)
    ensures LengthSquared(r) == LengthSquared(q)
  {
    Quaternion(-q.x, -q.y, -q.z, q.w)
  }

  /** Hamilton product `lhs * rhs`. */
  function Mul(a: Quaternion, b: Quaternion): Quaternion {
    Quaternion(
      a.w * b.x + a.x * b.w + a.y * b.z - a.z * b.y,
      a.w * b.y + a.y * b.w + a.z * b.x - a.x * b.z,
      a.w * b.z + a.z * b.w + a.x * b.y - a.y * b.x,
      a.w * b.w - a.x * b.x - a.y * b.y - a.z * b.z)
  }

  predicate IsEqualApprox(a: Quaternion, b: Quaternion) {
    Utils.IsEqualApprox(a.x, b.x) && Utils.IsEqualApprox(a.y, b.y)
    && Utils.IsEqualApprox(a.z, b.z) && Utils.IsEqualApprox(a.w, b.w)
  }

  predicate IsNormalized(q: Quaternion) {
    IsEqualApproxWithTolerance(LengthSquared(q), 1.0, UNIT_EPSILON)
  }

  // ---------------------------------------------------------------------
  // Algebraic laws.
  // ---------------------------------------------------------------------

  /** The dot product is symmetric, and negating one side negates it. */
  lemma DotFacts(a: Quaternion, b: Quaternion)
    ensures Dot(a, b) == Dot(b, a)
    ensures Dot(a, Neg(b)) == -Dot(a, b)
    ensures Dot(Neg(a), b) == -Dot(a, b)
  {
  }

  /** `inverse` and `Neg` are involutions, and they commute. */
  lemma InvolutionFacts(q: Quaternion)
    ensures Inverse(Inverse(q)) == q
    ensures Neg(Neg(q)) == q
    ensures Inverse(Neg(q)) == Neg(Inverse(q))
  {
  }

  /** The identity is neutral on both sides of the Hamilton product. */
  lemma MulIdentity(q: Quaternion)
    ensures Mul(IDENTITY, q) == q
    ensures Mul(q, IDENTITY) == q
    ensures DEFAULT == IDENTITY && LengthSquared(IDENTITY) == 1.0
  {
  }

  /** A quaternion times its conjugate is the real number `|q|^2`, in either order. */
  lemma MulInverse(q: Quaternion)
    ensures Mul(q, Inverse(q)) == Quaternion(0.0, 0.0, 0.0, LengthSquared(q))
    ensures Mul(Inverse(q), q) == Quaternion(0.0, 0.0, 0.0, LengthSquared(q))
  {
  }

  /** Conjugation reverses the order of a product. */
  lemma InverseOfMul(a: Quaternion, b: Quaternion)
    ensures Inverse(Mul(a, b)) == Mul(Inverse(b), Inverse(a))
  {
  }

  /**
   * The Hamilton product is not commutative: on the imaginary units
   * `i * j = k` but `j * i = -k`, scaled by the coefficients.
   */
  lemma MulNotCommutative(a: real, b: real)
    ensures Mul(Quaternion(a, 0.0, 0.0, 0.0), Quaternion(0.0, b, 0.0, 0.0)) == Quaternion(0.0, 0.0, a * b, 0.0)
    ensures Mul(Quaternion(0.0, b, 0.0, 0.0), Quaternion(a, 0.0, 0.0, 0.0)) == Quaternion(0.0, 0.0, -(a * b), 0.0)
  {
  }

  /** The product from Kuipers' book used by the tests: (1,-2,1,3)(-1,2,3,2) = (-9,-2,11,8). */
  lemma MulExample()
    ensures Mul(Quaternion(1.0, -2.0, 1.0, 3.0), Quaternion(-1.0, 2.0, 3.0, 2.0)) == Quaternion(-9.0, -2.0, 11.0, 8.0)
  {
  }

  /**
   * `*=` as written: the fields are overwritten one at a time, x first,
   * and each later field reads the already updated ones. The first field
   * is that of the Hamilton product.
   */
  function MulAssignAsWritten(a: Quaternion, b: Quaternion): (r: Quaternion)
    ensures r.x == Mul(a, b).x
  {
    var x := Mul(a, b).x;
    var y := AssignedY(a, b, x);
    var z := AssignedZ(a, b, x, y);
    Quaternion(x, y, z, AssignedW(a, b, x, y, z))
  }

  /** The y written by `*=` is off from the product's by the change already made to x. */
  lemma MulAssignAsWrittenY(a: Quaternion, b: Quaternion)
    ensures MulAssignAsWritten(a, b).y == Mul(a, b).y - (Mul(a, b).x - a.x) * b.z
  {
    AssignedYOff(a, b, Mul(a, b).x);
  }

  lemma AssignedYOff(a: Quaternion, b: Quaternion, x: real)
    ensures AssignedY(a, b, x) == Mul(a, b).y - (x - a.x) * b.z
  {
    SubTimes(x, a.x, b.z);
  }

  /** The y written by `*=` once x already holds `x`. */
  function AssignedY(a: Quaternion, b: Quaternion, x: real): real {
    a.w * b.y + a.y * b.w + a.z * b.x - x * b.z
  }

  /** The z written by `*=` once x and y already hold `x` and `y`. */
  function AssignedZ(a: Quaternion, b: Quaternion, x: real, y: real): real {
    a.w * b.z + a.z * b.w + x * b.y - y * b.x
  }

  /** The w written by `*=` once x, y and z already hold `x`, `y` and `z`. */
  function AssignedW(a: Quaternion, b: Quaternion, x: real, y: real, z: real): real {
    a.w * b.w - x * b.x - y * b.y - z * b.z
  }

  /** As written, i *= j leaves the zero quaternion, while i * j is k. */
  lemma MulAssignAsWrittenCounterexample(i: Quaternion, j: Quaternion)
    requires i == Quaternion(1.0, 0.0, 0.0, 0.0) && j == Quaternion(0.0, 1.0, 0.0, 0.0)
    ensures Mul(i, j) == Quaternion(0.0, 0.0, 1.0, 0.0)
    ensures MulAssignAsWritten(i, j) == Quaternion(0.0, 0.0, 0.0, 0.0)
    ensures MulAssignAsWritten(i, j) != Mul(i, j)
  {
    assert Mul(i, j).x == 0.0;
    assert AssignedY(i, j, 0.0) == 0.0;
    assert AssignedZ(i, j, 0.0, 0.0) == 0.0;
    assert AssignedW(i, j, 0.0, 0.0, 0.0) == 0.0;
  }

  lemma SubTimes(p: real, q: real, c: real)
    ensures (p - q) * c == p * c - q * c
  {
  }

  // ---------------------------------------------------------------------
  // Axis-angle constructor.
  // ---------------------------------------------------------------------

  /**
   * `From<(&Vector3, angle)>`: a zero-length axis gives the zero
   * quaternion; otherwise the vector part is the axis scaled by
   * `sin(angle / 2) / |axis|` and the real part is `cos(angle / 2)`.
   */
  function FromAxisAngle(axis: V3.Vector3, angle: real,
                         sqrt: real -> real, sin: real -> real, cos: real -> real): (q: Quaternion)
    requires SqrtLike(sqrt)
    ensures axis == V3.ZERO ==> q == ZERO
    ensures axis != V3.ZERO ==> q.w == cos(angle * 0.5)
  {
    var d := sqrt(V3.LengthSquared(axis));
    if d == 0.0 then
      ZERO
    else
      var s := sin(angle * 0.5) / d;
      Quaternion(axis.x * s, axis.y * s, axis.z * s, cos(angle * 0.5))
  }

  /** The vector (imaginary) part `(x, y, z)`. */
  function VectorPart(q: Quaternion): V3.Vector3 {
    V3.Vector3(q.x, q.y, q.z)
  }

  /** The rotation built from an axis has its vector part along that axis. */
  lemma {:induction false} FromAxisAngleAlongAxis(axis: V3.Vector3, angle: real,
                                                  sqrt: real -> real, sin: real -> real, cos: real -> real)
    requires SqrtLike(sqrt)
    ensures V3.Cross(VectorPart(FromAxisAngle(axis, angle, sqrt, sin, cos)), axis) == V3.ZERO
  {
    var d := sqrt(V3.LengthSquared(axis));
    if d != 0.0 {
      var s := sin(angle * 0.5) / d;
      assert VectorPart(FromAxisAngle(axis, angle, sqrt, sin, cos)) == V3.Scale(axis, s);
      V3.CrossFacts(axis, axis, s);
      V3.CrossFacts(V3.Scale(axis, s), axis, 0.0);
    }
  }

  // ---------------------------------------------------------------------
  // Interpolation decisions.
  // ---------------------------------------------------------------------

  /**
   * The target `slerp` actually interpolates towards: `to`, negated when
   * the two quaternions are more than a half-turn apart, so that the
   * shorter arc is taken.
   */
  function Aligned(from: Quaternion, to: Quaternion): (t: Quaternion)
    ensures Dot(from, t) == Abs(Dot(from, to))
    ensures t == to || t == Neg(to)
    ensures t == to <==> Dot(from, to) >= 0.0
  {
    if Dot(from, to) < 0.0 then Neg(to) else to
  }

  /**
   * `sin(t * omega) / sin(omega)`, the weight of one end in a spherical
   * interpolation over the angle `omega`.
   */
  function SineRatio(sin: real -> real, t: real, omega: real): real
    requires sin(omega) != 0.0
  {
    sin(t * omega) / sin(omega)
  }

  /** At the ends of the weight range the sine ratio is 0 and 1. */
  lemma SineRatioEnds(sin: real -> real, omega: real)
    requires sin(0.0) == 0.0 && sin(omega) != 0.0
    ensures SineRatio(sin, 0.0, omega) == 0.0
    ensures SineRatio(sin, 1.0, omega) == 1.0
  {
    assert 0.0 * omega == 0.0;
    assert 1.0 * omega == omega;
  }

  /** `scale0 * from + scale1 * to`, the combination every interpolation ends with. */
  function Combine(from: Quaternion, scale0: real, to: Quaternion, scale1: real): Quaternion {
    Add(Scale(from, scale0), Scale(to, scale1))
  }

  /**
   * `slerp`: after alignment, nearly parallel quaternions
   * (`1 - cosom <= CMP_EPSILON`) are blended linearly with `(1 - weight, weight)`;
   * otherwise the sine-ratio coefficients of the angle `acos(cosom)` are used.
   * Either way weight 0 gives the start and weight 1 the aligned target,
   * which never has a negative dot with the start.
   */
  function Slerp(from: Quaternion, to: Quaternion, weight: real,
                 acos: real -> real, sin: real -> real): (r: Quaternion)
    requires 1.0 - Abs(Dot(from, to)) > CMP_EPSILON ==> sin(acos(Abs(Dot(from, to)))) != 0.0
    ensures sin(0.0) == 0.0 && weight == 0.0 ==> r == from
    ensures sin(0.0) == 0.0 && weight == 1.0 ==> r == Aligned(from, to)
    ensures 1.0 - Abs(Dot(from, to)) <= CMP_EPSILON ==>
              r == Add(from, Scale(Sub(Aligned(from, to), from), weight))
    ensures Dot(from, Aligned(from, to)) >= 0.0
  {
    var cosom := Abs(Dot(from, to));
    var to1 := Aligned(from, to);
    if 1.0 - cosom > CMP_EPSILON then
      var omega := acos(cosom);
      SineCombineEnds(sin, omega, from, to1);
      assert weight == 0.0 ==> 1.0 - weight == 1.0;
      assert weight == 1.0 ==> 1.0 - weight == 0.0;
      Combine(from, SineRatio(sin, 1.0 - weight, omega), to1, SineRatio(sin, weight, omega))
    else
      CombineEnds(from, to1);
      LinearBlend(from, to1, weight);
      Combine(from, 1.0 - weight, to1, weight)
  }

  /** Weights (1, 0) pick the first quaternion and (0, 1) the second. */
  lemma CombineEnds(a: Quaternion, b: Quaternion)
    ensures Combine(a, 1.0, b, 0.0) == a
    ensures Combine(a, 0.0, b, 1.0) == b
  {
  }

  /** With `sin(0) = 0` the sine-ratio weights at 0 and 1 pick the first and the second quaternion. */
  lemma SineCombineEnds(sin: real -> real, omega: real, a: Quaternion, b: Quaternion)
    requires sin(omega) != 0.0
    ensures sin(0.0) == 0.0 ==> Combine(a, SineRatio(sin, 1.0, omega), b, SineRatio(sin, 0.0, omega)) == a
    ensures sin(0.0) == 0.0 ==> Combine(a, SineRatio(sin, 0.0, omega), b, SineRatio(sin, 1.0, omega)) == b
  {
    if sin(0.0) == 0.0 {
      SineRatioEnds(sin, omega);
      CombineEnds(a, b);
    }
  }

  /** The combination with weights `(1 - w, w)` is the linear interpolation `a + w (b - a)`. */
  lemma LinearBlend(a: Quaternion, b: Quaternion, w: real)
    ensures Combine(a, 1.0 - w, b, w) == Add(a, Scale(Sub(b, a), w))
  {
    assert a.x * (1.0 - w) + b.x * w == a.x + (b.x - a.x) * w;
    assert a.y * (1.0 - w) + b.y * w == a.y + (b.y - a.y) * w;
    assert a.z * (1.0 - w) + b.z * w == a.z + (b.z - a.z) * w;
    assert a.w * (1.0 - w) + b.w * w == a.w + (b.w - a.w) * w;
  }

  /**
   * At weight 0 `slerp` returns its start and at weight 1 the aligned
   * target, in both branches, provided `sin(0) = 0` and, in the sine
   * branch, the sine of the angle between them is non-zero.
   */
  lemma SlerpEnds(from: Quaternion, to: Quaternion, acos: real -> real, sin: real -> real)
    requires sin(0.0) == 0.0
    requires 1.0 - Abs(Dot(from, to)) > CMP_EPSILON ==> sin(acos(Abs(Dot(from, to)))) != 0.0
    ensures Slerp(from, to, 0.0, acos, sin) == from
    ensures Slerp(from, to, 1.0, acos, sin) == Aligned(from, to)
  {
  }

  /** `slerp` never interpolates away from `from`: the aligned target has a non-negative dot with it. */
  lemma SlerpTakesShortArc(from: Quaternion, to: Quaternion)
    ensures Dot(from, Aligned(from, to)) >= 0.0
    ensures Dot(from, to) < 0.0 ==> Aligned(from, to) == Neg(to)
  {
  }

  /**
   * `slerp_ni`: no alignment; when `|dot| > 1 - CMP_EPSILON / 10` the start
   * is returned unchanged, otherwise sine-ratio coefficients are used, so
   * that weight 0 gives the start and weight 1 gives `to` itself.
   */
  function SlerpNi(from: Quaternion, to: Quaternion, weight: real,
                   acos: real -> real, sin: real -> real): (r: Quaternion)
    requires Abs(Dot(from, to)) <= 1.0 - CMP_EPSILON / 10.0 ==> sin(acos(Dot(from, to))) != 0.0
    ensures Abs(Dot(from, to)) > 1.0 - CMP_EPSILON / 10.0 ==> r == from
    ensures sin(0.0) == 0.0 && weight == 0.0 ==> r == from
    ensures sin(0.0) == 0.0 && weight == 1.0 && Abs(Dot(from, to)) <= 1.0 - CMP_EPSILON / 10.0 ==> r == to
  {
    var dot := Dot(from, to);
    if Abs(dot) > 1.0 - CMP_EPSILON / 10.0 then
      from
    else
      var theta := acos(dot);
      SineCombineEnds(sin, theta, from, to);
      assert weight == 0.0 ==> 1.0 - weight == 1.0;
      assert weight == 1.0 ==> 1.0 - weight == 0.0;
      Combine(from, SineRatio(sin, 1.0 - weight, theta), to, SineRatio(sin, weight, theta))
  }

  /** For equal unit quaternions `slerp_ni` takes the early return, whatever the weight. */
  lemma SlerpNiOfSelf(q: Quaternion, weight: real, acos: real -> real, sin: real -> real)
    requires LengthSquared(q) == 1.0
    ensures SlerpNi(q, q, weight, acos, sin) == q
    ensures SlerpNi(q, Neg(q), weight, acos, sin) == q
  {
    assert Dot(q, q) == 1.0;
    DotFacts(q, q);
    assert Dot(q, Neg(q)) == -1.0;
    assert Abs(Dot(q, q)) == 1.0 && Abs(Dot(q, Neg(q))) == 1.0;
  }

  /**
   * The sign alignment at the start of `spherical_cubic_interpolate`,
   * applied to the already normalised `from`, `pre`, `to` and `post`.
   * `pre` flips iff its dot with `from` is negative, `to` likewise; `post`
   * is compared with the possibly flipped `to`, and when `to` was flipped a
   * zero dot also flips it.  The result is `(pre, to, post)` after flipping.
   */
  function FlipPhases(from: Quaternion, pre: Quaternion, to: Quaternion, post: Quaternion)
    : (r: (Quaternion, Quaternion, Quaternion))
    ensures r.0 == (if Dot(from, pre) < 0.0 then Neg(pre) else pre)
    ensures r.1 == (if Dot(from, to) < 0.0 then Neg(to) else to)
    ensures Dot(from, to) < 0.0 ==> (r.2 == Neg(post) <==> Dot(r.1, post) <= 0.0) || post == ZERO
    ensures Dot(from, to) >= 0.0 ==> (r.2 == Neg(post) <==> Dot(r.1, post) < 0.0) || post == ZERO
    ensures Dot(from, r.0) >= 0.0 && Dot(from, r.1) >= 0.0 && Dot(r.1, r.2) >= 0.0
  {
    var flip1 := Dot(from, pre) < 0.0;
    var preQ := if flip1 then Neg(pre) else pre;
    var flip2 := Dot(from, to) < 0.0;
    var toQ := if flip2 then Neg(to) else to;
    var flip3 := if flip2 then Dot(toQ, post) <= 0.0 else Dot(toQ, post) < 0.0;
    var postQ := if flip3 then Neg(post) else post;
    DotFacts(from, pre);
    DotFacts(from, to);
    DotFacts(toQ, post);
    NegFixesOnlyZero(post);
    (preQ, toQ, postQ)
  }

  /** Only the zero quaternion is its own negation. */
  lemma NegFixesOnlyZero(q: Quaternion)
    ensures Neg(q) == q <==> q == ZERO
  {
  }

  /** When `to` was flipped and is perpendicular to `post`, `post` is flipped too; otherwise it is kept. */
  lemma FlipPhasesZeroDot(from: Quaternion, pre: Quaternion, to: Quaternion, post: Quaternion)
    requires post != ZERO
    requires Dot(to, post) == 0.0
    ensures Dot(from, to) < 0.0 ==> FlipPhases(from, pre, to, post).2 == Neg(post)
    ensures Dot(from, to) >= 0.0 ==> FlipPhases(from, pre, to, post).2 == post
  {
    DotFacts(to, post);
    DotFacts(Neg(to), post);
  }
}
