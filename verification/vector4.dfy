/**
 * `Vector4`: four float components, modelled as exact reals, with
 * component-wise arithmetic, the dot product and a lexicographic ordering.
 * The truncating conversion to `Vector4i` lives here as well.
 */
module Vector4 {
  import opened Utils
  import opened Enums
  import V4i = Vector4i

  datatype Vector4 = Vector4(x: real, y: real, z: real, w: real)

  const ZERO: Vector4 := Vector4(0.0, 0.0, 0.0, 0.0)
  const ONE: Vector4 := Vector4(1.0, 1.0, 1.0, 1.0)

  // ---------------------------------------------------------------------
  // Component access.  An index above 3 panics in the source; every axis,
  // W included, is valid.
  // ---------------------------------------------------------------------

  function Get(v: Vector4, index: nat): real
    requires index < 4
  {
    if index == 0 then v.x else if index == 1 then v.y else if index == 2 then v.z else v.w
  }

  /** `set`: writes one component and keeps the others. */
  function Set(v: Vector4, index: nat, value: real): (r: Vector4)
    requires index < 4
    ensures Get(r, index) == value
    ensures forall j: nat :: j < 4 && j != index ==> Get(r, j) == Get(v, j)
  {
    if index == 0 then v.(x := value)
    else if index == 1 then v.(y := value)
    else if index == 2 then v.(z := value)
    else v.(w := value)
  }

  function AxisIndex(axis: Axis): (i: nat)
    ensures i < 4
  {
    match axis
    case X => 0
    case Y => 1
    case Z => 2
    case W => 3
  }

  /** `get_axis` reads the same component as `get` with the axis' index. */
  function GetAxis(v: Vector4, axis: Axis): (r: real)
    ensures r == Get(v, AxisIndex(axis))
  {
    match axis
    case X => v.x
    case Y => v.y
    case Z => v.z
    case W => v.w
  }

  function SetAxis(v: Vector4, axis: Axis, value: real): (r: Vector4)
    ensures r == Set(v, AxisIndex(axis), value)
  {
    match axis
    case X => v.(x := value)
    case Y => v.(y := value)
    case Z => v.(z := value)
    case W => v.(w := value)
  }

  /** Writing an axis and reading it back round-trips; the other axes are untouched. */
  lemma SetAxisGetAxis(v: Vector4, a: Axis, b: Axis, value: real)
    ensures GetAxis(SetAxis(v, a, value), b) == if a == b then value else GetAxis(v, b)
    ensures SetAxis(v, a, GetAxis(v, a)) == v
  {
  }

  /**
   * `max_axis_index`: an axis holding the largest component; on a tie the
   * first such axis in X, Y, Z, W order.
   */
  function MaxAxisIndex(v: Vector4): (r: Axis)
    ensures forall j: nat :: j < 4 ==> Get(v, j) <= GetAxis(v, r)
    ensures forall j: nat :: j < AxisIndex(r) ==> Get(v, j) < GetAxis(v, r)
  {
    if v.x < v.y then
      if v.y < v.z then
        if v.z < v.w then W else Z
      else if v.y < v.w then W
      else Y
    else if v.x < v.z then
      if v.z < v.w then W else Z
    else if v.x < v.w then W
    else X
  }

  /**
   * `min_axis_index`: an axis holding the smallest component; on a tie the
   * last such axis in X, Y, Z, W order.
   */
  function MinAxisIndex(v: Vector4): (r: Axis)
    ensures forall j: nat :: j < 4 ==> GetAxis(v, r) <= Get(v, j)
    ensures forall j: nat :: AxisIndex(r) < j < 4 ==> GetAxis(v, r) < Get(v, j)
  {
    if v.x < v.y then
      if v.x < v.z then
        if v.x < v.w then X else W
      else if v.z < v.w then Z
      else W
    else if v.y < v.z then
      if v.y < v.w then Y else W
    else if v.z < v.w then Z
    else W
  }

  /** Axis fixtures on (1.2, 3.4, 5.6, -0.9); equal components give X for the maximum and W for the minimum. */
  lemma AxisExamples()
    ensures MaxAxisIndex(Vector4(1.2, 3.4, 5.6, -0.9)) == Z
    ensures MinAxisIndex(Vector4(1.2, 3.4, 5.6, -0.9)) == W
    ensures GetAxis(SetAxis(Vector4(1.2, 3.4, 5.6, -0.9), Y, 3.7), Y) == 3.7
    ensures MaxAxisIndex(ONE) == X && MinAxisIndex(ONE) == W
  {
  }

  // ---------------------------------------------------------------------
  // Arithmetic operators; the compound assignments compute the same values.
  // ---------------------------------------------------------------------

  function Add(a: Vector4, b: Vector4): Vector4 {
    Vector4(a.x + b.x, a.y + b.y, a.z + b.z, a.w + b.w)
  }

  function Sub(a: Vector4, b: Vector4): Vector4 {
    Vector4(a.x - b.x, a.y - b.y, a.z - b.z, a.w - b.w)
  }

  /** Component-wise product `a * b`. */
  function Mul(a: Vector4, b: Vector4): Vector4 {
    Vector4(a.x * b.x, a.y * b.y, a.z * b.z, a.w * b.w)
  }

  /** `a * s` and `s * a` for a scalar `s` (an integer scalar is converted first). */
  function Scale(a: Vector4, s: real): Vector4 {
    Vector4(a.x * s, a.y * s, a.z * s, a.w * s)
  }

  /** `Neg`: every component negated. */
  function Neg(a: Vector4): (r: Vector4)
    ensures Add(a, r) == ZERO
  {
    Vector4(-a.x, -a.y, -a.z, -a.w)
  }

  /** `a / s`; a zero divisor gives inf or NaN in the source. */
  function DivScalar(a: Vector4, s: real): (r: Vector4)
    requires s != 0.0
    ensures Scale(r, s) == a
  {
    Vector4(a.x / s, a.y / s, a.z / s, a.w / s)
  }

  /** Component-wise `a / b`; a zero component of `b` gives inf or NaN in the source. */
  function Div(a: Vector4, b: Vector4): (r: Vector4)
    requires b.x != 0.0 && b.y != 0.0 && b.z != 0.0 && b.w != 0.0
    ensures Mul(r, b) == a
  {
    Vector4(a.x / b.x, a.y / b.y, a.z / b.z, a.w / b.w)
  }

  /** `inverse`: the component-wise reciprocal; a zero component gives inf in the source. */
  function Inverse(v: Vector4): (r: Vector4)
    requires v.x != 0.0 && v.y != 0.0 && v.z != 0.0 && v.w != 0.0
    ensures Mul(r, v) == ONE
  {
    Vector4(1.0 / v.x, 1.0 / v.y, 1.0 / v.z, 1.0 / v.w)
  }

  /**
   * `k / v` AS WRITTEN: the operator is declared with the commutative macro,
   * which gives `k / v` the body of `v / k`, so the scalar ends up as the divisor.
   */
  function ScalarDivAsWritten(k: real, v: Vector4): (r: Vector4)
    requires k != 0.0
    ensures Scale(r, k) == v
  {
    Vector4(v.x / k, v.y / k, v.z / k, v.w / k)
  }

  /** `k / v` as intended: the scalar divided by each component. */
  function ScalarDiv(k: real, v: Vector4): (r: Vector4)
    requires v.x != 0.0 && v.y != 0.0 && v.z != 0.0 && v.w != 0.0
    ensures Mul(r, v) == Vector4(k, k, k, k)
  {
    Vector4(k / v.x, k / v.y, k / v.z, k / v.w)
  }

  /** The corrected `k / v` is `k` times the component-wise inverse. */
  lemma ScalarDivIsScaledInverse(k: real, v: Vector4)
    requires v.x != 0.0 && v.y != 0.0 && v.z != 0.0 && v.w != 0.0
    ensures ScalarDiv(k, v) == Scale(Inverse(v), k)
  {
  }

  lemma ScalarDivAsWrittenOnOnes()
    ensures ScalarDivAsWritten(2.0, ONE) == Vector4(0.5, 0.5, 0.5, 0.5)
  {
  }

  lemma ScalarDivOnOnes()
    ensures ScalarDiv(2.0, ONE) == Vector4(2.0, 2.0, 2.0, 2.0)
  {
  }

  /** `2 / (1, 1, 1, 1)`: the code gives (0.5, 0.5, 0.5, 0.5) where (2, 2, 2, 2) is meant. */
  lemma ScalarDivAsWrittenCounterexample()
    ensures ScalarDivAsWritten(2.0, ONE) != ScalarDiv(2.0, ONE)
  {
    ScalarDivAsWrittenOnOnes();
    ScalarDivOnOnes();
  }

  lemma AddSubInverse(a: Vector4, b: Vector4)
    ensures Sub(Add(a, b), b) == a
    ensures Neg(Neg(a)) == a
    ensures Add(a, b) == Add(b, a)
    ensures Sub(a, b) == Add(a, Neg(b))
  {
  }

  /** `!v`: true exactly for the zero vector. */
  function Not(v: Vector4): (r: bool)
    ensures r <==> LengthSquared(v) == 0.0
  {
    v.x == 0.0 && v.y == 0.0 && v.z == 0.0 && v.w == 0.0
  }

  /** Fixtures of the operator tests with operands whose results are exact. */
  lemma OperatorExamples()
    ensures Neg(Vector4(2.3, 4.9, 7.8, 3.2)) == Vector4(-2.3, -4.9, -7.8, -3.2)
    ensures Add(Vector4(0.75, 1.5, 0.625, 0.125), Vector4(0.5, 0.125, 0.25, 0.75)) == Vector4(1.25, 1.625, 0.875, 0.875)
    ensures Div(Vector4(4.0, 5.0, 9.0, 2.0), Vector4(1.0, 2.0, 3.0, 1.0)) == Vector4(4.0, 2.5, 3.0, 2.0)
  {
  }

  // ---------------------------------------------------------------------
  // Products and lengths.
  // ---------------------------------------------------------------------

  function Dot(a: Vector4, b: Vector4): real {
    a.x * b.x + a.y * b.y + a.z * b.z + a.w * b.w
  }

  /** `length_squared`: the dot product of the vector with itself. */
  function LengthSquared(v: Vector4): (r: real)
    ensures r >= 0.0
    ensures r == 0.0 <==> v == ZERO
  {
    RealSquareFacts(v.x);
    RealSquareFacts(v.y);
    RealSquareFacts(v.z);
    RealSquareFacts(v.w);
    Dot(v, v)
  }

  /** `distance_squared_to`: the squared length of `to - v`. */
  function DistanceSquaredTo(v: Vector4, to: Vector4): (r: real)
    ensures r == LengthSquared(Sub(to, v)) && r == LengthSquared(Sub(v, to))
    ensures r >= 0.0
    ensures r == 0.0 <==> v == to
  {
    SubZero(to, v);
    LengthSquaredSwap(v, to);
    LengthSquared(Sub(to, v))
  }

  lemma SubZero(a: Vector4, b: Vector4)
    ensures Sub(a, b) == ZERO <==> a == b
  {
  }

  /** The squared length of a difference does not depend on its order. */
  lemma LengthSquaredSwap(a: Vector4, b: Vector4)
    ensures LengthSquared(Sub(a, b)) == LengthSquared(Sub(b, a))
  {
    assert (a.x - b.x) * (a.x - b.x) == (b.x - a.x) * (b.x - a.x);
    assert (a.y - b.y) * (a.y - b.y) == (b.y - a.y) * (b.y - a.y);
    assert (a.z - b.z) * (a.z - b.z) == (b.z - a.z) * (b.z - a.z);
    assert (a.w - b.w) * (a.w - b.w) == (b.w - a.w) * (b.w - a.w);
  }

  /** The dot product is symmetric and bilinear in its first argument. */
  lemma DotFacts(a: Vector4, b: Vector4, c: Vector4, k: real)
    ensures Dot(a, b) == Dot(b, a)
    ensures Dot(Add(a, c), b) == Dot(a, b) + Dot(c, b)
    ensures Dot(Scale(a, k), b) == k * Dot(a, b)
  {
  }

  /** The dot products of the tests: perpendicular axes give 0, a unit axis 1, ten times it 100. */
  lemma DotExamples()
    ensures Dot(Vector4(1.0, 0.0, 0.0, 0.0), Vector4(0.0, 1.0, 0.0, 0.0)) == 0.0
    ensures Dot(Vector4(1.0, 0.0, 0.0, 0.0), Vector4(1.0, 0.0, 0.0, 0.0)) == 1.0
    ensures Dot(Scale(Vector4(1.0, 0.0, 0.0, 0.0), 10.0), Scale(Vector4(1.0, 0.0, 0.0, 0.0), 10.0)) == 100.0
  {
    assert Scale(Vector4(1.0, 0.0, 0.0, 0.0), 10.0) == Vector4(10.0, 0.0, 0.0, 0.0);
  }

  // ---------------------------------------------------------------------
  // Component-wise helpers.
  // ---------------------------------------------------------------------

  function Abs(v: Vector4): (r: Vector4)
    ensures r.x >= 0.0 && (r.x == v.x || r.x == -v.x)
    ensures r.y >= 0.0 && (r.y == v.y || r.y == -v.y)
    ensures r.z >= 0.0 && (r.z == v.z || r.z == -v.z)
    ensures r.w >= 0.0 && (r.w == v.w || r.w == -v.w)
  {
    Vector4(Utils.Abs(v.x), Utils.Abs(v.y), Utils.Abs(v.z), Utils.Abs(v.w))
  }

  /** `clamp`: Rust's float `clamp` panics when a lower bound exceeds its upper bound. */
  function Clamp(v: Vector4, min: Vector4, max: Vector4): (r: Vector4)
    requires min.x <= max.x && min.y <= max.y && min.z <= max.z && min.w <= max.w
    ensures min.x <= r.x <= max.x && min.y <= r.y <= max.y && min.z <= r.z <= max.z && min.w <= r.w <= max.w
    ensures min.x <= v.x <= max.x && min.y <= v.y <= max.y && min.z <= v.z <= max.z && min.w <= v.w <= max.w ==> r == v
  {
    Vector4(ClampReal(v.x, min.x, max.x), ClampReal(v.y, min.y, max.y),
            ClampReal(v.z, min.z, max.z), ClampReal(v.w, min.w, max.w))
  }

  function ClampF(v: Vector4, min: real, max: real): (r: Vector4)
    requires min <= max
    ensures r == Clamp(v, Vector4(min, min, min, min), Vector4(max, max, max, max))
  {
    Vector4(ClampReal(v.x, min, max), ClampReal(v.y, min, max), ClampReal(v.z, min, max), ClampReal(v.w, min, max))
  }

  function Max(a: Vector4, b: Vector4): (r: Vector4)
    ensures r.x >= a.x && r.x >= b.x && (r.x == a.x || r.x == b.x)
    ensures r.y >= a.y && r.y >= b.y && (r.y == a.y || r.y == b.y)
    ensures r.z >= a.z && r.z >= b.z && (r.z == a.z || r.z == b.z)
    ensures r.w >= a.w && r.w >= b.w && (r.w == a.w || r.w == b.w)
  {
    Vector4(MaxReal(a.x, b.x), MaxReal(a.y, b.y), MaxReal(a.z, b.z), MaxReal(a.w, b.w))
  }

  function Min(a: Vector4, b: Vector4): (r: Vector4)
    ensures r.x <= a.x && r.x <= b.x && (r.x == a.x || r.x == b.x)
    ensures r.y <= a.y && r.y <= b.y && (r.y == a.y || r.y == b.y)
    ensures r.z <= a.z && r.z <= b.z && (r.z == a.z || r.z == b.z)
    ensures r.w <= a.w && r.w <= b.w && (r.w == a.w || r.w == b.w)
  {
    Vector4(MinReal(a.x, b.x), MinReal(a.y, b.y), MinReal(a.z, b.z), MinReal(a.w, b.w))
  }

  function MaxF(a: Vector4, with: real): (r: Vector4)
    ensures r == Max(a, Vector4(with, with, with, with))
  {
    Vector4(MaxReal(a.x, with), MaxReal(a.y, with), MaxReal(a.z, with), MaxReal(a.w, with))
  }

  function MinF(a: Vector4, with: real): (r: Vector4)
    ensures r == Min(a, Vector4(with, with, with, with))
  {
    Vector4(MinReal(a.x, with), MinReal(a.y, with), MinReal(a.z, with), MinReal(a.w, with))
  }

  /** `sign`: each component mapped to -1, 0 or 1. */
  function Sign(v: Vector4): (r: Vector4)
    ensures Mul(r, Abs(v)) == v
    ensures -1.0 <= r.x <= 1.0 && -1.0 <= r.y <= 1.0 && -1.0 <= r.z <= 1.0 && -1.0 <= r.w <= 1.0
    ensures (r.x == 0.0 <==> v.x == 0.0) && (r.y == 0.0 <==> v.y == 0.0)
    ensures (r.z == 0.0 <==> v.z == 0.0) && (r.w == 0.0 <==> v.w == 0.0)
  {
    Vector4(Utils.Sign(v.x), Utils.Sign(v.y), Utils.Sign(v.z), Utils.Sign(v.w))
  }

  function Floor(v: Vector4): (r: Vector4)
    ensures r.x <= v.x < r.x + 1.0 && IsIntegral(r.x)
    ensures r.y <= v.y < r.y + 1.0 && IsIntegral(r.y)
    ensures r.z <= v.z < r.z + 1.0 && IsIntegral(r.z)
    ensures r.w <= v.w < r.w + 1.0 && IsIntegral(r.w)
  {
    Vector4(v.x.Floor as real, v.y.Floor as real, v.z.Floor as real, v.w.Floor as real)
  }

  function Ceil(v: Vector4): (r: Vector4)
    ensures r.x - 1.0 < v.x <= r.x && IsIntegral(r.x)
    ensures r.y - 1.0 < v.y <= r.y && IsIntegral(r.y)
    ensures r.z - 1.0 < v.z <= r.z && IsIntegral(r.z)
    ensures r.w - 1.0 < v.w <= r.w && IsIntegral(r.w)
  {
    Vector4(-((-v.x).Floor) as real, -((-v.y).Floor) as real, -((-v.z).Floor) as real, -((-v.w).Floor) as real)
  }

  /** `round`: each component to the nearest whole number, halves away from zero. */
  function Round(v: Vector4): (r: Vector4)
    ensures -0.5 <= v.x - r.x <= 0.5 && IsIntegral(r.x)
    ensures -0.5 <= v.y - r.y <= 0.5 && IsIntegral(r.y)
    ensures -0.5 <= v.z - r.z <= 0.5 && IsIntegral(r.z)
    ensures -0.5 <= v.w - r.w <= 0.5 && IsIntegral(r.w)
    ensures (v.x - r.x == 0.5 ==> v.x < 0.0) && (v.x - r.x == -0.5 ==> v.x > 0.0)
    ensures (v.y - r.y == 0.5 ==> v.y < 0.0) && (v.y - r.y == -0.5 ==> v.y > 0.0)
    ensures (v.z - r.z == 0.5 ==> v.z < 0.0) && (v.z - r.z == -0.5 ==> v.z > 0.0)
    ensures (v.w - r.w == 0.5 ==> v.w < 0.0) && (v.w - r.w == -0.5 ==> v.w > 0.0)
  {
    Vector4(Utils.Round(v.x) as real, Utils.Round(v.y) as real, Utils.Round(v.z) as real, Utils.Round(v.w) as real)
  }

  function Lerp(from: Vector4, to: Vector4, weight: real): (r: Vector4)
    ensures weight == 0.0 ==> r == from
    ensures weight == 1.0 ==> r == to
  {
    Vector4(Utils.Lerp(from.x, to.x, weight), Utils.Lerp(from.y, to.y, weight),
            Utils.Lerp(from.z, to.z, weight), Utils.Lerp(from.w, to.w, weight))
  }

  function CubicInterpolate(from: Vector4, to: Vector4, pre: Vector4, post: Vector4, weight: real): (r: Vector4)
    ensures weight == 0.0 ==> r == from
    ensures weight == 1.0 ==> r == to
  {
    Vector4(Utils.CubicInterpolate(from.x, to.x, pre.x, post.x, weight),
            Utils.CubicInterpolate(from.y, to.y, pre.y, post.y, weight),
            Utils.CubicInterpolate(from.z, to.z, pre.z, post.z, weight),
            Utils.CubicInterpolate(from.w, to.w, pre.w, post.w, weight))
  }

  /** `snapped`: each component to the nearest multiple of its step; a zero step keeps the component. */
  function Snapped(v: Vector4, step: Vector4): (r: Vector4)
    ensures forall j: nat :: j < 4 && Get(step, j) == 0.0 ==> Get(r, j) == Get(v, j)
    ensures forall j: nat :: j < 4 && Get(step, j) != 0.0 ==> IsIntegral(Get(r, j) / Get(step, j))
    ensures forall j: nat :: j < 4 && Get(step, j) > 0.0 ==>
      -Get(step, j) <= 2.0 * (Get(v, j) - Get(r, j)) < Get(step, j)
    ensures forall j: nat :: j < 4 && Get(step, j) < 0.0 ==>
      Get(step, j) < 2.0 * (Get(v, j) - Get(r, j)) <= -Get(step, j)
  {
    Vector4(Utils.Snapped(v.x, step.x), Utils.Snapped(v.y, step.y),
            Utils.Snapped(v.z, step.z), Utils.Snapped(v.w, step.w))
  }

  function SnappedF(v: Vector4, step: real): (r: Vector4)
    ensures r == Snapped(v, Vector4(step, step, step, step))
  {
    Vector4(Utils.Snapped(v.x, step), Utils.Snapped(v.y, step), Utils.Snapped(v.z, step), Utils.Snapped(v.w, step))
  }

  /** `posmod`: each component into the range from zero up to the modulus. */
  function Posmod(v: Vector4, m: real): (r: Vector4)
    requires m != 0.0
    ensures m > 0.0 ==> forall j: nat :: j < 4 ==> 0.0 <= Get(r, j) < m
    ensures forall j: nat :: j < 4 ==> IsIntegral((Get(v, j) - Get(r, j)) / m)
  {
    Vector4(PosmodF(v.x, m), PosmodF(v.y, m), PosmodF(v.z, m), PosmodF(v.w, m))
  }

  /** `posmod_v`: each component into the range from zero up to its own modulus. */
  function PosmodV(v: Vector4, m: Vector4): (r: Vector4)
    requires m.x != 0.0 && m.y != 0.0 && m.z != 0.0 && m.w != 0.0
    ensures forall j: nat :: j < 4 && Get(m, j) > 0.0 ==> 0.0 <= Get(r, j) < Get(m, j)
    ensures forall j: nat :: j < 4 ==> IsIntegral((Get(v, j) - Get(r, j)) / Get(m, j))
  {
    Vector4(PosmodF(v.x, m.x), PosmodF(v.y, m.y), PosmodF(v.z, m.z), PosmodF(v.w, m.w))
  }

  /** Fixtures: lerp, clamp, cubic interpolation and snapped from the source's tests. */
  lemma ComponentExamples()
    ensures Lerp(Vector4(1.0, 2.0, 3.0, 4.0), Vector4(4.0, 5.0, 6.0, 7.0), 0.5) == Vector4(2.5, 3.5, 4.5, 5.5)
    ensures Clamp(Vector4(-5.0, 5.0, 15.0, -15.0), ZERO, Vector4(10.0, 10.0, 10.0, 10.0)) == Vector4(0.0, 5.0, 10.0, 0.0)
    ensures Clamp(Vector4(10.0, 10.0, 10.0, 10.0), Vector4(0.0, 10.0, 15.0, 18.0), Vector4(5.0, 10.0, 20.0, 25.0))
            == Vector4(5.0, 10.0, 15.0, 18.0)
    ensures CubicInterpolate(Vector4(1.0, 2.0, 3.0, 4.0), Vector4(4.0, 5.0, 6.0, 7.0), ZERO, Vector4(7.0, 7.0, 7.0, 7.0), 0.5)
            == Vector4(2.375, 3.5, 4.625, 5.75)
    ensures Snapped(Vector4(1.2, 3.4, 5.6, 1.6), ONE) == Vector4(1.0, 3.0, 6.0, 2.0)
  {
    assert Lerp(Vector4(1.0, 2.0, 3.0, 4.0), Vector4(4.0, 5.0, 6.0, 7.0), 0.5) == Vector4(2.5, 3.5, 4.5, 5.5);
    assert CubicInterpolate(Vector4(1.0, 2.0, 3.0, 4.0), Vector4(4.0, 5.0, 6.0, 7.0), ZERO, Vector4(7.0, 7.0, 7.0, 7.0), 0.5)
           == Vector4(2.375, 3.5, 4.625, 5.75) by {
      CubicInterpolateExample();
      assert Utils.CubicInterpolate(2.0, 5.0, 0.0, 7.0, 0.5) == 3.5;
      assert Utils.CubicInterpolate(3.0, 6.0, 0.0, 7.0, 0.5) == 4.625;
      assert Utils.CubicInterpolate(4.0, 7.0, 0.0, 7.0, 0.5) == 5.75;
    }
    assert Snapped(Vector4(1.2, 3.4, 5.6, 1.6), ONE) == Vector4(1.0, 3.0, 6.0, 2.0) by {
      assert (1.2 / 1.0 + 0.5).Floor == 1;
      assert (3.4 / 1.0 + 0.5).Floor == 3;
      assert (5.6 / 1.0 + 0.5).Floor == 6;
      assert (1.6 / 1.0 + 0.5).Floor == 2;
    }
  }

  // ---------------------------------------------------------------------
  // Approximate comparisons.
  // ---------------------------------------------------------------------

  predicate IsEqualApprox(a: Vector4, b: Vector4) {
    Utils.IsEqualApprox(a.x, b.x) && Utils.IsEqualApprox(a.y, b.y)
    && Utils.IsEqualApprox(a.z, b.z) && Utils.IsEqualApprox(a.w, b.w)
  }

  predicate IsZeroApprox(v: Vector4) {
    Utils.IsZeroApprox(v.x) && Utils.IsZeroApprox(v.y) && Utils.IsZeroApprox(v.z) && Utils.IsZeroApprox(v.w)
  }

  predicate IsNormalized(v: Vector4) {
    IsEqualApproxWithTolerance(LengthSquared(v), 1.0, UNIT_EPSILON)
  }

  // ---------------------------------------------------------------------
  // Ordering (`PartialOrd`): x first, then y, z and w.
  // ---------------------------------------------------------------------

  predicate Lt(a: Vector4, b: Vector4) {
    if a.x < b.x then true
    else if a.x == b.x then
      if a.y < b.y then true
      else if a.y == b.y then
        if a.z < b.z then true else if a.z == b.z then a.w < b.w else false
      else false
    else false
  }

  predicate Gt(a: Vector4, b: Vector4) {
    if a.x > b.x then true
    else if a.x == b.x then
      if a.y > b.y then true
      else if a.y == b.y then
        if a.z > b.z then true else if a.z == b.z then a.w > b.w else false
      else false
    else false
  }

  predicate Le(a: Vector4, b: Vector4) {
    Lt(a, b) || a == b
  }

  predicate Ge(a: Vector4, b: Vector4) {
    Gt(a, b) || a == b
  }

  function PartialCmp(a: Vector4, b: Vector4): (r: Ordering)
    ensures r == Equal <==> a == b
    ensures r == Less <==> Lt(a, b)
    ensures r == Greater <==> Lt(b, a)
  {
    if Lt(a, b) then Less else if Gt(a, b) then Greater else Equal
  }

  /** The ordering is a strict total order (reals carry no NaN here). */
  lemma OrderIsTotal(a: Vector4, b: Vector4, c: Vector4)
    ensures Gt(a, b) <==> Lt(b, a)
    ensures Lt(a, b) || a == b || Lt(b, a)
    ensures !(Lt(a, b) && Lt(b, a)) && !Lt(a, a)
    ensures Le(a, b) <==> !Lt(b, a)
    ensures Ge(a, b) <==> Le(b, a)
    ensures Lt(a, b) && Lt(b, c) ==> Lt(a, c)
  {
  }

  // ---------------------------------------------------------------------
  // Conversion to `Vector4i`.
  // ---------------------------------------------------------------------

  /** `From<Vector4> for Vector4i`: each component truncated toward zero. */
  function ToVector4i(v: Vector4): (r: V4i.Vector4i)
    ensures Utils.Abs(v.x - r.x as real) < 1.0 && Utils.Abs(v.y - r.y as real) < 1.0
    ensures Utils.Abs(v.z - r.z as real) < 1.0 && Utils.Abs(v.w - r.w as real) < 1.0
    ensures AbsInt(r.x) as real <= Utils.Abs(v.x) && AbsInt(r.y) as real <= Utils.Abs(v.y)
    ensures AbsInt(r.z) as real <= Utils.Abs(v.z) && AbsInt(r.w) as real <= Utils.Abs(v.w)
  {
    V4i.Vector4i(Trunc(v.x), Trunc(v.y), Trunc(v.z), Trunc(v.w))
  }

  /** Whole-valued components convert exactly. */
  lemma ToVector4iExact(a: V4i.Vector4i)
    ensures ToVector4i(Vector4(a.x as real, a.y as real, a.z as real, a.w as real)) == a
  {
  }

  /** (1.1, 2.9, 3.9, 100.5) truncates to (1, 2, 3, 100). */
  lemma ToVector4iExamples()
    ensures ToVector4i(Vector4(1.1, 2.9, 3.9, 100.5)) == V4i.Vector4i(1, 2, 3, 100)
  {
  }
}
