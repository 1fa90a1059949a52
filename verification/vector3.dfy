/**
 * `Vector3`: three float components, modelled as exact reals.  Besides the
 * component-wise arithmetic it has the dot and cross products and the
 * reflect / bounce / project / slide family.  The conversions to and from
 * `Vector3i` live here as well; the outer product, which yields a `Basis`,
 * lives with `Basis`.
 */
module Vector3 {
  import opened Utils
  import opened Enums
  import V3i = Vector3i

  datatype Vector3 = Vector3(x: real, y: real, z: real)

  const ZERO: Vector3 := Vector3(0.0, 0.0, 0.0)
  const ONE: Vector3 := Vector3(1.0, 1.0, 1.0)
  const LEFT: Vector3 := Vector3(-1.0, 0.0, 0.0)
  const RIGHT: Vector3 := Vector3(1.0, 0.0, 0.0)
  const UP: Vector3 := Vector3(0.0, 1.0, 0.0)
  const DOWN: Vector3 := Vector3(0.0, -1.0, 0.0)
  const FORWARD: Vector3 := Vector3(0.0, 0.0, -1.0)
  const BACK: Vector3 := Vector3(0.0, 0.0, 1.0)

  // ---------------------------------------------------------------------
  // Component access.  An index above 2, or the axis W, panics in the source.
  // ---------------------------------------------------------------------

  function Get(v: Vector3, index: nat): real
    requires index < 3
  {
    if index == 0 then v.x else if index == 1 then v.y else v.z
  }

  /** `set`: writes one component and keeps the others. */
  function Set(v: Vector3, index: nat, value: real): (r: Vector3)
    requires index < 3
    ensures Get(r, index) == value
    ensures forall j: nat :: j < 3 && j != index ==> Get(r, j) == Get(v, j)
  {
    if index == 0 then v.(x := value) else if index == 1 then v.(y := value) else v.(z := value)
  }

  predicate IsAxis(axis: Axis) {
    axis != W
  }

  function AxisIndex(axis: Axis): (i: nat)
    requires IsAxis(axis)
    ensures i < 3
  {
    match axis
    case X => 0
    case Y => 1
    case Z => 2
  }

  /** `get_axis` reads the same component as `get` with the axis' index. */
  function GetAxis(v: Vector3, axis: Axis): (r: real)
    requires IsAxis(axis)
    ensures r == Get(v, AxisIndex(axis))
  {
    match axis
    case X => v.x
    case Y => v.y
    case Z => v.z
  }

  function SetAxis(v: Vector3, axis: Axis, value: real): (r: Vector3)
    requires IsAxis(axis)
    ensures r == Set(v, AxisIndex(axis), value)
  {
    match axis
    case X => v.(x := value)
    case Y => v.(y := value)
    case Z => v.(z := value)
  }

  /** Writing an axis and reading it back round-trips; the other axes are untouched. */
  lemma SetAxisGetAxis(v: Vector3, a: Axis, b: Axis, value: real)
    requires IsAxis(a) && IsAxis(b)
    ensures GetAxis(SetAxis(v, a, value), b) == if a == b then value else GetAxis(v, b)
    ensures SetAxis(v, a, GetAxis(v, a)) == v
  {
  }

  /**
   * `max_axis_index`: an axis holding the largest component; on a tie the
   * first such axis in X, Y, Z order.
   */
  function MaxAxisIndex(v: Vector3): (r: Axis)
    ensures IsAxis(r)
    ensures forall j: nat :: j < 3 ==> Get(v, j) <= GetAxis(v, r)
    ensures forall j: nat :: j < AxisIndex(r) ==> Get(v, j) < GetAxis(v, r)
  {
    if v.x < v.y then
      if v.y < v.z then Z else Y
    else if v.x < v.z then Z
    else X
  }

  /**
   * `min_axis_index`: an axis holding the smallest component; on a tie the
   * last such axis in X, Y, Z order.
   */
  function MinAxisIndex(v: Vector3): (r: Axis)
    ensures IsAxis(r)
    ensures forall j: nat :: j < 3 ==> GetAxis(v, r) <= Get(v, j)
    ensures forall j: nat :: AxisIndex(r) < j < 3 ==> GetAxis(v, r) < Get(v, j)
  {
    if v.x < v.y then
      if v.x < v.z then X else Z
    else if v.y < v.z then Y
    else Z
  }

  /** Axis fixtures on (1.2, 3.4, 5.6); equal components give X for the maximum and Z for the minimum. */
  lemma AxisExamples()
    ensures MaxAxisIndex(Vector3(1.2, 3.4, 5.6)) == Z
    ensures MinAxisIndex(Vector3(1.2, 3.4, 5.6)) == X
    ensures GetAxis(SetAxis(Vector3(1.2, 3.4, 5.6), Y, 3.7), Y) == 3.7
    ensures MaxAxisIndex(ONE) == X && MinAxisIndex(ONE) == Z
  {
  }

  // ---------------------------------------------------------------------
  // Arithmetic operators; the compound assignments compute the same values.
  // ---------------------------------------------------------------------

  function Add(a: Vector3, b: Vector3): Vector3 {
    Vector3(a.x + b.x, a.y + b.y, a.z + b.z)
  }

  function Sub(a: Vector3, b: Vector3): Vector3 {
    Vector3(a.x - b.x, a.y - b.y, a.z - b.z)
  }

  /** Component-wise product `a * b`. */
  function Mul(a: Vector3, b: Vector3): Vector3 {
    Vector3(a.x * b.x, a.y * b.y, a.z * b.z)
  }

  /** `a * s` and `s * a` for a scalar `s` (an integer scalar is converted first). */
  function Scale(a: Vector3, s: real): Vector3 {
    Vector3(a.x * s, a.y * s, a.z * s)
  }

  function Neg(a: Vector3): Vector3 {
    Vector3(-a.x, -a.y, -a.z)
  }

  /** `a / s`; a zero divisor gives inf or NaN in the source. */
  function DivScalar(a: Vector3, s: real): (r: Vector3)
    requires s != 0.0
    ensures Scale(r, s) == a
  {
    Vector3(a.x / s, a.y / s, a.z / s)
  }

  /** Component-wise `a / b`; a zero component of `b` gives inf or NaN in the source. */
  function Div(a: Vector3, b: Vector3): (r: Vector3)
    requires b.x != 0.0 && b.y != 0.0 && b.z != 0.0
    ensures Mul(r, b) == a
  {
    Vector3(a.x / b.x, a.y / b.y, a.z / b.z)
  }

  /** `a += s` and `a -= s` with a scalar shift every component. */
  function AddScalar(a: Vector3, s: real): Vector3 {
    Vector3(a.x + s, a.y + s, a.z + s)
  }

  lemma AddSubInverse(a: Vector3, b: Vector3)
    ensures Sub(Add(a, b), b) == a
    ensures Add(a, Neg(a)) == ZERO
    ensures Neg(Neg(a)) == a
    ensures Add(a, b) == Add(b, a)
    ensures Sub(AddScalar(a, 1.0), ONE) == a
  {
  }

  /** `inverse`: the component-wise reciprocal; a zero component gives inf in the source. */
  function Inverse(v: Vector3): (r: Vector3)
    requires v.x != 0.0 && v.y != 0.0 && v.z != 0.0
    ensures Mul(r, v) == ONE
    ensures r == Div(ONE, v)
  {
    Vector3(1.0 / v.x, 1.0 / v.y, 1.0 / v.z)
  }

  /** `!v`: true exactly for the zero vector. */
  function Not(v: Vector3): (r: bool)
    ensures r <==> LengthSquared(v) == 0.0
  {
    v.x == 0.0 && v.y == 0.0 && v.z == 0.0
  }

  /** Fixtures of the operator tests with operands whose results are exact. */
  lemma OperatorExamples()
    ensures Add(Vector3(0.75, 1.5, 0.625), Vector3(0.5, 0.125, 0.25)) == Vector3(1.25, 1.625, 0.875)
    ensures Sub(Vector3(0.75, 1.5, 0.625), Vector3(0.5, 0.125, 0.25)) == Vector3(0.25, 1.375, 0.375)
    ensures Mul(Vector3(0.75, 1.5, 0.625), Vector3(0.5, 0.125, 0.25)) == Vector3(0.375, 0.1875, 0.15625)
    ensures Div(Vector3(0.75, 1.5, 0.625), Vector3(0.5, 0.125, 0.25)) == Vector3(1.5, 12.0, 2.5)
    ensures Div(Vector3(4.0, 5.0, 9.0), Vector3(1.0, 2.0, 3.0)) == Vector3(4.0, 2.5, 3.0)
    ensures DivScalar(Vector3(4.0, 5.0, 9.0), 2.0) == Vector3(2.0, 2.5, 4.5)
  {
  }

  // ---------------------------------------------------------------------
  // Products.
  // ---------------------------------------------------------------------

  function Dot(a: Vector3, b: Vector3): real {
    a.x * b.x + a.y * b.y + a.z * b.z
  }

  /** `cross`: the right-handed vector product. */
  function Cross(a: Vector3, b: Vector3): Vector3 {
    Vector3(a.y * b.z - a.z * b.y, a.z * b.x - a.x * b.z, a.x * b.y - a.y * b.x)
  }

  function LengthSquared(v: Vector3): (r: real)
    ensures r >= 0.0
    ensures r == 0.0 <==> v == ZERO
  {
    RealSquareFacts(v.x);
    RealSquareFacts(v.y);
    RealSquareFacts(v.z);
    v.x * v.x + v.y * v.y + v.z * v.z
  }

  /** `distance_squared_to`: the squared length of `to - v`. */
  function DistanceSquaredTo(v: Vector3, to: Vector3): (r: real)
    ensures r == LengthSquared(Sub(v, to))
    ensures r >= 0.0
    ensures r == 0.0 <==> v == to
  {
    var d := Sub(to, v);
    assert d == ZERO <==> v == to;
    assert Sub(v, to) == Neg(d);
    LengthSquaredNeg(d);
    LengthSquared(d)
  }

  lemma LengthSquaredNeg(v: Vector3)
    ensures LengthSquared(Neg(v)) == LengthSquared(v)
  {
    assert (-v.x) * (-v.x) == v.x * v.x;
    assert (-v.y) * (-v.y) == v.y * v.y;
    assert (-v.z) * (-v.z) == v.z * v.z;
  }

  /** The dot product is symmetric; `length_squared` is the dot product of a vector with itself. */
  lemma DotFacts(a: Vector3, b: Vector3)
    ensures Dot(a, b) == Dot(b, a)
    ensures LengthSquared(a) == Dot(a, a)
  {
  }

  /** The cross product is perpendicular to both factors, anticommutative, and zero on parallel vectors. */
  lemma CrossFacts(a: Vector3, b: Vector3, k: real)
    ensures Dot(Cross(a, b), a) == 0.0 && Dot(Cross(a, b), b) == 0.0
    ensures Cross(a, b) == Neg(Cross(b, a))
    ensures Cross(a, a) == ZERO
    ensures Cross(a, Scale(a, k)) == ZERO
  {
  }

  /** Dotting with a unit axis picks out that component. */
  lemma DotAxes(a: Vector3)
    ensures Dot(a, RIGHT) == a.x && Dot(a, UP) == a.y && Dot(a, BACK) == a.z
  {
  }

  /** The scalar triple product `a . (b × c)` is unchanged by a cyclic rotation of its factors. */
  lemma TripleProductCyclic(a: Vector3, b: Vector3, c: Vector3)
    ensures Dot(a, Cross(b, c)) == Dot(b, Cross(c, a))
    ensures Dot(a, Cross(b, c)) == Dot(c, Cross(a, b))
  {
    TripleProductRotate(a, b, c);
    TripleProductRotate(b, c, a);
  }

  lemma TripleProductRotate(a: Vector3, b: Vector3, c: Vector3)
    ensures Dot(a, Cross(b, c)) == Dot(b, Cross(c, a))
  {
    TripleProductRaw(a.x, a.y, a.z, b.x, b.y, b.z, c.x, c.y, c.z,
                     Cross(b, c).x, Cross(b, c).y, Cross(b, c).z,
                     Cross(c, a).x, Cross(c, a).y, Cross(c, a).z);
  }

  /** `TripleProductRotate` on plain numbers, the cross products' components passed in. */
  lemma TripleProductRaw(a1: real, a2: real, a3: real, b1: real, b2: real, b3: real, c1: real, c2: real, c3: real,
                         p1: real, p2: real, p3: real, q1: real, q2: real, q3: real)
    requires p1 == b2 * c3 - b3 * c2 && p2 == b3 * c1 - b1 * c3 && p3 == b1 * c2 - b2 * c1
    requires q1 == c2 * a3 - c3 * a2 && q2 == c3 * a1 - c1 * a3 && q3 == c1 * a2 - c2 * a1
    ensures a1 * p1 + a2 * p2 + a3 * p3 == b1 * q1 + b2 * q2 + b3 * q3
  {
  }

  /** A scalar factor of either operand moves out of the dot product. */
  lemma DotScale(a: Vector3, b: Vector3, k: real)
    ensures Dot(Scale(a, k), b) == Dot(a, b) * k
    ensures Dot(a, Scale(b, k)) == Dot(a, b) * k
  {
  }

  /** Lagrange's identity: the squared length of `a × b` is |a|²|b|² - (a·b)². */
  lemma CrossLagrange(a: Vector3, b: Vector3)
    ensures LengthSquared(Cross(a, b)) == LengthSquared(a) * LengthSquared(b) - Dot(a, b) * Dot(a, b)
  {
  }

  /** Right-hand rule on the coordinate axes: x × y is z, y × z is x, z × x is y. */
  lemma CrossOfAxes(a: real, b: real)
    ensures Cross(Vector3(a, 0.0, 0.0), Vector3(0.0, b, 0.0)) == Vector3(0.0, 0.0, a * b)
    ensures Cross(Vector3(0.0, a, 0.0), Vector3(0.0, 0.0, b)) == Vector3(a * b, 0.0, 0.0)
    ensures Cross(Vector3(0.0, 0.0, a), Vector3(b, 0.0, 0.0)) == Vector3(0.0, a * b, 0.0)
  {
  }

  /** The basis vectors' cross products from the source's tests. */
  lemma CrossExamples()
    ensures Cross(RIGHT, UP) == BACK
    ensures Cross(UP, RIGHT) == Neg(BACK)
    ensures Cross(UP, BACK) == RIGHT
    ensures Cross(BACK, RIGHT) == UP
  {
    CrossOfAxes(1.0, 1.0);
    CrossFacts(UP, RIGHT, 0.0);
  }

  // ---------------------------------------------------------------------
  // Reflect, bounce, project and slide.  The geometric laws below hold for
  // a unit normal, which is what the source documents as the argument.
  // ---------------------------------------------------------------------

  predicate IsUnit(n: Vector3) {
    LengthSquared(n) == 1.0
  }

  /** `reflect`: `2 * n * dot(v, n) - v`. */
  function Reflect(v: Vector3, n: Vector3): Vector3 {
    Sub(Scale(n, 2.0 * Dot(v, n)), v)
  }

  /** `bounce`: the negated reflection. */
  function Bounce(v: Vector3, n: Vector3): (r: Vector3)
    ensures Add(r, Reflect(v, n)) == ZERO
  {
    Neg(Reflect(v, n))
  }

  /** `slide`: removes the component along `n`. */
  function Slide(v: Vector3, n: Vector3): Vector3 {
    Sub(v, Scale(n, Dot(v, n)))
  }

  /** `project`: the component of `v` along `b`; a zero `b` gives NaN in the source. */
  function Project(v: Vector3, b: Vector3): (r: Vector3)
    requires b != ZERO
    ensures Cross(r, b) == ZERO
    ensures Dot(Sub(v, r), b) == 0.0
  {
    var k := Dot(v, b) / LengthSquared(b);
    ProjectFacts(v, b, k);
    Scale(b, k)
  }

  lemma ProjectFacts(v: Vector3, b: Vector3, k: real)
    requires b != ZERO && k == Dot(v, b) / LengthSquared(b)
    ensures Cross(Scale(b, k), b) == ZERO
    ensures Dot(Sub(v, Scale(b, k)), b) == 0.0
  {
    var l := LengthSquared(b);
    assert k * l == Dot(v, b) by {
      MulDivCancel(Dot(v, b), l);
    }
    DotSubScale(v, b, k);
    CrossScaleSelf(b, k);
  }

  /** Taking `k` copies of `b` away from `v` lowers its dot with `b` by `k` times the squared length of `b`. */
  lemma DotSubScale(v: Vector3, b: Vector3, k: real)
    ensures Dot(Sub(v, Scale(b, k)), b) == Dot(v, b) - k * LengthSquared(b)
  {
    assert Dot(Sub(v, Scale(b, k)), b)
        == (v.x * b.x + v.y * b.y + v.z * b.z) - k * (b.x * b.x + b.y * b.y + b.z * b.z);
  }

  /** A multiple of `b` is parallel to `b`. */
  lemma CrossScaleSelf(b: Vector3, k: real)
    ensures Cross(Scale(b, k), b) == ZERO
  {
  }

  /** For a unit normal: slide keeps no normal part, and slide plus project gives back the vector. */
  lemma {:induction false} SlideProject(v: Vector3, n: Vector3)
    requires IsUnit(n)
    ensures Dot(Slide(v, n), n) == 0.0
    ensures Add(Slide(v, n), Project(v, n)) == v
  {
    assert Dot(v, n) / 1.0 == Dot(v, n);
    var d := Dot(v, n);
    assert Dot(Slide(v, n), n) == d - d * LengthSquared(n);
  }

  /** For a unit normal, reflect keeps the normal part. */
  lemma {:induction false} ReflectNormalPart(v: Vector3, n: Vector3)
    requires IsUnit(n)
    ensures Dot(Reflect(v, n), n) == Dot(v, n)
  {
    var d := Dot(v, n);
    assert Dot(Reflect(v, n), n) == 2.0 * d * LengthSquared(n) - d;
  }

  /**
   * For a unit normal, reflect flips the tangential part, bounce flips the
   * normal part and keeps the tangential one, and reflecting twice is the
   * identity.
   */
  lemma {:induction false} ReflectBounce(v: Vector3, n: Vector3)
    requires IsUnit(n)
    ensures Slide(Reflect(v, n), n) == Neg(Slide(v, n))
    ensures Dot(Bounce(v, n), n) == -Dot(v, n)
    ensures Slide(Bounce(v, n), n) == Slide(v, n)
    ensures Reflect(Reflect(v, n), n) == v
  {
    ReflectNormalPart(v, n);
    assert Dot(Bounce(v, n), n) == -Dot(v, n);
  }

  /** Against the normal UP, reflect and bounce flip components, project keeps only y and slide zeroes it. */
  lemma OnUpNormal(v: Vector3)
    ensures Reflect(v, UP) == Vector3(-v.x, v.y, -v.z)
    ensures Bounce(v, UP) == Vector3(v.x, -v.y, v.z)
    ensures Project(v, UP) == Vector3(0.0, v.y, 0.0)
    ensures Slide(v, UP) == Vector3(v.x, 0.0, v.z)
  {
    assert Dot(v, UP) == v.y;
    assert LengthSquared(UP) == 1.0;
    assert Project(v, UP) == Scale(UP, v.y / 1.0);
  }

  /** The fixtures of the source's tests for (1.2, 3.4, 5.6) against the normal (0, 1, 0). */
  lemma ReflectExamples()
    ensures Reflect(Vector3(1.2, 3.4, 5.6), UP) == Vector3(-1.2, 3.4, -5.6)
    ensures Bounce(Vector3(1.2, 3.4, 5.6), UP) == Vector3(1.2, -3.4, 5.6)
    ensures Project(Vector3(1.2, 3.4, 5.6), UP) == Vector3(0.0, 3.4, 0.0)
    ensures Slide(Vector3(1.2, 3.4, 5.6), UP) == Vector3(1.2, 0.0, 5.6)
  {
    OnUpNormal(Vector3(1.2, 3.4, 5.6));
  }

  // ---------------------------------------------------------------------
  // Component-wise helpers.
  // ---------------------------------------------------------------------

  function Abs(v: Vector3): (r: Vector3)
    ensures r.x >= 0.0 && (r.x == v.x || r.x == -v.x)
    ensures r.y >= 0.0 && (r.y == v.y || r.y == -v.y)
    ensures r.z >= 0.0 && (r.z == v.z || r.z == -v.z)
  {
    Vector3(Utils.Abs(v.x), Utils.Abs(v.y), Utils.Abs(v.z))
  }

  /** `clamp`: Rust's float `clamp` panics when a lower bound exceeds its upper bound. */
  function Clamp(v: Vector3, min: Vector3, max: Vector3): (r: Vector3)
    requires min.x <= max.x && min.y <= max.y && min.z <= max.z
    ensures min.x <= r.x <= max.x && min.y <= r.y <= max.y && min.z <= r.z <= max.z
    ensures min.x <= v.x <= max.x && min.y <= v.y <= max.y && min.z <= v.z <= max.z ==> r == v
  {
    Vector3(ClampReal(v.x, min.x, max.x), ClampReal(v.y, min.y, max.y), ClampReal(v.z, min.z, max.z))
  }

  function ClampF(v: Vector3, min: real, max: real): (r: Vector3)
    requires min <= max
    ensures r == Clamp(v, Vector3(min, min, min), Vector3(max, max, max))
  {
    Vector3(ClampReal(v.x, min, max), ClampReal(v.y, min, max), ClampReal(v.z, min, max))
  }

  function Max(a: Vector3, b: Vector3): (r: Vector3)
    ensures r.x >= a.x && r.x >= b.x && (r.x == a.x || r.x == b.x)
    ensures r.y >= a.y && r.y >= b.y && (r.y == a.y || r.y == b.y)
    ensures r.z >= a.z && r.z >= b.z && (r.z == a.z || r.z == b.z)
  {
    Vector3(MaxReal(a.x, b.x), MaxReal(a.y, b.y), MaxReal(a.z, b.z))
  }

  function MaxF(a: Vector3, with: real): (r: Vector3)
    ensures r == Max(a, Vector3(with, with, with))
  {
    Vector3(MaxReal(a.x, with), MaxReal(a.y, with), MaxReal(a.z, with))
  }

  function Min(a: Vector3, b: Vector3): (r: Vector3)
    ensures r.x <= a.x && r.x <= b.x && (r.x == a.x || r.x == b.x)
    ensures r.y <= a.y && r.y <= b.y && (r.y == a.y || r.y == b.y)
    ensures r.z <= a.z && r.z <= b.z && (r.z == a.z || r.z == b.z)
  {
    Vector3(MinReal(a.x, b.x), MinReal(a.y, b.y), MinReal(a.z, b.z))
  }

  function MinF(a: Vector3, with: real): (r: Vector3)
    ensures r == Min(a, Vector3(with, with, with))
  {
    Vector3(MinReal(a.x, with), MinReal(a.y, with), MinReal(a.z, with))
  }

  /** `sign`: each component mapped to -1, 0 or 1. */
  function Sign(v: Vector3): (r: Vector3)
    ensures Mul(r, Abs(v)) == v
    ensures -1.0 <= r.x <= 1.0 && -1.0 <= r.y <= 1.0 && -1.0 <= r.z <= 1.0
    ensures (r.x == 0.0 <==> v.x == 0.0) && (r.y == 0.0 <==> v.y == 0.0) && (r.z == 0.0 <==> v.z == 0.0)
  {
    Vector3(Utils.Sign(v.x), Utils.Sign(v.y), Utils.Sign(v.z))
  }

  function Floor(v: Vector3): (r: Vector3)
    ensures r.x <= v.x < r.x + 1.0 && IsIntegral(r.x)
    ensures r.y <= v.y < r.y + 1.0 && IsIntegral(r.y)
    ensures r.z <= v.z < r.z + 1.0 && IsIntegral(r.z)
  {
    Vector3(v.x.Floor as real, v.y.Floor as real, v.z.Floor as real)
  }

  function Ceil(v: Vector3): (r: Vector3)
    ensures r.x - 1.0 < v.x <= r.x && IsIntegral(r.x)
    ensures r.y - 1.0 < v.y <= r.y && IsIntegral(r.y)
    ensures r.z - 1.0 < v.z <= r.z && IsIntegral(r.z)
  {
    Vector3(-((-v.x).Floor) as real, -((-v.y).Floor) as real, -((-v.z).Floor) as real)
  }

  /** `round`: each component to the nearest whole number, halves away from zero. */
  function Round(v: Vector3): (r: Vector3)
    ensures -0.5 <= v.x - r.x <= 0.5 && IsIntegral(r.x)
    ensures -0.5 <= v.y - r.y <= 0.5 && IsIntegral(r.y)
    ensures -0.5 <= v.z - r.z <= 0.5 && IsIntegral(r.z)
    ensures (v.x - r.x == 0.5 ==> v.x < 0.0) && (v.x - r.x == -0.5 ==> v.x > 0.0)
    ensures (v.y - r.y == 0.5 ==> v.y < 0.0) && (v.y - r.y == -0.5 ==> v.y > 0.0)
    ensures (v.z - r.z == 0.5 ==> v.z < 0.0) && (v.z - r.z == -0.5 ==> v.z > 0.0)
  {
    Vector3(Utils.Round(v.x) as real, Utils.Round(v.y) as real, Utils.Round(v.z) as real)
  }

  function Lerp(from: Vector3, to: Vector3, weight: real): (r: Vector3)
    ensures weight == 0.0 ==> r == from
    ensures weight == 1.0 ==> r == to
  {
    Vector3(Utils.Lerp(from.x, to.x, weight), Utils.Lerp(from.y, to.y, weight), Utils.Lerp(from.z, to.z, weight))
  }

  function CubicInterpolate(from: Vector3, to: Vector3, pre: Vector3, post: Vector3, weight: real): (r: Vector3)
    ensures weight == 0.0 ==> r == from
    ensures weight == 1.0 ==> r == to
  {
    Vector3(Utils.CubicInterpolate(from.x, to.x, pre.x, post.x, weight),
            Utils.CubicInterpolate(from.y, to.y, pre.y, post.y, weight),
            Utils.CubicInterpolate(from.z, to.z, pre.z, post.z, weight))
  }

  /** `cubic_interpolate_in_time`: component-wise, total for every input. */
  function CubicInterpolateInTime(from: Vector3, to: Vector3, pre: Vector3, post: Vector3,
                                  weight: real, toT: real, preT: real, postT: real): (r: Vector3)
    ensures preT != 0.0 && toT != 0.0 && weight == 0.0 ==> r == from
    ensures toT != 0.0 && postT != toT && toT != preT && weight == 1.0 ==> r == to
  {
    CubicInterpolateInTimeEnds(from.x, to.x, pre.x, post.x, weight, toT, preT, postT);
    CubicInterpolateInTimeEnds(from.y, to.y, pre.y, post.y, weight, toT, preT, postT);
    CubicInterpolateInTimeEnds(from.z, to.z, pre.z, post.z, weight, toT, preT, postT);
    Vector3(Utils.CubicInterpolateInTime(from.x, to.x, pre.x, post.x, weight, toT, preT, postT),
            Utils.CubicInterpolateInTime(from.y, to.y, pre.y, post.y, weight, toT, preT, postT),
            Utils.CubicInterpolateInTime(from.z, to.z, pre.z, post.z, weight, toT, preT, postT))
  }

  lemma CubicInterpolateInTimeEnds(from: real, to: real, pre: real, post: real,
                                   weight: real, toT: real, preT: real, postT: real)
    ensures preT != 0.0 && toT != 0.0 && weight == 0.0 ==>
      Utils.CubicInterpolateInTime(from, to, pre, post, weight, toT, preT, postT) == from
    ensures toT != 0.0 && postT != toT && toT != preT && weight == 1.0 ==>
      Utils.CubicInterpolateInTime(from, to, pre, post, weight, toT, preT, postT) == to
  {
    if preT != 0.0 && toT != 0.0 && weight == 0.0 {
      CubicInterpolateInTimeStart(from, to, pre, post, toT, preT, postT);
    }
    if toT != 0.0 && postT != toT && toT != preT && weight == 1.0 {
      CubicInterpolateInTimeEnd(from, to, pre, post, toT, preT, postT);
    }
  }

  function BezierInterpolate(start: Vector3, control1: Vector3, control2: Vector3, end: Vector3, t: real): (r: Vector3)
    ensures t == 0.0 ==> r == start
    ensures t == 1.0 ==> r == end
  {
    Vector3(Utils.BezierInterpolate(start.x, control1.x, control2.x, end.x, t),
            Utils.BezierInterpolate(start.y, control1.y, control2.y, end.y, t),
            Utils.BezierInterpolate(start.z, control1.z, control2.z, end.z, t))
  }

  /** `snapped`: each component to the nearest multiple of its step; a zero step keeps the component. */
  function Snapped(v: Vector3, step: Vector3): (r: Vector3)
    ensures step.x != 0.0 ==> IsIntegral(r.x / step.x)
    ensures step.y != 0.0 ==> IsIntegral(r.y / step.y)
    ensures step.z != 0.0 ==> IsIntegral(r.z / step.z)
    ensures step.x > 0.0 ==> -step.x <= 2.0 * (v.x - r.x) < step.x
    ensures step.y > 0.0 ==> -step.y <= 2.0 * (v.y - r.y) < step.y
    ensures step.z > 0.0 ==> -step.z <= 2.0 * (v.z - r.z) < step.z
    ensures step.x < 0.0 ==> step.x < 2.0 * (v.x - r.x) <= -step.x
    ensures step.y < 0.0 ==> step.y < 2.0 * (v.y - r.y) <= -step.y
    ensures step.z < 0.0 ==> step.z < 2.0 * (v.z - r.z) <= -step.z
    ensures step.x == 0.0 ==> r.x == v.x
    ensures step.y == 0.0 ==> r.y == v.y
    ensures step.z == 0.0 ==> r.z == v.z
  {
    Vector3(Utils.Snapped(v.x, step.x), Utils.Snapped(v.y, step.y), Utils.Snapped(v.z, step.z))
  }

  function SnappedF(v: Vector3, step: real): (r: Vector3)
    ensures r == Snapped(v, Vector3(step, step, step))
  {
    Vector3(Utils.Snapped(v.x, step), Utils.Snapped(v.y, step), Utils.Snapped(v.z, step))
  }

  /** `posmod`: each component into the range from zero up to the modulus. */
  function Posmod(v: Vector3, m: real): (r: Vector3)
    requires m != 0.0
    ensures m > 0.0 ==> 0.0 <= r.x < m && 0.0 <= r.y < m && 0.0 <= r.z < m
    ensures IsIntegral((v.x - r.x) / m) && IsIntegral((v.y - r.y) / m) && IsIntegral((v.z - r.z) / m)
  {
    Vector3(PosmodF(v.x, m), PosmodF(v.y, m), PosmodF(v.z, m))
  }

  function Posmodv(v: Vector3, m: Vector3): (r: Vector3)
    requires m.x != 0.0 && m.y != 0.0 && m.z != 0.0
    ensures m.x > 0.0 ==> 0.0 <= r.x < m.x
    ensures m.y > 0.0 ==> 0.0 <= r.y < m.y
    ensures m.z > 0.0 ==> 0.0 <= r.z < m.z
    ensures IsIntegral((v.x - r.x) / m.x) && IsIntegral((v.y - r.y) / m.y) && IsIntegral((v.z - r.z) / m.z)
  {
    Vector3(PosmodF(v.x, m.x), PosmodF(v.y, m.y), PosmodF(v.z, m.z))
  }

  /** Fixtures: lerp, clamp, cubic interpolation, posmod and snapped from the source's tests. */
  lemma ComponentExamples()
    ensures Lerp(Vector3(1.0, 2.0, 3.0), Vector3(4.0, 5.0, 6.0), 0.5) == Vector3(2.5, 3.5, 4.5)
    ensures Clamp(Vector3(-5.0, 5.0, 15.0), ZERO, Vector3(10.0, 10.0, 10.0)) == Vector3(0.0, 5.0, 10.0)
    ensures CubicInterpolate(Vector3(1.0, 2.0, 3.0), Vector3(4.0, 5.0, 6.0), ZERO, Vector3(7.0, 7.0, 7.0), 0.5)
            == Vector3(2.375, 3.5, 4.625)
    ensures Posmod(Neg(Vector3(1.2, 3.4, 5.6)), 2.0) == Vector3(0.8, 0.6, 0.4)
    ensures Snapped(Vector3(1.2, 3.4, 5.6), ONE) == Vector3(1.0, 3.0, 6.0)
    ensures Snapped(Vector3(1.2, 3.4, 5.6), Vector3(0.25, 0.25, 0.25)) == Vector3(1.25, 3.5, 5.5)
  {
    assert Lerp(Vector3(1.0, 2.0, 3.0), Vector3(4.0, 5.0, 6.0), 0.5) == Vector3(2.5, 3.5, 4.5);
    assert CubicInterpolate(Vector3(1.0, 2.0, 3.0), Vector3(4.0, 5.0, 6.0), ZERO, Vector3(7.0, 7.0, 7.0), 0.5)
           == Vector3(2.375, 3.5, 4.625) by {
      CubicInterpolateExample();
      assert Utils.CubicInterpolate(2.0, 5.0, 0.0, 7.0, 0.5) == 3.5;
      assert Utils.CubicInterpolate(3.0, 6.0, 0.0, 7.0, 0.5) == 4.625;
    }
    assert Posmod(Neg(Vector3(1.2, 3.4, 5.6)), 2.0) == Vector3(0.8, 0.6, 0.4) by {
      PosmodFExamples();
    }
    assert Snapped(Vector3(1.2, 3.4, 5.6), ONE) == Vector3(1.0, 3.0, 6.0) by {
      assert (1.2 / 1.0 + 0.5).Floor == 1;
      assert (3.4 / 1.0 + 0.5).Floor == 3;
      assert (5.6 / 1.0 + 0.5).Floor == 6;
    }
    assert Snapped(Vector3(1.2, 3.4, 5.6), Vector3(0.25, 0.25, 0.25)) == Vector3(1.25, 3.5, 5.5) by {
      assert (1.2 / 0.25 + 0.5).Floor == 5;
      assert (3.4 / 0.25 + 0.5).Floor == 14;
      assert (5.6 / 0.25 + 0.5).Floor == 22;
    }
  }

  // ---------------------------------------------------------------------
  // Approximate comparisons.
  // ---------------------------------------------------------------------

  predicate IsEqualApprox(a: Vector3, b: Vector3) {
    Utils.IsEqualApprox(a.x, b.x) && Utils.IsEqualApprox(a.y, b.y) && Utils.IsEqualApprox(a.z, b.z)
  }

  predicate IsZeroApprox(v: Vector3) {
    Utils.IsZeroApprox(v.x) && Utils.IsZeroApprox(v.y) && Utils.IsZeroApprox(v.z)
  }

  predicate IsNormalized(v: Vector3) {
    IsEqualApproxWithTolerance(LengthSquared(v), 1.0, UNIT_EPSILON)
  }

  // ---------------------------------------------------------------------
  // Ordering (`PartialOrd`): x first, then y, then z.
  // ---------------------------------------------------------------------

  predicate Lt(a: Vector3, b: Vector3) {
    if a.x < b.x then true
    else if a.x == b.x then (if a.y < b.y then true else if a.y == b.y then a.z < b.z else false)
    else false
  }

  predicate Gt(a: Vector3, b: Vector3) {
    if a.x > b.x then true
    else if a.x == b.x then (if a.y > b.y then true else if a.y == b.y then a.z > b.z else false)
    else false
  }

  predicate Le(a: Vector3, b: Vector3) {
    Lt(a, b) || a == b
  }

  predicate Ge(a: Vector3, b: Vector3) {
    Gt(a, b) || a == b
  }

  function PartialCmp(a: Vector3, b: Vector3): (r: Ordering)
    ensures r == Equal <==> a == b
    ensures r == Less <==> Lt(a, b)
    ensures r == Greater <==> Lt(b, a)
  {
    if Lt(a, b) then Less else if Gt(a, b) then Greater else Equal
  }

  /** The ordering is a strict total order (reals carry no NaN here). */
  lemma OrderIsTotal(a: Vector3, b: Vector3, c: Vector3)
    ensures Gt(a, b) <==> Lt(b, a)
    ensures Lt(a, b) || a == b || Lt(b, a)
    ensures !(Lt(a, b) && Lt(b, a)) && !Lt(a, a)
    ensures Le(a, b) <==> !Lt(b, a)
    ensures Ge(a, b) <==> Le(b, a)
    ensures Lt(a, b) && Lt(b, c) ==> Lt(a, c)
  {
  }

  // ---------------------------------------------------------------------
  // Conversions with `Vector3i`.
  // ---------------------------------------------------------------------

  /** `From<Vector3i> for Vector3`: exact. */
  function FromVector3i(v: V3i.Vector3i): (r: Vector3)
    ensures ToVector3i(r) == v
  {
    Vector3(v.x as real, v.y as real, v.z as real)
  }

  /** `From<&Vector3> for Vector3i`: each component truncated toward zero. */
  function ToVector3i(v: Vector3): (r: V3i.Vector3i)
    ensures Utils.Abs(v.x - r.x as real) < 1.0 && Utils.Abs(v.y - r.y as real) < 1.0 && Utils.Abs(v.z - r.z as real) < 1.0
    ensures AbsInt(r.x) as real <= Utils.Abs(v.x) && AbsInt(r.y) as real <= Utils.Abs(v.y) && AbsInt(r.z) as real <= Utils.Abs(v.z)
  {
    V3i.Vector3i(Trunc(v.x), Trunc(v.y), Trunc(v.z))
  }

  /** (1.1, 2.9, 3.9) and (2.3, 4.9, 7.8) truncate to (1, 2, 3) and (2, 4, 7). */
  lemma ToVector3iExamples()
    ensures ToVector3i(Vector3(1.1, 2.9, 3.9)) == V3i.Vector3i(1, 2, 3)
    ensures ToVector3i(Vector3(2.3, 4.9, 7.8)) == V3i.Vector3i(2, 4, 7)
  {
  }
}
