/**
 * `Vector2`: a pair of float components, modelled as exact reals.  Besides
 * the component-wise arithmetic it has the dot and cross products and the
 * reflect / bounce / project / slide family.  The conversions to and from
 * `Vector2i` live here as well.
 */
module Vector2 {
  import opened Utils
  import opened Enums
  import V2i = Vector2i

  datatype Vector2 = Vector2(x: real, y: real)

  const ZERO: Vector2 := Vector2(0.0, 0.0)
  const ONE: Vector2 := Vector2(1.0, 1.0)
  const LEFT: Vector2 := Vector2(-1.0, 0.0)
  const RIGHT: Vector2 := Vector2(1.0, 0.0)
  /** Y points down in 2D, so `UP` is -Y. */
  const UP: Vector2 := Vector2(0.0, -1.0)
  const DOWN: Vector2 := Vector2(0.0, 1.0)

  // ---------------------------------------------------------------------
  // Component access.  An index other than 0 or 1, or an axis other than
  // X or Y, panics in the source.
  // ---------------------------------------------------------------------

  function Get(v: Vector2, index: nat): real
    requires index < 2
  {
    if index == 0 then v.x else v.y
  }

  /** `set`: writes one component and keeps the other. */
  function Set(v: Vector2, index: nat, value: real): (r: Vector2)
    requires index < 2
    ensures Get(r, index) == value
    ensures forall j: nat :: j < 2 && j != index ==> Get(r, j) == Get(v, j)
  {
    if index == 0 then v.(x := value) else v.(y := value)
  }

  predicate IsAxis(axis: Axis) {
    axis == X || axis == Y
  }

  /** `get_axis` reads the same component as `get` with the axis' index. */
  function GetAxis(v: Vector2, axis: Axis): (r: real)
    requires IsAxis(axis)
    ensures r == Get(v, if axis == X then 0 else 1)
  {
    match axis
    case X => v.x
    case Y => v.y
  }

  function SetAxis(v: Vector2, axis: Axis, value: real): (r: Vector2)
    requires IsAxis(axis)
    ensures r == Set(v, if axis == X then 0 else 1, value)
  {
    match axis
    case X => v.(x := value)
    case Y => v.(y := value)
  }

  /** Writing an axis and reading it back round-trips; the other axis is untouched. */
  lemma SetAxisGetAxis(v: Vector2, a: Axis, b: Axis, value: real)
    requires IsAxis(a) && IsAxis(b)
    ensures GetAxis(SetAxis(v, a, value), b) == if a == b then value else GetAxis(v, b)
    ensures SetAxis(v, a, GetAxis(v, a)) == v
  {
  }

  /** Axis fixtures: (1.2, 3.4) has its largest component on Y and smallest on X. */
  lemma AxisExamples()
    ensures MaxAxisIndex(Vector2(1.2, 3.4)) == Y
    ensures MinAxisIndex(Vector2(1.2, 3.4)) == X
    ensures GetAxis(SetAxis(Vector2(1.2, 3.4), Y, 3.7), Y) == 3.7
  {
  }

  // ---------------------------------------------------------------------
  // Arithmetic operators; the compound assignments compute the same values.
  // ---------------------------------------------------------------------

  function Add(a: Vector2, b: Vector2): Vector2 {
    Vector2(a.x + b.x, a.y + b.y)
  }

  function Sub(a: Vector2, b: Vector2): Vector2 {
    Vector2(a.x - b.x, a.y - b.y)
  }

  /** Component-wise product `a * b`. */
  function Mul(a: Vector2, b: Vector2): Vector2 {
    Vector2(a.x * b.x, a.y * b.y)
  }

  /** `a * s` and `s * a` for a scalar `s`. */
  function Scale(a: Vector2, s: real): Vector2 {
    Vector2(a.x * s, a.y * s)
  }

  function Neg(a: Vector2): Vector2 {
    Vector2(-a.x, -a.y)
  }

  /** `a / s`; a zero divisor gives inf or NaN in the source. */
  function DivScalar(a: Vector2, s: real): (r: Vector2)
    requires s != 0.0
    ensures Scale(r, s) == a
  {
    Vector2(a.x / s, a.y / s)
  }

  /** Component-wise `a / b`; a zero component of `b` gives inf or NaN in the source. */
  function Div(a: Vector2, b: Vector2): (r: Vector2)
    requires b.x != 0.0 && b.y != 0.0
    ensures Mul(r, b) == a
  {
    Vector2(a.x / b.x, a.y / b.y)
  }

  /** `a + s` (`+=` with a scalar) adds `s` to both components. */
  function AddScalar(a: Vector2, s: real): Vector2 {
    Vector2(a.x + s, a.y + s)
  }

  lemma AddSubInverse(a: Vector2, b: Vector2)
    ensures Sub(Add(a, b), b) == a
    ensures Add(a, Neg(a)) == ZERO
    ensures Neg(Neg(a)) == a
    ensures Add(a, b) == Add(b, a)
  {
  }

  /** `!v`: true exactly for the zero vector. */
  function Not(v: Vector2): (r: bool)
    ensures r <==> LengthSquared(v) == 0.0
  {
    v.x == 0.0 && v.y == 0.0
  }

  // ---------------------------------------------------------------------
  // Products.
  // ---------------------------------------------------------------------

  function Dot(a: Vector2, b: Vector2): real {
    a.x * b.x + a.y * b.y
  }

  /** `cross`: the z component of the 3D cross product of (a, 0) and (b, 0). */
  function Cross(a: Vector2, b: Vector2): real {
    a.x * b.y - a.y * b.x
  }

  function LengthSquared(v: Vector2): (r: real)
    ensures r >= 0.0
    ensures r == 0.0 <==> v == ZERO
  {
    RealSquareFacts(v.x);
    RealSquareFacts(v.y);
    v.x * v.x + v.y * v.y
  }

  function DistanceSquaredTo(v: Vector2, to: Vector2): (r: real)
    ensures r == LengthSquared(Sub(v, to)) && r == LengthSquared(Sub(to, v))
    ensures r == 0.0 <==> v == to
  {
    var d := Sub(v, to);
    assert d == ZERO <==> v == to;
    assert LengthSquared(Sub(to, v)) == LengthSquared(d);
    (v.x - to.x) * (v.x - to.x) + (v.y - to.y) * (v.y - to.y)
  }

  /** The dot product is symmetric; `length_squared` is the dot product of a vector with itself. */
  lemma DotFacts(a: Vector2, b: Vector2)
    ensures Dot(a, b) == Dot(b, a)
    ensures LengthSquared(a) == Dot(a, a)
  {
  }

  /** The cross product is antisymmetric, vanishes on equal vectors, and is the dot with the orthogonal vector. */
  lemma CrossFacts(a: Vector2, b: Vector2)
    ensures Cross(a, b) == -Cross(b, a)
    ensures Cross(a, a) == 0.0
    ensures Cross(a, b) == Dot(a, Orthogonal(b))
  {
  }

  lemma CrossExamples()
    ensures Cross(Vector2(1.0, 0.0), Vector2(0.0, 1.0)) == 1.0
    ensures Cross(Vector2(0.0, 1.0), Vector2(1.0, 0.0)) == -1.0
  {
  }

  /** `orthogonal`: the vector turned a quarter turn, perpendicular and of the same length. */
  function Orthogonal(v: Vector2): (r: Vector2)
    ensures Dot(v, r) == 0.0
    ensures LengthSquared(r) == LengthSquared(v)
  {
    Vector2(v.y, -v.x)
  }

  lemma OrthogonalTwice(v: Vector2)
    ensures Orthogonal(Orthogonal(v)) == Neg(v)
  {
  }

  // ---------------------------------------------------------------------
  // Reflect, bounce, project and slide.  The geometric laws below hold for
  // a unit normal, which is what the source documents as the argument.
  // ---------------------------------------------------------------------

  predicate IsUnit(n: Vector2) {
    LengthSquared(n) == 1.0
  }

  /** `reflect`: `2 * n * dot(v, n) - v`. */
  function Reflect(v: Vector2, n: Vector2): Vector2 {
    Sub(Scale(n, 2.0 * Dot(v, n)), v)
  }

  /** `bounce`: the negated reflection. */
  function Bounce(v: Vector2, n: Vector2): (r: Vector2)
    ensures Add(r, Reflect(v, n)) == ZERO
  {
    Neg(Reflect(v, n))
  }

  /** `slide`: removes the component along `n`. */
  function Slide(v: Vector2, n: Vector2): Vector2 {
    Sub(v, Scale(n, Dot(v, n)))
  }

  /** `project`: the component of `v` along `b`; a zero `b` gives NaN in the source. */
  function Project(v: Vector2, b: Vector2): (r: Vector2)
    requires b != ZERO
    ensures Cross(r, b) == 0.0
    ensures Dot(Sub(v, r), b) == 0.0
  {
    var k := Dot(v, b) / LengthSquared(b);
    ProjectFacts(v, b, k);
    Scale(b, k)
  }

  lemma ProjectFacts(v: Vector2, b: Vector2, k: real)
    requires b != ZERO && k == Dot(v, b) / LengthSquared(b)
    ensures Cross(Scale(b, k), b) == 0.0
    ensures Dot(Sub(v, Scale(b, k)), b) == 0.0
  {
    var l := LengthSquared(b);
    assert k * l == Dot(v, b) by {
      MulDivCancel(Dot(v, b), l);
    }
    assert Dot(Sub(v, Scale(b, k)), b) == Dot(v, b) - k * l;
  }

  /** For a unit normal: slide keeps no normal part, and slide plus project gives back the vector. */
  lemma {:induction false} SlideProject(v: Vector2, n: Vector2)
    requires IsUnit(n)
    ensures Dot(Slide(v, n), n) == 0.0
    ensures Add(Slide(v, n), Project(v, n)) == v
  {
    assert Dot(v, n) / 1.0 == Dot(v, n);
    var d := Dot(v, n);
    assert Dot(Slide(v, n), n) == d - d * LengthSquared(n);
  }

  /**
   * For a unit normal, reflect keeps the normal part and flips the
   * tangential one, bounce does the opposite, and reflecting twice is the
   * identity.
   */
  lemma {:induction false} ReflectBounce(v: Vector2, n: Vector2)
    requires IsUnit(n)
    ensures Dot(Reflect(v, n), n) == Dot(v, n)
    ensures Slide(Reflect(v, n), n) == Neg(Slide(v, n))
    ensures Dot(Bounce(v, n), n) == -Dot(v, n)
    ensures Slide(Bounce(v, n), n) == Slide(v, n)
    ensures Reflect(Reflect(v, n), n) == v
  {
    var d := Dot(v, n);
    assert Dot(Reflect(v, n), n) == 2.0 * d * LengthSquared(n) - d;
    assert Dot(Bounce(v, n), n) == d - 2.0 * d * LengthSquared(n);
  }

  /** The fixtures of the source's tests for (1.2, 3.4) against the normal (0, 1). */
  lemma ReflectExamples()
    ensures Reflect(Vector2(1.2, 3.4), Vector2(0.0, 1.0)) == Vector2(-1.2, 3.4)
    ensures Bounce(Vector2(1.2, 3.4), Vector2(0.0, 1.0)) == Vector2(1.2, -3.4)
    ensures Project(Vector2(1.2, 3.4), Vector2(0.0, 1.0)) == Vector2(0.0, 3.4)
    ensures Slide(Vector2(1.2, 3.4), Vector2(0.0, 1.0)) == Vector2(1.2, 0.0)
  {
    var v, n := Vector2(1.2, 3.4), Vector2(0.0, 1.0);
    assert Dot(v, n) == 3.4;
    assert Reflect(v, n) == Vector2(-1.2, 3.4);
    assert Bounce(v, n) == Vector2(1.2, -3.4);
    assert LengthSquared(n) == 1.0;
    assert Project(v, n) == Vector2(0.0, 3.4);
    assert Slide(v, n) == Vector2(1.2, 0.0);
  }

  // ---------------------------------------------------------------------
  // Component-wise helpers.
  // ---------------------------------------------------------------------

  function Abs(v: Vector2): (r: Vector2)
    ensures r.x >= 0.0 && (r.x == v.x || r.x == -v.x)
    ensures r.y >= 0.0 && (r.y == v.y || r.y == -v.y)
  {
    Vector2(Utils.Abs(v.x), Utils.Abs(v.y))
  }

  /** `aspect`: the ratio x / y; a zero `y` gives inf or NaN in the source. */
  function Aspect(v: Vector2): (r: real)
    requires v.y != 0.0
    ensures r * v.y == v.x
  {
    v.x / v.y
  }

  function Clamp(v: Vector2, min: Vector2, max: Vector2): (r: Vector2)
    requires min.x <= max.x && min.y <= max.y
    ensures min.x <= r.x <= max.x && min.y <= r.y <= max.y
    ensures min.x <= v.x <= max.x && min.y <= v.y <= max.y ==> r == v
  {
    Vector2(ClampReal(v.x, min.x, max.x), ClampReal(v.y, min.y, max.y))
  }

  function ClampF(v: Vector2, min: real, max: real): (r: Vector2)
    requires min <= max
    ensures r == Clamp(v, Vector2(min, min), Vector2(max, max))
  {
    Vector2(ClampReal(v.x, min, max), ClampReal(v.y, min, max))
  }

  function Max(a: Vector2, b: Vector2): (r: Vector2)
    ensures r.x >= a.x && r.x >= b.x && (r.x == a.x || r.x == b.x)
    ensures r.y >= a.y && r.y >= b.y && (r.y == a.y || r.y == b.y)
  {
    Vector2(MaxReal(a.x, b.x), MaxReal(a.y, b.y))
  }

  function Min(a: Vector2, b: Vector2): (r: Vector2)
    ensures r.x <= a.x && r.x <= b.x && (r.x == a.x || r.x == b.x)
    ensures r.y <= a.y && r.y <= b.y && (r.y == a.y || r.y == b.y)
  {
    Vector2(MinReal(a.x, b.x), MinReal(a.y, b.y))
  }

  /** `max_f`: the component-wise maximum with a scalar. */
  function MaxF(a: Vector2, with: real): (r: Vector2)
    ensures r == Max(a, Vector2(with, with))
  {
    Vector2(MaxReal(a.x, with), MaxReal(a.y, with))
  }

  /** `min_f`: the component-wise minimum with a scalar. */
  function MinF(a: Vector2, with: real): (r: Vector2)
    ensures r == Min(a, Vector2(with, with))
  {
    Vector2(MinReal(a.x, with), MinReal(a.y, with))
  }

  /** `max_axis_index`: the axis holding the largest component, X on a tie. */
  function MaxAxisIndex(v: Vector2): (r: Axis)
    ensures IsAxis(r)
    ensures GetAxis(v, r) >= v.x && GetAxis(v, r) >= v.y
    ensures v.x == v.y ==> r == X
  {
    if v.x < v.y then Y else X
  }

  /** `min_axis_index`: the axis holding the smallest component, Y on a tie. */
  function MinAxisIndex(v: Vector2): (r: Axis)
    ensures IsAxis(r)
    ensures GetAxis(v, r) <= v.x && GetAxis(v, r) <= v.y
    ensures v.x == v.y ==> r == Y
  {
    if v.x < v.y then X else Y
  }

  /** `sign`: each component mapped to -1, 0 or 1. */
  function Sign(v: Vector2): (r: Vector2)
    ensures Mul(r, Abs(v)) == v
    ensures -1.0 <= r.x <= 1.0 && -1.0 <= r.y <= 1.0
    ensures (r.x == 0.0 <==> v.x == 0.0) && (r.y == 0.0 <==> v.y == 0.0)
  {
    Vector2(Utils.Sign(v.x), Utils.Sign(v.y))
  }

  function Floor(v: Vector2): (r: Vector2)
    ensures r.x <= v.x < r.x + 1.0 && IsIntegral(r.x)
    ensures r.y <= v.y < r.y + 1.0 && IsIntegral(r.y)
  {
    Vector2(v.x.Floor as real, v.y.Floor as real)
  }

  function Ceil(v: Vector2): (r: Vector2)
    ensures r.x - 1.0 < v.x <= r.x && IsIntegral(r.x)
    ensures r.y - 1.0 < v.y <= r.y && IsIntegral(r.y)
  {
    Vector2(-((-v.x).Floor) as real, -((-v.y).Floor) as real)
  }

  /** `round`: each component to the nearest whole number, halves away from zero. */
  function Round(v: Vector2): (r: Vector2)
    ensures -0.5 <= v.x - r.x <= 0.5 && IsIntegral(r.x)
    ensures -0.5 <= v.y - r.y <= 0.5 && IsIntegral(r.y)
    ensures (v.x - r.x == 0.5 ==> v.x < 0.0) && (v.x - r.x == -0.5 ==> v.x > 0.0)
    ensures (v.y - r.y == 0.5 ==> v.y < 0.0) && (v.y - r.y == -0.5 ==> v.y > 0.0)
  {
    Vector2(Utils.Round(v.x) as real, Utils.Round(v.y) as real)
  }

  function Lerp(from: Vector2, to: Vector2, weight: real): (r: Vector2)
    ensures weight == 0.0 ==> r == from
    ensures weight == 1.0 ==> r == to
  {
    Vector2(Utils.Lerp(from.x, to.x, weight), Utils.Lerp(from.y, to.y, weight))
  }

  function CubicInterpolate(from: Vector2, to: Vector2, pre: Vector2, post: Vector2, weight: real): (r: Vector2)
    ensures weight == 0.0 ==> r == from
    ensures weight == 1.0 ==> r == to
  {
    Vector2(Utils.CubicInterpolate(from.x, to.x, pre.x, post.x, weight),
            Utils.CubicInterpolate(from.y, to.y, pre.y, post.y, weight))
  }

  function BezierInterpolate(start: Vector2, control1: Vector2, control2: Vector2, end: Vector2, t: real): (r: Vector2)
    ensures t == 0.0 ==> r == start
    ensures t == 1.0 ==> r == end
  {
    Vector2(Utils.BezierInterpolate(start.x, control1.x, control2.x, end.x, t),
            Utils.BezierInterpolate(start.y, control1.y, control2.y, end.y, t))
  }

  /** `snapped`: each component to the nearest multiple of its step. */
  function Snapped(v: Vector2, step: Vector2): (r: Vector2)
    ensures step.x != 0.0 ==> IsIntegral(r.x / step.x)
    ensures step.y != 0.0 ==> IsIntegral(r.y / step.y)
    ensures step.x > 0.0 ==> -step.x <= 2.0 * (v.x - r.x) < step.x
    ensures step.y > 0.0 ==> -step.y <= 2.0 * (v.y - r.y) < step.y
    ensures step.x < 0.0 ==> step.x < 2.0 * (v.x - r.x) <= -step.x
    ensures step.y < 0.0 ==> step.y < 2.0 * (v.y - r.y) <= -step.y
    ensures step.x == 0.0 ==> r.x == v.x
    ensures step.y == 0.0 ==> r.y == v.y
  {
    Vector2(Utils.Snapped(v.x, step.x), Utils.Snapped(v.y, step.y))
  }

  function SnappedF(v: Vector2, step: real): (r: Vector2)
    ensures r == Snapped(v, Vector2(step, step))
  {
    Vector2(Utils.Snapped(v.x, step), Utils.Snapped(v.y, step))
  }

  /**
   * `plane_project`: `vec` moved along the normal `n` by `n · vec - d`
   * times `n`. For a unit normal its dot with the normal becomes `d`.
   */
  function PlaneProject(n: Vector2, d: real, vec: Vector2): (r: Vector2)
    ensures Dot(n, r) == Dot(n, vec) - (Dot(n, vec) - d) * LengthSquared(n)
    ensures IsUnit(n) ==> Dot(n, r) == d
    ensures Cross(Sub(vec, r), n) == 0.0
  {
    var k := Dot(n, vec) - d;
    var r := Sub(vec, Scale(n, k));
    assert Dot(n, r) == Dot(n, vec) - k * LengthSquared(n);
    assert Sub(vec, r) == Scale(n, k);
    ScaleCrossSelf(n, k);
    r
  }

  /** A multiple of a vector has zero cross product with it. */
  lemma ScaleCrossSelf(n: Vector2, k: real)
    ensures Cross(Scale(n, k), n) == 0.0
  {
    assert n.x * k * n.y == n.y * k * n.x;
  }

  /** `posmod`: each component into the range from zero up to the modulus. */
  function Posmod(v: Vector2, m: real): (r: Vector2)
    requires m != 0.0
    ensures m > 0.0 ==> 0.0 <= r.x < m && 0.0 <= r.y < m
    ensures IsIntegral((v.x - r.x) / m) && IsIntegral((v.y - r.y) / m)
  {
    Vector2(PosmodF(v.x, m), PosmodF(v.y, m))
  }

  function Posmodv(v: Vector2, m: Vector2): (r: Vector2)
    requires m.x != 0.0 && m.y != 0.0
    ensures m.x > 0.0 ==> 0.0 <= r.x < m.x
    ensures m.y > 0.0 ==> 0.0 <= r.y < m.y
    ensures IsIntegral((v.x - r.x) / m.x) && IsIntegral((v.y - r.y) / m.y)
  {
    Vector2(PosmodF(v.x, m.x), PosmodF(v.y, m.y))
  }

  /** Fixtures: lerp of (1,2) and (4,5) at one half; (1.2,3.4) snapped to 0.25. */
  lemma LerpSnapExamples()
    ensures Lerp(Vector2(1.0, 2.0), Vector2(4.0, 5.0), 0.5) == Vector2(2.5, 3.5)
    ensures SnappedF(Vector2(1.2, 3.4), 0.25) == Vector2(1.25, 3.5)
  {
    assert (1.2 / 0.25 + 0.5).Floor == 5;
    assert (3.4 / 0.25 + 0.5).Floor == 14;
  }

  // ---------------------------------------------------------------------
  // Approximate comparisons.
  // ---------------------------------------------------------------------

  predicate IsEqualApprox(a: Vector2, b: Vector2) {
    Utils.IsEqualApprox(a.x, b.x) && Utils.IsEqualApprox(a.y, b.y)
  }

  predicate IsZeroApprox(v: Vector2) {
    Utils.IsZeroApprox(v.x) && Utils.IsZeroApprox(v.y)
  }

  predicate IsNormalized(v: Vector2) {
    IsEqualApproxWithTolerance(LengthSquared(v), 1.0, UNIT_EPSILON)
  }

  // ---------------------------------------------------------------------
  // Ordering (`PartialOrd`): x first, then y.
  // ---------------------------------------------------------------------

  predicate Lt(a: Vector2, b: Vector2) {
    if a.x < b.x then true else if a.x == b.x then a.y < b.y else false
  }

  predicate Gt(a: Vector2, b: Vector2) {
    if a.x > b.x then true else if a.x == b.x then a.y > b.y else false
  }

  predicate Le(a: Vector2, b: Vector2) {
    Lt(a, b) || a == b
  }

  predicate Ge(a: Vector2, b: Vector2) {
    Gt(a, b) || a == b
  }

  function PartialCmp(a: Vector2, b: Vector2): (r: Ordering)
    ensures r == Equal <==> a == b
    ensures r == Less <==> Lt(a, b)
    ensures r == Greater <==> Lt(b, a)
  {
    if Lt(a, b) then Less else if Gt(a, b) then Greater else Equal
  }

  /** The ordering is a strict total order (reals carry no NaN here). */
  lemma OrderIsTotal(a: Vector2, b: Vector2, c: Vector2)
    ensures Gt(a, b) <==> Lt(b, a)
    ensures Lt(a, b) || a == b || Lt(b, a)
    ensures !(Lt(a, b) && Lt(b, a)) && !Lt(a, a)
    ensures Le(a, b) <==> !Lt(b, a)
    ensures Ge(a, b) <==> Le(b, a)
    ensures Lt(a, b) && Lt(b, c) ==> Lt(a, c)
  {
  }

  // ---------------------------------------------------------------------
  // Conversions with `Vector2i`.
  // ---------------------------------------------------------------------

  /** `From<Vector2i> for Vector2`: exact. */
  function FromVector2i(v: V2i.Vector2i): (r: Vector2)
    ensures ToVector2i(r) == v
  {
    Vector2(v.x as real, v.y as real)
  }

  /** `From<Vector2> for Vector2i`: each component truncated toward zero. */
  function ToVector2i(v: Vector2): (r: V2i.Vector2i)
    ensures Utils.Abs(v.x - r.x as real) < 1.0 && Utils.Abs(v.y - r.y as real) < 1.0
    ensures AbsInt(r.x) as real <= Utils.Abs(v.x) && AbsInt(r.y) as real <= Utils.Abs(v.y)
  {
    V2i.Vector2i(Trunc(v.x), Trunc(v.y))
  }

  /** `Vector2i * float` gives a `Vector2`. */
  function ScaleVector2i(a: V2i.Vector2i, s: real): (r: Vector2)
    ensures r == Scale(FromVector2i(a), s)
  {
    Vector2(a.x as real * s, a.y as real * s)
  }

  /** `Vector2i / float` gives a `Vector2`. */
  function DivVector2i(a: V2i.Vector2i, s: real): (r: Vector2)
    requires s != 0.0
    ensures Scale(r, s) == FromVector2i(a)
  {
    Vector2(a.x as real / s, a.y as real / s)
  }

  /** (1.1, 2.9) truncates to (1, 2), and (-1.9, 0.5) to (-1, 0). */
  lemma ToVector2iExamples()
    ensures ToVector2i(Vector2(1.1, 2.9)) == V2i.Vector2i(1, 2)
    ensures ToVector2i(Vector2(-1.9, 0.5)) == V2i.Vector2i(-1, 0)
  {
  }
}
