/**
 * `Vector3i`: three integer components.  Arithmetic is component-wise;
 * `/` and `%` follow Rust's truncating integer division; the ordering is
 * lexicographic on (x, y, z).
 */
module Vector3i {
  import opened Utils
  import opened Enums

  datatype Vector3i = Vector3i(x: int, y: int, z: int)

  const ZERO: Vector3i := Vector3i(0, 0, 0)
  const ONE: Vector3i := Vector3i(1, 1, 1)
  const MIN: Vector3i := Vector3i(INT_MIN, INT_MIN, INT_MIN)
  const MAX: Vector3i := Vector3i(INT_MAX, INT_MAX, INT_MAX)
  const LEFT: Vector3i := Vector3i(-1, 0, 0)
  const RIGHT: Vector3i := Vector3i(1, 0, 0)
  const UP: Vector3i := Vector3i(0, 1, 0)
  const DOWN: Vector3i := Vector3i(0, -1, 0)
  const FORWARD: Vector3i := Vector3i(0, 0, -1)
  const BACK: Vector3i := Vector3i(0, 0, 1)

  // ---------------------------------------------------------------------
  // Component access.  An index above 2, or the axis W, panics in the source.
  // ---------------------------------------------------------------------

  function Get(v: Vector3i, index: nat): int
    requires index < 3
  {
    if index == 0 then v.x else if index == 1 then v.y else v.z
  }

  /** `set`: writes one component and keeps the others. */
  function Set(v: Vector3i, index: nat, value: int): (r: Vector3i)
    requires index < 3
    ensures Get(r, index) == value
    ensures forall j: nat :: j < 3 && j != index ==> Get(r, j) == Get(v, j)
  {
    if index == 0 then v.(x := value) else if index == 1 then v.(y := value) else v.(z := value)
  }

  lemma SetOfGet(v: Vector3i, index: nat)
    requires index < 3
    ensures Set(v, index, Get(v, index)) == v
  {
  }

  predicate IsAxis(axis: Axis) {
    axis != W
  }

  function AxisIndex(axis: Axis): (i: nat)
    requires IsAxis(axis)
    ensures i < 3
  {
    match axis
    case X => 0
    case Y => 1
    case Z => 2
  }

  /** `get_axis` reads the same component as `get` with the axis' index. */
  function GetAxis(v: Vector3i, axis: Axis): (r: int)
    requires IsAxis(axis)
    ensures r == Get(v, AxisIndex(axis))
  {
    match axis
    case X => v.x
    case Y => v.y
    case Z => v.z
  }

  function SetAxis(v: Vector3i, axis: Axis, value: int): (r: Vector3i)
    requires IsAxis(axis)
    ensures r == Set(v, AxisIndex(axis), value)
  {
    match axis
    case X => v.(x := value)
    case Y => v.(y := value)
    case Z => v.(z := value)
  }

  /** Writing an axis and reading it back round-trips; the other axes are untouched. */
  lemma SetAxisGetAxis(v: Vector3i, a: Axis, b: Axis, value: int)
    requires IsAxis(a) && IsAxis(b)
    ensures GetAxis(SetAxis(v, a, value), b) == if a == b then value else GetAxis(v, b)
    ensures SetAxis(v, a, GetAxis(v, a)) == v
  {
  }

  // ---------------------------------------------------------------------
  // Component-wise helpers.
  // ---------------------------------------------------------------------

  function Abs(v: Vector3i): (r: Vector3i)
    ensures r.x >= 0 && (r.x == v.x || r.x == -v.x)
    ensures r.y >= 0 && (r.y == v.y || r.y == -v.y)
    ensures r.z >= 0 && (r.z == v.z || r.z == -v.z)
  {
    Vector3i(AbsInt(v.x), AbsInt(v.y), AbsInt(v.z))
  }

  predicate Within(v: Vector3i, min: Vector3i, max: Vector3i) {
    min.x <= v.x <= max.x && min.y <= v.y <= max.y && min.z <= v.z <= max.z
  }

  /** `clamp`: every component between the matching components of `min` and `max`. */
  function Clamp(v: Vector3i, min: Vector3i, max: Vector3i): (r: Vector3i)
    requires min.x <= max.x && min.y <= max.y && min.z <= max.z
    ensures Within(r, min, max)
    ensures Within(v, min, max) ==> r == v
  {
    Vector3i(ClampInt(v.x, min.x, max.x), ClampInt(v.y, min.y, max.y), ClampInt(v.z, min.z, max.z))
  }

  function ClampI(v: Vector3i, min: int, max: int): (r: Vector3i)
    requires min <= max
    ensures Within(r, Vector3i(min, min, min), Vector3i(max, max, max))
    ensures r == Clamp(v, Vector3i(min, min, min), Vector3i(max, max, max))
  {
    Vector3i(ClampInt(v.x, min, max), ClampInt(v.y, min, max), ClampInt(v.z, min, max))
  }

  lemma SquareFacts(a: int)
    ensures a * a >= 0
    ensures a * a == 0 <==> a == 0
  {
    if a < 0 {
      assert a * a == (-a) * (-a);
    }
  }

  function LengthSquared(v: Vector3i): (r: int)
    ensures r >= 0
    ensures r == 0 <==> v == ZERO
  {
    SquareFacts(v.x);
    SquareFacts(v.y);
    SquareFacts(v.z);
    v.x * v.x + v.y * v.y + v.z * v.z
  }

  function DistanceSquaredTo(v: Vector3i, to: Vector3i): (r: int)
    ensures r >= 0
    ensures r == 0 <==> v == to
  {
    var d := Sub(to, v);
    assert d == ZERO <==> v == to;
    LengthSquared(d)
  }

  lemma DistanceSquaredSymmetric(a: Vector3i, b: Vector3i)
    ensures DistanceSquaredTo(a, b) == DistanceSquaredTo(b, a)
  {
    assert (a.x - b.x) * (a.x - b.x) == (b.x - a.x) * (b.x - a.x);
    assert (a.y - b.y) * (a.y - b.y) == (b.y - a.y) * (b.y - a.y);
    assert (a.z - b.z) * (a.z - b.z) == (b.z - a.z) * (b.z - a.z);
  }

  function Max(a: Vector3i, b: Vector3i): (r: Vector3i)
    ensures r.x >= a.x && r.x >= b.x && (r.x == a.x || r.x == b.x)
    ensures r.y >= a.y && r.y >= b.y && (r.y == a.y || r.y == b.y)
    ensures r.z >= a.z && r.z >= b.z && (r.z == a.z || r.z == b.z)
  {
    Vector3i(MaxInt(a.x, b.x), MaxInt(a.y, b.y), MaxInt(a.z, b.z))
  }

  function MaxI(a: Vector3i, with: int): (r: Vector3i)
    ensures r == Max(a, Vector3i(with, with, with))
  {
    Vector3i(MaxInt(a.x, with), MaxInt(a.y, with), MaxInt(a.z, with))
  }

  function Min(a: Vector3i, b: Vector3i): (r: Vector3i)
    ensures r.x <= a.x && r.x <= b.x && (r.x == a.x || r.x == b.x)
    ensures r.y <= a.y && r.y <= b.y && (r.y == a.y || r.y == b.y)
    ensures r.z <= a.z && r.z <= b.z && (r.z == a.z || r.z == b.z)
  {
    Vector3i(MinInt(a.x, b.x), MinInt(a.y, b.y), MinInt(a.z, b.z))
  }

  function MinI(a: Vector3i, with: int): (r: Vector3i)
    ensures r == Min(a, Vector3i(with, with, with))
  {
    Vector3i(MinInt(a.x, with), MinInt(a.y, with), MinInt(a.z, with))
  }

  /**
   * `max_axis_index`: an axis holding the largest component; on a tie the
   * first such axis in X, Y, Z order.
   */
  function MaxAxisIndex(v: Vector3i): (r: Axis)
    ensures IsAxis(r)
    ensures forall j: nat :: j < 3 ==> Get(v, j) <= GetAxis(v, r)
    ensures forall j: nat :: j < AxisIndex(r) ==> Get(v, j) < GetAxis(v, r)
  {
    if v.x < v.y then
      if v.y < v.z then Z else Y
    else if v.x < v.z then Z
    else X
  }

  /**
   * `min_axis_index`: an axis holding the smallest component; on a tie the
   * last such axis in X, Y, Z order.
   */
  function MinAxisIndex(v: Vector3i): (r: Axis)
    ensures IsAxis(r)
    ensures forall j: nat :: j < 3 ==> GetAxis(v, r) <= Get(v, j)
    ensures forall j: nat :: AxisIndex(r) < j < 3 ==> GetAxis(v, r) < Get(v, j)
  {
    if v.x < v.y then
      if v.x < v.z then X else Z
    else if v.y < v.z then Y
    else Z
  }

  /** `sign`: `signum` of each component. */
  function Sign(v: Vector3i): (r: Vector3i)
    ensures -1 <= r.x <= 1 && -1 <= r.y <= 1 && -1 <= r.z <= 1
    ensures (r.x == 0 <==> v.x == 0) && (r.y == 0 <==> v.y == 0) && (r.z == 0 <==> v.z == 0)
    ensures Mul(r, Abs(v)) == v
  {
    Vector3i(SignInt(v.x), SignInt(v.y), SignInt(v.z))
  }

  /** `snapped`: each component to the nearest multiple of its step, ties upward. */
  function Snapped(v: Vector3i, step: Vector3i): (r: Vector3i)
    ensures step.x != 0 ==> TruncRem(r.x, step.x) == 0
    ensures step.y != 0 ==> TruncRem(r.y, step.y) == 0
    ensures step.z != 0 ==> TruncRem(r.z, step.z) == 0
    ensures step.x > 0 ==> -step.x <= 2 * (v.x - r.x) < step.x
    ensures step.y > 0 ==> -step.y <= 2 * (v.y - r.y) < step.y
    ensures step.z > 0 ==> -step.z <= 2 * (v.z - r.z) < step.z
    ensures step.x < 0 ==> step.x < 2 * (v.x - r.x) <= -step.x
    ensures step.y < 0 ==> step.y < 2 * (v.y - r.y) <= -step.y
    ensures step.z < 0 ==> step.z < 2 * (v.z - r.z) <= -step.z
    ensures step.x == 0 ==> r.x == v.x
    ensures step.y == 0 ==> r.y == v.y
    ensures step.z == 0 ==> r.z == v.z
  {
    Vector3i(SnappedI(v.x, step.x), SnappedI(v.y, step.y), SnappedI(v.z, step.z))
  }

  function SnappedScalar(v: Vector3i, step: int): (r: Vector3i)
    ensures r == Snapped(v, Vector3i(step, step, step))
  {
    Vector3i(SnappedI(v.x, step), SnappedI(v.y, step), SnappedI(v.z, step))
  }

  // ---------------------------------------------------------------------
  // Operators.
  // ---------------------------------------------------------------------

  function Add(a: Vector3i, b: Vector3i): Vector3i {
    Vector3i(a.x + b.x, a.y + b.y, a.z + b.z)
  }

  function Sub(a: Vector3i, b: Vector3i): Vector3i {
    Vector3i(a.x - b.x, a.y - b.y, a.z - b.z)
  }

  function Mul(a: Vector3i, b: Vector3i): Vector3i {
    Vector3i(a.x * b.x, a.y * b.y, a.z * b.z)
  }

  function MulI(a: Vector3i, b: int): Vector3i {
    Vector3i(a.x * b, a.y * b, a.z * b)
  }

  function Neg(a: Vector3i): Vector3i {
    Vector3i(-a.x, -a.y, -a.z)
  }

  /** `/`: truncating division per component; a zero divisor panics. */
  function Div(a: Vector3i, b: Vector3i): Vector3i
    requires b.x != 0 && b.y != 0 && b.z != 0
  {
    Vector3i(TruncDiv(a.x, b.x), TruncDiv(a.y, b.y), TruncDiv(a.z, b.z))
  }

  function DivI(a: Vector3i, b: int): (r: Vector3i)
    requires b != 0
    ensures r == Div(a, Vector3i(b, b, b))
  {
    Vector3i(TruncDiv(a.x, b), TruncDiv(a.y, b), TruncDiv(a.z, b))
  }

  /** `%`: remainder with the sign of the dividend; a zero divisor panics. */
  function Rem(a: Vector3i, b: Vector3i): Vector3i
    requires b.x != 0 && b.y != 0 && b.z != 0
  {
    Vector3i(TruncRem(a.x, b.x), TruncRem(a.y, b.y), TruncRem(a.z, b.z))
  }

  function RemI(a: Vector3i, b: int): (r: Vector3i)
    requires b != 0
    ensures r == Rem(a, Vector3i(b, b, b))
  {
    Vector3i(TruncRem(a.x, b), TruncRem(a.y, b), TruncRem(a.z, b))
  }

  /** Quotient and remainder recompose the dividend, and the remainder is smaller than the divisor. */
  lemma DivRemRecompose(a: Vector3i, b: Vector3i)
    requires b.x != 0 && b.y != 0 && b.z != 0
    ensures Add(Mul(Div(a, b), b), Rem(a, b)) == a
    ensures AbsInt(Rem(a, b).x) < AbsInt(b.x) && AbsInt(Rem(a, b).y) < AbsInt(b.y)
    ensures AbsInt(Rem(a, b).z) < AbsInt(b.z)
  {
  }

  /** `-v` negates every component, subtracts from zero, and undoes itself. */
  lemma NegFacts(a: Vector3i)
    ensures forall j: nat :: j < 3 ==> Get(Neg(a), j) == -Get(a, j)
    ensures Sub(ZERO, a) == Neg(a)
    ensures Neg(Neg(a)) == a
  {
  }

  lemma AddSubInverse(a: Vector3i, b: Vector3i)
    ensures Sub(Add(a, b), b) == a
    ensures Add(a, Neg(a)) == ZERO
    ensures Neg(Neg(a)) == a
    ensures Add(a, b) == Add(b, a)
  {
  }

  /** `!v`: true exactly for the zero vector. */
  function Not(v: Vector3i): (r: bool)
    ensures r <==> LengthSquared(v) == 0
  {
    v.x == 0 && v.y == 0 && v.z == 0
  }

  // ---------------------------------------------------------------------
  // Ordering (`PartialOrd`): x first, then y, then z.
  // ---------------------------------------------------------------------

  predicate Lt(a: Vector3i, b: Vector3i) {
    if a.x < b.x then true
    else if a.x == b.x then
      if a.y < b.y then true else if a.y == b.y then a.z < b.z else false
    else false
  }

  predicate Gt(a: Vector3i, b: Vector3i) {
    if a.x > b.x then true
    else if a.x == b.x then
      if a.y > b.y then true else if a.y == b.y then a.z > b.z else false
    else false
  }

  predicate Le(a: Vector3i, b: Vector3i) {
    Lt(a, b) || a == b
  }

  predicate Ge(a: Vector3i, b: Vector3i) {
    Gt(a, b) || a == b
  }

  function PartialCmp(a: Vector3i, b: Vector3i): (r: Ordering)
    ensures r == Equal <==> a == b
    ensures r == Less <==> Lt(a, b)
    ensures r == Greater <==> Lt(b, a)
  {
    if Lt(a, b) then Less else if Gt(a, b) then Greater else Equal
  }

  /** The ordering is a strict total order, and `>`, `<=`, `>=` are derived from `<`. */
  lemma OrderIsTotal(a: Vector3i, b: Vector3i, c: Vector3i)
    ensures Gt(a, b) <==> Lt(b, a)
    ensures Lt(a, b) || a == b || Lt(b, a)
    ensures !(Lt(a, b) && Lt(b, a)) && !Lt(a, a)
    ensures Le(a, b) <==> !Lt(b, a)
    ensures Ge(a, b) <==> Le(b, a)
    ensures Lt(a, b) && Lt(b, c) ==> Lt(a, c)
  {
  }

  /** Fixtures from the source's tests. */
  lemma Examples()
    ensures Clamp(Vector3i(-5, 5, 15), ZERO, Vector3i(10, 10, 10)) == Vector3i(0, 5, 10)
    ensures LengthSquared(Vector3i(10, 10, 10)) == 300
    ensures DistanceSquaredTo(Vector3i(10, 10, 10), Vector3i(20, 30, 40)) == 1400
    ensures Snapped(Vector3i(1, 3, -7), Vector3i(4, 2, 5)) == Vector3i(0, 4, -5)
  {
    assert Clamp(Vector3i(-5, 5, 15), ZERO, Vector3i(10, 10, 10)) == Vector3i(0, 5, 10);
    assert LengthSquared(Vector3i(10, 10, 10)) == 300;
    assert DistanceSquaredTo(Vector3i(10, 10, 10), Vector3i(20, 30, 40)) == 1400 by {
      assert Sub(Vector3i(20, 30, 40), Vector3i(10, 10, 10)) == Vector3i(10, 20, 30);
    }
    assert Snapped(Vector3i(1, 3, -7), Vector3i(4, 2, 5)) == Vector3i(0, 4, -5) by {
      SnappedIExamples();
    }
  }

  lemma DivExamples()
    ensures Div(Vector3i(4, 5, 9), Vector3i(1, 2, 3)) == Vector3i(4, 2, 3)
    ensures DivI(Vector3i(4, 5, 9), 2) == Vector3i(2, 2, 4)
  {
    TruncDivUnique(4, 1, 4);
    TruncDivUnique(5, 2, 2);
    TruncDivUnique(9, 3, 3);
    TruncDivUnique(4, 2, 2);
    TruncDivUnique(9, 2, 4);
  }
}
