/**
 * `Vector4i`: four integer components.  Arithmetic is component-wise;
 * `/` and `%` follow Rust's truncating integer division; the ordering is
 * lexicographic on (x, y, z, w).
 */
module Vector4i {
  import opened Utils
  import opened Enums

  datatype Vector4i = Vector4i(x: int, y: int, z: int, w: int)

  const ZERO: Vector4i := Vector4i(0, 0, 0, 0)
  const ONE: Vector4i := Vector4i(1, 1, 1, 1)
  const MIN: Vector4i := Vector4i(INT_MIN, INT_MIN, INT_MIN, INT_MIN)
  const MAX: Vector4i := Vector4i(INT_MAX, INT_MAX, INT_MAX, INT_MAX)

  // ---------------------------------------------------------------------
  // Component access: index 0..3 is x, y, z, w; a larger index panics.
  // Every axis, W included, is valid here.
  // ---------------------------------------------------------------------

  function Get(v: Vector4i, index: nat): int
    requires index < 4
  {
    if index == 0 then v.x else if index == 1 then v.y else if index == 2 then v.z else v.w
  }

  /** `set`: writes one component and keeps the others. */
  function Set(v: Vector4i, index: nat, value: int): (r: Vector4i)
    requires index < 4
    ensures Get(r, index) == value
    ensures forall j: nat :: j < 4 && j != index ==> Get(r, j) == Get(v, j)
  {
    if index == 0 then v.(x := value)
    else if index == 1 then v.(y := value)
    else if index == 2 then v.(z := value)
    else v.(w := value)
  }

  lemma SetOfGet(v: Vector4i, index: nat)
    requires index < 4
    ensures Set(v, index, Get(v, index)) == v
  {
  }

  function AxisIndex(axis: Axis): (i: nat)
    ensures i < 4
  {
    match axis
    case X => 0
    case Y => 1
    case Z => 2
    case W => 3
  }

  /** `get_axis` reads the same component as `get` with the axis' index. */
  function GetAxis(v: Vector4i, axis: Axis): (r: int)
    ensures r == Get(v, AxisIndex(axis))
  {
    match axis
    case X => v.x
    case Y => v.y
    case Z => v.z
    case W => v.w
  }

  function SetAxis(v: Vector4i, axis: Axis, value: int): (r: Vector4i)
    ensures r == Set(v, AxisIndex(axis), value)
  {
    match axis
    case X => v.(x := value)
    case Y => v.(y := value)
    case Z => v.(z := value)
    case W => v.(w := value)
  }

  /** Writing an axis and reading it back round-trips; the other axes are untouched. */
  lemma SetAxisGetAxis(v: Vector4i, a: Axis, b: Axis, value: int)
    ensures GetAxis(SetAxis(v, a, value), b) == if a == b then value else GetAxis(v, b)
    ensures SetAxis(v, a, GetAxis(v, a)) == v
  {
  }

  // ---------------------------------------------------------------------
  // Component-wise helpers.
  // ---------------------------------------------------------------------

  function Abs(v: Vector4i): (r: Vector4i)
    ensures r.x >= 0 && (r.x == v.x || r.x == -v.x)
    ensures r.y >= 0 && (r.y == v.y || r.y == -v.y)
    ensures r.z >= 0 && (r.z == v.z || r.z == -v.z)
    ensures r.w >= 0 && (r.w == v.w || r.w == -v.w)
  {
    Vector4i(AbsInt(v.x), AbsInt(v.y), AbsInt(v.z), AbsInt(v.w))
  }

  predicate Within(v: Vector4i, min: Vector4i, max: Vector4i) {
    min.x <= v.x <= max.x && min.y <= v.y <= max.y && min.z <= v.z <= max.z && min.w <= v.w <= max.w
  }

  /** `clamp`: every component between the matching components of `min` and `max`. */
  function Clamp(v: Vector4i, min: Vector4i, max: Vector4i): (r: Vector4i)
    requires min.x <= max.x && min.y <= max.y && min.z <= max.z && min.w <= max.w
    ensures Within(r, min, max)
    ensures Within(v, min, max) ==> r == v
  {
    Vector4i(ClampInt(v.x, min.x, max.x), ClampInt(v.y, min.y, max.y),
             ClampInt(v.z, min.z, max.z), ClampInt(v.w, min.w, max.w))
  }

  function ClampI(v: Vector4i, min: int, max: int): (r: Vector4i)
    requires min <= max
    ensures r == Clamp(v, Vector4i(min, min, min, min), Vector4i(max, max, max, max))
  {
    Vector4i(ClampInt(v.x, min, max), ClampInt(v.y, min, max), ClampInt(v.z, min, max), ClampInt(v.w, min, max))
  }

  lemma SquareFacts(a: int)
    ensures a * a >= 0
    ensures a * a == 0 <==> a == 0
  {
    if a < 0 {
      assert a * a == (-a) * (-a);
    }
  }

  function LengthSquared(v: Vector4i): (r: int)
    ensures r >= 0
    ensures r == 0 <==> v == ZERO
  {
    SquareFacts(v.x);
    SquareFacts(v.y);
    SquareFacts(v.z);
    SquareFacts(v.w);
    v.x * v.x + v.y * v.y + v.z * v.z + v.w * v.w
  }

  function DistanceSquaredTo(v: Vector4i, to: Vector4i): (r: int)
    ensures r >= 0
    ensures r == 0 <==> v == to
  {
    var d := Sub(to, v);
    assert d == ZERO <==> v == to;
    LengthSquared(d)
  }

  lemma DistanceSquaredSymmetric(a: Vector4i, b: Vector4i)
    ensures DistanceSquaredTo(a, b) == DistanceSquaredTo(b, a)
  {
    assert (a.x - b.x) * (a.x - b.x) == (b.x - a.x) * (b.x - a.x);
    assert (a.y - b.y) * (a.y - b.y) == (b.y - a.y) * (b.y - a.y);
    assert (a.z - b.z) * (a.z - b.z) == (b.z - a.z) * (b.z - a.z);
    assert (a.w - b.w) * (a.w - b.w) == (b.w - a.w) * (b.w - a.w);
  }

  function Max(a: Vector4i, b: Vector4i): (r: Vector4i)
    ensures forall j: nat :: j < 4 ==> Get(r, j) >= Get(a, j) && Get(r, j) >= Get(b, j)
    ensures forall j: nat :: j < 4 ==> Get(r, j) == Get(a, j) || Get(r, j) == Get(b, j)
  {
    Vector4i(MaxInt(a.x, b.x), MaxInt(a.y, b.y), MaxInt(a.z, b.z), MaxInt(a.w, b.w))
  }

  function MaxI(a: Vector4i, with: int): (r: Vector4i)
    ensures r == Max(a, Vector4i(with, with, with, with))
  {
    Vector4i(MaxInt(a.x, with), MaxInt(a.y, with), MaxInt(a.z, with), MaxInt(a.w, with))
  }

  function Min(a: Vector4i, b: Vector4i): (r: Vector4i)
    ensures forall j: nat :: j < 4 ==> Get(r, j) <= Get(a, j) && Get(r, j) <= Get(b, j)
    ensures forall j: nat :: j < 4 ==> Get(r, j) == Get(a, j) || Get(r, j) == Get(b, j)
  {
    Vector4i(MinInt(a.x, b.x), MinInt(a.y, b.y), MinInt(a.z, b.z), MinInt(a.w, b.w))
  }

  function MinI(a: Vector4i, with: int): (r: Vector4i)
    ensures r == Min(a, Vector4i(with, with, with, with))
  {
    Vector4i(MinInt(a.x, with), MinInt(a.y, with), MinInt(a.z, with), MinInt(a.w, with))
  }

  /**
   * `max_axis_index`: an axis holding the largest component; on a tie the
   * first such axis in X, Y, Z, W order.
   */
  function MaxAxisIndex(v: Vector4i): (r: Axis)
    ensures forall j: nat :: j < 4 ==> Get(v, j) <= GetAxis(v, r)
    ensures forall j: nat :: j < AxisIndex(r) ==> Get(v, j) < GetAxis(v, r)
  {
    if v.x < v.y then
      if v.y < v.z then
        if v.z < v.w then W else Z
      else if v.y < v.w then W
      else Y
    else if v.x < v.z then
      if v.z < v.w then W else Z
    else if v.x < v.w then W
    else X
  }

  /**
   * `min_axis_index`: an axis holding the smallest component; on a tie the
   * last such axis in X, Y, Z, W order.
   */
  function MinAxisIndex(v: Vector4i): (r: Axis)
    ensures forall j: nat :: j < 4 ==> GetAxis(v, r) <= Get(v, j)
    ensures forall j: nat :: AxisIndex(r) < j < 4 ==> GetAxis(v, r) < Get(v, j)
  {
    if v.x < v.y then
      if v.x < v.z then
        if v.x < v.w then X else W
      else if v.z < v.w then Z
      else W
    else if v.y < v.z then
      if v.y < v.w then Y else W
    else if v.z < v.w then Z
    else W
  }

  /** `sign`: `signum` of each component. */
  function Sign(v: Vector4i): (r: Vector4i)
    ensures forall j: nat :: j < 4 ==> -1 <= Get(r, j) <= 1
    ensures forall j: nat :: j < 4 ==> (Get(r, j) == 0 <==> Get(v, j) == 0)
    ensures Mul(r, Abs(v)) == v
  {
    Vector4i(SignInt(v.x), SignInt(v.y), SignInt(v.z), SignInt(v.w))
  }

  /** `snapped`: each component to the nearest multiple of its step, ties upward. */
  function Snapped(v: Vector4i, step: Vector4i): (r: Vector4i)
    ensures forall j: nat :: j < 4 && Get(step, j) != 0 ==> TruncRem(Get(r, j), Get(step, j)) == 0
    ensures forall j: nat :: j < 4 && Get(step, j) > 0 ==>
              -Get(step, j) <= 2 * (Get(v, j) - Get(r, j)) < Get(step, j)
    ensures forall j: nat :: j < 4 && Get(step, j) < 0 ==>
              Get(step, j) < 2 * (Get(v, j) - Get(r, j)) <= -Get(step, j)
    ensures forall j: nat :: j < 4 && Get(step, j) == 0 ==> Get(r, j) == Get(v, j)
  {
    Vector4i(SnappedI(v.x, step.x), SnappedI(v.y, step.y), SnappedI(v.z, step.z), SnappedI(v.w, step.w))
  }

  function SnappedScalar(v: Vector4i, step: int): (r: Vector4i)
    ensures r == Snapped(v, Vector4i(step, step, step, step))
  {
    Vector4i(SnappedI(v.x, step), SnappedI(v.y, step), SnappedI(v.z, step), SnappedI(v.w, step))
  }

  // ---------------------------------------------------------------------
  // Operators; the compound assignments compute the same values.
  // ---------------------------------------------------------------------

  function Add(a: Vector4i, b: Vector4i): Vector4i {
    Vector4i(a.x + b.x, a.y + b.y, a.z + b.z, a.w + b.w)
  }

  function Sub(a: Vector4i, b: Vector4i): Vector4i {
    Vector4i(a.x - b.x, a.y - b.y, a.z - b.z, a.w - b.w)
  }

  function Mul(a: Vector4i, b: Vector4i): Vector4i {
    Vector4i(a.x * b.x, a.y * b.y, a.z * b.z, a.w * b.w)
  }

  function MulI(a: Vector4i, b: int): Vector4i {
    Vector4i(a.x * b, a.y * b, a.z * b, a.w * b)
  }

  function Neg(a: Vector4i): Vector4i {
    Vector4i(-a.x, -a.y, -a.z, -a.w)
  }

  predicate NoZero(b: Vector4i) {
    b.x != 0 && b.y != 0 && b.z != 0 && b.w != 0
  }

  /** `/`: truncating division per component; a zero divisor panics. */
  function Div(a: Vector4i, b: Vector4i): Vector4i
    requires NoZero(b)
  {
    Vector4i(TruncDiv(a.x, b.x), TruncDiv(a.y, b.y), TruncDiv(a.z, b.z), TruncDiv(a.w, b.w))
  }

  function DivI(a: Vector4i, b: int): (r: Vector4i)
    requires b != 0
    ensures r == Div(a, Vector4i(b, b, b, b))
  {
    Vector4i(TruncDiv(a.x, b), TruncDiv(a.y, b), TruncDiv(a.z, b), TruncDiv(a.w, b))
  }

  /** `%`: remainder with the sign of the dividend; a zero divisor panics. */
  function Rem(a: Vector4i, b: Vector4i): Vector4i
    requires NoZero(b)
  {
    Vector4i(TruncRem(a.x, b.x), TruncRem(a.y, b.y), TruncRem(a.z, b.z), TruncRem(a.w, b.w))
  }

  function RemI(a: Vector4i, b: int): (r: Vector4i)
    requires b != 0
    ensures r == Rem(a, Vector4i(b, b, b, b))
  {
    Vector4i(TruncRem(a.x, b), TruncRem(a.y, b), TruncRem(a.z, b), TruncRem(a.w, b))
  }

  /** Quotient and remainder recompose the dividend, and the remainder is smaller than the divisor. */
  lemma DivRemRecompose(a: Vector4i, b: Vector4i)
    requires NoZero(b)
    ensures Add(Mul(Div(a, b), b), Rem(a, b)) == a
    ensures forall j: nat :: j < 4 ==> AbsInt(Get(Rem(a, b), j)) < AbsInt(Get(b, j))
  {
  }

  /** `-v` negates every component, subtracts from zero, and undoes itself. */
  lemma NegFacts(a: Vector4i)
    ensures forall j: nat :: j < 4 ==> Get(Neg(a), j) == -Get(a, j)
    ensures Sub(ZERO, a) == Neg(a)
    ensures Neg(Neg(a)) == a
  {
  }

  lemma AddSubInverse(a: Vector4i, b: Vector4i)
    ensures Sub(Add(a, b), b) == a
    ensures Add(a, Neg(a)) == ZERO
    ensures Neg(Neg(a)) == a
    ensures Add(a, b) == Add(b, a)
  {
  }

  /** `!v`: true exactly for the zero vector. */
  function Not(v: Vector4i): (r: bool)
    ensures r <==> LengthSquared(v) == 0
  {
    v.x == 0 && v.y == 0 && v.z == 0 && v.w == 0
  }

  // ---------------------------------------------------------------------
  // Ordering (`PartialOrd`): x, then y, then z, then w.
  // ---------------------------------------------------------------------

  predicate Lt(a: Vector4i, b: Vector4i) {
    if a.x < b.x then true
    else if a.x == b.x then
      if a.y < b.y then true
      else if a.y == b.y then
        if a.z < b.z then true else if a.z == b.z then a.w < b.w else false
      else false
    else false
  }

  predicate Gt(a: Vector4i, b: Vector4i) {
    if a.x > b.x then true
    else if a.x == b.x then
      if a.y > b.y then true
      else if a.y == b.y then
        if a.z > b.z then true else if a.z == b.z then a.w > b.w else false
      else false
    else false
  }

  predicate Le(a: Vector4i, b: Vector4i) {
    Lt(a, b) || a == b
  }

  predicate Ge(a: Vector4i, b: Vector4i) {
    Gt(a, b) || a == b
  }

  function PartialCmp(a: Vector4i, b: Vector4i): (r: Ordering)
    ensures r == Equal <==> a == b
    ensures r == Less <==> Lt(a, b)
    ensures r == Greater <==> Lt(b, a)
  {
    if Lt(a, b) then Less else if Gt(a, b) then Greater else Equal
  }

  /** The ordering is a strict total order, and `>`, `<=`, `>=` are derived from `<`. */
  lemma OrderIsTotal(a: Vector4i, b: Vector4i, c: Vector4i)
    ensures Gt(a, b) <==> Lt(b, a)
    ensures Lt(a, b) || a == b || Lt(b, a)
    ensures !(Lt(a, b) && Lt(b, a)) && !Lt(a, a)
    ensures Le(a, b) <==> !Lt(b, a)
    ensures Ge(a, b) <==> Le(b, a)
    ensures Lt(a, b) && Lt(b, c) ==> Lt(a, c)
  {
  }

  /** Fixtures from the source's tests. */
  lemma Examples()
    ensures MaxAxisIndex(Vector4i(1, 2, 3, 4)) == W && MinAxisIndex(Vector4i(1, 2, 3, 4)) == X
    ensures LengthSquared(Vector4i(10, 10, 10, 10)) == 400
    ensures DistanceSquaredTo(Vector4i(10, 10, 10, 10), Vector4i(20, 30, 40, 50)) == 3000
    ensures Clamp(Vector4i(INT_MAX, 5, -3, 0), ZERO, Vector4i(10, 10, 10, 10)) == Vector4i(10, 5, 0, 0)
    ensures Neg(Neg(Vector4i(1, -2, 3, -4))) == Vector4i(1, -2, 3, -4)
    ensures Sign(Vector4i(7, -3, 0, 1)) == Vector4i(1, -1, 0, 1)
  {
  }

  lemma DivExamples()
    ensures Div(Vector4i(4, 5, 9, 2), Vector4i(1, 2, 3, 4)) == Vector4i(4, 2, 3, 0)
    ensures DivI(Vector4i(4, 5, 9, 2), 2) == Vector4i(2, 2, 4, 1)
  {
    TruncDivUnique(4, 1, 4);
    TruncDivUnique(5, 2, 2);
    TruncDivUnique(9, 3, 3);
    TruncDivUnique(2, 4, 0);
    TruncDivUnique(4, 2, 2);
    TruncDivUnique(9, 2, 4);
    TruncDivUnique(2, 2, 1);
  }
}
