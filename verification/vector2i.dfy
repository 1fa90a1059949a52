/**
 * `Vector2i`: a pair of integer components.  Arithmetic is component-wise;
 * `/` and `%` follow Rust's truncating integer division; the ordering is
 * lexicographic on (x, y).
 */
module Vector2i {
  import opened Utils
  import opened Enums

  datatype Vector2i = Vector2i(x: int, y: int)

  const ZERO: Vector2i := Vector2i(0, 0)
  const ONE: Vector2i := Vector2i(1, 1)
  const MIN: Vector2i := Vector2i(INT_MIN, INT_MIN)
  const MAX: Vector2i := Vector2i(INT_MAX, INT_MAX)
  const LEFT: Vector2i := Vector2i(-1, 0)
  const RIGHT: Vector2i := Vector2i(1, 0)
  /** Y points down in 2D, so `UP` is -Y. */
  const UP: Vector2i := Vector2i(0, -1)
  const DOWN: Vector2i := Vector2i(0, 1)

  // ---------------------------------------------------------------------
  // Component access.  An index other than 0 or 1, or an axis other than
  // X or Y, panics in the source.
  // ---------------------------------------------------------------------

  function Get(v: Vector2i, index: nat): int
    requires index < 2
  {
    if index == 0 then v.x else v.y
  }

  /** `set`: writes one component and keeps the other. */
  function Set(v: Vector2i, index: nat, value: int): (r: Vector2i)
    requires index < 2
    ensures Get(r, index) == value
    ensures forall j: nat :: j < 2 && j != index ==> Get(r, j) == Get(v, j)
  {
    if index == 0 then v.(x := value) else v.(y := value)
  }

  lemma SetOfGet(v: Vector2i, index: nat)
    requires index < 2
    ensures Set(v, index, Get(v, index)) == v
  {
  }

  predicate IsAxis(axis: Axis) {
    axis == X || axis == Y
  }

  /** `get_axis` reads the same component as `get` with the axis' index. */
  function GetAxis(v: Vector2i, axis: Axis): (r: int)
    requires IsAxis(axis)
    ensures r == Get(v, if axis == X then 0 else 1)
  {
    match axis
    case X => v.x
    case Y => v.y
  }

  function SetAxis(v: Vector2i, axis: Axis, value: int): (r: Vector2i)
    requires IsAxis(axis)
    ensures r == Set(v, if axis == X then 0 else 1, value)
  {
    match axis
    case X => v.(x := value)
    case Y => v.(y := value)
  }

  /** Writing an axis and reading it back round-trips; the other axis is untouched. */
  lemma SetAxisGetAxis(v: Vector2i, a: Axis, b: Axis, value: int)
    requires IsAxis(a) && IsAxis(b)
    ensures GetAxis(SetAxis(v, a, value), b) == if a == b then value else GetAxis(v, b)
    ensures SetAxis(v, a, GetAxis(v, a)) == v
  {
  }

  // ---------------------------------------------------------------------
  // Component-wise helpers.
  // ---------------------------------------------------------------------

  function Abs(v: Vector2i): (r: Vector2i)
    ensures r.x >= 0 && (r.x == v.x || r.x == -v.x)
    ensures r.y >= 0 && (r.y == v.y || r.y == -v.y)
  {
    Vector2i(AbsInt(v.x), AbsInt(v.y))
  }

  /** `aspect`: the ratio x / y as a float; a zero `y` gives inf or NaN there. */
  function Aspect(v: Vector2i): (r: real)
    requires v.y != 0
    ensures r * v.y as real == v.x as real
  {
    v.x as real / v.y as real
  }

  /** `clamp`: every component between the matching components of `min` and `max`. */
  function Clamp(v: Vector2i, min: Vector2i, max: Vector2i): (r: Vector2i)
    requires min.x <= max.x && min.y <= max.y
    ensures min.x <= r.x <= max.x && min.y <= r.y <= max.y
    ensures min.x <= v.x <= max.x && min.y <= v.y <= max.y ==> r == v
  {
    Vector2i(ClampInt(v.x, min.x, max.x), ClampInt(v.y, min.y, max.y))
  }

  function ClampI(v: Vector2i, min: int, max: int): (r: Vector2i)
    requires min <= max
    ensures min <= r.x <= max && min <= r.y <= max
    ensures r == Clamp(v, Vector2i(min, min), Vector2i(max, max))
  {
    Vector2i(ClampInt(v.x, min, max), ClampInt(v.y, min, max))
  }

  /** Clamping is idempotent and only moves a component to the nearer bound. */
  lemma ClampIdempotent(v: Vector2i, min: Vector2i, max: Vector2i)
    requires min.x <= max.x && min.y <= max.y
    ensures Clamp(Clamp(v, min, max), min, max) == Clamp(v, min, max)
    ensures v.x < min.x ==> Clamp(v, min, max).x == min.x
    ensures v.y > max.y ==> Clamp(v, min, max).y == max.y
  {
  }

  function LengthSquared(v: Vector2i): (r: int)
    ensures r >= 0
    ensures r == 0 <==> v == ZERO
  {
    SquareFacts(v.x);
    SquareFacts(v.y);
    v.x * v.x + v.y * v.y
  }

  lemma SquareFacts(a: int)
    ensures a * a >= 0
    ensures a * a == 0 <==> a == 0
  {
    if a < 0 {
      assert a * a == (-a) * (-a);
    }
  }

  function DistanceSquaredTo(v: Vector2i, to: Vector2i): (r: int)
    ensures r >= 0
    ensures r == 0 <==> v == to
  {
    var d := Sub(to, v);
    assert d == ZERO <==> v == to;
    LengthSquared(d)
  }

  lemma DistanceSquaredSymmetric(a: Vector2i, b: Vector2i)
    ensures DistanceSquaredTo(a, b) == DistanceSquaredTo(b, a)
  {
    assert Sub(a, b) == Neg(Sub(b, a));
    assert (a.x - b.x) * (a.x - b.x) == (b.x - a.x) * (b.x - a.x);
    assert (a.y - b.y) * (a.y - b.y) == (b.y - a.y) * (b.y - a.y);
  }

  function Max(a: Vector2i, b: Vector2i): (r: Vector2i)
    ensures r.x >= a.x && r.x >= b.x && (r.x == a.x || r.x == b.x)
    ensures r.y >= a.y && r.y >= b.y && (r.y == a.y || r.y == b.y)
  {
    Vector2i(MaxInt(a.x, b.x), MaxInt(a.y, b.y))
  }

  function MaxI(a: Vector2i, with: int): (r: Vector2i)
    ensures r == Max(a, Vector2i(with, with))
  {
    Vector2i(MaxInt(a.x, with), MaxInt(a.y, with))
  }

  function Min(a: Vector2i, b: Vector2i): (r: Vector2i)
    ensures r.x <= a.x && r.x <= b.x && (r.x == a.x || r.x == b.x)
    ensures r.y <= a.y && r.y <= b.y && (r.y == a.y || r.y == b.y)
  {
    Vector2i(MinInt(a.x, b.x), MinInt(a.y, b.y))
  }

  function MinI(a: Vector2i, with: int): (r: Vector2i)
    ensures r == Min(a, Vector2i(with, with))
  {
    Vector2i(MinInt(a.x, with), MinInt(a.y, with))
  }

  /** `max_axis_index`: the axis holding the largest component, X on a tie. */
  function MaxAxisIndex(v: Vector2i): (r: Axis)
    ensures IsAxis(r)
    ensures GetAxis(v, r) >= v.x && GetAxis(v, r) >= v.y
    ensures v.x == v.y ==> r == X
  {
    if v.x < v.y then Y else X
  }

  /** `min_axis_index`: the axis holding the smallest component, Y on a tie. */
  function MinAxisIndex(v: Vector2i): (r: Axis)
    ensures IsAxis(r)
    ensures GetAxis(v, r) <= v.x && GetAxis(v, r) <= v.y
    ensures v.x == v.y ==> r == Y
  {
    if v.x < v.y then X else Y
  }

  /** `sign`: `signum` of each component. */
  function Sign(v: Vector2i): (r: Vector2i)
    ensures r.x * v.x == AbsInt(v.x) && -1 <= r.x <= 1
    ensures r.y * v.y == AbsInt(v.y) && -1 <= r.y <= 1
    ensures (r.x == 0 <==> v.x == 0) && (r.y == 0 <==> v.y == 0)
    ensures Mul(r, Abs(v)) == v
  {
    Vector2i(SignInt(v.x), SignInt(v.y))
  }

  /** `snapped`: each component to the nearest multiple of its step, ties upward. */
  function Snapped(v: Vector2i, step: Vector2i): (r: Vector2i)
    ensures step.x != 0 ==> TruncRem(r.x, step.x) == 0
    ensures step.y != 0 ==> TruncRem(r.y, step.y) == 0
    ensures step.x > 0 ==> -step.x <= 2 * (v.x - r.x) < step.x
    ensures step.y > 0 ==> -step.y <= 2 * (v.y - r.y) < step.y
    ensures step.x < 0 ==> step.x < 2 * (v.x - r.x) <= -step.x
    ensures step.y < 0 ==> step.y < 2 * (v.y - r.y) <= -step.y
    ensures step.x == 0 ==> r.x == v.x
    ensures step.y == 0 ==> r.y == v.y
  {
    Vector2i(SnappedI(v.x, step.x), SnappedI(v.y, step.y))
  }

  function SnappedScalar(v: Vector2i, step: int): (r: Vector2i)
    ensures r == Snapped(v, Vector2i(step, step))
  {
    Vector2i(SnappedI(v.x, step), SnappedI(v.y, step))
  }

  /** (1,3) snapped to (4,2) is (0,4). */
  lemma SnappedExample()
    ensures Snapped(Vector2i(1, 3), Vector2i(4, 2)) == Vector2i(0, 4)
  {
    SnappedIExamples();
    assert SnappedI(3, 2) == 4 by {
      SnappedIExamples();
    }
  }

  // ---------------------------------------------------------------------
  // Operators.  The compound assignments (`+=`, `*=`, ...) compute the same
  // values as the binary operators; `+= int` and `-= int` add or subtract
  // the scalar from both components.
  // ---------------------------------------------------------------------

  function Add(a: Vector2i, b: Vector2i): Vector2i {
    Vector2i(a.x + b.x, a.y + b.y)
  }

  function Sub(a: Vector2i, b: Vector2i): Vector2i {
    Vector2i(a.x - b.x, a.y - b.y)
  }

  function Mul(a: Vector2i, b: Vector2i): Vector2i {
    Vector2i(a.x * b.x, a.y * b.y)
  }

  function MulI(a: Vector2i, b: int): Vector2i {
    Vector2i(a.x * b, a.y * b)
  }

  function AddI(a: Vector2i, b: int): Vector2i {
    Vector2i(a.x + b, a.y + b)
  }

  function SubI(a: Vector2i, b: int): Vector2i {
    Vector2i(a.x - b, a.y - b)
  }

  function Neg(a: Vector2i): Vector2i {
    Vector2i(-a.x, -a.y)
  }

  /** `/`: truncating division per component; a zero divisor panics. */
  function Div(a: Vector2i, b: Vector2i): Vector2i
    requires b.x != 0 && b.y != 0
  {
    Vector2i(TruncDiv(a.x, b.x), TruncDiv(a.y, b.y))
  }

  function DivI(a: Vector2i, b: int): (r: Vector2i)
    requires b != 0
    ensures r == Div(a, Vector2i(b, b))
  {
    Vector2i(TruncDiv(a.x, b), TruncDiv(a.y, b))
  }

  /** `%`: remainder with the sign of the dividend; a zero divisor panics. */
  function Rem(a: Vector2i, b: Vector2i): Vector2i
    requires b.x != 0 && b.y != 0
  {
    Vector2i(TruncRem(a.x, b.x), TruncRem(a.y, b.y))
  }

  function RemI(a: Vector2i, b: int): (r: Vector2i)
    requires b != 0
    ensures r == Rem(a, Vector2i(b, b))
  {
    Vector2i(TruncRem(a.x, b), TruncRem(a.y, b))
  }

  /** Quotient and remainder recompose the dividend, and the remainder is smaller than the divisor. */
  lemma DivRemRecompose(a: Vector2i, b: Vector2i)
    requires b.x != 0 && b.y != 0
    ensures Add(Mul(Div(a, b), b), Rem(a, b)) == a
    ensures AbsInt(Rem(a, b).x) < AbsInt(b.x) && AbsInt(Rem(a, b).y) < AbsInt(b.y)
  {
  }

  /** (5,9) / (2,3) is (2,3); (5,9) / 2 is (2,4); (-5,9) % 2 is (-1,1). */
  lemma DivExamples()
    ensures Div(Vector2i(5, 9), Vector2i(2, 3)) == Vector2i(2, 3)
    ensures DivI(Vector2i(5, 9), 2) == Vector2i(2, 4)
    ensures RemI(Vector2i(-5, 9), 2) == Vector2i(-1, 1)
  {
    TruncDivRemExamples();
    TruncDivUnique(9, 3, 3);
    TruncDivUnique(9, 2, 4);
  }

  /** Addition and subtraction undo each other; negation is an involution and the additive inverse. */
  lemma AddSubInverse(a: Vector2i, b: Vector2i)
    ensures Sub(Add(a, b), b) == a
    ensures Add(a, Neg(a)) == ZERO
    ensures Neg(Neg(a)) == a
    ensures Add(a, b) == Add(b, a)
    ensures SubI(AddI(a, 3), 3) == a
  {
  }

  /** `!v`: true exactly for the zero vector. */
  function Not(v: Vector2i): (r: bool)
    ensures r <==> LengthSquared(v) == 0
  {
    v.x == 0 && v.y == 0
  }

  // ---------------------------------------------------------------------
  // Ordering (`PartialOrd`): x first, then y.
  // ---------------------------------------------------------------------

  predicate Lt(a: Vector2i, b: Vector2i) {
    if a.x < b.x then true else if a.x == b.x then a.y < b.y else false
  }

  predicate Gt(a: Vector2i, b: Vector2i) {
    if a.x > b.x then true else if a.x == b.x then a.y > b.y else false
  }

  predicate Le(a: Vector2i, b: Vector2i) {
    Lt(a, b) || a == b
  }

  predicate Ge(a: Vector2i, b: Vector2i) {
    Gt(a, b) || a == b
  }

  function PartialCmp(a: Vector2i, b: Vector2i): (r: Ordering)
    ensures r == Equal <==> a == b
    ensures r == Less <==> Lt(a, b)
    ensures r == Greater <==> Lt(b, a)
  {
    if Lt(a, b) then Less else if Gt(a, b) then Greater else Equal
  }

  /** The ordering is a strict total order, and `>`, `<=`, `>=` are derived from `<`. */
  lemma OrderIsTotal(a: Vector2i, b: Vector2i, c: Vector2i)
    ensures Gt(a, b) <==> Lt(b, a)
    ensures Lt(a, b) || a == b || Lt(b, a)
    ensures !(Lt(a, b) && Lt(b, a)) && !Lt(a, a)
    ensures Le(a, b) <==> !Lt(b, a)
    ensures Ge(a, b) <==> Le(b, a)
    ensures Lt(a, b) && Lt(b, c) ==> Lt(a, c)
  {
  }

  /** Fixtures: squared distance from (10,10) to (20,30); axis choice on (1,2) and on a tie. */
  lemma MetricExamples()
    ensures DistanceSquaredTo(Vector2i(10, 10), Vector2i(20, 30)) == 500
    ensures MaxAxisIndex(Vector2i(1, 2)) == Y && MinAxisIndex(Vector2i(1, 2)) == X
    ensures MaxAxisIndex(Vector2i(3, 3)) == X && MinAxisIndex(Vector2i(3, 3)) == Y
  {
  }
}
