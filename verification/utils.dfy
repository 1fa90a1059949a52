/**
 * Scalar helpers shared by every value type: tolerances, Rust's truncating
 * integer division, float remainder, snapping, and the scalar interpolation
 * formulas. `float!()` is modelled as `real` and `int!()` as `int`.
 */
module Utils {

  /** Tolerance used by the approximate comparisons. */
  const CMP_EPSILON: real := 0.00001
  /** Tolerance used for "is this normalised / a rotation" tests. */
  const UNIT_EPSILON: real := 0.00001
  /** Decimal stand-in for the float constant pi. */
  const PI: real := 3.14159265358979323846
  /** Decimal stand-in for the float constant 1/sqrt(2). */
  const FRAC_1_SQRT_2: real := 0.70710678118654752440

  function Abs(x: real): (r: real)
    ensures r >= 0.0 && (r == x || r == -x)
  {
    if x < 0.0 then -x else x
  }

  function AbsInt(x: int): (r: int)
    ensures r >= 0 && (r == x || r == -x)
  {
    if x < 0 then -x else x
  }

  function MaxReal(a: real, b: real): (r: real)
    ensures r >= a && r >= b && (r == a || r == b)
  {
    if a < b then b else a
  }

  function MinReal(a: real, b: real): (r: real)
    ensures r <= a && r <= b && (r == a || r == b)
  {
    if a < b then a else b
  }

  function MaxInt(a: int, b: int): (r: int)
    ensures r >= a && r >= b && (r == a || r == b)
  {
    if a < b then b else a
  }

  function MinInt(a: int, b: int): (r: int)
    ensures r <= a && r <= b && (r == a || r == b)
  {
    if a < b then a else b
  }

  /** `Ord::clamp` on integers; the standard library panics when `min > max`. */
  function ClampInt(x: int, min: int, max: int): (r: int)
    requires min <= max
    ensures min <= r <= max
    ensures min <= x <= max ==> r == x
    ensures x < min ==> r == min
    ensures x > max ==> r == max
  {
    if x < min then min else if x > max then max else x
  }

  /** `f32::clamp`; the standard library panics when `min > max`. */
  function ClampReal(x: real, min: real, max: real): (r: real)
    requires min <= max
    ensures min <= r <= max
    ensures min <= x <= max ==> r == x
    ensures x < min ==> r == min
    ensures x > max ==> r == max
  {
    if x < min then min else if x > max then max else x
  }

  // ---------------------------------------------------------------------
  // Rust integer division: quotient rounds toward zero, remainder takes the
  // sign of the dividend.  A zero divisor panics.
  // ---------------------------------------------------------------------

  /** `a * c <= b * c` for a non-negative factor `c`. */
  lemma MulLeRight(a: real, b: real, c: real)
    requires a <= b && c >= 0.0
    ensures a * c <= b * c
  {
  }

  /** Dividing a product by one of its non-zero factors gives the other. */
  lemma MulDivCancel(q: real, y: real)
    requires y != 0.0
    ensures (q * y) / y == q
  {
  }

  /** The sign of a quotient follows the signs of its operands. */
  lemma DivSign(x: real, y: real)
    requires y != 0.0
    ensures x >= 0.0 && y > 0.0 ==> x / y >= 0.0
    ensures x < 0.0 && y > 0.0 ==> x / y < 0.0
    ensures x >= 0.0 && y < 0.0 ==> x / y <= 0.0
    ensures x < 0.0 && y < 0.0 ==> x / y > 0.0
  {
  }

  /**
   * The identity on reals.  A square written `a * Ident(a)` is the same
   * number as `a * a`, but the solver keeps it as a product of two terms
   * instead of rewriting it into a power, on which its linear reasoning
   * gives up; sign facts about squares are therefore stated in this form.
   */
  function Ident(a: real): real {
    a
  }

  /** A square is never negative, and positive away from zero. */
  lemma RealSquareFacts(a: real)
    ensures a * Ident(a) == a * a
    ensures a * Ident(a) >= 0.0
    ensures a != 0.0 ==> a * Ident(a) > 0.0
    ensures a == 0.0 ==> a * Ident(a) == 0.0
  {
    if a > 0.0 {
      MulLtRight(0.0, a, Ident(a));
    } else if a < 0.0 {
      MulLtRight(0.0, -a, -Ident(a));
    }
  }

  /** `a * c < b * c` for a positive factor `c`. */
  lemma MulLtRight(a: real, b: real, c: real)
    requires a < b && c > 0.0
    ensures a * c < b * c
  {
  }

  /**
   * Rust `/` on integers.  The remainder it leaves has the sign of the
   * dividend and is smaller than the divisor in magnitude, which is what
   * distinguishes truncation from Dafny's Euclidean division.
   */
  function TruncDiv(a: int, b: int): (q: int)
    requires b != 0
    ensures a >= 0 ==> 0 <= a - q * b < AbsInt(b)
    ensures a < 0 ==> -AbsInt(b) < a - q * b <= 0
  {
    if a >= 0 then
      (if b > 0 then
         EuclidBound(a, b);
         a / b
       else
         var q := a / -b;
         EuclidBound(a, -b);
         NegMul(q, b);
         -q)
    else
      (if b > 0 then
         var q := -a / b;
         EuclidBound(-a, b);
         NegMul(q, b);
         -q
       else
         var q := -a / -b;
         EuclidBound(-a, -b);
         NegMul(q, b);
         q)
  }

  /** Euclidean division of a non-negative dividend by a positive divisor. */
  lemma EuclidBound(a: int, c: int)
    requires a >= 0 && c > 0
    ensures 0 <= a - (a / c) * c < c
  {
    assert a == (a / c) * c + a % c;
  }

  /** Negating either factor negates the product. */
  lemma NegMul(x: int, y: int)
    ensures (-x) * y == -(x * y)
    ensures x * (-y) == -(x * y)
  {
  }

  /** Multiplication distributes over a difference on the left. */
  lemma MulSubLeft(q: int, p: int, b: int)
    ensures (q - p) * b == q * b - p * b
  {
  }

  /** Rust `%` on integers: the remainder left by `TruncDiv`. */
  function TruncRem(a: int, b: int): (m: int)
    requires b != 0
    ensures a == TruncDiv(a, b) * b + m
    ensures a >= 0 ==> 0 <= m < AbsInt(b)
    ensures a < 0 ==> -AbsInt(b) < m <= 0
  {
    a - TruncDiv(a, b) * b
  }

  /** The truncating quotient is the only one whose remainder has the dividend's sign and is smaller than the divisor. */
  lemma {:induction false} TruncDivUnique(a: int, b: int, q: int)
    requires b != 0
    requires a >= 0 ==> 0 <= a - q * b < AbsInt(b)
    requires a < 0 ==> -AbsInt(b) < a - q * b <= 0
    ensures q == TruncDiv(a, b)
  {
    var p := TruncDiv(a, b);
    var d := (a - p * b) - (a - q * b);
    assert -AbsInt(b) < d < AbsInt(b);
    MulSubLeft(q, p, b);
    assert d == (q - p) * b;
    if q != p {
      MultipleAtLeast(q - p, b);
      assert false;
    }
  }

  /** A non-zero multiple of `b` is at least `|b|` in magnitude. */
  lemma MultipleAtLeast(k: int, b: int)
    requires k != 0
    ensures AbsInt(k * b) >= AbsInt(b)
  {
    if k < 0 && b < 0 { Pos(-k, -b); assert k * b == (-k) * (-b); }
    else if k < 0 && b > 0 { Pos(-k, b); assert k * b == -((-k) * b); }
    else if k > 0 && b < 0 { Pos(k, -b); assert k * b == -(k * (-b)); }
    else if k > 0 && b > 0 { Pos(k, b); }
  }

  lemma Pos(k: int, b: int)
    requires k > 0 && b > 0
    ensures k * b >= b
  {
  }

  lemma TruncDivRemExamples()
    ensures TruncDiv(5, 2) == 2 && TruncDiv(-5, 2) == -2 && TruncDiv(5, -2) == -2
    ensures TruncRem(5, 2) == 1 && TruncRem(-5, 2) == -1 && TruncRem(5, -2) == 1
  {
  }

  // ---------------------------------------------------------------------
  // Real to integer conversions.
  // ---------------------------------------------------------------------

  /** The float-to-integer cast and `f.trunc()`: rounds toward zero. */
  function Trunc(r: real): (n: int)
    ensures AbsInt(n) as real <= Abs(r) < (AbsInt(n) + 1) as real
    ensures n == 0 || ((n > 0) == (r > 0.0))
  {
    if r >= 0.0 then r.Floor else -((-r).Floor)
  }

  /** `f.round()`: nearest integer, halves away from zero. */
  function Round(r: real): (n: int)
    ensures -0.5 <= r - n as real <= 0.5
    ensures r - n as real == 0.5 ==> r < 0.0
    ensures r - n as real == -0.5 ==> r > 0.0
  {
    if r >= 0.0 then
      var n := (r + 0.5).Floor;
      assert n as real <= r + 0.5 < n as real + 1.0;
      n
    else
      var n := (-r + 0.5).Floor;
      assert n as real <= -r + 0.5 < n as real + 1.0;
      -n
  }

  // ---------------------------------------------------------------------
  // Approximate comparisons.
  // ---------------------------------------------------------------------

  /** Relative tolerance of `IsEqualApprox`, never below `CMP_EPSILON`. */
  function Tolerance(a: real): (t: real)
    ensures t >= CMP_EPSILON && t >= CMP_EPSILON * Abs(a)
    ensures t == CMP_EPSILON || t == CMP_EPSILON * Abs(a)
  {
    if CMP_EPSILON * Abs(a) < CMP_EPSILON then CMP_EPSILON else CMP_EPSILON * Abs(a)
  }

  predicate IsEqualApprox(a: real, b: real)
  {
    a == b || Abs(a - b) < Tolerance(a)
  }

  predicate IsEqualApproxWithTolerance(a: real, b: real, tolerance: real)
  {
    a == b || Abs(a - b) < tolerance
  }

  predicate IsZeroApprox(s: real)
  {
    Abs(s) < CMP_EPSILON
  }

  /** Equality is always approximate equality, and near-zero means approximately equal to zero. */
  lemma ApproxFacts(a: real, s: real)
    ensures IsEqualApprox(a, a)
    ensures IsEqualApprox(0.0, s) <==> IsZeroApprox(s)
    ensures IsZeroApprox(s) <==> -CMP_EPSILON < s < CMP_EPSILON
  {
  }

  /** The tolerance is scaled by the first argument only, so the relation is not symmetric. */
  lemma IsEqualApproxNotSymmetric()
    ensures !IsEqualApprox(100000.0, 100001.000005)
    ensures IsEqualApprox(100001.000005, 100000.0)
  {
    assert Tolerance(100000.0) == 1.0;
    assert Tolerance(100001.000005) == 1.00001000005;
  }

  // ---------------------------------------------------------------------
  // FloatExt.
  // ---------------------------------------------------------------------

  function Lerp(from: real, to: real, t: real): (r: real)
    ensures t == 0.0 ==> r == from
    ensures t == 1.0 ==> r == to
  {
    from + (to - from) * t
  }

  /** A weight in [0, 1] keeps the interpolated value between the two ends. */
  lemma LerpWithin(from: real, to: real, t: real)
    requires from <= to && 0.0 <= t <= 1.0
    ensures from <= Lerp(from, to, t) <= to
  {
    var d := to - from;
    MulLeRight(0.0, t, d);
    MulLeRight(t, 1.0, d);
    assert 0.0 * d == 0.0 && 1.0 * d == d && t * d == d * t;
    assert 0.0 <= d * t <= d;
    assert Lerp(from, to, t) == from + d * t;
  }

  /** `Lerp` agrees with the weighted-average form `(1 - t) * from + t * to`. */
  lemma LerpIsWeightedAverage(from: real, to: real, t: real)
    ensures Lerp(from, to, t) == (1.0 - t) * from + t * to
  {
  }

  function Sign(x: real): (r: real)
    ensures r == 0.0 <==> x == 0.0
    ensures r == 1.0 <==> x > 0.0
    ensures r == -1.0 <==> x < 0.0
    ensures r * x == Abs(x)
  {
    if x == 0.0 then 0.0 else if x > 0.0 then 1.0 else -1.0
  }

  function SignInt(x: int): (r: int)
    ensures r == 0 <==> x == 0
    ensures r == 1 <==> x > 0
    ensures r == -1 <==> x < 0
    ensures r * x == AbsInt(x)
  {
    if x == 0 then 0 else if x > 0 then 1 else -1
  }

  /**
   * `safe_acos`: inputs outside [-1, 1] are clamped to the ends of the
   * range of arccos; `acos` stands for the float arccos, which is not
   * modelled.
   */
  function SafeAcos(x: real, acos: real -> real): (r: real)
    ensures x < -1.0 ==> r == PI
    ensures x > 1.0 ==> r == 0.0
    ensures -1.0 <= x <= 1.0 ==> r == acos(x)
  {
    if x < -1.0 then PI else if x > 1.0 then 0.0 else acos(x)
  }

  /**
   * The two facts about the float square root that the branch decisions
   * depend on: it is non-negative, and zero exactly at zero.  The value
   * itself is not modelled.
   */
  ghost predicate SqrtLike(sqrt: real -> real)
  {
    forall t: real :: t >= 0.0 ==> sqrt(t) >= 0.0 && (sqrt(t) == 0.0 <==> t == 0.0)
  }

  // ---------------------------------------------------------------------
  // Remainders and snapping.  Each step that multiplies or divides by a
  // variable is isolated in a small lemma stated in quotient form.
  // ---------------------------------------------------------------------

  /** `q` is a whole number. */
  predicate IsIntegral(q: real)
  {
    q.Floor as real == q
  }

  lemma DivDistrib(x: real, q: real, y: real)
    requires y != 0.0
    ensures (x - q * y) / y == x / y - q
  {
  }

  lemma DivOfMultiple(a: real, q: real, y: real)
    requires y != 0.0 && a == q * y
    ensures a / y == q
  {
  }

  lemma QuotSign(a: real, y: real)
    requires y != 0.0
    ensures a / y == 0.0 <==> a == 0.0
    ensures a / y > 0.0 <==> (a > 0.0 && y > 0.0) || (a < 0.0 && y < 0.0)
  {
  }

  /** A quotient strictly between -1 and 1 means a numerator smaller than the divisor. */
  lemma QuotBelowOne(a: real, y: real)
    requires y != 0.0 && -1.0 < a / y < 1.0
    ensures Abs(a) < Abs(y)
  {
  }

  /** A quotient in [-1/2, 1/2) places twice the numerator between the divisor's bounds. */
  lemma QuotHalfBounds(a: real, y: real)
    requires y != 0.0 && -0.5 <= a / y < 0.5
    ensures y > 0.0 ==> -y <= 2.0 * a < y
    ensures y < 0.0 ==> y < 2.0 * a <= -y
  {
  }

  /** Float `%`: the remainder left by the quotient truncated toward zero. */
  function FMod(x: real, y: real): (m: real)
    requires y != 0.0
    ensures Abs(m) < Abs(y)
    ensures m == 0.0 || ((m > 0.0) == (x > 0.0))
    ensures IsIntegral((x - m) / y)
  {
    var q := Trunc(x / y);
    FModFacts(x, y, q);
    x - q as real * y
  }

  lemma FModFacts(x: real, y: real, q: int)
    requires y != 0.0 && q == Trunc(x / y)
    ensures Abs(x - q as real * y) < Abs(y)
    ensures x - q as real * y == 0.0 || ((x - q as real * y > 0.0) == (x > 0.0))
    ensures IsIntegral((x - (x - q as real * y)) / y)
  {
    var m := x - q as real * y;
    FModQuotient(x, y, q, m);
    FModBound(x, y, q, m);
    FModSign(x, y, q, m);
    FModIntegral(x, y, q, m);
  }

  /** The remainder divided by the divisor is the fractional part of `x / y`. */
  lemma FModQuotient(x: real, y: real, q: int, m: real)
    requires y != 0.0 && m == x - q as real * y
    ensures m / y == x / y - q as real
  {
    DivDistrib(x, q as real, y);
  }

  lemma FModBound(x: real, y: real, q: int, m: real)
    requires y != 0.0 && q == Trunc(x / y) && m == x - q as real * y
    ensures Abs(m) < Abs(y)
  {
    FModQuotient(x, y, q, m);
    assert -1.0 < x / y - q as real < 1.0;
    QuotBelowOne(m, y);
  }

  lemma FModSign(x: real, y: real, q: int, m: real)
    requires y != 0.0 && q == Trunc(x / y) && m == x - q as real * y
    ensures m == 0.0 || ((m > 0.0) == (x > 0.0))
  {
    var d := x / y;
    FModQuotient(x, y, q, m);
    assert (d > 0.0 ==> d - q as real >= 0.0) && (d < 0.0 ==> d - q as real <= 0.0);
    QuotSign(m, y);
    QuotSign(x, y);
  }

  lemma FModIntegral(x: real, y: real, q: int, m: real)
    requires y != 0.0 && m == x - q as real * y
    ensures IsIntegral((x - m) / y)
  {
    var qr := q as real;
    assert x - m == qr * y;
    assert (x - m) / y == qr by { DivOfMultiple(x - m, qr, y); }
    assert qr.Floor == q;
  }

  /**
   * `posmod_f`: the float remainder moved into the half-open range between
   * zero and the divisor.  A zero divisor yields NaN in the source and is
   * excluded here.
   */
  function PosmodF(x: real, y: real): (r: real)
    requires y != 0.0
    ensures y > 0.0 ==> 0.0 <= r < y
    ensures y < 0.0 ==> y < r <= 0.0
    ensures IsIntegral((x - r) / y)
  {
    var v := FMod(x, y);
    if (v < 0.0 && y > 0.0) || (v > 0.0 && y < 0.0) then
      var k := (x - v) / y;
      DivDistrib(x - v, 1.0, y);
      assert (x - v - 1.0 * y) / y == k - 1.0;
      assert x - (v + y) == x - v - 1.0 * y;
      assert k.Floor as real == k;
      assert (k - 1.0).Floor == k.Floor - 1;
      v + y
    else
      v
  }

  /** posmod(-1.2, 2) = 0.8, posmod(-3.4, 2) = 0.6 and posmod(-5.6, 2) = 0.4. */
  lemma PosmodFExamples()
    ensures PosmodF(-1.2, 2.0) == 0.8
    ensures PosmodF(-3.4, 2.0) == 0.6
    ensures PosmodF(-5.6, 2.0) == 0.4
  {
    assert Trunc(-1.2 / 2.0) == 0;
    assert Trunc(-3.4 / 2.0) == -1;
    assert Trunc(-5.6 / 2.0) == -2;
  }

  /**
   * `snapped`: the multiple of `step` nearest to `value`, halves rounding
   * toward the larger quotient; a zero step leaves the value unchanged.
   */
  function Snapped(value: real, step: real): (r: real)
    ensures step == 0.0 ==> r == value
    ensures step != 0.0 ==> IsIntegral(r / step)
    ensures step > 0.0 ==> -step <= 2.0 * (value - r) < step
    ensures step < 0.0 ==> step < 2.0 * (value - r) <= -step
  {
    if step != 0.0 then
      var k := (value / step + 0.5).Floor;
      SnapBounds(value, step, k);
      DivOfMultiple(k as real * step, k as real, step);
      assert (k as real).Floor == k;
      k as real * step
    else
      value
  }

  lemma SnapBounds(value: real, step: real, k: int)
    requires step != 0.0 && k == (value / step + 0.5).Floor
    ensures step > 0.0 ==> -step <= 2.0 * (value - k as real * step) < step
    ensures step < 0.0 ==> step < 2.0 * (value - k as real * step) <= -step
  {
    DivDistrib(value, k as real, step);
    QuotHalfBounds(value - k as real * step, step);
  }

  /** `snapped_i`: `snapped` on integers, computed through floats. */
  function SnappedI(value: int, step: int): (r: int)
    ensures step == 0 ==> r == value
    ensures step != 0 ==> TruncRem(r, step) == 0
    ensures step > 0 ==> -step <= 2 * (value - r) < step
    ensures step < 0 ==> step < 2 * (value - r) <= -step
  {
    if step != 0 then
      var k := (value as real / step as real + 0.5).Floor;
      SnapBounds(value as real, step as real, k);
      RemOfMultiple(k, step);
      k * step
    else
      value
  }

  lemma RemOfMultiple(k: int, step: int)
    requires step != 0
    ensures TruncRem(k * step, step) == 0
  {
    TruncDivUnique(k * step, step, k);
  }

  /** (1,3) snapped to (4,2) is (0,4); -7 snapped to 5 is -5. */
  lemma SnappedIExamples()
    ensures SnappedI(1, 4) == 0 && SnappedI(3, 2) == 4 && SnappedI(-7, 5) == -5
  {
    assert (1 as real / 4 as real + 0.5).Floor == 0;
    assert (3 as real / 2 as real + 0.5).Floor == 2;
    assert (-7 as real / 5 as real + 0.5).Floor == -1;
  }

  // ---------------------------------------------------------------------
  // Interpolation formulas.
  // ---------------------------------------------------------------------

  /** Cubic Catmull-Rom style interpolation between `from` and `to`. */
  function CubicInterpolate(from: real, to: real, pre: real, post: real, weight: real): (r: real)
    ensures weight == 0.0 ==> r == from
    ensures weight == 1.0 ==> r == to
  {
    0.5 * ((from * 2.0)
      + (-pre + to) * weight
      + (2.0 * pre - 5.0 * from + 4.0 * to - post) * (weight * weight)
      + (-pre + 3.0 * from - 3.0 * to + post) * (weight * weight * weight))
  }

  lemma CubicInterpolateExample()
    ensures CubicInterpolate(1.0, 4.0, 0.0, 7.0, 0.5) == 2.375
  {
  }

  /** The cubic Bezier curve through `start` and `end` with two control points. */
  function BezierInterpolate(start: real, control1: real, control2: real, end: real, t: real): (r: real)
    ensures t == 0.0 ==> r == start
    ensures t == 1.0 ==> r == end
  {
    var omt := 1.0 - t;
    var omt2 := omt * omt;
    var omt3 := omt2 * omt;
    var t2 := t * t;
    var t3 := t2 * t;
    start * omt3 + control1 * omt2 * t * 3.0 + control2 * omt * t2 * 3.0 + end * t3
  }

  /**
   * Barry-Goldman cubic interpolation with explicit key times.  Every
   * division is guarded by a test of its divisor, so the function is total.
   */
  function CubicInterpolateInTime(from: real, to: real, pre: real, post: real, weight: real,
                                  toT: real, preT: real, postT: real): real
  {
    var t := Lerp(0.0, toT, weight);
    var a1 := Lerp(pre, from, if preT == 0.0 then 0.0 else (t - preT) / -preT);
    var a2 := Lerp(from, to, if toT == 0.0 then 0.5 else t / toT);
    var a3 := Lerp(to, post, if postT - toT == 0.0 then 1.0 else (t - toT) / (postT - toT));
    var b1 := Lerp(a1, a2, if toT - preT == 0.0 then 0.0 else (t - preT) / (toT - preT));
    var b2 := Lerp(a2, a3, if postT == 0.0 then 1.0 else t / postT);
    Lerp(b1, b2, if toT == 0.0 then 0.5 else t / toT)
  }

  /** With non-zero `pre_t` and `to_t`, weight 0 lands on `from`, whatever `post_t` is. */
  lemma CubicInterpolateInTimeStart(from: real, to: real, pre: real, post: real,
                                    toT: real, preT: real, postT: real)
    requires preT != 0.0 && toT != 0.0
    ensures CubicInterpolateInTime(from, to, pre, post, 0.0, toT, preT, postT) == from
  {
    var t := Lerp(0.0, toT, 0.0);
    assert t == 0.0;
    assert (t - preT) / -preT == 1.0;
    assert t / toT == 0.0;
  }

  /** With distinct key times, weight 1 lands on `to`. */
  lemma CubicInterpolateInTimeEnd(from: real, to: real, pre: real, post: real,
                                  toT: real, preT: real, postT: real)
    requires toT != 0.0 && postT != toT && toT != preT
    ensures CubicInterpolateInTime(from, to, pre, post, 1.0, toT, preT, postT) == to
  {
    var t := Lerp(0.0, toT, 1.0);
    assert t == toT;
    assert t / toT == 1.0;
    assert t - toT == 0.0;
    assert t - preT == toT - preT;
  }
}
