/**
 * `Rect2`: an axis-aligned rectangle with real coordinates, given by its
 * top-left `position` and its `size`.  A point belongs to it when it lies on
 * or after the top-left edges and strictly before the bottom-right ones.
 */
module Rect2 {
  import opened Utils
  import opened Enums
  import opened Vector2
  import V2 = Vector2

  datatype Rect2 = Rect2(position: Vector2, size: Vector2)

  /** `Rect2::default()`: zero position and zero size. */
  const DEFAULT: Rect2 := Rect2(ZERO, ZERO)

  function NewFromDimension(x: real, y: real, width: real, height: real): (r: Rect2)
    ensures r.position == Vector2(x, y) && r.size == Vector2(width, height)
  {
    Rect2(Vector2(x, y), Vector2(width, height))
  }

  /** `end`: the bottom-right corner, `position + size`. */
  function End(r: Rect2): Vector2 {
    Add(r.position, r.size)
  }

  /** `set_end` moves the bottom-right corner and keeps `position`. */
  function SetEnd(r: Rect2, end: Vector2): (s: Rect2)
    ensures End(s) == end && s.position == r.position
  {
    r.(size := Sub(end, r.position))
  }

  function SetPosition(r: Rect2, position: Vector2): (s: Rect2)
    ensures s.position == position && s.size == r.size
  {
    r.(position := position)
  }

  function SetSize(r: Rect2, size: Vector2): (s: Rect2)
    ensures s.size == size && s.position == r.position
  {
    r.(size := size)
  }

  lemma SetEndOfEnd(r: Rect2)
    ensures SetEnd(r, End(r)) == r
  {
  }

  /** The setter fixtures: (0,100,1280,720) with end (4000,4000) has size (4000,3900). */
  lemma SetterExamples()
    ensures SetEnd(NewFromDimension(0.0, 100.0, 1280.0, 720.0), Vector2(4000.0, 4000.0))
            == NewFromDimension(0.0, 100.0, 4000.0, 3900.0)
    ensures End(NewFromDimension(0.0, 100.0, 1280.0, 720.0)) == Vector2(1280.0, 820.0)
  {
  }

  predicate NonNegative(r: Rect2) {
    r.size.x >= 0.0 && r.size.y >= 0.0
  }

  predicate HasArea(r: Rect2) {
    r.size.x > 0.0 && r.size.y > 0.0
  }

  /** `has_point`: half-open on the right and bottom edges. */
  predicate HasPoint(r: Rect2, p: Vector2) {
    p.x >= r.position.x && p.y >= r.position.y &&
    p.x < r.position.x + r.size.x && p.y < r.position.y + r.size.y
  }

  /** The corner `position` belongs to a rectangle with area, the corner `end` never does. */
  lemma HasPointCorners(r: Rect2)
    ensures HasPoint(r, r.position) <==> HasArea(r)
    ensures !HasPoint(r, End(r))
  {
  }

  /** The fixtures of the source's tests on (0,100,1280,720). */
  lemma HasPointExamples()
    ensures HasPoint(NewFromDimension(0.0, 100.0, 1280.0, 720.0), Vector2(500.0, 600.0))
    ensures !HasPoint(NewFromDimension(0.0, 100.0, 1280.0, 720.0), Vector2(0.0, 0.0))
    ensures HasPoint(NewFromDimension(0.0, 100.0, 1280.0, 720.0), Vector2(1279.0, 819.0))
    ensures !HasPoint(NewFromDimension(0.0, 100.0, 1280.0, 720.0), Vector2(1280.0, 110.0))
    ensures HasPoint(NewFromDimension(0.0, 100.0, 1280.0, 720.0), Vector2(10.0, 100.0))
    ensures !HasPoint(NewFromDimension(0.0, 100.0, 1280.0, 720.0), Vector2(10.0, 820.0))
  {
  }

  /**
   * `abs`: the same region with a non-negative size; `position` becomes the
   * smaller corner and `end` the larger one.
   */
  function Abs(r: Rect2): (a: Rect2)
    ensures NonNegative(a)
    ensures a.position == Min(r.position, End(r))
    ensures End(a) == Max(r.position, End(r))
    ensures NonNegative(r) ==> a == r
  {
    Rect2(Add(r.position, MinF(r.size, 0.0)), V2.Abs(r.size))
  }

  lemma AbsIdempotent(r: Rect2)
    ensures Abs(Abs(r)) == Abs(r)
  {
  }

  /** The fixtures of the source's tests for `abs`. */
  lemma AbsExamples()
    ensures Abs(NewFromDimension(0.0, -100.0, 1280.0, 720.0)) == NewFromDimension(0.0, -100.0, 1280.0, 720.0)
    ensures Abs(NewFromDimension(0.0, -100.0, -1280.0, -720.0)) == NewFromDimension(-1280.0, -820.0, 1280.0, 720.0)
    ensures Abs(NewFromDimension(0.0, 100.0, -1280.0, 720.0)) == NewFromDimension(-1280.0, 100.0, 1280.0, 720.0)
  {
    assert Abs(NewFromDimension(0.0, -100.0, -1280.0, -720.0)) == NewFromDimension(-1280.0, -820.0, 1280.0, 720.0) by {
      var b := NewFromDimension(0.0, -100.0, -1280.0, -720.0);
      assert MinF(b.size, 0.0) == b.size;
      assert V2.Abs(b.size) == Vector2(1280.0, 720.0);
    }
    assert Abs(NewFromDimension(0.0, 100.0, -1280.0, 720.0)) == NewFromDimension(-1280.0, 100.0, 1280.0, 720.0) by {
      var c := NewFromDimension(0.0, 100.0, -1280.0, 720.0);
      assert MinF(c.size, 0.0) == Vector2(-1280.0, 0.0);
      assert V2.Abs(c.size) == Vector2(1280.0, 720.0);
    }
  }

  /** `encloses`: `b` lies inside `self`, edges included. */
  predicate Encloses(r: Rect2, b: Rect2) {
    b.position.x >= r.position.x && b.position.y >= r.position.y &&
    b.position.x + b.size.x <= r.position.x + r.size.x &&
    b.position.y + b.size.y <= r.position.y + r.size.y
  }

  /** `encloses` is reflexive and transitive. */
  lemma EnclosesPreorder(a: Rect2, b: Rect2, c: Rect2)
    ensures Encloses(a, a)
    ensures Encloses(a, b) && Encloses(b, c) ==> Encloses(a, c)
  {
  }

  /** For a rectangle with area, `encloses` holds exactly when every point of `b` is a point of `r`. */
  lemma {:induction false} EnclosesIffPoints(r: Rect2, b: Rect2)
    requires HasArea(b)
    ensures Encloses(r, b) <==> forall p :: HasPoint(b, p) ==> HasPoint(r, p)
  {
    if !Encloses(r, b) {
      var e := End(r);
      var p;
      if b.position.x < r.position.x || b.position.y < r.position.y {
        p := b.position;
      } else if b.position.x + b.size.x > e.x {
        p := Vector2(MaxReal(b.position.x, e.x), b.position.y);
      } else {
        p := Vector2(b.position.x, MaxReal(b.position.y, e.y));
      }
      assert HasPoint(b, p) && !HasPoint(r, p);
    }
  }

  /** Fixtures: (0,100,1280,720) encloses (0,300,100,100) but not (1200,700,100,100). */
  lemma EnclosesExamples()
    ensures Encloses(NewFromDimension(0.0, 100.0, 1280.0, 720.0), NewFromDimension(0.0, 300.0, 100.0, 100.0))
    ensures !Encloses(NewFromDimension(0.0, 100.0, 1280.0, 720.0), NewFromDimension(1200.0, 700.0, 100.0, 100.0))
    ensures !Encloses(NewFromDimension(0.0, 100.0, 1280.0, 720.0), NewFromDimension(-4000.0, -4000.0, 100.0, 100.0))
  {
  }

  /** `expand`: grows the rectangle so that `to` lies on or inside its edges. */
  function Expand(r: Rect2, to: Vector2): (e: Rect2)
    ensures e.position.x <= to.x <= End(e).x && e.position.y <= to.y <= End(e).y
    ensures NonNegative(r) ==> Encloses(e, r)
    ensures e == Merge(r, Rect2(to, ZERO))
    ensures r.position.x <= to.x <= End(r).x && r.position.y <= to.y <= End(r).y ==> e == r
  {
    var begin := Min(r.position, to);
    var end := Max(End(r), to);
    Rect2(begin, Sub(end, begin))
  }

  lemma ExpandExamples()
    ensures Expand(NewFromDimension(0.0, 100.0, 1280.0, 720.0), Vector2(500.0, 600.0))
            == NewFromDimension(0.0, 100.0, 1280.0, 720.0)
    ensures Expand(NewFromDimension(0.0, 100.0, 1280.0, 720.0), Vector2(0.0, 0.0))
            == NewFromDimension(0.0, 0.0, 1280.0, 820.0)
  {
    ExpandInsideExample(NewFromDimension(0.0, 100.0, 1280.0, 720.0));
    ExpandOriginExample(NewFromDimension(0.0, 100.0, 1280.0, 720.0));
  }

  lemma ExpandInsideExample(r: Rect2)
    requires r == NewFromDimension(0.0, 100.0, 1280.0, 720.0)
    ensures Expand(r, Vector2(500.0, 600.0)) == r
  {
    assert End(r) == Vector2(1280.0, 820.0);
  }

  lemma ExpandOriginExample(r: Rect2)
    requires r == NewFromDimension(0.0, 100.0, 1280.0, 720.0)
    ensures Expand(r, Vector2(0.0, 0.0)) == NewFromDimension(0.0, 0.0, 1280.0, 820.0)
  {
    assert End(r) == Vector2(1280.0, 820.0);
    assert Min(r.position, Vector2(0.0, 0.0)) == Vector2(0.0, 0.0);
    assert Max(End(r), Vector2(0.0, 0.0)) == Vector2(1280.0, 820.0);
  }

  /** `get_area`: width times height; positive for a rectangle with area, zero for a flat one. */
  function GetArea(r: Rect2): (area: real)
    ensures HasArea(r) ==> area > 0.0
    ensures r.size.x == 0.0 || r.size.y == 0.0 ==> area == 0.0
    ensures Utils.Abs(area) == Abs(r).size.x * Abs(r).size.y
  {
    AreaFacts(r.size.x, r.size.y);
    r.size.x * r.size.y
  }

  lemma AreaFacts(a: real, b: real)
    ensures a > 0.0 && b > 0.0 ==> a * b > 0.0
    ensures Utils.Abs(a * b) == Utils.Abs(a) * Utils.Abs(b)
  {
    if a > 0.0 && b > 0.0 {
      MulLtRight(0.0, a, b);
    }
    if a * b >= 0.0 {
      if a < 0.0 && b > 0.0 { MulLtRight(a, 0.0, b); }
      if a > 0.0 && b < 0.0 { MulLtRight(b, 0.0, a); }
    } else {
      if a > 0.0 && b > 0.0 { MulLtRight(0.0, a, b); }
      if a < 0.0 && b < 0.0 { MulLtRight(0.0, -a, -b); }
    }
  }

  /** `get_center`: `position + size / 2`, the midpoint of `position` and `end`. */
  function GetCenter(r: Rect2): (c: Vector2)
    ensures Sub(c, r.position) == Sub(End(r), c)
    ensures NonNegative(r) ==> r.position.x <= c.x <= End(r).x && r.position.y <= c.y <= End(r).y
  {
    Add(r.position, DivScalar(r.size, 2.0))
  }

  lemma CenterComponents(r: Rect2)
    ensures GetCenter(r) == Vector2(r.position.x + r.size.x / 2.0, r.position.y + r.size.y / 2.0)
  {
  }

  /** The centres of (0,100,1280,720) and (0,100,1281,721). */
  lemma CenterExamples()
    ensures GetCenter(NewFromDimension(0.0, 100.0, 1280.0, 720.0)) == Vector2(640.0, 460.0)
    ensures GetCenter(NewFromDimension(0.0, 100.0, 1281.0, 721.0)) == Vector2(640.5, 460.5)
  {
    CenterComponents(NewFromDimension(0.0, 100.0, 1280.0, 720.0));
    CenterComponents(NewFromDimension(0.0, 100.0, 1281.0, 721.0));
  }

  /** `grow_individual`: moves each edge outward by its own amount. */
  function GrowIndividual(r: Rect2, left: real, top: real, right: real, bottom: real): (g: Rect2)
    ensures g.position == Vector2(r.position.x - left, r.position.y - top)
    ensures End(g) == Vector2(End(r).x + right, End(r).y + bottom)
  {
    Rect2(Vector2(r.position.x - left, r.position.y - top),
          Vector2(r.size.x + (left + right), r.size.y + (top + bottom)))
  }

  /** `grow`: every edge moves outward by `amount`. */
  function Grow(r: Rect2, amount: real): (g: Rect2)
    ensures g == GrowIndividual(r, amount, amount, amount, amount)
  {
    Rect2(Vector2(r.position.x - amount, r.position.y - amount),
          Vector2(r.size.x + amount * 2.0, r.size.y + amount * 2.0))
  }

  /** Growing and then shrinking by the same amount restores the rectangle; growing keeps every point. */
  lemma GrowShrink(r: Rect2, amount: real, p: Vector2)
    ensures Grow(Grow(r, amount), -amount) == r
    ensures amount >= 0.0 && HasPoint(r, p) ==> HasPoint(Grow(r, amount), p)
    ensures amount >= 0.0 ==> Encloses(Grow(r, amount), r)
  {
  }

  /** `grow_side`: moves one edge; `Front` and `Back` leave the rectangle as it is. */
  function GrowSide(r: Rect2, side: Side, amount: real): (g: Rect2)
    ensures side == Left ==> g == GrowIndividual(r, amount, 0.0, 0.0, 0.0)
    ensures side == Top ==> g.position.y == r.position.y - amount && End(g) == End(r) && g.position.x == r.position.x
    ensures side == Right ==> g.position == r.position && End(g) == Vector2(End(r).x + amount, End(r).y)
    ensures side == Bottom ==> g.position == r.position && End(g) == Vector2(End(r).x, End(r).y + amount)
    ensures side == Front || side == Back ==> g == r
  {
    var (left, top, right, bottom) :=
      match side
      case Left => (amount, 0.0, 0.0, 0.0)
      case Top => (0.0, amount, 0.0, 0.0)
      case Right => (0.0, 0.0, amount, 0.0)
      case Bottom => (0.0, 0.0, 0.0, amount)
      case _ => (0.0, 0.0, 0.0, 0.0);
    GrowIndividual(r, left, top, right, bottom)
  }

  /** The growth fixtures of the source's tests on (0,100,1280,720). */
  lemma GrowExamples()
    ensures Grow(NewFromDimension(0.0, 100.0, 1280.0, 720.0), 100.0) == NewFromDimension(-100.0, 0.0, 1480.0, 920.0)
    ensures Grow(NewFromDimension(0.0, 100.0, 1280.0, 720.0), -4000.0) == NewFromDimension(4000.0, 4100.0, -6720.0, -7280.0)
    ensures GrowIndividual(NewFromDimension(0.0, 100.0, 1280.0, 720.0), -100.0, 200.0, 300.0, -400.0)
            == NewFromDimension(100.0, -100.0, 1480.0, 520.0)
    ensures GrowSide(NewFromDimension(0.0, 100.0, 1280.0, 720.0), Top, 500.0) == NewFromDimension(0.0, -400.0, 1280.0, 1220.0)
    ensures GrowSide(NewFromDimension(0.0, 100.0, 1280.0, 720.0), Top, -500.0) == NewFromDimension(0.0, 600.0, 1280.0, 220.0)
  {
  }

  /**
   * `get_support`: the corner furthest in `direction`; the size is added
   * only on axes where the direction is positive.
   */
  function GetSupport(r: Rect2, direction: Vector2): (s: Vector2)
    ensures s.x == (if direction.x > 0.0 then End(r).x else r.position.x)
    ensures s.y == (if direction.y > 0.0 then End(r).y else r.position.y)
  {
    var sx := if direction.x > 0.0 then r.position.x + r.size.x else r.position.x;
    var sy := if direction.y > 0.0 then r.position.y + r.size.y else r.position.y;
    Vector2(sx, sy)
  }

  /**
   * For a rectangle of non-negative size, the support point maximises the
   * dot product with the direction over every point of the closed
   * rectangle.
   */
  lemma {:induction false} SupportIsExtreme(r: Rect2, direction: Vector2, p: Vector2)
    requires NonNegative(r)
    requires r.position.x <= p.x <= End(r).x && r.position.y <= p.y <= End(r).y
    ensures Dot(direction, p) <= Dot(direction, GetSupport(r, direction))
  {
    var s := GetSupport(r, direction);
    SupportComponent(direction.x, p.x, r.position.x, End(r).x, s.x);
    SupportComponent(direction.y, p.y, r.position.y, End(r).y, s.y);
    DotLe(direction, p, s);
  }

  lemma DotLe(d: Vector2, p: Vector2, s: Vector2)
    requires d.x * p.x <= d.x * s.x && d.y * p.y <= d.y * s.y
    ensures Dot(d, p) <= Dot(d, s)
  {
  }

  lemma SupportComponent(d: real, p: real, lo: real, hi: real, s: real)
    requires lo <= p <= hi
    requires s == if d > 0.0 then hi else lo
    ensures d * p <= d * s
  {
    if d > 0.0 {
      MulLeRight(p, hi, d);
    } else {
      MulLeRight(-p, -lo, -d);
    }
  }

  /** The support fixtures of the source's tests on position (-1.5, 2), size (4, 5). */
  lemma SupportExamples()
    ensures GetSupport(Rect2(Vector2(-1.5, 2.0), Vector2(4.0, 5.0)), Vector2(1.0, 0.0)) == Vector2(2.5, 2.0)
    ensures GetSupport(Rect2(Vector2(-1.5, 2.0), Vector2(4.0, 5.0)), Vector2(0.5, 1.0)) == Vector2(2.5, 7.0)
    ensures GetSupport(Rect2(Vector2(-1.5, 2.0), Vector2(4.0, 5.0)), Vector2(0.0, -1.0)) == Vector2(-1.5, 2.0)
    ensures GetSupport(Rect2(Vector2(-1.5, 2.0), Vector2(4.0, 5.0)), ZERO) == Vector2(-1.5, 2.0)
  {
  }

  /**
   * `intersects`: without borders the open interiors must overlap; with
   * borders touching edges count too.
   */
  predicate Intersects(r: Rect2, b: Rect2, includeBorders: bool) {
    if includeBorders then
      if r.position.x > b.position.x + b.size.x then false
      else if r.position.x + r.size.x < b.position.x then false
      else if r.position.y > b.position.y + b.size.y then false
      else if r.position.y + r.size.y < b.position.y then false
      else true
    else
      if r.position.x >= b.position.x + b.size.x then false
      else if r.position.x + r.size.x <= b.position.x then false
      else if r.position.y >= b.position.y + b.size.y then false
      else if r.position.y + r.size.y <= b.position.y then false
      else true
  }

  /** Both forms are symmetric, and the strict one implies the one with borders. */
  lemma IntersectsFacts(r: Rect2, b: Rect2, borders: bool)
    ensures Intersects(r, b, borders) <==> Intersects(b, r, borders)
    ensures Intersects(r, b, false) ==> Intersects(r, b, true)
  {
  }

  /** A point of the closed rectangle: both edges included. */
  predicate HasPointClosed(r: Rect2, p: Vector2) {
    r.position.x <= p.x <= r.position.x + r.size.x && r.position.y <= p.y <= r.position.y + r.size.y
  }

  /**
   * For rectangles with area, the strict `intersects` holds exactly when
   * they share a point.
   */
  lemma {:induction false} IntersectsIffCommonPoint(r: Rect2, b: Rect2)
    requires HasArea(r) && HasArea(b)
    ensures Intersects(r, b, false) <==> exists p :: HasPoint(r, p) && HasPoint(b, p)
  {
    if Intersects(r, b, false) {
      var p := Max(r.position, b.position);
      assert HasPoint(r, p) && HasPoint(b, p);
    }
  }

  /**
   * For rectangles of non-negative size, `intersects` with borders holds
   * exactly when their closed rectangles share a point.
   */
  lemma {:induction false} IntersectsBordersIffCommonPoint(r: Rect2, b: Rect2)
    requires NonNegative(r) && NonNegative(b)
    ensures Intersects(r, b, true) <==> exists p :: HasPointClosed(r, p) && HasPointClosed(b, p)
  {
    if Intersects(r, b, true) {
      var p := Max(r.position, b.position);
      assert HasPointClosed(r, p) && HasPointClosed(b, p);
    }
  }

  /**
   * `intersection`: the rectangle of the points the two share, or the
   * default rectangle when they do not intersect.
   */
  function Intersection(r: Rect2, b: Rect2): (i: Rect2)
    ensures !Intersects(r, b, false) ==> i == DEFAULT
    ensures Intersects(r, b, false) ==> Encloses(r, i) && Encloses(b, i)
    ensures Intersects(r, b, false) && HasArea(r) && HasArea(b) ==> HasArea(i)
    ensures forall p :: HasPoint(i, p) <==> HasPoint(r, p) && HasPoint(b, p)
  {
    if !Intersects(r, b, false) then
      DEFAULT
    else
      var position := Max(b.position, r.position);
      var end := Min(Add(b.position, b.size), Add(r.position, r.size));
      Rect2(position, Sub(end, position))
  }

  lemma IntersectionExamples()
    ensures Intersection(NewFromDimension(0.0, 100.0, 1280.0, 720.0), NewFromDimension(0.0, 300.0, 100.0, 100.0))
            == NewFromDimension(0.0, 300.0, 100.0, 100.0)
    ensures Intersection(NewFromDimension(0.0, 100.0, 1280.0, 720.0), NewFromDimension(1200.0, 700.0, 100.0, 100.0))
            == NewFromDimension(1200.0, 700.0, 80.0, 100.0)
    ensures Intersection(NewFromDimension(0.0, 100.0, 1280.0, 720.0), NewFromDimension(-4000.0, -4000.0, 100.0, 100.0))
            == DEFAULT
  {
    var a := NewFromDimension(0.0, 100.0, 1280.0, 720.0);
    assert Add(a.position, a.size) == Vector2(1280.0, 820.0);
    assert Intersection(a, NewFromDimension(0.0, 300.0, 100.0, 100.0)) == NewFromDimension(0.0, 300.0, 100.0, 100.0) by {
      var b := NewFromDimension(0.0, 300.0, 100.0, 100.0);
      assert Intersects(a, b, false);
      assert Max(b.position, a.position) == Vector2(0.0, 300.0);
      assert Min(Add(b.position, b.size), Add(a.position, a.size)) == Vector2(100.0, 400.0);
    }
    assert Intersection(a, NewFromDimension(1200.0, 700.0, 100.0, 100.0)) == NewFromDimension(1200.0, 700.0, 80.0, 100.0) by {
      var b := NewFromDimension(1200.0, 700.0, 100.0, 100.0);
      assert Intersects(a, b, false);
      assert Max(b.position, a.position) == Vector2(1200.0, 700.0);
      assert Min(Add(b.position, b.size), Add(a.position, a.size)) == Vector2(1280.0, 800.0);
    }
    assert !Intersects(a, NewFromDimension(-4000.0, -4000.0, 100.0, 100.0), false);
  }

  /** Touching rectangles: rejected without borders, accepted with them. */
  lemma TouchingExamples()
    ensures !Intersects(NewFromDimension(0.0, 0.0, 2.0, 2.0), NewFromDimension(2.0, 2.0, 2.0, 2.0), false)
    ensures Intersects(NewFromDimension(0.0, 0.0, 2.0, 2.0), NewFromDimension(2.0, 2.0, 2.0, 2.0), true)
  {
  }

  /** `merge`: the smallest rectangle that encloses both. */
  function Merge(r: Rect2, b: Rect2): (m: Rect2)
    ensures Encloses(m, r) && Encloses(m, b)
  {
    var position := Min(b.position, r.position);
    var end := Max(Add(b.position, b.size), Add(r.position, r.size));
    Rect2(position, Sub(end, position))
  }

  /** Any rectangle enclosing both arguments encloses their merge. */
  lemma MergeIsLeast(r: Rect2, b: Rect2, c: Rect2)
    requires Encloses(c, r) && Encloses(c, b)
    ensures Encloses(c, Merge(r, b))
  {
  }

  lemma MergeExamples()
    ensures Merge(NewFromDimension(0.0, 100.0, 1280.0, 720.0), NewFromDimension(0.0, 300.0, 100.0, 100.0))
            == NewFromDimension(0.0, 100.0, 1280.0, 720.0)
    ensures Merge(NewFromDimension(0.0, 100.0, 1280.0, 720.0), NewFromDimension(1200.0, 700.0, 100.0, 100.0))
            == NewFromDimension(0.0, 100.0, 1300.0, 720.0)
    ensures Merge(NewFromDimension(0.0, 100.0, 1280.0, 720.0), NewFromDimension(-4000.0, -4000.0, 100.0, 100.0))
            == NewFromDimension(-4000.0, -4000.0, 5280.0, 4820.0)
  {
    var a := NewFromDimension(0.0, 100.0, 1280.0, 720.0);
    MergeInsideExample(a, NewFromDimension(0.0, 300.0, 100.0, 100.0));
    MergeOverhangExample(a, NewFromDimension(1200.0, 700.0, 100.0, 100.0));
    MergeFarExample(a, NewFromDimension(-4000.0, -4000.0, 100.0, 100.0));
  }

  lemma MergeInsideExample(a: Rect2, b: Rect2)
    requires a == NewFromDimension(0.0, 100.0, 1280.0, 720.0)
    requires b == NewFromDimension(0.0, 300.0, 100.0, 100.0)
    ensures Merge(a, b) == a
  {
    assert Min(b.position, a.position) == Vector2(0.0, 100.0);
    assert Max(Add(b.position, b.size), Add(a.position, a.size)) == Vector2(1280.0, 820.0);
  }

  lemma MergeOverhangExample(a: Rect2, b: Rect2)
    requires a == NewFromDimension(0.0, 100.0, 1280.0, 720.0)
    requires b == NewFromDimension(1200.0, 700.0, 100.0, 100.0)
    ensures Merge(a, b) == NewFromDimension(0.0, 100.0, 1300.0, 720.0)
  {
    assert Min(b.position, a.position) == Vector2(0.0, 100.0);
    assert Max(Add(b.position, b.size), Add(a.position, a.size)) == Vector2(1300.0, 820.0);
  }

  lemma MergeFarExample(a: Rect2, b: Rect2)
    requires a == NewFromDimension(0.0, 100.0, 1280.0, 720.0)
    requires b == NewFromDimension(-4000.0, -4000.0, 100.0, 100.0)
    ensures Merge(a, b) == NewFromDimension(-4000.0, -4000.0, 5280.0, 4820.0)
  {
    assert Min(b.position, a.position) == Vector2(-4000.0, -4000.0);
    assert Max(Add(b.position, b.size), Add(a.position, a.size)) == Vector2(1280.0, 820.0);
  }

  predicate IsEqualApprox(a: Rect2, b: Rect2) {
    V2.IsEqualApprox(a.position, b.position) && V2.IsEqualApprox(a.size, b.size)
  }
}
