/**
 * `Rect2i`: an axis-aligned integer rectangle given by its top-left
 * `position` and its `size`.  A point belongs to it when it lies on or after
 * the top-left edges and strictly before the bottom-right ones.
 */
module Rect2i {
  import opened Utils
  import opened Enums
  import opened Vector2i
  import V2i = Vector2i

  datatype Rect2i = Rect2i(position: Vector2i, size: Vector2i)

  /** `Rect2i::default()`: zero position and zero size. */
  const DEFAULT: Rect2i := Rect2i(ZERO, ZERO)

  function NewFromDimension(x: int, y: int, width: int, height: int): (r: Rect2i)
    ensures r.position == Vector2i(x, y) && r.size == Vector2i(width, height)
  {
    Rect2i(Vector2i(x, y), Vector2i(width, height))
  }

  /** `end`: the bottom-right corner, `position + size`. */
  function End(r: Rect2i): Vector2i {
    Add(r.position, r.size)
  }

  /** `set_end` moves the bottom-right corner and keeps `position`. */
  function SetEnd(r: Rect2i, end: Vector2i): (s: Rect2i)
    ensures End(s) == end && s.position == r.position
  {
    r.(size := Sub(end, r.position))
  }

  function SetPosition(r: Rect2i, position: Vector2i): (s: Rect2i)
    ensures s.position == position && s.size == r.size
  {
    r.(position := position)
  }

  function SetSize(r: Rect2i, size: Vector2i): (s: Rect2i)
    ensures s.size == size && s.position == r.position
  {
    r.(size := size)
  }

  lemma SetEndOfEnd(r: Rect2i)
    ensures SetEnd(r, End(r)) == r
  {
  }

  predicate NonNegative(r: Rect2i) {
    r.size.x >= 0 && r.size.y >= 0
  }

  /** The source's points of a rectangle: half-open on the right and bottom. */
  predicate HasPoint(r: Rect2i, p: Vector2i) {
    if p.x < r.position.x then false
    else if p.y < r.position.y then false
    else if p.x >= r.position.x + r.size.x then false
    else if p.y >= r.position.y + r.size.y then false
    else true
  }

  /** `has_point` is the same test as enclosing the 1x1 rectangle at the point. */
  lemma HasPointIsEnclosingUnit(r: Rect2i, p: Vector2i)
    ensures HasPoint(r, p) <==> Encloses(r, Rect2i(p, ONE))
    ensures HasPoint(r, p) ==> HasArea(r)
  {
  }

  /**
   * `abs`: the same region with a non-negative size; `position` becomes the
   * smaller corner and `end` the larger one.
   */
  function Abs(r: Rect2i): (a: Rect2i)
    ensures NonNegative(a)
    ensures a.position == Min(r.position, End(r))
    ensures End(a) == Max(r.position, End(r))
    ensures NonNegative(r) ==> a == r
  {
    Rect2i(Add(r.position, MinI(r.size, 0)), V2i.Abs(r.size))
  }

  lemma AbsIdempotent(r: Rect2i)
    ensures Abs(Abs(r)) == Abs(r)
  {
  }

  /** The fixtures of the source's tests for `abs`. */
  lemma AbsExamples()
    ensures Abs(NewFromDimension(0, -100, 1280, 720)) == NewFromDimension(0, -100, 1280, 720)
    ensures Abs(NewFromDimension(0, -100, -1280, -720)) == NewFromDimension(-1280, -820, 1280, 720)
    ensures Abs(NewFromDimension(0, 100, -1280, 720)) == NewFromDimension(-1280, 100, 1280, 720)
  {
    assert Abs(NewFromDimension(0, -100, -1280, -720)) == NewFromDimension(-1280, -820, 1280, 720) by {
      var b := NewFromDimension(0, -100, -1280, -720);
      assert MinI(b.size, 0) == b.size;
    }
    assert Abs(NewFromDimension(0, 100, -1280, 720)) == NewFromDimension(-1280, 100, 1280, 720) by {
      var c := NewFromDimension(0, 100, -1280, 720);
      assert MinI(c.size, 0) == Vector2i(-1280, 0);
    }
  }

  /** `encloses`: `b` lies inside `self`, edges included. */
  predicate Encloses(r: Rect2i, b: Rect2i) {
    b.position.x >= r.position.x && b.position.y >= r.position.y &&
    b.position.x + b.size.x <= r.position.x + r.size.x &&
    b.position.y + b.size.y <= r.position.y + r.size.y
  }

  /** For a rectangle with area, `encloses` holds exactly when every point of `b` is a point of `r`. */
  lemma {:induction false} EnclosesIffPoints(r: Rect2i, b: Rect2i)
    requires HasArea(b)
    ensures Encloses(r, b) <==> forall p :: HasPoint(b, p) ==> HasPoint(r, p)
  {
    if forall p :: HasPoint(b, p) ==> HasPoint(r, p) {
      assert HasPoint(b, b.position);
      assert HasPoint(b, Sub(End(b), ONE));
    }
  }

  /** `expand`: grows the rectangle so that `to` lies on or inside its edges. */
  function Expand(r: Rect2i, to: Vector2i): (e: Rect2i)
    ensures e.position.x <= to.x <= End(e).x && e.position.y <= to.y <= End(e).y
    ensures NonNegative(r) ==> Encloses(e, r)
    ensures e == Merge(r, Rect2i(to, ZERO))
  {
    var begin := r.position;
    var end := Add(r.position, r.size);
    var begin := if to.x < begin.x then begin.(x := to.x) else begin;
    var begin := if to.y < begin.y then begin.(y := to.y) else begin;
    var end := if to.x > end.x then end.(x := to.x) else end;
    var end := if to.y > end.y then end.(y := to.y) else end;
    Rect2i(begin, Sub(end, begin))
  }

  lemma ExpandExamples()
    ensures Expand(NewFromDimension(0, 100, 1280, 720), Vector2i(500, 600)) == NewFromDimension(0, 100, 1280, 720)
    ensures Expand(NewFromDimension(0, 100, 1280, 720), Vector2i(0, 0)) == NewFromDimension(0, 0, 1280, 820)
  {
    ExpandInsideExample(NewFromDimension(0, 100, 1280, 720));
    ExpandOriginExample(NewFromDimension(0, 100, 1280, 720));
  }

  lemma ExpandInsideExample(r: Rect2i)
    requires r == NewFromDimension(0, 100, 1280, 720)
    ensures Expand(r, Vector2i(500, 600)) == r
  {
    assert End(r) == Vector2i(1280, 820);
  }

  lemma ExpandOriginExample(r: Rect2i)
    requires r == NewFromDimension(0, 100, 1280, 720)
    ensures Expand(r, Vector2i(0, 0)) == NewFromDimension(0, 0, 1280, 820)
  {
    assert End(r) == Vector2i(1280, 820);
  }

  /** `get_area`: width times height; positive exactly when both are positive or both negative. */
  function GetArea(r: Rect2i): (area: int)
    ensures HasArea(r) ==> area > 0
    ensures r.size.x == 0 || r.size.y == 0 ==> area == 0
    ensures AbsInt(area) == Abs(r).size.x * Abs(r).size.y
  {
    AreaFacts(r.size.x, r.size.y);
    r.size.x * r.size.y
  }

  lemma AreaFacts(a: int, b: int)
    ensures a > 0 && b > 0 ==> a * b > 0
    ensures AbsInt(a * b) == AbsInt(a) * AbsInt(b)
  {
    if a < 0 {
      assert a * b == -((-a) * b);
    }
    if b < 0 {
      assert AbsInt(a) * b == -(AbsInt(a) * (-b));
    }
  }

  /**
   * `get_center`: `position + size / 2`; with an odd size the half-step is
   * dropped toward `position`.
   */
  function GetCenter(r: Rect2i): (c: Vector2i)
    ensures NonNegative(r) ==> r.position.x <= c.x <= End(r).x && r.position.y <= c.y <= End(r).y
    ensures 2 * (c.x - r.position.x) == r.size.x || 2 * (c.x - r.position.x) == r.size.x - SignInt(r.size.x)
    ensures 2 * (c.y - r.position.y) == r.size.y || 2 * (c.y - r.position.y) == r.size.y - SignInt(r.size.y)
  {
    Add(r.position, DivI(r.size, 2))
  }

  /** `grow_individual`: moves each edge outward by its own amount. */
  function GrowIndividual(r: Rect2i, left: int, top: int, right: int, bottom: int): (g: Rect2i)
    ensures g.position == Vector2i(r.position.x - left, r.position.y - top)
    ensures End(g) == Vector2i(End(r).x + right, End(r).y + bottom)
  {
    Rect2i(Vector2i(r.position.x - left, r.position.y - top),
           Vector2i(r.size.x + (left + right), r.size.y + (top + bottom)))
  }

  /** `grow`: every edge moves outward by `amount`. */
  function Grow(r: Rect2i, amount: int): (g: Rect2i)
    ensures g == GrowIndividual(r, amount, amount, amount, amount)
  {
    Rect2i(Vector2i(r.position.x - amount, r.position.y - amount),
           Vector2i(r.size.x + amount * 2, r.size.y + amount * 2))
  }

  /** Growing and then shrinking by the same amount restores the rectangle; growing keeps every point. */
  lemma GrowShrink(r: Rect2i, amount: int, p: Vector2i)
    ensures Grow(Grow(r, amount), -amount) == r
    ensures amount >= 0 && HasPoint(r, p) ==> HasPoint(Grow(r, amount), p)
  {
  }

  /** `grow_side`: moves one edge; `Front` and `Back` leave the rectangle as it is. */
  function GrowSide(r: Rect2i, side: Side, amount: int): (g: Rect2i)
    ensures side == Left ==> g == GrowIndividual(r, amount, 0, 0, 0)
    ensures side == Top ==> g.position.y == r.position.y - amount && End(g) == End(r) && g.position.x == r.position.x
    ensures side == Right ==> g.position == r.position && End(g) == Vector2i(End(r).x + amount, End(r).y)
    ensures side == Bottom ==> g.position == r.position && End(g) == Vector2i(End(r).x, End(r).y + amount)
    ensures side == Front || side == Back ==> g == r
  {
    var (left, top, right, bottom) :=
      match side
      case Left => (amount, 0, 0, 0)
      case Top => (0, amount, 0, 0)
      case Right => (0, 0, amount, 0)
      case Bottom => (0, 0, 0, amount)
      case _ => (0, 0, 0, 0);
    GrowIndividual(r, left, top, right, bottom)
  }

  predicate HasArea(r: Rect2i) {
    r.size.x > 0 && r.size.y > 0
  }

  /** `intersects`: the open interiors overlap. */
  predicate Intersects(r: Rect2i, b: Rect2i) {
    if r.position.x >= b.position.x + b.size.x then false
    else if r.position.x + r.size.x <= b.position.x then false
    else if r.position.y >= b.position.y + b.size.y then false
    else if r.position.y + r.size.y <= b.position.y then false
    else true
  }

  /** Rectangles that share a point intersect; `intersects` is symmetric. */
  lemma CommonPointIntersects(r: Rect2i, b: Rect2i, p: Vector2i)
    requires HasPoint(r, p) && HasPoint(b, p)
    ensures Intersects(r, b) && Intersects(b, r)
  {
  }

  /**
   * For rectangles with area, `intersects` holds exactly when they share a
   * point.  (A zero-width rectangle strictly inside another still
   * "intersects" it without sharing a point.)
   */
  lemma {:induction false} IntersectsIffCommonPoint(r: Rect2i, b: Rect2i)
    requires HasArea(r) && HasArea(b)
    ensures Intersects(r, b) <==> exists p :: HasPoint(r, p) && HasPoint(b, p)
  {
    if Intersects(r, b) {
      var p := Max(r.position, b.position);
      assert HasPoint(r, p) && HasPoint(b, p);
    }
  }

  /**
   * `intersection`: the rectangle of the points the two share, or the
   * default rectangle when they do not intersect.
   */
  function Intersection(r: Rect2i, b: Rect2i): (i: Rect2i)
    ensures !Intersects(r, b) ==> i == DEFAULT
    ensures Intersects(r, b) ==> Encloses(r, i) && Encloses(b, i)
    ensures Intersects(r, b) && HasArea(r) && HasArea(b) ==> HasArea(i)
    ensures forall p :: HasPoint(i, p) <==> HasPoint(r, p) && HasPoint(b, p)
  {
    if !Intersects(r, b) then
      DEFAULT
    else
      var position := Max(b.position, r.position);
      var end := Min(Add(b.position, b.size), Add(r.position, r.size));
      Rect2i(position, Sub(end, position))
  }

  lemma IntersectionInsideExample(a: Rect2i, b: Rect2i)
    requires a == NewFromDimension(0, 100, 1280, 720) && b == NewFromDimension(0, 300, 100, 100)
    ensures Intersection(a, b) == b
  {
    assert End(a) == Vector2i(1280, 820);
    assert Intersects(a, b);
    assert Max(b.position, a.position) == Vector2i(0, 300);
    assert Min(Add(b.position, b.size), Add(a.position, a.size)) == Vector2i(100, 400);
  }

  lemma IntersectionOverhangExample(a: Rect2i, b: Rect2i)
    requires a == NewFromDimension(0, 100, 1280, 720) && b == NewFromDimension(1200, 700, 100, 100)
    ensures Intersection(a, b) == NewFromDimension(1200, 700, 80, 100)
  {
    assert End(a) == Vector2i(1280, 820);
    assert Intersects(a, b);
    assert Max(b.position, a.position) == Vector2i(1200, 700);
    assert Min(Add(b.position, b.size), Add(a.position, a.size)) == Vector2i(1280, 800);
  }

  lemma IntersectionDisjointExample(a: Rect2i, b: Rect2i)
    requires a == NewFromDimension(0, 100, 1280, 720) && b == NewFromDimension(-4000, -4000, 100, 100)
    ensures Intersection(a, b) == DEFAULT
  {
    assert End(a) == Vector2i(1280, 820);
    assert !Intersects(a, b);
  }

  /** `merge`: the smallest rectangle that encloses both. */
  function Merge(r: Rect2i, b: Rect2i): (m: Rect2i)
    ensures Encloses(m, r) && Encloses(m, b)
  {
    var position := Min(b.position, r.position);
    var end := Max(Add(b.position, b.size), Add(r.position, r.size));
    Rect2i(position, Sub(end, position))
  }

  /** Any rectangle enclosing both arguments encloses their merge. */
  lemma MergeIsLeast(r: Rect2i, b: Rect2i, c: Rect2i)
    requires Encloses(c, r) && Encloses(c, b)
    ensures Encloses(c, Merge(r, b))
  {
  }

  /** `!rect`: true exactly for the default rectangle. */
  function Not(r: Rect2i): (z: bool)
    ensures z <==> r == DEFAULT
  {
    r.position == ZERO && r.size == ZERO
  }

  /** Shared edges do not intersect; the centre of (0,100,1281,721) is (640,460). */
  lemma EdgeExamples()
    ensures !Intersects(NewFromDimension(0, 0, 2, 2), NewFromDimension(2, 2, 2, 2))
    ensures GetCenter(NewFromDimension(0, 100, 1281, 721)) == Vector2i(640, 460)
  {
    assert GetCenter(NewFromDimension(0, 100, 1281, 721)) == Vector2i(640, 460) by {
      TruncDivUnique(1281, 2, 640);
      TruncDivUnique(721, 2, 360);
    }
  }
}
