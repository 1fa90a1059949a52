/**
 * `Transform2D`: a 2×3 affine transform, stored as the two basis columns
 * `x` and `y` and the translation `origin`.  A point `v` is sent to
 * `x * v.x + y * v.y + origin`.  Composition, the affine inverse, the
 * translation and scaling shortcuts, the conformality test and indexed
 * access are modelled exactly over the reals.
 */
module Transform2D {
  import opened Utils
  import V2 = Vector2

  /** Basis columns `x`, `y` and the translation `origin`. */
  datatype Transform2D = Transform2D(x: V2.Vector2, y: V2.Vector2, origin: V2.Vector2)

  /** `IDENTITY`: axes `RIGHT` = (1, 0) and `DOWN` = (0, 1), no translation. */
  const IDENTITY: Transform2D := Transform2D(V2.RIGHT, V2.DOWN, V2.ZERO)
  /** `FLIP_X` mirrors the X axis. */
  const FLIP_X: Transform2D := Transform2D(V2.LEFT, V2.DOWN, V2.ZERO)
  /** `FLIP_Y` mirrors the Y axis. */
  const FLIP_Y: Transform2D := Transform2D(V2.RIGHT, V2.UP, V2.ZERO)
  /** `Default::default()` is the identity. */
  const DEFAULT: Transform2D := IDENTITY

  function New(x: V2.Vector2, y: V2.Vector2, origin: V2.Vector2): Transform2D {
    Transform2D(x, y, origin)
  }

  /** `new_from_floats(xx, xy, yx, yy, ox, oy)`: the two columns, then the origin. */
  function NewFromFloats(xx: real, xy: real, yx: real, yy: real, ox: real, oy: real): Transform2D {
    New(V2.Vector2(xx, xy), V2.Vector2(yx, yy), V2.Vector2(ox, oy))
  }

  lemma DefaultIsIdentity()
    ensures DEFAULT == NewFromFloats(1.0, 0.0, 0.0, 1.0, 0.0, 0.0)
    ensures FLIP_X == NewFromFloats(-1.0, 0.0, 0.0, 1.0, 0.0, 0.0)
    ensures FLIP_Y == NewFromFloats(1.0, 0.0, 0.0, -1.0, 0.0, 0.0)
  {
  }

  // ---------------------------------------------------------------------
  // Transforming points and vectors.
  // ---------------------------------------------------------------------

  /** Row 0 of the basis matrix dotted with `v`. */
  function TDotX(t: Transform2D, v: V2.Vector2): real {
    t.x.x * v.x + t.y.x * v.y
  }

  /** Row 1 of the basis matrix dotted with `v`. */
  function TDotY(t: Transform2D, v: V2.Vector2): real {
    t.x.y * v.x + t.y.y * v.y
  }

  /** `basis_xform`: the basis applied to `v`, ignoring the origin. */
  function BasisXform(t: Transform2D, v: V2.Vector2): V2.Vector2 {
    V2.Vector2(TDotX(t, v), TDotY(t, v))
  }

  /** `basis_xform` combines the axes with the components of `v` as weights. */
  lemma BasisXformColumns(t: Transform2D, v: V2.Vector2)
    ensures BasisXform(t, v) == V2.Add(V2.Scale(t.x, v.x), V2.Scale(t.y, v.y))
  {
  }

  /** `xform`: the basis applied to `v`, then moved by the origin. */
  function Xform(t: Transform2D, v: V2.Vector2): (r: V2.Vector2)
    ensures V2.Sub(r, t.origin) == BasisXform(t, v)
    ensures t.origin == V2.ZERO ==> r == BasisXform(t, v)
  {
    V2.Add(BasisXform(t, v), t.origin)
  }

  /** The axes and the origin are the images of the unit vectors and of zero. */
  lemma XformAxes(t: Transform2D)
    ensures Xform(t, V2.ZERO) == t.origin
    ensures BasisXform(t, V2.RIGHT) == t.x
    ensures BasisXform(t, V2.DOWN) == t.y
  {
  }

  /** `basis_xform` is linear in the vector. */
  lemma BasisXformLinear(t: Transform2D, u: V2.Vector2, v: V2.Vector2, k: real)
    ensures BasisXform(t, V2.Add(u, v)) == V2.Add(BasisXform(t, u), BasisXform(t, v))
    ensures BasisXform(t, V2.Neg(v)) == V2.Neg(BasisXform(t, v))
    ensures BasisXform(t, V2.Scale(v, k)) == V2.Scale(BasisXform(t, v), k)
  {
  }

  /** The worked example: (2, 3) under columns (1, 2), (3, 4) and origin (5, 6) is (16, 22). */
  lemma XformExample()
    ensures Xform(NewFromFloats(1.0, 2.0, 3.0, 4.0, 5.0, 6.0), V2.Vector2(2.0, 3.0)) == V2.Vector2(16.0, 22.0)
  {
  }

  /** With origin (5, 6) the two transforms of (2, 2) differ; with a zero origin they agree. */
  lemma BasisXformExample()
    ensures BasisXform(NewFromFloats(1.0, 2.0, 3.0, 4.0, 5.0, 6.0), V2.Vector2(2.0, 2.0))
         != Xform(NewFromFloats(1.0, 2.0, 3.0, 4.0, 5.0, 6.0), V2.Vector2(2.0, 2.0))
    ensures BasisXform(NewFromFloats(1.0, 2.0, 3.0, 4.0, 0.0, 0.0), V2.Vector2(2.0, 2.0))
         == Xform(NewFromFloats(1.0, 2.0, 3.0, 4.0, 0.0, 0.0), V2.Vector2(2.0, 2.0))
  {
  }

  /**
   * A transform is determined by where it sends zero, `RIGHT` and `DOWN`:
   * two transforms that agree on those three points are equal.
   */
  lemma {:induction false} EqualByXform(a: Transform2D, b: Transform2D)
    requires Xform(a, V2.ZERO) == Xform(b, V2.ZERO)
    requires Xform(a, V2.RIGHT) == Xform(b, V2.RIGHT)
    requires Xform(a, V2.DOWN) == Xform(b, V2.DOWN)
    ensures a == b
  {
    XformAxes(a);
    XformAxes(b);
    assert a.origin == b.origin;
    assert V2.Sub(Xform(a, V2.RIGHT), a.origin) == V2.Sub(Xform(b, V2.RIGHT), b.origin);
    assert V2.Sub(Xform(a, V2.DOWN), a.origin) == V2.Sub(Xform(b, V2.DOWN), b.origin);
  }

  // ---------------------------------------------------------------------
  // Composition.
  // ---------------------------------------------------------------------

  /**
   * `a * b` (and `a *= b`): the origin becomes `a.xform(b.origin)` and each
   * axis of `b` is sent through the basis of `a`.
   */
  function Mul(a: Transform2D, b: Transform2D): Transform2D {
    Transform2D(V2.Vector2(TDotX(a, b.x), TDotY(a, b.x)),
                V2.Vector2(TDotX(a, b.y), TDotY(a, b.y)),
                Xform(a, b.origin))
  }

  /** The basis of a product applies the right factor's basis first. */
  lemma BasisXformOfMul(a: Transform2D, b: Transform2D, v: V2.Vector2)
    ensures BasisXform(Mul(a, b), v) == BasisXform(a, BasisXform(b, v))
  {
  }

  /** Transforming by `a * b` is transforming by `b`, then by `a`. */
  lemma XformOfMul(a: Transform2D, b: Transform2D, v: V2.Vector2)
    ensures Xform(Mul(a, b), v) == Xform(a, Xform(b, v))
  {
    BasisXformOfMul(a, b, v);
    BasisXformLinear(a, BasisXform(b, v), b.origin, 1.0);
  }

  /** The identity is neutral on both sides. */
  lemma MulIdentity(t: Transform2D)
    ensures Mul(IDENTITY, t) == t
    ensures Mul(t, IDENTITY) == t
  {
  }

  /** Composition is associative. */
  lemma {:induction false} MulAssociative(a: Transform2D, b: Transform2D, c: Transform2D)
    ensures Mul(Mul(a, b), c) == Mul(a, Mul(b, c))
  {
    forall v: V2.Vector2 | v == V2.ZERO || v == V2.RIGHT || v == V2.DOWN
      ensures Xform(Mul(Mul(a, b), c), v) == Xform(Mul(a, Mul(b, c)), v)
    {
      XformOfMul(Mul(a, b), c, v);
      XformOfMul(a, b, Xform(c, v));
      XformOfMul(a, Mul(b, c), v);
      XformOfMul(b, c, v);
    }
    EqualByXform(Mul(Mul(a, b), c), Mul(a, Mul(b, c)));
  }

  // ---------------------------------------------------------------------
  // Determinant and the affine inverse.
  // ---------------------------------------------------------------------

  /** `determinant` of the basis: the signed area spanned by the two axes. */
  function Determinant(t: Transform2D): (d: real)
    ensures d == V2.Cross(t.x, t.y)
  {
    t.x.x * t.y.y - t.x.y * t.y.x
  }

  /** The determinant of a product is the product of the determinants. */
  lemma {:induction false} DeterminantOfMul(a: Transform2D, b: Transform2D)
    ensures Determinant(Mul(a, b)) == Determinant(a) * Determinant(b)
  {
    DeterminantProduct(a.x.x, a.x.y, a.y.x, a.y.y, b.x.x, b.x.y, b.y.x, b.y.y);
  }

  /** The 2×2 product rule for determinants, over the entries (columns `p q`, `r s` and `e f`, `g h`). */
  lemma DeterminantProduct(p: real, q: real, r: real, s: real, e: real, f: real, g: real, h: real)
    ensures (p * e + r * f) * (q * g + s * h) - (q * e + s * f) * (p * g + r * h)
         == (p * s - q * r) * (e * h - f * g)
  {
  }

  /**
   * `affine_inverse` (through `affine_invert`): swap the diagonal, negate the
   * off-diagonal, divide everything by the determinant, then send the
   * negated origin through the new basis.  A zero determinant divides by
   * zero in the source.
   */
  function AffineInverse(t: Transform2D): Transform2D
    requires Determinant(t) != 0.0
  {
    var idet := 1.0 / Determinant(t);
    var basis := Transform2D(V2.Vector2(t.y.y * idet, -t.x.y * idet),
                             V2.Vector2(-t.y.x * idet, t.x.x * idet),
                             V2.ZERO);
    Transform2D(basis.x, basis.y, BasisXform(basis, V2.Neg(t.origin)))
  }

  /** The entries of the product `t * affine_inverse(t)`, written with `k = 1 / det`. */
  lemma InverseEntries(xx: real, xy: real, yx: real, yy: real, det: real, k: real)
    requires det == xx * yy - xy * yx
    requires k * det == 1.0
    ensures xx * (yy * k) + yx * (-xy * k) == 1.0
    ensures xy * (yy * k) + yy * (-xy * k) == 0.0
    ensures xx * (-yx * k) + yx * (xx * k) == 0.0
    ensures xy * (-yx * k) + yy * (xx * k) == 1.0
    ensures (yy * k) * xx + (-yx * k) * xy == 1.0
    ensures (-xy * k) * xx + (xx * k) * xy == 0.0
    ensures (yy * k) * yx + (-yx * k) * yy == 0.0
    ensures (-xy * k) * yx + (xx * k) * yy == 1.0
  {
    assert xx * (yy * k) + yx * (-xy * k) == det * k;
    assert (-xy * k) * yx + (xx * k) * yy == det * k;
  }

  /** The basis of the inverse undoes the basis of `t`, in both orders. */
  lemma {:induction false} InverseBasis(t: Transform2D)
    requires Determinant(t) != 0.0
    ensures var inv := AffineInverse(t);
      Mul(t, inv).x == V2.RIGHT && Mul(t, inv).y == V2.DOWN &&
      Mul(inv, t).x == V2.RIGHT && Mul(inv, t).y == V2.DOWN
  {
    var det := Determinant(t);
    var k := 1.0 / det;
    InverseEntries(t.x.x, t.x.y, t.y.x, t.y.y, det, k);
  }

  /** `t * affine_inverse(t)` and `affine_inverse(t) * t` are both the identity. */
  lemma {:induction false} AffineInverseIsInverse(t: Transform2D)
    requires Determinant(t) != 0.0
    ensures Mul(t, AffineInverse(t)) == IDENTITY
    ensures Mul(AffineInverse(t), t) == IDENTITY
  {
    var inv := AffineInverse(t);
    InverseBasis(t);
    var w := V2.Neg(t.origin);
    // Right inverse: the origin goes through inv's basis, then t's.
    BasisXformOfMul(t, inv, w);
    assert BasisXform(Mul(t, inv), w) == w;
    assert Mul(t, inv).origin == V2.ZERO;
    // Left inverse: inv sends t.origin and -t.origin to opposite vectors.
    BasisXformLinear(inv, t.origin, t.origin, 1.0);
    assert BasisXform(inv, w) == V2.Neg(BasisXform(inv, t.origin));
    assert Mul(inv, t).origin == V2.ZERO;
  }

  /** The inverse is invertible: its determinant is the reciprocal. */
  lemma {:induction false} AffineInverseDeterminant(t: Transform2D)
    requires Determinant(t) != 0.0
    ensures Determinant(AffineInverse(t)) * Determinant(t) == 1.0
  {
    AffineInverseIsInverse(t);
    DeterminantOfMul(AffineInverse(t), t);
  }

  /** Inverting twice gives the transform back. */
  lemma {:induction false} AffineInverseTwice(t: Transform2D)
    requires Determinant(t) != 0.0
    ensures Determinant(AffineInverse(t)) != 0.0
    ensures AffineInverse(AffineInverse(t)) == t
  {
    var inv := AffineInverse(t);
    AffineInverseDeterminant(t);
    var back := AffineInverse(inv);
    AffineInverseIsInverse(t);
    AffineInverseIsInverse(inv);
    calc {
      back;
      { MulIdentity(back); }
      Mul(back, IDENTITY);
      Mul(back, Mul(inv, t));
      { MulAssociative(back, inv, t); }
      Mul(Mul(back, inv), t);
      Mul(IDENTITY, t);
      { MulIdentity(t); }
      t;
    }
  }

  // ---------------------------------------------------------------------
  // The orthonormal inverse.
  // ---------------------------------------------------------------------

  /**
   * `basis_xform_inv`: the dot products of `v` with the two axes, which is
   * the transposed basis applied to `v`; the origin is ignored.
   */
  function BasisXformInv(t: Transform2D, v: V2.Vector2): V2.Vector2 {
    V2.Vector2(V2.Dot(t.x, v), V2.Dot(t.y, v))
  }

  /**
   * `inverse` (through `invert`): swap the off-diagonal entries, which
   * transposes the basis, then send the negated origin through it.  Whatever
   * the basis, the result sends the original origin back to zero; it is the
   * true inverse only for an orthonormal basis.
   */
  function Inverse(t: Transform2D): (r: Transform2D)
    ensures Xform(r, t.origin) == V2.ZERO
  {
    var basis := Transform2D(V2.Vector2(t.x.x, t.y.x), V2.Vector2(t.x.y, t.y.y), V2.ZERO);
    var r := Transform2D(basis.x, basis.y, BasisXform(basis, V2.Neg(t.origin)));
    BasisXformLinear(r, t.origin, t.origin, 1.0);
    r
  }

  /** The basis of `inverse` is `basis_xform_inv`. */
  lemma InverseBasisIsTransposed(t: Transform2D, v: V2.Vector2)
    ensures BasisXform(Inverse(t), v) == BasisXformInv(t, v)
  {
  }

  /** Unit axes at right angles: the basis the source's `inverse` expects. */
  predicate ExactlyOrthonormal(t: Transform2D) {
    V2.LengthSquared(t.x) == 1.0 && V2.LengthSquared(t.y) == 1.0 && V2.Dot(t.x, t.y) == 0.0
  }

  /**
   * For an orthonormal basis `inverse` agrees with `affine_inverse`, so it
   * undoes the transform on both sides.
   */
  lemma {:induction false} InverseOfOrthonormal(t: Transform2D)
    requires ExactlyOrthonormal(t)
    ensures Mul(Inverse(t), t) == IDENTITY
    ensures Determinant(t) != 0.0 && Inverse(t) == AffineInverse(t)
    ensures Mul(t, Inverse(t)) == IDENTITY
  {
    var inv := Inverse(t);
    assert Mul(inv, t).x == V2.Vector2(V2.Dot(t.x, t.x), V2.Dot(t.y, t.x));
    assert Mul(inv, t).y == V2.Vector2(V2.Dot(t.x, t.y), V2.Dot(t.y, t.y));
    assert Mul(inv, t) == IDENTITY;
    DeterminantOfMul(inv, t);
    assert Determinant(IDENTITY) == 1.0;
    var a := AffineInverse(t);
    AffineInverseIsInverse(t);
    calc {
      inv;
      { MulIdentity(inv); }
      Mul(inv, IDENTITY);
      Mul(inv, Mul(t, a));
      { MulAssociative(inv, t, a); }
      Mul(Mul(inv, t), a);
      { MulIdentity(a); }
      a;
    }
  }

  /** For an orthonormal basis `basis_xform_inv` undoes `basis_xform`. */
  lemma {:induction false} BasisXformInvUndoes(t: Transform2D, v: V2.Vector2)
    requires ExactlyOrthonormal(t)
    ensures BasisXformInv(t, BasisXform(t, v)) == v
  {
    InverseOfOrthonormal(t);
    InverseBasisIsTransposed(t, BasisXform(t, v));
    BasisXformOfMul(Inverse(t), t, v);
  }

  /** `inverse` of a quarter turn with an offset origin. */
  lemma QuarterTurnInverse()
    ensures ExactlyOrthonormal(NewFromFloats(0.0, 1.0, -1.0, 0.0, 3.0, 4.0))
    ensures Inverse(NewFromFloats(0.0, 1.0, -1.0, 0.0, 3.0, 4.0)) == NewFromFloats(0.0, -1.0, 1.0, 0.0, -4.0, 3.0)
  {
  }

  /** The uniform scale by 2 is not orthonormal, and its basis is its own transpose. */
  lemma ScaleNotOrthonormal(s: Transform2D)
    requires s == NewFromFloats(2.0, 0.0, 0.0, 2.0, 0.0, 0.0)
    ensures !ExactlyOrthonormal(s)
    ensures Inverse(s) == s
  {
  }

  /** The uniform scale by 2 composed with itself scales by 4. */
  lemma ScaleSquared(s: Transform2D)
    requires s == NewFromFloats(2.0, 0.0, 0.0, 2.0, 0.0, 0.0)
    ensures Mul(s, s).x == V2.Vector2(4.0, 0.0)
  {
    assert TDotX(s, s.x) == 4.0;
    assert TDotY(s, s.x) == 0.0;
  }

  /** For the uniform scale by 2, which is not orthonormal, `inverse` does not invert. */
  lemma ScaleInverseFails(s: Transform2D)
    requires s == NewFromFloats(2.0, 0.0, 0.0, 2.0, 0.0, 0.0)
    ensures !ExactlyOrthonormal(s)
    ensures Mul(Inverse(s), s) != IDENTITY
  {
    ScaleNotOrthonormal(s);
    ScaleSquared(s);
  }

  // ---------------------------------------------------------------------
  // Translation.
  // ---------------------------------------------------------------------

  /** `translated`: the origin moves by `offset` in the parent frame. */
  function Translated(t: Transform2D, offset: V2.Vector2): (r: Transform2D)
    ensures r.x == t.x && r.y == t.y
    ensures V2.Sub(r.origin, t.origin) == offset
  {
    Transform2D(t.x, t.y, V2.Add(t.origin, offset))
  }

  /** `translated_local`: the origin moves by `offset` measured along the transform's own axes. */
  function TranslatedLocal(t: Transform2D, offset: V2.Vector2): (r: Transform2D)
    ensures r.x == t.x && r.y == t.y
    ensures V2.Sub(r.origin, t.origin) == BasisXform(t, offset)
  {
    Transform2D(t.x, t.y, V2.Add(t.origin, BasisXform(t, offset)))
  }

  /** `translated` is a left multiplication by a pure translation; on the identity both agree. */
  lemma TranslatedIsLeftMul(t: Transform2D, offset: V2.Vector2)
    ensures Translated(IDENTITY, offset) == TranslatedLocal(IDENTITY, offset)
    ensures Translated(t, offset) == Mul(Translated(IDENTITY, offset), t)
    ensures Xform(Translated(t, offset), V2.ZERO) == V2.Add(Xform(t, V2.ZERO), offset)
  {
  }

  /** `translated_local` is a right multiplication by a pure translation. */
  lemma TranslatedLocalIsRightMul(t: Transform2D, offset: V2.Vector2)
    ensures TranslatedLocal(t, offset) == Mul(t, Translated(IDENTITY, offset))
    ensures Xform(TranslatedLocal(t, offset), V2.ZERO) == Xform(t, offset)
  {
  }

  /** The dummy transform of the worked examples, translated by (1, 2) either way. */
  lemma TranslatedExample()
    ensures Translated(NewFromFloats(1.0, 2.0, 3.0, 4.0, 5.0, 6.0), V2.Vector2(1.0, 2.0))
         == NewFromFloats(1.0, 2.0, 3.0, 4.0, 6.0, 8.0)
    ensures TranslatedLocal(NewFromFloats(1.0, 2.0, 3.0, 4.0, 5.0, 6.0), V2.Vector2(1.0, 2.0))
         == NewFromFloats(1.0, 2.0, 3.0, 4.0, 12.0, 16.0)
  {
  }

  // ---------------------------------------------------------------------
  // Scaling.
  // ---------------------------------------------------------------------

  /**
   * `scaled` (through `scale` and `scale_basis`): row `i` of the basis and
   * component `i` of the origin are multiplied by `s[i]`.
   */
  function Scaled(t: Transform2D, s: V2.Vector2): Transform2D {
    Transform2D(V2.Vector2(t.x.x * s.x, t.x.y * s.y),
                V2.Vector2(t.y.x * s.x, t.y.y * s.y),
                V2.Mul(t.origin, s))
  }

  /** `scaled_local`: each axis is stretched by its own factor; the origin stays. */
  function ScaledLocal(t: Transform2D, s: V2.Vector2): Transform2D {
    Transform2D(V2.Scale(t.x, s.x), V2.Scale(t.y, s.y), t.origin)
  }

  /** `scaled` scales the transformed point component-wise. */
  lemma XformScaled(t: Transform2D, s: V2.Vector2, v: V2.Vector2)
    ensures Xform(Scaled(t, s), v) == V2.Mul(Xform(t, v), s)
  {
  }

  /** `scaled_local` scales the point before it is transformed. */
  lemma XformScaledLocal(t: Transform2D, s: V2.Vector2, v: V2.Vector2)
    ensures Xform(ScaledLocal(t, s), v) == Xform(t, V2.Mul(v, s))
  {
  }

  /** `scaled` is a left multiplication by a pure scale; on the identity both agree. */
  lemma {:induction false} ScaledIsLeftMul(t: Transform2D, s: V2.Vector2)
    ensures Scaled(IDENTITY, s) == ScaledLocal(IDENTITY, s)
    ensures Scaled(t, s) == Mul(Scaled(IDENTITY, s), t)
  {
    forall v: V2.Vector2 | v == V2.ZERO || v == V2.RIGHT || v == V2.DOWN
      ensures Xform(Scaled(t, s), v) == Xform(Mul(Scaled(IDENTITY, s), t), v)
    {
      XformScaled(t, s, v);
      XformOfMul(Scaled(IDENTITY, s), t, v);
      XformScaled(IDENTITY, s, Xform(t, v));
    }
    EqualByXform(Scaled(t, s), Mul(Scaled(IDENTITY, s), t));
  }

  /** `scaled_local` is a right multiplication by a pure scale. */
  lemma {:induction false} ScaledLocalIsRightMul(t: Transform2D, s: V2.Vector2)
    ensures ScaledLocal(t, s) == Mul(t, Scaled(IDENTITY, s))
  {
    forall v: V2.Vector2 | v == V2.ZERO || v == V2.RIGHT || v == V2.DOWN
      ensures Xform(ScaledLocal(t, s), v) == Xform(Mul(t, Scaled(IDENTITY, s)), v)
    {
      XformScaledLocal(t, s, v);
      XformOfMul(t, Scaled(IDENTITY, s), v);
      XformScaled(IDENTITY, s, v);
    }
    EqualByXform(ScaledLocal(t, s), Mul(t, Scaled(IDENTITY, s)));
  }

  /** The dummy transform scaled by (1, 2) either way. */
  lemma ScaledExample()
    ensures Scaled(NewFromFloats(1.0, 2.0, 3.0, 4.0, 5.0, 6.0), V2.Vector2(1.0, 2.0))
         == NewFromFloats(1.0, 4.0, 3.0, 8.0, 5.0, 12.0)
    ensures ScaledLocal(NewFromFloats(1.0, 2.0, 3.0, 4.0, 5.0, 6.0), V2.Vector2(1.0, 2.0))
         == NewFromFloats(1.0, 2.0, 6.0, 8.0, 5.0, 6.0)
  {
  }

  // ---------------------------------------------------------------------
  // Component-wise operators.
  // ---------------------------------------------------------------------

  /** `t * v` for a vector `v`: both axes and the origin are multiplied component-wise. */
  function MulVector(t: Transform2D, v: V2.Vector2): Transform2D {
    Transform2D(V2.Mul(t.x, v), V2.Mul(t.y, v), V2.Mul(t.origin, v))
  }

  /** `t * k` for a scalar `k`. */
  function MulScalar(t: Transform2D, k: real): Transform2D {
    Transform2D(V2.Scale(t.x, k), V2.Scale(t.y, k), V2.Scale(t.origin, k))
  }

  /** `t / k`; a zero divisor gives inf or NaN in the source. */
  function DivScalar(t: Transform2D, k: real): (r: Transform2D)
    requires k != 0.0
    ensures MulScalar(r, k) == t
  {
    Transform2D(V2.DivScalar(t.x, k), V2.DivScalar(t.y, k), V2.DivScalar(t.origin, k))
  }

  /** Multiplying by a vector is the same as `scaled`, and by a scalar is a uniform `scaled`. */
  lemma MulVectorIsScaled(t: Transform2D, v: V2.Vector2, k: real)
    ensures MulVector(t, v) == Scaled(t, v)
    ensures MulScalar(t, k) == Scaled(t, V2.Vector2(k, k))
  {
    MulVectorScaled(t, v);
    MulScalarScaled(t, k);
  }

  lemma MulVectorScaled(t: Transform2D, v: V2.Vector2)
    ensures MulVector(t, v) == Scaled(t, v)
  {
    assert V2.Mul(t.x, v) == V2.Vector2(t.x.x * v.x, t.x.y * v.y);
    assert V2.Mul(t.y, v) == V2.Vector2(t.y.x * v.x, t.y.y * v.y);
  }

  lemma MulScalarScaled(t: Transform2D, k: real)
    ensures MulScalar(t, k) == Scaled(t, V2.Vector2(k, k))
  {
    var s := V2.Vector2(k, k);
    assert V2.Scale(t.x, k) == V2.Vector2(t.x.x * s.x, t.x.y * s.y);
    assert V2.Scale(t.y, k) == V2.Vector2(t.y.x * s.x, t.y.y * s.y);
    assert V2.Scale(t.origin, k) == V2.Mul(t.origin, s);
  }

  /** Dividing undoes multiplying by the same non-zero scalar. */
  lemma DivScalarMul(t: Transform2D, k: real)
    requires k != 0.0
    ensures DivScalar(MulScalar(t, k), k) == t
  {
    MulDivCancel(t.x.x, k);
    MulDivCancel(t.x.y, k);
    MulDivCancel(t.y.x, k);
    MulDivCancel(t.y.y, k);
    MulDivCancel(t.origin.x, k);
    MulDivCancel(t.origin.y, k);
  }

  // ---------------------------------------------------------------------
  // Conformality.
  // ---------------------------------------------------------------------

  /**
   * `is_conformal`: the `y` axis is, up to the tolerance, the `x` axis
   * turned a quarter (non-flipped case) or mirrored (flipped case).
   */
  predicate IsConformal(t: Transform2D) {
    (Utils.IsEqualApprox(t.x.x, t.y.y) && Utils.IsEqualApprox(t.x.y, -t.y.x))
    || (Utils.IsEqualApprox(t.x.x, -t.y.y) && Utils.IsEqualApprox(t.x.y, t.y.x))
  }

  /** The exact shape `is_conformal` tolerates: `y` is `x` turned a quarter, or mirrored. */
  predicate ExactlyConformal(t: Transform2D) {
    (t.x.x == t.y.y && t.x.y == -t.y.x) || (t.x.x == -t.y.y && t.x.y == t.y.x)
  }

  /** Every exactly conformal transform passes the approximate test. */
  lemma ExactlyConformalIsConformal(t: Transform2D)
    requires ExactlyConformal(t)
    ensures IsConformal(t)
  {
    ApproxFacts(t.x.x, 0.0);
    ApproxFacts(t.x.y, 0.0);
  }

  /** A rotation by any angle, scaled uniformly, flipped or not, is conformal. */
  lemma RotationScaleIsConformal(c: real, s: real, origin: V2.Vector2)
    ensures IsConformal(New(V2.Vector2(c, s), V2.Vector2(-s, c), origin))
    ensures IsConformal(New(V2.Vector2(c, s), V2.Vector2(s, -c), origin))
  {
    ExactlyConformalIsConformal(New(V2.Vector2(c, s), V2.Vector2(-s, c), origin));
    ExactlyConformalIsConformal(New(V2.Vector2(c, s), V2.Vector2(s, -c), origin));
  }

  /**
   * The exact shape is the orthogonal, uniform one: `y` is a quarter turn
   * or a mirror image of `x` exactly when the axes are perpendicular and
   * equally long.
   */
  lemma {:induction false} ConformalIffOrthogonalUniform(t: Transform2D)
    ensures ExactlyConformal(t) <==> V2.Dot(t.x, t.y) == 0.0 && V2.LengthSquared(t.x) == V2.LengthSquared(t.y)
  {
    var a, c, b, d := t.x.x, t.x.y, t.y.x, t.y.y;
    assert V2.Dot(t.x, t.y) == a * b + c * d;
    assert V2.LengthSquared(t.x) == a * a + c * c && V2.LengthSquared(t.y) == b * b + d * d;
    if ExactlyConformal(t) {
      if a == d && c == -b {
        ConformalAxes(a, b);
      } else {
        ConformalAxes(a, -b);
      }
    }
    if a * b + c * d == 0.0 && a * a + c * c == b * b + d * d {
      OrthogonalUniformAxes(a, b, c, d);
    }
  }

  /** Perpendicular axes of equal length are a quarter turn or a mirror image of each other. */
  lemma {:induction false} OrthogonalUniformAxes(a: real, b: real, c: real, d: real)
    requires a * b + c * d == 0.0 && a * a + c * c == b * b + d * d
    ensures (a == d && c == -b) || (a == -d && c == b)
  {
    var det, len := a * d - c * b, a * a + c * c;
    Lagrange(a, b, c, d);
    assert (a * b + c * d) * (a * b + c * d) == 0.0;
    assert det * det == len * len;
    SquaresEqual(det, len);
    SquareSums(a, b, c, d);
    if det == len {
      assert V2.LengthSquared(V2.Vector2(a - d, b + c)) == 0.0;
      assert V2.Vector2(a - d, b + c) == V2.ZERO;
    } else {
      assert V2.LengthSquared(V2.Vector2(a + d, b - c)) == 0.0;
      assert V2.Vector2(a + d, b - c) == V2.ZERO;
    }
  }

  /** Axes (a, -b) and (b, a) are perpendicular and equally long. */
  lemma ConformalAxes(a: real, b: real)
    ensures a * b + (-b) * a == 0.0
    ensures a * a + (-b) * (-b) == b * b + a * a
  {
  }

  /** Lagrange's identity in the plane: det² + dot² is the product of the squared lengths. */
  lemma Lagrange(a: real, b: real, c: real, d: real)
    ensures (a * d - c * b) * (a * d - c * b) + (a * b + c * d) * (a * b + c * d)
         == (a * a + c * c) * (b * b + d * d)
  {
  }

  /** Two reals with equal squares are equal up to sign. */
  lemma SquaresEqual(x: real, y: real)
    requires x * x == y * y
    ensures x == y || x == -y
  {
    assert (x - y) * (x + y) == 0.0;
  }

  /** The squared distances from (a, c) to the quarter-turn and mirror images of (b, d). */
  lemma SquareSums(a: real, b: real, c: real, d: real)
    ensures (a - d) * (a - d) + (b + c) * (b + c)
         == (a * a + c * c) + (b * b + d * d) - 2.0 * (a * d - c * b)
    ensures (a + d) * (a + d) + (b - c) * (b - c)
         == (a * a + c * c) + (b * b + d * d) + 2.0 * (a * d - c * b)
  {
  }

  /** Non-uniform scale (1.2, 3.4) and a 45-degree skew of the X axis are not conformal. */
  lemma NotConformalExamples()
    ensures !IsConformal(NewFromFloats(1.2, 0.0, 0.0, 3.4, 0.0, 0.0))
    ensures !IsConformal(NewFromFloats(FRAC_1_SQRT_2, FRAC_1_SQRT_2, 0.0, 1.0, 0.0, 0.0))
  {
  }

  /** The identity, a flip, a uniform scale and a flipped rotation with uniform scale are conformal. */
  lemma ConformalExamples()
    ensures IsConformal(IDENTITY)
    ensures IsConformal(NewFromFloats(1.0, 0.0, 0.0, -1.0, 0.0, 0.0))
    ensures IsConformal(NewFromFloats(1.2, 0.0, 0.0, 1.2, 0.0, 0.0))
    ensures IsConformal(NewFromFloats(1.2, 3.4, 3.4, -1.2, 0.0, 0.0))
  {
    RotationScaleIsConformal(1.0, 0.0, V2.ZERO);
    RotationScaleIsConformal(1.2, 0.0, V2.ZERO);
    RotationScaleIsConformal(1.2, 3.4, V2.ZERO);
  }

  // ---------------------------------------------------------------------
  // Indexed access.  An index above 2 panics in the source.
  // ---------------------------------------------------------------------

  /** `get`: 0 is the `x` axis, 1 the `y` axis, 2 the origin. */
  function Get(t: Transform2D, index: nat): V2.Vector2
    requires index < 3
  {
    if index == 0 then t.x else if index == 1 then t.y else t.origin
  }

  /** `set`: replaces the part `get` reads at the same index and nothing else. */
  function Set(t: Transform2D, index: nat, value: V2.Vector2): (r: Transform2D)
    requires index < 3
    ensures Get(r, index) == value
    ensures forall j: nat :: j < 3 && j != index ==> Get(r, j) == Get(t, j)
  {
    if index == 0 then t.(x := value)
    else if index == 1 then t.(y := value)
    else t.(origin := value)
  }

  /** Writing back what was read changes nothing, and the last of two writes wins. */
  lemma SetGet(t: Transform2D, index: nat, u: V2.Vector2, v: V2.Vector2)
    requires index < 3
    ensures Set(t, index, Get(t, index)) == t
    ensures Set(Set(t, index, u), index, v) == Set(t, index, v)
  {
  }
}
