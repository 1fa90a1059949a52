/**
 * `Transform3D`: a 3×4 affine transform made of a `Basis` and an `origin`.
 * A point `v` is sent to `basis.xform(v) + origin`.  Composition, the
 * affine inverse, the translation and scaling shortcuts and the scalar
 * operators are modelled exactly over the reals, on top of the `Basis`
 * model.  The `transform * vector` operator is here as well.
 */
module Transform3D {
  import opened Utils
  import opened Vector3
  import V3 = Vector3
  import B = Basis

  /** A basis (rows `x`, `y`, `z`) and a translation. */
  datatype Transform3D = Transform3D(basis: B.Basis, origin: Vector3)

  /** `IDENTITY`: the identity basis and no translation. */
  const IDENTITY: Transform3D := Transform3D(B.IDENTITY, ZERO)
  const FLIP_X: Transform3D := Transform3D(B.FLIP_X, ZERO)
  const FLIP_Y: Transform3D := Transform3D(B.FLIP_Y, ZERO)
  const FLIP_Z: Transform3D := Transform3D(B.FLIP_Z, ZERO)
  /** The derived `Default`: the default basis and the default (zero) vector. */
  const DEFAULT: Transform3D := Transform3D(B.DEFAULT, Vector3(0.0, 0.0, 0.0))

  function New(basis: B.Basis, origin: Vector3): Transform3D {
    Transform3D(basis, origin)
  }

  /** The derived default is the identity, and the flips mirror one axis each. */
  lemma DefaultIsIdentity()
    ensures DEFAULT == IDENTITY
    ensures B.Determinant(FLIP_X.basis) == -1.0
    ensures B.Determinant(FLIP_Y.basis) == -1.0
    ensures B.Determinant(FLIP_Z.basis) == -1.0
  {
    B.IdentityEntries();
  }

  // ---------------------------------------------------------------------
  // Transforming points.
  // ---------------------------------------------------------------------

  /** `xform`: each basis row dotted with `v`, plus the matching origin component. */
  function Xform(t: Transform3D, v: Vector3): (r: Vector3)
    ensures Sub(r, t.origin) == B.Xform(t.basis, v)
    ensures t.origin == ZERO ==> r == B.Xform(t.basis, v)
  {
    Vector3(Dot(t.basis.x, v) + t.origin.x,
            Dot(t.basis.y, v) + t.origin.y,
            Dot(t.basis.z, v) + t.origin.z)
  }

  /** The basis transform is linear in the vector. */
  lemma BasisXformLinear(m: B.Basis, u: Vector3, v: Vector3)
    ensures B.Xform(m, Add(u, v)) == Add(B.Xform(m, u), B.Xform(m, v))
    ensures B.Xform(m, Neg(v)) == Neg(B.Xform(m, v))
  {
  }

  /** The identity basis leaves every vector alone. */
  lemma BasisXformIdentity(v: Vector3)
    ensures B.Xform(B.IDENTITY, v) == v
  {
    B.IdentityEntries();
    B.VecEq(B.Xform(B.IDENTITY, v), v);
  }

  /** The origin is the image of zero, and the columns are the images of the axes minus the origin. */
  lemma XformAxes(t: Transform3D)
    ensures Xform(t, ZERO) == t.origin
    ensures Sub(Xform(t, RIGHT), t.origin) == B.AxisX(t.basis)
    ensures Sub(Xform(t, UP), t.origin) == B.AxisY(t.basis)
    ensures Sub(Xform(t, BACK), t.origin) == B.AxisZ(t.basis)
  {
    B.XformAxes(t.basis);
  }

  /** A transform is determined by where it sends zero and the three unit axes. */
  lemma {:induction false} EqualByXform(a: Transform3D, b: Transform3D)
    requires Xform(a, ZERO) == Xform(b, ZERO)
    requires Xform(a, RIGHT) == Xform(b, RIGHT)
    requires Xform(a, UP) == Xform(b, UP)
    requires Xform(a, BACK) == Xform(b, BACK)
    ensures a == b
  {
    XformAxes(a);
    XformAxes(b);
    B.ColumnsEq(a.basis, b.basis);
  }

  // ---------------------------------------------------------------------
  // Composition.
  // ---------------------------------------------------------------------

  /** `a * b` (and `a *= b`): the origin becomes `a.xform(b.origin)`, the basis `a.basis * b.basis`. */
  function Mul(a: Transform3D, b: Transform3D): Transform3D {
    Transform3D(B.Mul(a.basis, b.basis), Xform(a, b.origin))
  }

  /** Transforming by `a * b` is transforming by `b`, then by `a`. */
  lemma {:induction false} XformOfMul(a: Transform3D, b: Transform3D, v: Vector3)
    ensures Xform(Mul(a, b), v) == Xform(a, Xform(b, v))
  {
    B.XformOfMul(a.basis, b.basis, v);
    BasisXformLinear(a.basis, B.Xform(b.basis, v), b.origin);
    B.VecEq(Xform(Mul(a, b), v), Xform(a, Xform(b, v)));
  }

  /** The identity is neutral on both sides. */
  lemma {:induction false} MulIdentity(t: Transform3D)
    ensures Mul(IDENTITY, t) == t
    ensures Mul(t, IDENTITY) == t
  {
    B.MulIdentity(t.basis);
    BasisXformIdentity(t.origin);
    assert Xform(t, ZERO) == t.origin by {
      XformAxes(t);
    }
  }

  /** Composition is associative. */
  lemma {:induction false} MulAssociative(a: Transform3D, b: Transform3D, c: Transform3D)
    ensures Mul(Mul(a, b), c) == Mul(a, Mul(b, c))
  {
    forall v: Vector3 | v == ZERO || v == RIGHT || v == UP || v == BACK
      ensures Xform(Mul(Mul(a, b), c), v) == Xform(Mul(a, Mul(b, c)), v)
    {
      XformOfMul(Mul(a, b), c, v);
      XformOfMul(a, b, Xform(c, v));
      XformOfMul(a, Mul(b, c), v);
      XformOfMul(b, c, v);
    }
    EqualByXform(Mul(Mul(a, b), c), Mul(a, Mul(b, c)));
  }

  // ---------------------------------------------------------------------
  // The affine inverse.
  // ---------------------------------------------------------------------

  /**
   * `affine_inverse` (through `affine_invert`): invert the basis, then send
   * the negated origin through the inverted basis.  A singular basis
   * divides by zero in the source.
   */
  function AffineInverse(t: Transform3D): Transform3D
    requires B.Determinant(t.basis) != 0.0
  {
    var inv := B.Inverse(t.basis);
    Transform3D(inv, B.Xform(inv, Neg(t.origin)))
  }

  /** `t * affine_inverse(t)` and `affine_inverse(t) * t` are both the identity. */
  lemma {:induction false} AffineInverseIsInverse(t: Transform3D)
    requires B.Determinant(t.basis) != 0.0
    ensures Mul(t, AffineInverse(t)) == IDENTITY
    ensures Mul(AffineInverse(t), t) == IDENTITY
  {
    var inv := AffineInverse(t);
    var w := Neg(t.origin);
    // Right inverse: -origin goes through the inverse basis, then the basis.
    B.XformOfMul(t.basis, inv.basis, w);
    BasisXformIdentity(w);
    B.VecEq(Xform(t, inv.origin), ZERO);
    // Left inverse: the inverse basis sends origin and -origin to opposite vectors.
    BasisXformLinear(inv.basis, t.origin, t.origin);
    B.VecEq(Xform(inv, t.origin), ZERO);
  }

  /** The affine inverse is the only right inverse. */
  lemma {:induction false} AffineInverseUnique(t: Transform3D, u: Transform3D)
    requires B.Determinant(t.basis) != 0.0
    requires Mul(t, u) == IDENTITY
    ensures u == AffineInverse(t)
  {
    var inv := AffineInverse(t);
    AffineInverseIsInverse(t);
    calc {
      u;
      { MulIdentity(u); }
      Mul(IDENTITY, u);
      Mul(Mul(inv, t), u);
      { MulAssociative(inv, t, u); }
      Mul(inv, Mul(t, u));
      Mul(inv, IDENTITY);
      { MulIdentity(inv); }
      inv;
    }
  }

  /**
   * `inverse` (through `invert`): transpose the basis, then send the negated
   * origin through it.  Whatever the basis, the result sends the original
   * origin back to zero; it is the true inverse only for an orthonormal basis.
   */
  function Inverse(t: Transform3D): (r: Transform3D)
    ensures Xform(r, t.origin) == ZERO
  {
    var basis := B.Transposed(t.basis);
    BasisXformLinear(basis, t.origin, t.origin);
    B.VecEq(Xform(Transform3D(basis, B.Xform(basis, Neg(t.origin))), t.origin), ZERO);
    Transform3D(basis, B.Xform(basis, Neg(t.origin)))
  }

  /** For an orthonormal basis `inverse` undoes the transform. */
  lemma {:induction false} InverseOfOrthonormal(t: Transform3D)
    requires B.ExactlyOrthonormal(t.basis)
    ensures Mul(Inverse(t), t) == IDENTITY
  {
    B.ExactlyOrthonormalFacts(t.basis);
  }

  /** The uniform scale by 2 as a transform. */
  const DOUBLE: Transform3D := Transform3D(B.Basis(Vector3(2.0, 0.0, 0.0), Vector3(0.0, 2.0, 0.0), Vector3(0.0, 0.0, 2.0)), ZERO)

  /** The uniform scale by 2 is not orthonormal, and `inverse` keeps its basis. */
  lemma DoubleNotOrthonormal()
    ensures !B.ExactlyOrthonormal(DOUBLE.basis)
    ensures Inverse(DOUBLE).basis == DOUBLE.basis
  {
    assert B.AxisX(DOUBLE.basis) == Vector3(2.0, 0.0, 0.0);
    B.BasisEq(B.Transposed(DOUBLE.basis), DOUBLE.basis);
  }

  /** The uniform scale by 2 composed with itself scales by 4. */
  lemma DoubleSquared()
    ensures B.Mul(DOUBLE.basis, DOUBLE.basis).x.x == 4.0
  {
    assert B.TDotX(DOUBLE.basis, DOUBLE.basis.x) == 4.0;
  }

  /** Composing with the `inverse` of the scale by 2 squares its basis. */
  lemma DoubleAfterInverse()
    ensures Mul(Inverse(DOUBLE), DOUBLE).basis == B.Mul(DOUBLE.basis, DOUBLE.basis)
  {
    DoubleNotOrthonormal();
  }

  /**
   * For the scale by 2, which is not orthonormal, `inverse` does not invert:
   * composing with it scales the X axis by 4.
   */
  lemma DoubleInverseScales()
    ensures Mul(Inverse(DOUBLE), DOUBLE).basis.x.x == 4.0
  {
    DoubleSquared();
    DoubleAfterInverse();
  }

  // ---------------------------------------------------------------------
  // Translation and scaling.
  // ---------------------------------------------------------------------

  /** `translated`: the origin moves by `offset` in the parent frame. */
  function Translated(t: Transform3D, offset: Vector3): (r: Transform3D)
    ensures r.basis == t.basis
    ensures Sub(r.origin, t.origin) == offset
  {
    Transform3D(t.basis, Add(t.origin, offset))
  }

  /** `translated_local`: the origin moves by `offset` measured along the transform's own axes. */
  function TranslatedLocal(t: Transform3D, offset: Vector3): (r: Transform3D)
    ensures r.basis == t.basis
    ensures Sub(r.origin, t.origin) == B.Xform(t.basis, offset)
  {
    Transform3D(t.basis, Add(t.origin, B.Xform(t.basis, offset)))
  }

  /** `translated` is a left multiplication by a pure translation; on the identity both agree. */
  lemma {:induction false} TranslatedIsLeftMul(t: Transform3D, offset: Vector3)
    ensures Translated(IDENTITY, offset) == TranslatedLocal(IDENTITY, offset)
    ensures Translated(t, offset) == Mul(Translated(IDENTITY, offset), t)
  {
    BasisXformIdentity(offset);
    BasisXformIdentity(t.origin);
    B.MulIdentity(t.basis);
  }

  /** `translated_local` is a right multiplication by a pure translation. */
  lemma {:induction false} TranslatedLocalIsRightMul(t: Transform3D, offset: Vector3)
    ensures TranslatedLocal(t, offset) == Mul(t, Translated(IDENTITY, offset))
  {
    B.MulIdentity(t.basis);
  }

  /** `scaled`: the basis rows and the origin components are multiplied by the matching scale component. */
  function Scaled(t: Transform3D, s: Vector3): Transform3D {
    Transform3D(B.Scaled(t.basis, s), V3.Mul(t.origin, s))
  }

  /** `scaled_local`: the basis columns are multiplied by the matching scale component; the origin stays. */
  function ScaledLocal(t: Transform3D, s: Vector3): Transform3D {
    Transform3D(B.ScaledLocal(t.basis, s), t.origin)
  }

  /** A pure scale is the diagonal basis with no translation, however it is built. */
  lemma {:induction false} ScaledIdentity(s: Vector3)
    ensures Scaled(IDENTITY, s) == Transform3D(B.FromScale(s), ZERO)
    ensures ScaledLocal(IDENTITY, s) == Transform3D(B.FromScale(s), ZERO)
  {
    B.ScaledIsLeftMul(B.IDENTITY, s);
    B.MulIdentity(B.FromScale(s));
  }

  /** The diagonal basis scales a vector component-wise. */
  lemma XformFromScale(s: Vector3, v: Vector3)
    ensures B.Xform(B.FromScale(s), v) == V3.Mul(v, s)
  {
    B.VecEq(B.Xform(B.FromScale(s), v), V3.Mul(v, s));
  }

  /** `scaled` is a left multiplication by a pure scale; on the identity both agree. */
  lemma {:induction false} ScaledIsLeftMul(t: Transform3D, s: Vector3)
    ensures Scaled(IDENTITY, s) == ScaledLocal(IDENTITY, s)
    ensures Scaled(t, s) == Mul(Scaled(IDENTITY, s), t)
  {
    ScaledIdentity(s);
    B.ScaledIsLeftMul(t.basis, s);
    XformFromScale(s, t.origin);
  }

  /** `scaled_local` is a right multiplication by a pure scale. */
  lemma {:induction false} ScaledLocalIsRightMul(t: Transform3D, s: Vector3)
    ensures ScaledLocal(t, s) == Mul(t, Scaled(IDENTITY, s))
  {
    ScaledIdentity(s);
    XformAxes(t);
  }

  // ---------------------------------------------------------------------
  // Scalar operators.
  // ---------------------------------------------------------------------

  /** `t * k` (through `*=`): the basis rows and the origin are multiplied by `k`. */
  function MulScalar(t: Transform3D, k: real): Transform3D {
    Transform3D(B.ScalarMul(t.basis, k), Scale(t.origin, k))
  }

  /** `t / k` (through `/=`); a zero divisor gives inf or NaN in the source. */
  function DivScalar(t: Transform3D, k: real): (r: Transform3D)
    requires k != 0.0
    ensures MulScalar(r, k) == t
  {
    Transform3D(B.DivScalar(t.basis, k), V3.DivScalar(t.origin, k))
  }

  /** Multiplying by `k` is a uniform `scaled` by `k`. */
  lemma MulScalarIsScaled(t: Transform3D, k: real)
    ensures MulScalar(t, k) == Scaled(t, Vector3(k, k, k))
  {
    B.ScalarMulFacts(t.basis, k);
  }

  /** Multiplying by `k` scales every transformed point by `k`. */
  lemma {:induction false} XformMulScalar(t: Transform3D, k: real, v: Vector3)
    ensures Xform(MulScalar(t, k), v) == Scale(Xform(t, v), k)
  {
    var s := Vector3(k, k, k);
    MulScalarIsScaled(t, k);
    ScaledIsLeftMul(t, s);
    XformOfMul(Scaled(IDENTITY, s), t, v);
    ScaledIdentity(s);
    XformFromScale(s, Xform(t, v));
  }

  /** Dividing undoes multiplying by the same non-zero scalar. */
  lemma DivScalarMul(t: Transform3D, k: real)
    requires k != 0.0
    ensures DivScalar(MulScalar(t, k), k) == t
  {
    B.DivScalarMul(t.basis, k);
    MulDivCancel(t.origin.x, k);
    MulDivCancel(t.origin.y, k);
    MulDivCancel(t.origin.z, k);
  }

  // ---------------------------------------------------------------------
  // `transform * vector`.
  // ---------------------------------------------------------------------

  /**
   * `transform * vector` as written: component `i` of the result is column
   * `i` of the basis dotted with the vector, plus the origin, so the basis
   * is applied transposed.
   */
  function MulVectorAsWritten(t: Transform3D, v: Vector3): Vector3 {
    Add(Vector3(v.x * t.basis.x.x + v.y * t.basis.y.x + v.z * t.basis.z.x,
                v.x * t.basis.x.y + v.y * t.basis.y.y + v.z * t.basis.z.y,
                v.x * t.basis.x.z + v.y * t.basis.y.z + v.z * t.basis.z.z),
        t.origin)
  }

  /** As written, the operator is `xform` with the transposed basis. */
  lemma MulVectorAsWrittenTransposes(t: Transform3D, v: Vector3)
    ensures MulVectorAsWritten(t, v) == Xform(Transform3D(B.Transposed(t.basis), t.origin), v)
  {
    B.VecEq(MulVectorAsWritten(t, v), Xform(Transform3D(B.Transposed(t.basis), t.origin), v));
  }

  /** A shear: the X axis stays, the Y axis leans towards X. */
  const SHEAR: Transform3D := Transform3D(B.NewRows(Vector3(1.0, 1.0, 0.0), UP, BACK), ZERO)

  /** The shear sends `UP` to (1, 1, 0). */
  lemma ShearXform()
    ensures Xform(SHEAR, UP) == Vector3(1.0, 1.0, 0.0)
  {
  }

  /** The operator as written sends `UP` to `UP` under the shear. */
  lemma ShearMulVectorAsWritten()
    ensures MulVectorAsWritten(SHEAR, UP) == UP
  {
  }

  /** As written, `transform * vector` disagrees with `xform` on the shear. */
  lemma MulVectorAsWrittenCounterexample()
    ensures MulVectorAsWritten(SHEAR, UP) != Xform(SHEAR, UP)
  {
    ShearXform();
    ShearMulVectorAsWritten();
  }

  /** `transform * vector` as evidently intended: the point transformed by `xform`. */
  function MulVector(t: Transform3D, v: Vector3): Vector3 {
    Xform(t, v)
  }

  /** The intended operator is compatible with composition: `(a * b) * v == a * (b * v)`. */
  lemma {:induction false} MulVectorOfMul(a: Transform3D, b: Transform3D, v: Vector3)
    ensures MulVector(Mul(a, b), v) == MulVector(a, MulVector(b, v))
    ensures MulVector(IDENTITY, v) == v
  {
    XformOfMul(a, b, v);
    BasisXformIdentity(v);
  }
}
