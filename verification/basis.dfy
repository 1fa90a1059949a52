/**
 * `Basis`: a 3×3 matrix stored as three rows `x`, `y`, `z`, while its
 * public axes are the columns.  The matrix algebra (construction from rows
 * or columns, transpose, determinant, scaling, product, cofactor inverse)
 * is modelled exactly.  Of the rotation conversions only the decisions are
 * modelled: the pivot choice of `get_quaternion` and the singularity and
 * dominant-axis branches of `get_axis_angle`, with `sqrt` and `acos` as
 * parameters.  The outer product of two vectors, which builds a `Basis`,
 * is here as well.
 */
module Basis {
  import opened Utils
  import opened Enums
  import opened Vector3
  import V3 = Vector3
  import Q = Quaternion

  /** Rows `x`, `y` and `z` of the matrix. */
  datatype Basis = Basis(x: Vector3, y: Vector3, z: Vector3)

  // ---------------------------------------------------------------------
  // Rows, columns and entries.  An index above 2 panics in the source.
  // ---------------------------------------------------------------------

  function GetRow(b: Basis, index: nat): Vector3
    requires index < 3
  {
    if index == 0 then b.x else if index == 1 then b.y else b.z
  }

  /** The entry in row `i` and column `j`. */
  function Entry(b: Basis, i: nat, j: nat): real
    requires i < 3 && j < 3
  {
    Get(GetRow(b, i), j)
  }

  /** `get_column`: column `index` collects the `index`-th component of every row. */
  function GetColumn(b: Basis, index: nat): (c: Vector3)
    requires index < 3
    ensures forall i: nat :: i < 3 ==> Get(c, i) == Entry(b, i, index)
  {
    if index == 0 then Vector3(b.x.x, b.y.x, b.z.x)
    else if index == 1 then Vector3(b.x.y, b.y.y, b.z.y)
    else Vector3(b.x.z, b.y.z, b.z.z)
  }

  /** `set_row`: replaces one row and keeps the other two. */
  function SetRow(b: Basis, index: nat, row: Vector3): (r: Basis)
    requires index < 3
    ensures GetRow(r, index) == row
    ensures forall i: nat :: i < 3 && i != index ==> GetRow(r, i) == GetRow(b, i)
  {
    if index == 0 then b.(x := row) else if index == 1 then b.(y := row) else b.(z := row)
  }

  /** `set_column`: replaces one column and keeps the other two. */
  function SetColumn(b: Basis, index: nat, column: Vector3): (r: Basis)
    requires index < 3
    ensures GetColumn(r, index) == column
    ensures forall j: nat :: j < 3 && j != index ==> GetColumn(r, j) == GetColumn(b, j)
  {
    if index == 0 then
      Basis(b.x.(x := column.x), b.y.(x := column.y), b.z.(x := column.z))
    else if index == 1 then
      Basis(b.x.(y := column.x), b.y.(y := column.y), b.z.(y := column.z))
    else
      Basis(b.x.(z := column.x), b.y.(z := column.y), b.z.(z := column.z))
  }

  /** `new_from_floats`: the nine entries in row-major order. */
  function NewFromFloats(xx: real, xy: real, xz: real, yx: real, yy: real, yz: real,
                         zx: real, zy: real, zz: real): Basis
  {
    Basis(Vector3(xx, xy, xz), Vector3(yx, yy, yz), Vector3(zx, zy, zz))
  }

  /** `new`: the three arguments are the columns. */
  function New(x: Vector3, y: Vector3, z: Vector3): (b: Basis)
    ensures GetColumn(b, 0) == x && GetColumn(b, 1) == y && GetColumn(b, 2) == z
  {
    NewFromFloats(x.x, y.x, z.x, x.y, y.y, z.y, x.z, y.z, z.z)
  }

  /** `new_rows`: the three arguments are the rows. */
  function NewRows(x: Vector3, y: Vector3, z: Vector3): (b: Basis)
    ensures GetRow(b, 0) == x && GetRow(b, 1) == y && GetRow(b, 2) == z
  {
    Basis(x, y, z)
  }

  /** `set_columns` gives the same basis as `new` on the same columns. */
  function SetColumns(b: Basis, c0: Vector3, c1: Vector3, c2: Vector3): (r: Basis)
    ensures r == New(c0, c1, c2)
  {
    SetColumn(SetColumn(SetColumn(b, 0, c0), 1, c1), 2, c2)
  }

  /** The axis accessors `x()`, `y()`, `z()` are columns 0, 1 and 2. */
  function AxisX(b: Basis): Vector3 { GetColumn(b, 0) }
  function AxisY(b: Basis): Vector3 { GetColumn(b, 1) }
  function AxisZ(b: Basis): Vector3 { GetColumn(b, 2) }

  const IDENTITY: Basis := New(RIGHT, UP, BACK)
  const FLIP_X: Basis := New(LEFT, UP, BACK)
  const FLIP_Y: Basis := New(RIGHT, DOWN, BACK)
  const FLIP_Z: Basis := New(RIGHT, UP, FORWARD)
  /** `Default` is the identity. */
  const DEFAULT: Basis := IDENTITY

  /** The identity has ones on the diagonal and zeros elsewhere. */
  lemma IdentityEntries()
    ensures forall i: nat, j: nat :: i < 3 && j < 3 ==> Entry(IDENTITY, i, j) == (if i == j then 1.0 else 0.0)
    ensures DEFAULT == IDENTITY
  {
  }

  /** Writing a row or a column and reading it back round-trips, and `new` is `new_rows` transposed. */
  lemma RowColumnRoundTrip(b: Basis, i: nat, v: Vector3)
    requires i < 3
    ensures GetRow(SetRow(b, i, v), i) == v
    ensures GetColumn(SetColumn(b, i, v), i) == v
    ensures SetRow(b, i, GetRow(b, i)) == b
    ensures SetColumn(b, i, GetColumn(b, i)) == b
  {
  }

  // ---------------------------------------------------------------------
  // Transpose.
  // ---------------------------------------------------------------------

  /** `transposed`: rows become columns. */
  function Transposed(b: Basis): (r: Basis)
    ensures forall i: nat, j: nat :: i < 3 && j < 3 ==> Entry(r, i, j) == Entry(b, j, i)
  {
    Basis(Vector3(b.x.x, b.y.x, b.z.x), Vector3(b.x.y, b.y.y, b.z.y), Vector3(b.x.z, b.y.z, b.z.z))
  }

  /** Transposing twice is the identity, and `new` on columns is `new_rows` transposed. */
  lemma TransposedFacts(b: Basis, c0: Vector3, c1: Vector3, c2: Vector3)
    ensures Transposed(Transposed(b)) == b
    ensures New(c0, c1, c2) == Transposed(NewRows(c0, c1, c2))
    ensures forall i: nat :: i < 3 ==> GetColumn(Transposed(b), i) == GetRow(b, i)
  {
  }

  /** The documented example: the columns of the transposed (1..9) basis are (1,4,7), (2,5,8), (3,6,9). */
  lemma TransposedExample()
    ensures var t := Transposed(New(Vector3(1.0, 2.0, 3.0), Vector3(4.0, 5.0, 6.0), Vector3(7.0, 8.0, 9.0)));
            AxisX(t) == Vector3(1.0, 4.0, 7.0) && AxisY(t) == Vector3(2.0, 5.0, 8.0) && AxisZ(t) == Vector3(3.0, 6.0, 9.0)
  {
  }

  // ---------------------------------------------------------------------
  // Products.
  // ---------------------------------------------------------------------

  /** `t_dot_x`, `t_dot_y`, `t_dot_z`: a column dotted with `v`. */
  function TDotX(b: Basis, v: Vector3): real
  {
    b.x.x * v.x + b.y.x * v.y + b.z.x * v.z
  }

  function TDotY(b: Basis, v: Vector3): real
  {
    b.x.y * v.x + b.y.y * v.y + b.z.y * v.z
  }

  function TDotZ(b: Basis, v: Vector3): real
  {
    b.x.z * v.x + b.y.z * v.y + b.z.z * v.z
  }

  /**
   * `xform`: each row dotted with `v`, which is the combination of the
   * columns weighted by the components of `v`.
   */
  function Xform(b: Basis, v: Vector3): Vector3
  {
    Vector3(Dot(b.x, v), Dot(b.y, v), Dot(b.z, v))
  }

  /** `xform` is the combination of the columns weighted by the components of `v`. */
  lemma XformColumns(b: Basis, v: Vector3)
    ensures Xform(b, v) == Add(Add(Scale(AxisX(b), v.x), Scale(AxisY(b), v.y)), Scale(AxisZ(b), v.z))
  {
  }

  /** The transposed dot products are the columns dotted with `v`, which is `xform` by the transpose. */
  lemma XformTransposed(b: Basis, v: Vector3)
    ensures TDotX(b, v) == Dot(AxisX(b), v) && TDotY(b, v) == Dot(AxisY(b), v) && TDotZ(b, v) == Dot(AxisZ(b), v)
    ensures Xform(Transposed(b), v) == Vector3(TDotX(b, v), TDotY(b, v), TDotZ(b, v))
  {
  }

  /** `a * b`: entry (i, j) is row i of `a` dotted with column j of `b`. */
  function Mul(a: Basis, b: Basis): Basis {
    NewFromFloats(
      TDotX(b, a.x), TDotY(b, a.x), TDotZ(b, a.x),
      TDotX(b, a.y), TDotY(b, a.y), TDotZ(b, a.y),
      TDotX(b, a.z), TDotY(b, a.z), TDotZ(b, a.z))
  }

  /** Entry (i, j) of the product is column j of `b` dotted with row i of `a`. */
  lemma MulEntries(a: Basis, b: Basis)
    ensures forall i: nat, j: nat :: i < 3 && j < 3 ==> Entry(Mul(a, b), i, j) == Dot(GetColumn(b, j), GetRow(a, i))
  {
  }

  /** The identity is neutral on both sides of the product. */
  lemma MulIdentity(b: Basis)
    ensures Mul(IDENTITY, b) == b
    ensures Mul(b, IDENTITY) == b
  {
  }

  /** Transposing a product reverses its factors. */
  lemma TransposedOfMul(a: Basis, b: Basis)
    ensures Transposed(Mul(a, b)) == Mul(Transposed(b), Transposed(a))
  {
  }

  /** Transforming by a product is transforming by the right factor, then the left. */
  lemma {:induction false} XformOfMul(a: Basis, b: Basis, v: Vector3)
    ensures Xform(Mul(a, b), v) == Xform(a, Xform(b, v))
  {
    var w := Xform(b, v);
    XformRow(a.x, b, v);
    XformRow(a.y, b, v);
    XformRow(a.z, b, v);
  }

  /** One row of `XformOfMul`: `(row * b) . v == row . (b v)`. */
  lemma XformRow(row: Vector3, b: Basis, v: Vector3)
    ensures Dot(Vector3(TDotX(b, row), TDotY(b, row), TDotZ(b, row)), v) == Dot(row, Xform(b, v))
  {
  }

  // ---------------------------------------------------------------------
  // Determinant and scaling.
  // ---------------------------------------------------------------------

  /** `determinant`, expanded along the first column. */
  function Determinant(b: Basis): real {
    b.x.x * (b.y.y * b.z.z - b.z.y * b.y.z)
    - b.y.x * (b.x.y * b.z.z - b.z.y * b.x.z)
    + b.z.x * (b.x.y * b.y.z - b.y.y * b.x.z)
  }

  /**
   * The determinant is the scalar triple product of the rows, equally of
   * the columns, so transposing keeps it; swapping two rows negates it.
   */
  lemma DeterminantFacts(b: Basis)
    ensures Determinant(b) == Dot(b.x, Cross(b.y, b.z))
    ensures Determinant(b) == Dot(AxisX(b), Cross(AxisY(b), AxisZ(b)))
    ensures Determinant(Transposed(b)) == Determinant(b)
    ensures Determinant(Basis(b.y, b.x, b.z)) == -Determinant(b)
  {
  }

  /** `from_scale`: the diagonal matrix with `scale` on the diagonal. */
  function FromScale(scale: Vector3): (b: Basis)
    ensures forall i: nat, j: nat :: i < 3 && j < 3 ==> Entry(b, i, j) == (if i == j then Get(scale, i) else 0.0)
    ensures Determinant(b) == scale.x * scale.y * scale.z
  {
    NewFromFloats(scale.x, 0.0, 0.0, 0.0, scale.y, 0.0, 0.0, 0.0, scale.z)
  }

  /** `scaled`: row `i` is multiplied by component `i` of `scale` (a global scale). */
  function Scaled(b: Basis, scale: Vector3): (r: Basis)
    ensures forall i: nat :: i < 3 ==> GetRow(r, i) == V3.Scale(GetRow(b, i), Get(scale, i))
  {
    Basis(V3.Scale(b.x, scale.x), V3.Scale(b.y, scale.y), V3.Scale(b.z, scale.z))
  }

  /** `scaled_local`: `self * from_scale(scale)`, which scales column `j` by component `j` (a local scale). */
  function ScaledLocal(b: Basis, scale: Vector3): (r: Basis)
    ensures AxisX(r) == V3.Scale(AxisX(b), scale.x)
    ensures AxisY(r) == V3.Scale(AxisY(b), scale.y)
    ensures AxisZ(r) == V3.Scale(AxisZ(b), scale.z)
  {
    MulByDiagonal(b, scale);
    Mul(b, FromScale(scale))
  }

  /** Multiplying by a diagonal matrix scales columns on the right and rows on the left. */
  lemma MulByDiagonal(b: Basis, scale: Vector3)
    ensures Mul(b, FromScale(scale)) == Basis(V3.Mul(b.x, scale), V3.Mul(b.y, scale), V3.Mul(b.z, scale))
    ensures Mul(FromScale(scale), b) == Scaled(b, scale)
  {
  }

  /** Scaling globally is multiplying by the diagonal matrix on the left. */
  lemma ScaledIsLeftMul(b: Basis, scale: Vector3)
    ensures Scaled(b, scale) == Mul(FromScale(scale), b)
    ensures Scaled(b, ONE) == b
  {
    MulByDiagonal(b, scale);
  }

  /** The documented example: columns (1,1,1), (2,2,2), (3,3,3) scaled by (0,2,-2). */
  lemma ScaledExample()
    ensures var s := Scaled(New(Vector3(1.0, 1.0, 1.0), Vector3(2.0, 2.0, 2.0), Vector3(3.0, 3.0, 3.0)), Vector3(0.0, 2.0, -2.0));
            AxisX(s) == Vector3(0.0, 2.0, -2.0) && AxisY(s) == Vector3(0.0, 4.0, -4.0) && AxisZ(s) == Vector3(0.0, 6.0, -6.0)
  {
  }

  // ---------------------------------------------------------------------
  // Scalar multiplication and the inverse.
  // ---------------------------------------------------------------------

  /** Every entry multiplied by `k`: what `*=` with a scalar does to the rows. */
  function ScalarMul(b: Basis, k: real): Basis {
    Basis(V3.Scale(b.x, k), V3.Scale(b.y, k), V3.Scale(b.z, k))
  }

  /** Scalar multiplication scales every entry, which is a uniform global scale. */
  lemma ScalarMulFacts(b: Basis, k: real)
    ensures forall i: nat, j: nat :: i < 3 && j < 3 ==> Entry(ScalarMul(b, k), i, j) == Entry(b, i, j) * k
    ensures ScalarMul(b, k) == Scaled(b, Vector3(k, k, k))
    ensures ScalarMul(b, 1.0) == b
  {
  }

  /** A matrix is determined by where it sends the three unit axes: its columns. */
  lemma XformAxes(m: Basis)
    ensures Xform(m, RIGHT) == AxisX(m) && Xform(m, UP) == AxisY(m) && Xform(m, BACK) == AxisZ(m)
  {
    XformRight(m);
    XformUp(m);
    XformBack(m);
  }

  lemma XformRight(m: Basis)
    ensures Xform(m, RIGHT) == AxisX(m)
  {
    DotAxes(m.x);
    DotAxes(m.y);
    DotAxes(m.z);
    VecEq(Xform(m, RIGHT), AxisX(m));
  }

  lemma XformUp(m: Basis)
    ensures Xform(m, UP) == AxisY(m)
  {
    DotAxes(m.x);
    DotAxes(m.y);
    DotAxes(m.z);
    VecEq(Xform(m, UP), AxisY(m));
  }

  lemma XformBack(m: Basis)
    ensures Xform(m, BACK) == AxisZ(m)
  {
    DotAxes(m.x);
    DotAxes(m.y);
    DotAxes(m.z);
    VecEq(Xform(m, BACK), AxisZ(m));
  }

  /** Bases with the same columns are equal. */
  lemma ColumnsEq(a: Basis, b: Basis)
    requires AxisX(a) == AxisX(b) && AxisY(a) == AxisY(b) && AxisZ(a) == AxisZ(b)
    ensures a == b
  {
    BasisEq(a, b);
  }

  /** The product is associative, because transforming by a product composes the transforms. */
  lemma {:induction false} MulAssociative(a: Basis, b: Basis, c: Basis)
    ensures Mul(Mul(a, b), c) == Mul(a, Mul(b, c))
  {
    var l := Mul(Mul(a, b), c);
    var r := Mul(a, Mul(b, c));
    AssociativeOn(a, b, c, RIGHT);
    AssociativeOn(a, b, c, UP);
    AssociativeOn(a, b, c, BACK);
    XformAxes(l);
    XformAxes(r);
    ColumnsEq(l, r);
  }

  lemma {:induction false} AssociativeOn(a: Basis, b: Basis, c: Basis, v: Vector3)
    ensures Xform(Mul(Mul(a, b), c), v) == Xform(Mul(a, Mul(b, c)), v)
  {
    XformOfMul(Mul(a, b), c, v);
    XformOfMul(a, b, Xform(c, v));
    XformOfMul(b, c, v);
    XformOfMul(a, Mul(b, c), v);
  }

  /** Multiplying every entry by `k` is multiplying by `k` times the identity, on either side. */
  lemma ScalarMulIsMul(c: Basis, k: real)
    ensures ScalarMul(c, k) == Mul(c, Diagonal(k))
    ensures ScalarMul(c, k) == Mul(Diagonal(k), c)
  {
    MulByDiagonal(c, Vector3(k, k, k));
    ScalarMulFacts(c, k);
    ScaledIsLeftMul(c, Vector3(k, k, k));
  }

  /** A scalar factor moves out of a product. */
  lemma {:induction false} MulScalarMul(a: Basis, c: Basis, k: real)
    ensures Mul(a, ScalarMul(c, k)) == ScalarMul(Mul(a, c), k)
    ensures Mul(ScalarMul(c, k), a) == ScalarMul(Mul(c, a), k)
  {
    ScalarMulIsMul(c, k);
    ScalarMulIsMul(Mul(a, c), k);
    ScalarMulIsMul(Mul(c, a), k);
    MulAssociative(a, c, Diagonal(k));
    MulAssociative(Diagonal(k), c, a);
  }

  /** Vectors with equal components are equal. */
  lemma VecEq(a: Vector3, b: Vector3)
    requires a.x == b.x && a.y == b.y && a.z == b.z
    ensures a == b
  {
  }

  /** Bases with equal entries are equal. */
  lemma BasisEq(a: Basis, b: Basis)
    requires a.x.x == b.x.x && a.x.y == b.x.y && a.x.z == b.x.z
    requires a.y.x == b.y.x && a.y.y == b.y.y && a.y.z == b.y.z
    requires a.z.x == b.z.x && a.z.y == b.z.y && a.z.z == b.z.z
    ensures a == b
  {
  }

  /**
   * The adjugate, the transposed matrix of cofactors: column `i` is the
   * cross product of the two rows other than `i`, in cyclic order.
   */
  function Adjugate(b: Basis): Basis {
    New(Cross(b.y, b.z), Cross(b.z, b.x), Cross(b.x, b.y))
  }

  /** `d` on the diagonal, zero elsewhere. */
  function Diagonal(d: real): (r: Basis)
    ensures r == FromScale(Vector3(d, d, d))
    ensures Transposed(r) == r
  {
    Basis(Vector3(d, 0.0, 0.0), Vector3(0.0, d, 0.0), Vector3(0.0, 0.0, d))
  }

  /** A scalar multiple of the identity is the diagonal matrix of the scalar. */
  lemma ScaledIdentity(d: real)
    ensures ScalarMul(IDENTITY, d) == Diagonal(d)
  {
    IdentityEntries();
  }

  /** Each row dotted with its own cofactor column gives the determinant, with another row's 0. */
  lemma {:induction false} MulAdjugateRight(b: Basis)
    ensures Mul(b, Adjugate(b)) == Diagonal(Determinant(b))
  {
    var d := Determinant(b);
    DeterminantFacts(b);
    DotFacts(b.x, Cross(b.y, b.z));
    TripleProductCyclic(b.x, b.y, b.z);
    DotFacts(b.y, Cross(b.z, b.x));
    DotFacts(b.z, Cross(b.x, b.y));
    CrossFacts(b.y, b.z, 0.0);
    CrossFacts(b.z, b.x, 0.0);
    CrossFacts(b.x, b.y, 0.0);
    var m := Mul(b, Adjugate(b));
    AdjugateRow(b, b.x);
    assert m.x == Vector3(d, 0.0, 0.0);
    AdjugateRow(b, b.y);
    assert m.y == Vector3(0.0, d, 0.0);
    AdjugateRow(b, b.z);
    assert m.z == Vector3(0.0, 0.0, d);
  }

  /** A row times the adjugate dots it with each cofactor column in turn. */
  lemma AdjugateRow(b: Basis, v: Vector3)
    ensures TDotX(Adjugate(b), v) == Dot(Cross(b.y, b.z), v)
    ensures TDotY(Adjugate(b), v) == Dot(Cross(b.z, b.x), v)
    ensures TDotZ(Adjugate(b), v) == Dot(Cross(b.x, b.y), v)
  {
  }

  /** The adjugate commutes with transposition. */
  lemma AdjugateTransposed(b: Basis)
    ensures Adjugate(Transposed(b)) == Transposed(Adjugate(b))
  {
    var l, r := Adjugate(Transposed(b)), Transposed(Adjugate(b));
    AdjugateTransposedRows(b.x, b.y, b.z, l, r);
  }

  /** The nine cofactors agree entry by entry, each up to the order of its two products. */
  lemma AdjugateTransposedRows(x: Vector3, y: Vector3, z: Vector3, l: Basis, r: Basis)
    requires l == Adjugate(Transposed(Basis(x, y, z))) && r == Transposed(Adjugate(Basis(x, y, z)))
    ensures l == r
  {
    var t := Basis(Vector3(x.x, y.x, z.x), Vector3(x.y, y.y, z.y), Vector3(x.z, y.z, z.z));
    assert Transposed(Basis(x, y, z)) == t;
    var a := Adjugate(t);
    assert r == Basis(Cross(y, z), Cross(z, x), Cross(x, y));
    assert a == New(Cross(t.y, t.z), Cross(t.z, t.x), Cross(t.x, t.y));
    CofactorRowX(x, y, z, a);
    CofactorRowY(x, y, z, a);
    CofactorRowZ(x, y, z, a);
  }

  lemma CofactorRowX(x: Vector3, y: Vector3, z: Vector3, a: Basis)
    requires a == New(Cross(Vector3(x.y, y.y, z.y), Vector3(x.z, y.z, z.z)),
                      Cross(Vector3(x.z, y.z, z.z), Vector3(x.x, y.x, z.x)),
                      Cross(Vector3(x.x, y.x, z.x), Vector3(x.y, y.y, z.y)))
    ensures a.x == Cross(y, z)
  {
    CrossEntries(y, z);
  }

  lemma CofactorRowY(x: Vector3, y: Vector3, z: Vector3, a: Basis)
    requires a == New(Cross(Vector3(x.y, y.y, z.y), Vector3(x.z, y.z, z.z)),
                      Cross(Vector3(x.z, y.z, z.z), Vector3(x.x, y.x, z.x)),
                      Cross(Vector3(x.x, y.x, z.x), Vector3(x.y, y.y, z.y)))
    ensures a.y == Cross(z, x)
  {
    CrossEntries(z, x);
  }

  lemma CofactorRowZ(x: Vector3, y: Vector3, z: Vector3, a: Basis)
    requires a == New(Cross(Vector3(x.y, y.y, z.y), Vector3(x.z, y.z, z.z)),
                      Cross(Vector3(x.z, y.z, z.z), Vector3(x.x, y.x, z.x)),
                      Cross(Vector3(x.x, y.x, z.x), Vector3(x.y, y.y, z.y)))
    ensures a.z == Cross(x, y)
  {
    CrossEntries(x, y);
  }

  /** The components of a cross product with each of its two products written in the other order. */
  lemma CrossEntries(a: Vector3, b: Vector3)
    ensures Cross(a, b).x == a.y * b.z - b.y * a.z
    ensures Cross(a, b).y == a.z * b.x - b.z * a.x
    ensures Cross(a, b).z == a.x * b.y - b.x * a.y
  {
  }

  /** A matrix times its adjugate, on either side, is its determinant times the identity. */
  lemma {:induction false} MulAdjugate(b: Basis)
    ensures Mul(b, Adjugate(b)) == ScalarMul(IDENTITY, Determinant(b))
    ensures Mul(Adjugate(b), b) == ScalarMul(IDENTITY, Determinant(b))
  {
    var d := Determinant(b);
    ScaledIdentity(d);
    MulAdjugateRight(b);
    MulAdjugateRight(Transposed(b));
    DeterminantFacts(b);
    AdjugateTransposed(b);
    TransposedOfMul(Adjugate(b), b);
    TransposedFacts(Mul(Adjugate(b), b), RIGHT, UP, BACK);
  }

  /**
   * `inverse` (through `invert`): the adjugate over the determinant, which
   * the source expands along the first row.  A zero determinant divides by
   * zero in the source.
   */
  function Inverse(b: Basis): (r: Basis)
    requires Determinant(b) != 0.0
    ensures Mul(b, r) == IDENTITY
    ensures Mul(r, b) == IDENTITY
  {
    var co0 := b.y.y * b.z.z - b.y.z * b.z.y;
    var co1 := b.y.z * b.z.x - b.y.x * b.z.z;
    var co2 := b.y.x * b.z.y - b.y.y * b.z.x;
    var det := b.x.x * co0 + b.x.y * co1 + b.x.z * co2;
    assert det == Determinant(b);
    var r := ScalarMul(Adjugate(b), 1.0 / det);
    InverseIsScaledAdjugate(b, r, 1.0 / det);
    r
  }

  /** The product of `b` with its adjugate scaled by `1 / det` is the identity. */
  lemma {:induction false} InverseIsScaledAdjugate(b: Basis, r: Basis, s: real)
    requires Determinant(b) != 0.0 && s == 1.0 / Determinant(b)
    requires r == ScalarMul(Adjugate(b), s)
    ensures Mul(b, r) == IDENTITY && Mul(r, b) == IDENTITY
  {
    var d := Determinant(b);
    MulAdjugate(b);
    MulScalarMul(b, Adjugate(b), s);
    ScaledIdentity(d);
    ScaledIdentity(d * s);
    assert d * s == 1.0;
    IdentityEntries();
    BasisEq(ScalarMul(Diagonal(d), s), Diagonal(d * s));
  }

  // ---------------------------------------------------------------------
  // Shape tests.  They read the columns and compare with the tolerances
  // of `is_zero_approx` and `is_equal_approx`.
  // ---------------------------------------------------------------------

  /** `is_diagonal`: every off-diagonal entry is near zero. */
  predicate IsDiagonal(b: Basis) {
    Utils.IsZeroApprox(b.x.y) && Utils.IsZeroApprox(b.x.z) && Utils.IsZeroApprox(b.y.x)
    && Utils.IsZeroApprox(b.y.z) && Utils.IsZeroApprox(b.z.x) && Utils.IsZeroApprox(b.z.y)
  }

  /** `is_orthogonal`: the three columns are pairwise perpendicular, up to `CMP_EPSILON`. */
  predicate IsOrthogonal(b: Basis) {
    Utils.IsZeroApprox(Dot(AxisX(b), AxisY(b))) && Utils.IsZeroApprox(Dot(AxisX(b), AxisZ(b)))
    && Utils.IsZeroApprox(Dot(AxisY(b), AxisZ(b)))
  }

  /** `is_orthonormal`: orthogonal columns whose squared lengths are about 1. */
  predicate IsOrthonormal(b: Basis) {
    Utils.IsEqualApprox(LengthSquared(AxisX(b)), 1.0) && Utils.IsEqualApprox(LengthSquared(AxisY(b)), 1.0)
    && Utils.IsEqualApprox(LengthSquared(AxisZ(b)), 1.0)
    && Utils.IsZeroApprox(Dot(AxisX(b), AxisY(b))) && Utils.IsZeroApprox(Dot(AxisX(b), AxisZ(b)))
    && Utils.IsZeroApprox(Dot(AxisY(b), AxisZ(b)))
  }

  /**
   * `is_conformal`: orthogonal columns whose squared lengths are about the
   * squared length of the first column (the tolerance scales with it).
   */
  predicate IsConformal(b: Basis) {
    var xLenSq := LengthSquared(AxisX(b));
    Utils.IsEqualApprox(xLenSq, LengthSquared(AxisY(b))) && Utils.IsEqualApprox(xLenSq, LengthSquared(AxisZ(b)))
    && Utils.IsZeroApprox(Dot(AxisX(b), AxisY(b))) && Utils.IsZeroApprox(Dot(AxisX(b), AxisZ(b)))
    && Utils.IsZeroApprox(Dot(AxisY(b), AxisZ(b)))
  }

  /** `is_rotation`: conformal with a determinant within `UNIT_EPSILON` of 1. */
  predicate IsRotation(b: Basis) {
    IsConformal(b) && IsEqualApproxWithTolerance(Determinant(b), 1.0, UNIT_EPSILON)
  }

  /** Orthonormal and conformal each include orthogonal, and a rotation is conformal. */
  lemma ShapeImplications(b: Basis)
    ensures IsOrthonormal(b) ==> IsOrthogonal(b)
    ensures IsConformal(b) ==> IsOrthogonal(b)
    ensures IsRotation(b) ==> IsConformal(b) && IsOrthogonal(b)
    ensures IsRotation(b) ==> 1.0 - UNIT_EPSILON < Determinant(b) < 1.0 + UNIT_EPSILON
    ensures IsOrthonormal(b) ==> LengthSquared(AxisX(b)) > 1.0 - CMP_EPSILON - CMP_EPSILON * LengthSquared(AxisX(b))
  {
    RotationDeterminantNearOne(b);
    if IsOrthonormal(b) {
      ApproxOneLowerBound(LengthSquared(AxisX(b)));
    }
  }

  /** The determinant of a rotation lies strictly within `UNIT_EPSILON` of 1. */
  lemma RotationDeterminantNearOne(b: Basis)
    ensures IsRotation(b) ==> 1.0 - UNIT_EPSILON < Determinant(b) < 1.0 + UNIT_EPSILON
  {
    if IsRotation(b) {
      var d := Determinant(b);
      assert d == 1.0 || Utils.Abs(d - 1.0) < UNIT_EPSILON;
    }
  }

  /**
   * A non-negative value approximately equal to 1 is above 1 less the
   * tolerance, which grows with the value itself.
   */
  lemma ApproxOneLowerBound(a: real)
    requires 0.0 <= a
    requires Utils.IsEqualApprox(a, 1.0)
    ensures a > 1.0 - CMP_EPSILON - CMP_EPSILON * a
  {
    assert Utils.Abs(a) == a;
    assert 0.0 <= CMP_EPSILON * a;
    if a != 1.0 {
      assert Utils.Abs(a - 1.0) < Utils.Tolerance(a);
      assert Utils.Tolerance(a) <= CMP_EPSILON + CMP_EPSILON * a;
    }
  }

  /** Columns of exactly unit length and exactly perpendicular. */
  predicate ExactlyOrthonormal(b: Basis) {
    LengthSquared(AxisX(b)) == 1.0 && LengthSquared(AxisY(b)) == 1.0 && LengthSquared(AxisZ(b)) == 1.0
    && Dot(AxisX(b), AxisY(b)) == 0.0 && Dot(AxisX(b), AxisZ(b)) == 0.0 && Dot(AxisY(b), AxisZ(b)) == 0.0
  }

  /**
   * An exactly orthonormal basis passes the approximate tests, and its
   * transpose undoes it: `transposed() * b` is the identity.
   */
  lemma ExactlyOrthonormalFacts(b: Basis)
    requires ExactlyOrthonormal(b)
    ensures IsOrthonormal(b) && IsConformal(b) && IsOrthogonal(b)
    ensures Mul(Transposed(b), b) == IDENTITY
  {
    ExactlyOrthonormalShape(b);
    ExactlyOrthonormalTransposeUndoes(b);
  }

  lemma ExactlyOrthonormalShape(b: Basis)
    requires ExactlyOrthonormal(b)
    ensures IsOrthonormal(b) && IsConformal(b) && IsOrthogonal(b)
  {
    ApproxFacts(1.0, 0.0);
  }

  lemma {:induction false} ExactlyOrthonormalTransposeUndoes(b: Basis)
    requires ExactlyOrthonormal(b)
    ensures Mul(Transposed(b), b) == IDENTITY
  {
    var t := Transposed(b);
    var cx, cy, cz := AxisX(b), AxisY(b), AxisZ(b);
    assert t == Basis(cx, cy, cz);
    TDotColumns(b, cx);
    TDotColumns(b, cy);
    TDotColumns(b, cz);
    DotFacts(cx, cy);
    DotFacts(cx, cz);
    DotFacts(cy, cz);
    DotFacts(cx, cx);
    DotFacts(cy, cy);
    DotFacts(cz, cz);
    var m := Mul(t, b);
    assert m.x == Vector3(1.0, 0.0, 0.0);
    assert m.y == Vector3(0.0, 1.0, 0.0);
    assert m.z == Vector3(0.0, 0.0, 1.0);
    IdentityRows();
  }

  /** Transposed products dot `v` with each column of `b`. */
  lemma TDotColumns(b: Basis, v: Vector3)
    ensures TDotX(b, v) == Dot(AxisX(b), v)
    ensures TDotY(b, v) == Dot(AxisY(b), v)
    ensures TDotZ(b, v) == Dot(AxisZ(b), v)
  {
  }

  /** The rows of the identity are the unit axes. */
  lemma IdentityRows()
    ensures IDENTITY == Basis(Vector3(1.0, 0.0, 0.0), Vector3(0.0, 1.0, 0.0), Vector3(0.0, 0.0, 1.0))
  {
  }

  /** A diagonal matrix from `from_scale` is diagonal and orthogonal; a uniform one is conformal. */
  lemma FromScaleShape(s: Vector3)
    ensures IsDiagonal(FromScale(s)) && IsOrthogonal(FromScale(s))
    ensures s.x == s.y == s.z ==> IsConformal(FromScale(s))
  {
    ApproxFacts(0.0, 0.0);
  }

  /** The skewed basis of the tests: its X column is (1/√2, 1/√2, 0). */
  const SKEWED: Basis := New(Vector3(FRAC_1_SQRT_2, FRAC_1_SQRT_2, 0.0), UP, BACK)

  /** A flip, a rotation and a uniform scale by 5. */
  const FLIP_ROTATE_SCALE: Basis := New(Vector3(3.0, 4.0, 0.0), Vector3(4.0, -3.0, 0.0), Vector3(0.0, 0.0, 5.0))

  const ZERO_BASIS: Basis := NewFromFloats(0.0, 0.0, 0.0, 0.0, 0.0, 0.0, 0.0, 0.0, 0.0)

  /**
   * The skewed basis of the tests is not orthogonal, so it is neither
   * conformal, orthonormal nor a rotation.
   */
  lemma SkewedShape()
    ensures !IsOrthogonal(SKEWED) && !IsConformal(SKEWED)
    ensures !IsOrthonormal(SKEWED) && !IsRotation(SKEWED)
  {
    assert AxisX(SKEWED) == Vector3(FRAC_1_SQRT_2, FRAC_1_SQRT_2, 0.0);
    assert AxisY(SKEWED) == UP;
    assert Dot(AxisX(SKEWED), AxisY(SKEWED)) == FRAC_1_SQRT_2;
  }

  /** The default basis passes all four tests. */
  lemma DefaultShape()
    ensures IsOrthogonal(DEFAULT) && IsConformal(DEFAULT) && IsOrthonormal(DEFAULT) && IsRotation(DEFAULT)
  {
    assert AxisX(DEFAULT) == RIGHT && AxisY(DEFAULT) == UP && AxisZ(DEFAULT) == BACK;
    ExactlyOrthonormalFacts(DEFAULT);
    assert Determinant(DEFAULT) == 1.0;
  }

  /** A flip is orthogonal, conformal and orthonormal. */
  lemma FlipShape()
    ensures var f := FromScale(Vector3(-1.0, -1.0, -1.0));
            IsOrthogonal(f) && IsConformal(f) && IsOrthonormal(f)
  {
    FromScaleExactlyOrthonormal(Vector3(-1.0, -1.0, -1.0));
    ExactlyOrthonormalFacts(FromScale(Vector3(-1.0, -1.0, -1.0)));
  }

  /** `from_scale` with components of square 1 (each is 1 or -1) has exactly orthonormal columns. */
  lemma FromScaleExactlyOrthonormal(s: Vector3)
    requires s.x * s.x == 1.0 && s.y * s.y == 1.0 && s.z * s.z == 1.0
    ensures ExactlyOrthonormal(FromScale(s))
  {
    var f := FromScale(s);
    assert AxisX(f) == Vector3(s.x, 0.0, 0.0);
    assert AxisY(f) == Vector3(0.0, s.y, 0.0);
    assert AxisZ(f) == Vector3(0.0, 0.0, s.z);
  }

  /** A flip has determinant -1, so it is not a rotation. */
  lemma FlipNotRotation()
    ensures !IsRotation(FromScale(Vector3(-1.0, -1.0, -1.0)))
  {
    NotRotationByDeterminant(FromScale(Vector3(-1.0, -1.0, -1.0)));
  }

  /** A non-uniform scale is orthogonal but neither conformal, orthonormal nor a rotation. */
  lemma NonUniformScaleShape()
    ensures var s := FromScale(Vector3(1.2, 3.4, 5.6));
            IsOrthogonal(s) && !IsConformal(s) && !IsOrthonormal(s) && !IsRotation(s)
  {
    var s := FromScale(Vector3(1.2, 3.4, 5.6));
    FromScaleShape(Vector3(1.2, 3.4, 5.6));
    assert AxisX(s) == Vector3(1.2, 0.0, 0.0) && AxisY(s) == Vector3(0.0, 3.4, 0.0);
    assert LengthSquared(AxisX(s)) == 1.44;
    assert LengthSquared(AxisY(s)) == 11.56;
  }

  /** A uniform scale is conformal. */
  lemma UniformScaleShape()
    ensures IsConformal(FromScale(Vector3(1.2, 1.2, 1.2)))
  {
    FromScaleShape(Vector3(1.2, 1.2, 1.2));
  }

  /** A flip, a rotation and a uniform scale together are conformal but not orthonormal. */
  lemma FlipRotateScaleShape()
    ensures IsOrthogonal(FLIP_ROTATE_SCALE) && IsConformal(FLIP_ROTATE_SCALE) && !IsOrthonormal(FLIP_ROTATE_SCALE)
  {
    var b := FLIP_ROTATE_SCALE;
    assert AxisX(b) == Vector3(3.0, 4.0, 0.0) && AxisY(b) == Vector3(4.0, -3.0, 0.0) && AxisZ(b) == Vector3(0.0, 0.0, 5.0);
    assert LengthSquared(AxisX(b)) == 25.0;
    assert LengthSquared(AxisY(b)) == 25.0;
    assert LengthSquared(AxisZ(b)) == 25.0;
    assert Dot(AxisX(b), AxisY(b)) == 0.0;
    assert Dot(AxisX(b), AxisZ(b)) == 0.0;
    assert Dot(AxisY(b), AxisZ(b)) == 0.0;
    ApproxFacts(25.0, 0.0);
  }

  /** The all-zero basis is conformal (its scale 0 is uniform) and orthogonal, but not orthonormal nor a rotation. */
  lemma ZeroShape()
    ensures IsOrthogonal(ZERO_BASIS) && IsConformal(ZERO_BASIS)
  {
    assert ZERO_BASIS == FromScale(V3.ZERO);
    FromScaleShape(V3.ZERO);
  }

  lemma ZeroNotOrthonormal()
    ensures !IsOrthonormal(ZERO_BASIS)
  {
    ShapeImplications(ZERO_BASIS);
    assert AxisX(ZERO_BASIS) == V3.ZERO;
    assert LengthSquared(V3.ZERO) == 0.0;
  }

  lemma ZeroNotRotation()
    ensures !IsRotation(ZERO_BASIS)
  {
    ZeroDeterminant();
    NotRotationByDeterminant(ZERO_BASIS);
  }

  lemma ZeroDeterminant()
    ensures Determinant(ZERO_BASIS) == 0.0
  {
  }

  /** A basis that is singular or flips orientation is never a rotation. */
  lemma NotRotationByDeterminant(b: Basis)
    requires Determinant(b) <= 0.0
    ensures !IsRotation(b)
  {
    ShapeImplications(b);
  }

  /** A squeeze by 2 and 1/2 has determinant 1 but is not conformal, so it is not a rotation. */
  lemma SqueezeShape()
    ensures !IsRotation(New(Vector3(2.0, 0.0, 0.0), Vector3(0.0, 0.5, 0.0), BACK))
  {
    var b := New(Vector3(2.0, 0.0, 0.0), Vector3(0.0, 0.5, 0.0), BACK);
    assert LengthSquared(AxisX(b)) == 4.0;
    assert LengthSquared(AxisY(b)) == 0.25;
  }

  // ---------------------------------------------------------------------
  // Rotation read-back: the decisions of `get_quaternion` and
  // `get_axis_angle`.  `sqrt` and `acos` stand for the float functions.
  // ---------------------------------------------------------------------

  /** The sum of the diagonal entries. */
  function Trace(b: Basis): real {
    b.x.x + b.y.y + b.z.z
  }

  /**
   * The pivot of `get_quaternion` when the trace is not positive: the
   * first index of a largest diagonal entry.  With the two indices after
   * it, taken modulo 3, it names each row once.
   */
  function QuaternionPivot(m: Basis): (i: nat)
    ensures i < 3
    ensures forall j: nat :: j < 3 ==> Entry(m, j, j) <= Entry(m, i, i)
    ensures forall j: nat :: j < i ==> Entry(m, j, j) < Entry(m, i, i)
    ensures {i, (i + 1) % 3, (i + 2) % 3} == {0, 1, 2}
  {
    if m.x.x < m.y.y then
      if m.y.y < m.z.z then 2 else 1
    else if m.x.x < m.z.z then
      2
    else
      0
  }

  /**
   * With a non-positive trace, the value whose square root becomes the
   * pivot component is at least 1, so the division by that root that
   * follows is never a division by zero.
   */
  lemma PivotRadicand(m: Basis)
    requires Trace(m) <= 0.0
    ensures var i := QuaternionPivot(m);
            Entry(m, i, i) - Entry(m, (i + 1) % 3, (i + 1) % 3) - Entry(m, (i + 2) % 3, (i + 2) % 3) + 1.0 >= 1.0
  {
  }

  /**
   * `get_quaternion`: with a positive trace the real part is the root of
   * `trace + 1` halved; otherwise the pivot component is, and the other
   * three are read off the pivot's row and column.
   */
  function GetQuaternion(m: Basis, sqrt: real -> real): (q: Q.Quaternion)
    requires SqrtLike(sqrt)
    ensures Trace(m) > 0.0 ==> q.w > 0.0
    ensures Trace(m) <= 0.0 ==> Get(Q.VectorPart(q), QuaternionPivot(m)) > 0.0
  {
    var trace := Trace(m);
    if trace > 0.0 then
      var s := sqrt(trace + 1.0);
      var inv := 0.5 / s;
      Q.Quaternion((m.z.y - m.y.z) * inv, (m.x.z - m.z.x) * inv, (m.y.x - m.x.y) * inv, s * 0.5)
    else
      var i := QuaternionPivot(m);
      var j := (i + 1) % 3;
      var k := (i + 2) % 3;
      PivotRadicand(m);
      var s := sqrt(Entry(m, i, i) - Entry(m, j, j) - Entry(m, k, k) + 1.0);
      var inv := 0.5 / s;
      var temp := [0.0, 0.0, 0.0, 0.0][i := s * 0.5][3 := (Entry(m, k, j) - Entry(m, j, k)) * inv]
                  [j := (Entry(m, j, i) + Entry(m, i, j)) * inv][k := (Entry(m, k, i) + Entry(m, i, k)) * inv];
      Q.Quaternion(temp[0], temp[1], temp[2], temp[3])
  }

  /** With a positive trace, a symmetric matrix yields a quaternion with no vector part. */
  lemma GetQuaternionSymmetric(m: Basis, sqrt: real -> real)
    requires SqrtLike(sqrt) && Trace(m) > 0.0 && Transposed(m) == m
    ensures Q.VectorPart(GetQuaternion(m, sqrt)) == V3.ZERO
  {
  }

  /** The identity reads back as the identity quaternion, given `sqrt(4) == 2`. */
  lemma GetQuaternionIdentity(sqrt: real -> real)
    requires SqrtLike(sqrt) && sqrt(4.0) == 2.0
    ensures GetQuaternion(IDENTITY, sqrt) == Q.IDENTITY
  {
    IdentityEntries();
  }

  /** The half-turn about Y, diag(-1, 1, -1), takes the pivot branch with pivot 1, given `sqrt(4) == 2`. */
  lemma GetQuaternionHalfTurn(sqrt: real -> real)
    requires SqrtLike(sqrt) && sqrt(4.0) == 2.0
    ensures QuaternionPivot(FromScale(Vector3(-1.0, 1.0, -1.0))) == 1
    ensures GetQuaternion(FromScale(Vector3(-1.0, 1.0, -1.0)), sqrt) == Q.Quaternion(0.0, 1.0, 0.0, 0.0)
  {
  }

  /** The two results of `get_axis_angle`, written to its out-parameters in the source. */
  datatype AxisAngle = AxisAngle(axis: Vector3, angle: real)

  /** The singularity test of `get_axis_angle`: the matrix is symmetric up to `CMP_EPSILON`. */
  predicate IsSymmetricApprox(b: Basis) {
    Utils.IsZeroApprox(b.x.y - b.y.x) && Utils.IsZeroApprox(b.x.z - b.z.x) && Utils.IsZeroApprox(b.y.z - b.z.y)
  }

  /** The identity test inside the singularity: diagonal, with a trace within `3 * CMP_EPSILON` of 3. */
  predicate IsIdentityApprox(b: Basis) {
    IsDiagonal(b) && Utils.Abs(Trace(b) - 3.0) < 3.0 * CMP_EPSILON
  }

  /** The vector of the antisymmetric part, `(zy - yz, xz - zx, yx - xy)`: the direction of the rotation axis. */
  function SkewVector(b: Basis): Vector3 {
    Vector3(b.z.y - b.y.z, b.x.z - b.z.x, b.y.x - b.x.y)
  }

  /** For a half-turn `(m + I) / 2` is the outer square of the axis: its diagonal, `(m_ii + 1) / 2`. */
  function HalfTurnSquares(b: Basis): Vector3 {
    Vector3((b.x.x + 1.0) / 2.0, (b.y.y + 1.0) / 2.0, (b.z.z + 1.0) / 2.0)
  }

  /** ... and its off-diagonal products `xy`, `xz`, `yz`, averaged over both sides. */
  function HalfTurnProducts(b: Basis): Vector3 {
    Vector3((b.x.y + b.y.x) / 4.0, (b.x.z + b.z.x) / 4.0, (b.y.z + b.z.y) / 4.0)
  }

  /**
   * The dominant-axis rule: X only when strictly greater than both others,
   * else Y when strictly greater than Z, else Z.  The chosen term is
   * always a largest one.
   */
  function DominantAxis(t: Vector3): (d: nat)
    ensures d < 3
    ensures forall e: nat :: e < 3 ==> Get(t, e) <= Get(t, d)
    ensures d == 0 <==> t.x > t.y && t.x > t.z
    ensures d == 2 ==> t.y <= t.z
  {
    if t.x > t.y && t.x > t.z then 0 else if t.y > t.z then 1 else 2
  }

  /**
   * The axis of a half-turn.  The dominant component is the root of its
   * square, and the others are the off-diagonal products divided by it,
   * so that the dominant component times each other one gives back that
   * product.  A dominant square below `CMP_EPSILON` gives the fixed axis
   * with 0 there and 1/√2 in the two other places.
   */
  function HalfTurnAxis(b: Basis, sqrt: real -> real): (r: Vector3)
    requires SqrtLike(sqrt)
    ensures var t := HalfTurnSquares(b); var d := DominantAxis(t);
            Get(t, d) < CMP_EPSILON ==>
              Get(r, d) == 0.0 && forall e: nat :: e < 3 && e != d ==> Get(r, e) == FRAC_1_SQRT_2
    ensures var t := HalfTurnSquares(b); var d := DominantAxis(t);
            Get(t, d) >= CMP_EPSILON ==> Get(r, d) == sqrt(Get(t, d)) && Get(r, d) > 0.0
    ensures var t := HalfTurnSquares(b); var p := HalfTurnProducts(b);
            DominantAxis(t) == 0 && t.x >= CMP_EPSILON ==> r.x * r.y == p.x && r.x * r.z == p.y
    ensures var t := HalfTurnSquares(b); var p := HalfTurnProducts(b);
            DominantAxis(t) == 1 && t.y >= CMP_EPSILON ==> r.y * r.x == p.x && r.y * r.z == p.z
    ensures var t := HalfTurnSquares(b); var p := HalfTurnProducts(b);
            DominantAxis(t) == 2 && t.z >= CMP_EPSILON ==> r.z * r.x == p.y && r.z * r.y == p.z
  {
    var t := HalfTurnSquares(b);
    var p := HalfTurnProducts(b);
    var d := DominantAxis(t);
    if d == 0 then
      var h := HalfTurnTriple(t.x, p.x, p.y, sqrt);
      Vector3(h.x, h.y, h.z)
    else if d == 1 then
      var h := HalfTurnTriple(t.y, p.x, p.z, sqrt);
      Vector3(h.y, h.x, h.z)
    else
      var h := HalfTurnTriple(t.z, p.y, p.z, sqrt);
      Vector3(h.y, h.z, h.x)
  }

  /**
   * One case of `HalfTurnAxis`, listing the dominant component first: the
   * root of the dominant square `sq`, then the products `a` and `c`
   * divided by it; or the fixed split when `sq` is below `CMP_EPSILON`.
   */
  function HalfTurnTriple(sq: real, a: real, c: real, sqrt: real -> real): (r: Vector3)
    requires SqrtLike(sqrt)
    ensures sq < CMP_EPSILON ==> r == Vector3(0.0, FRAC_1_SQRT_2, FRAC_1_SQRT_2)
    ensures sq >= CMP_EPSILON ==> r.x == sqrt(sq) && r.x > 0.0 && r.x * r.y == a && r.x * r.z == c
  {
    if sq < CMP_EPSILON then
      Vector3(0.0, FRAC_1_SQRT_2, FRAC_1_SQRT_2)
    else
      var root := sqrt(sq);
      MulQuot(root, a);
      MulQuot(root, c);
      Vector3(root, a / root, c / root)
  }

  /** `y * (a / y) == a` for a non-zero `y`. */
  lemma MulQuot(y: real, a: real)
    requires y != 0.0
    ensures y * (a / y) == a
  {
  }

  /**
   * The axis away from the singularity: the skew vector divided by its
   * length, or by 1 when that length is below `CMP_EPSILON`.
   */
  function SkewAxis(b: Basis, sqrt: real -> real): (r: Vector3)
    requires SqrtLike(sqrt)
    ensures Cross(r, SkewVector(b)) == ZERO
    ensures Dot(r, SkewVector(b)) >= 0.0
    ensures SkewVector(b) != ZERO ==> r != ZERO
  {
    var w := SkewVector(b);
    var s := sqrt(LengthSquared(w));
    var len := if Utils.Abs(s) < CMP_EPSILON then 1.0 else s;
    var r := V3.DivScalar(w, len);
    SkewAxisAlong(r, w, len);
    r
  }

  /** When the root of the skew vector's squared length is `len`, not below `CMP_EPSILON`, the axis is the skew vector over `len`. */
  lemma SkewAxisValue(b: Basis, sqrt: real -> real, len: real)
    requires SqrtLike(sqrt) && len >= CMP_EPSILON && sqrt(LengthSquared(SkewVector(b))) == len
    ensures SkewAxis(b, sqrt) == V3.DivScalar(SkewVector(b), len)
  {
  }

  /** A vector whose multiple by a positive factor is `w` points along `w`. */
  lemma SkewAxisAlong(r: Vector3, w: Vector3, len: real)
    requires len > 0.0 && V3.Scale(r, len) == w
    ensures Cross(r, w) == ZERO && Dot(r, w) >= 0.0
    ensures w != ZERO ==> r != ZERO
  {
    CrossFacts(r, r, len);
    DotScale(r, r, len);
    SelfDotNonNegative(r);
    MulLeRight(0.0, Dot(r, r), len);
  }

  lemma SelfDotNonNegative(r: Vector3)
    ensures Dot(r, r) >= 0.0
  {
    DotFacts(r, r);
  }

  /**
   * `get_axis_angle`.  A symmetric matrix is a rotation by 0 (the identity,
   * reported as angle 0 about Y) or by π (about the half-turn axis).
   * Otherwise the axis points along the skew vector and the angle is the
   * clamped arccosine of `(trace - 1) / 2`.
   */
  function GetAxisAngle(b: Basis, sqrt: real -> real, acos: real -> real): (r: AxisAngle)
    requires SqrtLike(sqrt)
    ensures IsSymmetricApprox(b) && IsIdentityApprox(b) ==> r == AxisAngle(UP, 0.0)
    ensures IsSymmetricApprox(b) && !IsIdentityApprox(b) ==> r.angle == PI && r.axis == HalfTurnAxis(b, sqrt)
    ensures !IsSymmetricApprox(b) ==> r.angle == SafeAcos((Trace(b) - 1.0) / 2.0, acos)
    ensures !IsSymmetricApprox(b) ==> Cross(r.axis, SkewVector(b)) == ZERO && Dot(r.axis, SkewVector(b)) >= 0.0
    ensures !IsSymmetricApprox(b) ==> r.axis != ZERO
  {
    if IsSymmetricApprox(b) then
      if IsIdentityApprox(b) then AxisAngle(UP, 0.0)
      else AxisAngle(HalfTurnAxis(b, sqrt), PI)
    else
      assert SkewVector(b) != ZERO;
      AxisAngle(SkewAxis(b, sqrt), SafeAcos((Trace(b) - 1.0) / 2.0, acos))
  }

  /** The identity: angle 0 about Y. */
  lemma AxisAngleIdentity(sqrt: real -> real, acos: real -> real)
    requires SqrtLike(sqrt)
    ensures GetAxisAngle(IDENTITY, sqrt, acos) == AxisAngle(UP, 0.0)
  {
    IdentityEntries();
    assert IsSymmetricApprox(IDENTITY);
    assert IsIdentityApprox(IDENTITY);
  }

  /** The half-turn diag(-1, 1, -1): angle π about Y, given `sqrt(1) == 1`. */
  lemma AxisAngleHalfTurn(sqrt: real -> real, acos: real -> real)
    requires SqrtLike(sqrt) && sqrt(1.0) == 1.0
    ensures GetAxisAngle(NewFromFloats(-1.0, 0.0, 0.0, 0.0, 1.0, 0.0, 0.0, 0.0, -1.0), sqrt, acos) == AxisAngle(UP, PI)
  {
    var b := NewFromFloats(-1.0, 0.0, 0.0, 0.0, 1.0, 0.0, 0.0, 0.0, -1.0);
    assert IsSymmetricApprox(b);
    assert !IsIdentityApprox(b);
    assert HalfTurnSquares(b) == UP;
    assert HalfTurnProducts(b) == V3.ZERO;
    assert DominantAxis(UP) == 1;
  }

  /** A rotation by 30° about +Z, with `c` for its cosine: the axis is +Z, the angle the arccosine of `c`. */
  lemma AxisAngleAboutZ(c: real, sqrt: real -> real, acos: real -> real)
    requires SqrtLike(sqrt) && sqrt(1.0) == 1.0
    ensures GetAxisAngle(NewFromFloats(c, -0.5, 0.0, 0.5, c, 0.0, 0.0, 0.0, 1.0), sqrt, acos)
            == AxisAngle(BACK, SafeAcos(c, acos))
    ensures GetAxisAngle(NewFromFloats(c, 0.5, 0.0, -0.5, c, 0.0, 0.0, 0.0, 1.0), sqrt, acos)
            == AxisAngle(FORWARD, SafeAcos(c, acos))
  {
    var p := NewFromFloats(c, -0.5, 0.0, 0.5, c, 0.0, 0.0, 0.0, 1.0);
    var n := NewFromFloats(c, 0.5, 0.0, -0.5, c, 0.0, 0.0, 0.0, 1.0);
    assert SkewVector(p) == BACK && SkewVector(n) == FORWARD;
    assert (Trace(p) - 1.0) / 2.0 == c && (Trace(n) - 1.0) / 2.0 == c;
  }

  /**
   * Away from the singularity, when the root of the skew vector's squared
   * length is `len`, not below `CMP_EPSILON`, the axis is the skew vector
   * over `len`.
   */
  lemma NonSingularAxisAngle(b: Basis, sqrt: real -> real, acos: real -> real, len: real)
    requires SqrtLike(sqrt) && !IsSymmetricApprox(b)
    requires len >= CMP_EPSILON && sqrt(LengthSquared(SkewVector(b))) == len
    ensures GetAxisAngle(b, sqrt, acos) == AxisAngle(V3.DivScalar(SkewVector(b), len), SafeAcos((Trace(b) - 1.0) / 2.0, acos))
  {
    SkewAxisValue(b, sqrt, len);
  }

  /** A quarter turn about X: the axis is RIGHT, the angle the arccosine of 0, given `sqrt(4) == 2`. */
  lemma AxisAngleQuarterTurnX(sqrt: real -> real, acos: real -> real)
    requires SqrtLike(sqrt) && sqrt(4.0) == 2.0
    ensures GetAxisAngle(NewFromFloats(1.0, 0.0, 0.0, 0.0, 0.0, -1.0, 0.0, 1.0, 0.0), sqrt, acos) == AxisAngle(RIGHT, acos(0.0))
  {
    QuarterTurnXTrace();
    QuarterTurnXSkew();
    DoubledX();
    NonSingularAxisAngle(NewFromFloats(1.0, 0.0, 0.0, 0.0, 0.0, -1.0, 0.0, 1.0, 0.0), sqrt, acos, 2.0);
  }

  lemma QuarterTurnXSkew()
    ensures var b := NewFromFloats(1.0, 0.0, 0.0, 0.0, 0.0, -1.0, 0.0, 1.0, 0.0);
            SkewVector(b) == Vector3(2.0, 0.0, 0.0) && !IsSymmetricApprox(b)
  {
  }

  lemma DoubledX()
    ensures LengthSquared(Vector3(2.0, 0.0, 0.0)) == 4.0 && V3.DivScalar(Vector3(2.0, 0.0, 0.0), 2.0) == RIGHT
  {
  }

  /** A quarter turn about Y: the axis is UP, given `sqrt(4) == 2`. */
  lemma AxisAngleQuarterTurnY(sqrt: real -> real, acos: real -> real)
    requires SqrtLike(sqrt) && sqrt(4.0) == 2.0
    ensures GetAxisAngle(NewFromFloats(0.0, 0.0, 1.0, 0.0, 1.0, 0.0, -1.0, 0.0, 0.0), sqrt, acos).axis == UP
  {
    QuarterTurnYSkew();
    DoubledY();
    NonSingularAxisAngle(NewFromFloats(0.0, 0.0, 1.0, 0.0, 1.0, 0.0, -1.0, 0.0, 0.0), sqrt, acos, 2.0);
  }

  lemma QuarterTurnYSkew()
    ensures var b := NewFromFloats(0.0, 0.0, 1.0, 0.0, 1.0, 0.0, -1.0, 0.0, 0.0);
            SkewVector(b) == Vector3(0.0, 2.0, 0.0) && !IsSymmetricApprox(b)
  {
  }

  lemma DoubledY()
    ensures LengthSquared(Vector3(0.0, 2.0, 0.0)) == 4.0 && V3.DivScalar(Vector3(0.0, 2.0, 0.0), 2.0) == UP
  {
  }

  /** A quarter turn about Z: the axis is BACK, given `sqrt(4) == 2`. */
  lemma AxisAngleQuarterTurnZ(sqrt: real -> real, acos: real -> real)
    requires SqrtLike(sqrt) && sqrt(4.0) == 2.0
    ensures GetAxisAngle(NewFromFloats(0.0, -1.0, 0.0, 1.0, 0.0, 0.0, 0.0, 0.0, 1.0), sqrt, acos).axis == BACK
  {
    QuarterTurnZSkew();
    DoubledZ();
    NonSingularAxisAngle(NewFromFloats(0.0, -1.0, 0.0, 1.0, 0.0, 0.0, 0.0, 0.0, 1.0), sqrt, acos, 2.0);
  }

  lemma QuarterTurnZSkew()
    ensures var b := NewFromFloats(0.0, -1.0, 0.0, 1.0, 0.0, 0.0, 0.0, 0.0, 1.0);
            SkewVector(b) == Vector3(0.0, 0.0, 2.0) && !IsSymmetricApprox(b)
  {
  }

  lemma DoubledZ()
    ensures LengthSquared(Vector3(0.0, 0.0, 2.0)) == 4.0 && V3.DivScalar(Vector3(0.0, 0.0, 2.0), 2.0) == BACK
  {
  }

  lemma QuarterTurnXTrace()
    ensures Trace(NewFromFloats(1.0, 0.0, 0.0, 0.0, 0.0, -1.0, 0.0, 1.0, 0.0)) == 1.0
  {
  }

  // ---------------------------------------------------------------------
  // Scalar `*` and `/`.  The compound forms `*=` and `/=` scale the rows,
  // which is `ScalarMul` and `DivScalar`.  The binary forms hand the
  // scaled rows to `new`, which takes columns, and so also transpose.
  // ---------------------------------------------------------------------

  /** Every entry divided by `k`, as `/=` does to the rows; a zero `k` gives inf or NaN in the source. */
  function DivScalar(b: Basis, k: real): (r: Basis)
    requires k != 0.0
    ensures ScalarMul(r, k) == b
  {
    Basis(V3.DivScalar(b.x, k), V3.DivScalar(b.y, k), V3.DivScalar(b.z, k))
  }

  /** Dividing by `k` undoes multiplying by `k`. */
  lemma DivScalarMul(b: Basis, k: real)
    requires k != 0.0
    ensures DivScalar(ScalarMul(b, k), k) == b
  {
    var m := ScalarMul(b, k);
    DivScalarRow(b.x, k);
    DivScalarRow(b.y, k);
    DivScalarRow(b.z, k);
  }

  lemma DivScalarRow(v: Vector3, k: real)
    requires k != 0.0
    ensures V3.DivScalar(V3.Scale(v, k), k) == v
  {
    MulDivCancel(v.x, k);
    MulDivCancel(v.y, k);
    MulDivCancel(v.z, k);
  }

  /** Binary `basis * k` as written: the scaled rows become the columns. */
  function ScalarMulAsWritten(b: Basis, k: real): Basis {
    New(V3.Scale(b.x, k), V3.Scale(b.y, k), V3.Scale(b.z, k))
  }

  /** Binary `basis / k` as written: the divided rows become the columns. */
  function DivScalarAsWritten(b: Basis, k: real): Basis
    requires k != 0.0
  {
    New(V3.DivScalar(b.x, k), V3.DivScalar(b.y, k), V3.DivScalar(b.z, k))
  }

  /** The binary operators give the transpose of what the compound ones give. */
  lemma ScalarOperatorsTranspose(b: Basis, k: real)
    ensures ScalarMulAsWritten(b, k) == Transposed(ScalarMul(b, k))
    ensures k != 0.0 ==> DivScalarAsWritten(b, k) == Transposed(DivScalar(b, k))
  {
  }

  /**
   * A basis with one off-diagonal entry, multiplied by 1 with the binary
   * operator as written, comes back changed, and differs from the same
   * product taken with `*=`.
   */
  lemma ScalarMulAsWrittenCounterexample()
    ensures var b := NewFromFloats(1.0, 2.0, 0.0, 0.0, 1.0, 0.0, 0.0, 0.0, 1.0);
            ScalarMulAsWritten(b, 1.0) != b && ScalarMulAsWritten(b, 1.0) != ScalarMul(b, 1.0)
            && Entry(ScalarMulAsWritten(b, 1.0), 1, 0) == 2.0 && Entry(b, 1, 0) == 0.0
  {
    var b := NewFromFloats(1.0, 2.0, 0.0, 0.0, 1.0, 0.0, 0.0, 0.0, 1.0);
    ScalarMulFacts(b, 1.0);
  }

  // ---------------------------------------------------------------------
  // The outer product of two vectors.
  // ---------------------------------------------------------------------

  /**
   * `Vector3::outer` as written: `self.x * with`, `self.y * with` and
   * `self.z * with` are handed to `new` as columns, so entry (i, j) is
   * `with[i] * self[j]`.
   */
  function OuterAsWritten(a: Vector3, w: Vector3): Basis {
    New(Vector3(a.x * w.x, a.x * w.y, a.x * w.z),
        Vector3(a.y * w.x, a.y * w.y, a.y * w.z),
        Vector3(a.z * w.x, a.z * w.y, a.z * w.z))
  }

  /** The outer product `a ⊗ w`: entry (i, j) is `a[i] * w[j]`, row `i` is `w` scaled by `a[i]`. */
  function Outer(a: Vector3, w: Vector3): Basis {
    NewRows(V3.Scale(w, a.x), V3.Scale(w, a.y), V3.Scale(w, a.z))
  }

  /** `a ⊗ w` sends `v` to `a` scaled by `w · v`. */
  lemma {:induction false} OuterXform(a: Vector3, w: Vector3, v: Vector3)
    ensures Xform(Outer(a, w), v) == V3.Scale(a, Dot(w, v))
  {
    var d := Dot(w, v);
    OuterRow(a.x, w, v, d);
    OuterRow(a.y, w, v, d);
    OuterRow(a.z, w, v, d);
    VecEq(Xform(Outer(a, w), v), V3.Scale(a, d));
  }

  /** One row of `OuterXform`: `(k w) · v == k (w · v)`. */
  lemma OuterRow(k: real, w: Vector3, v: Vector3, d: real)
    requires d == Dot(w, v)
    ensures Dot(V3.Scale(w, k), v) == k * d
  {
    DotScale(w, v, k);
  }

  /** As written, `outer` builds `w ⊗ a`, the transpose of `a ⊗ w`. */
  lemma OuterAsWrittenTransposes(a: Vector3, w: Vector3)
    ensures OuterAsWritten(a, w) == Transposed(Outer(a, w))
    ensures OuterAsWritten(a, w) == Outer(w, a)
  {
    OuterAsWrittenSwaps(a, w);
    OuterAsWrittenTransposesOuter(a, w);
  }

  lemma OuterAsWrittenSwaps(a: Vector3, w: Vector3)
    ensures OuterAsWritten(a, w) == Outer(w, a)
  {
    assert OuterAsWritten(a, w) == Basis(V3.Scale(a, w.x), V3.Scale(a, w.y), V3.Scale(a, w.z));
  }

  /** The columns of `outer` as written are the rows of `a ⊗ w`. */
  lemma OuterAsWrittenTransposesOuter(a: Vector3, w: Vector3)
    ensures OuterAsWritten(a, w) == Transposed(Outer(a, w))
  {
    var r0, r1, r2 := V3.Scale(w, a.x), V3.Scale(w, a.y), V3.Scale(w, a.z);
    TransposedFacts(Outer(a, w), r0, r1, r2);
    ScaleCommutes(w, a.x);
    ScaleCommutes(w, a.y);
    ScaleCommutes(w, a.z);
  }

  lemma ScaleCommutes(a: Vector3, k: real)
    ensures V3.Scale(a, k) == Vector3(k * a.x, k * a.y, k * a.z)
  {
  }

  /** ... which sends `v` to `w` scaled by `a · v`. */
  lemma OuterAsWrittenXform(a: Vector3, w: Vector3, v: Vector3)
    ensures Xform(OuterAsWritten(a, w), v) == V3.Scale(w, Dot(a, v))
  {
    OuterAsWrittenTransposes(a, w);
    OuterXform(w, a, v);
  }

  /** `RIGHT.outer(UP)` as written sends `RIGHT` to `UP`, where `RIGHT ⊗ UP` sends it to zero. */
  lemma OuterAsWrittenCounterexample()
    ensures Xform(OuterAsWritten(RIGHT, UP), RIGHT) == UP
    ensures Xform(Outer(RIGHT, UP), RIGHT) == V3.ZERO
    ensures OuterAsWritten(RIGHT, UP) != Outer(RIGHT, UP)
  {
    OuterAsWrittenOnRight();
    OuterOnRight();
  }

  lemma OuterAsWrittenOnRight()
    ensures Xform(OuterAsWritten(RIGHT, UP), RIGHT) == UP
  {
    OuterAsWrittenXform(RIGHT, UP, RIGHT);
    DotAxes(RIGHT);
    assert V3.Scale(UP, 1.0) == UP;
  }

  lemma OuterOnRight()
    ensures Xform(Outer(RIGHT, UP), RIGHT) == V3.ZERO
  {
    OuterXform(RIGHT, UP, RIGHT);
    DotAxes(UP);
    assert V3.Scale(RIGHT, 0.0) == V3.ZERO;
  }
}
