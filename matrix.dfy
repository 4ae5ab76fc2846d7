/**
 * The affine matrix algebra of scripts/matrix.js: matrices in homogeneous
 * coordinates acting on column vectors. JavaScript numbers are modelled as
 * `real`, so every identity below is exact.
 */
module Affine {
  import opened Wrappers

  /** A point of the plane (the scripts' `Point`). */
  datatype Point = Point(x: real, y: real)

  /** Why `multiply` cannot produce a result. */
  datatype MatrixError =
    | CannotMultiply   // the column count of the left factor differs from the row count of the right one
    | MissingRow       // a point product whose result has no second row to read

  /**
   * `new Matrix(m, n)`: `m` columns and `n` rows, stored row by row, so that
   * `Get(c, r)` (the source's `get(m, n)`) reads column `c` of row `r`.
   */
  datatype Matrix = Matrix(m: nat, n: nat, data: seq<seq<real>>) {

    /** `n` rows of `m` entries each. */
    predicate Valid() {
      |data| == n && forall r :: 0 <= r < n ==> |data[r]| == m
    }

    /** `get(c, r)`. */
    function Get(c: nat, r: nat): real
      requires Valid() && c < m && r < n
    {
      data[r][c]
    }

    /** `set(c, r, v)`, as a new value: the source never mutates a matrix once it is built. */
    function Set(c: nat, r: nat, v: real): (a: Matrix)
      requires Valid() && c < m && r < n
      ensures a.Valid() && a.m == m && a.n == n
      ensures a.Get(c, r) == v
      ensures forall c', r' :: 0 <= c' < m && 0 <= r' < n && (c', r') != (c, r) ==> a.Get(c', r') == Get(c', r')
    {
      Matrix(m, n, data[r := data[r][c := v]])
    }
  }

  /** A well-formed 3x3 matrix, the only size the transforms use. */
  predicate Is3x3(a: Matrix) {
    a.Valid() && a.m == 3 && a.n == 3
  }

  /** A 3x3 matrix whose last row is (0, 0, 1): it maps the plane z = 1 to itself. */
  predicate IsAffine(a: Matrix) {
    Is3x3(a) && a.Get(0, 2) == 0.0 && a.Get(1, 2) == 0.0 && a.Get(2, 2) == 1.0
  }

  /** `new Matrix(m, n)`: every entry 0. */
  function Zero(m: nat, n: nat): (a: Matrix)
    ensures a.Valid() && a.m == m && a.n == n
    ensures forall c, r :: 0 <= c < m && 0 <= r < n ==> a.Get(c, r) == 0.0
  {
    Matrix(m, n, seq(n, _ => seq(m, _ => 0.0)))
  }

  /** The 3x3 identity. */
  function Identity(): Matrix {
    Matrix(3, 3, [[1.0, 0.0, 0.0], [0.0, 1.0, 0.0], [0.0, 0.0, 1.0]])
  }

  /** The sum over i < k of a(i, r) * b(c, i): the `dotProduct` accumulated by `multiply`. */
  function Dot(a: Matrix, b: Matrix, r: nat, c: nat, k: nat): real
    requires a.Valid() && b.Valid() && a.m == b.n && r < a.n && c < b.m && k <= a.m
  {
    if k == 0 then 0.0 else Dot(a, b, r, c, k - 1) + a.Get(k - 1, r) * b.Get(c, k - 1)
  }

  /** The matrix product a * b, defined when a has as many columns as b has rows. */
  function Product(a: Matrix, b: Matrix): (p: Matrix)
    requires a.Valid() && b.Valid() && a.m == b.n
    ensures p.Valid() && p.m == b.m && p.n == a.n
  {
    Matrix(b.m, a.n, seq(a.n, r requires 0 <= r < a.n => seq(b.m, c requires 0 <= c < b.m => Dot(a, b, r, c, a.m))))
  }

  /**
   * `multiply(matrix)` for a matrix argument: the nested loops of the source,
   * throwing when the dimensions do not match.
   */
  method Multiply(a: Matrix, b: Matrix) returns (res: Result<Matrix, MatrixError>)
    requires a.Valid() && b.Valid()
    ensures a.m != b.n ==> res == Failure(CannotMultiply)
    ensures a.m == b.n ==> res.Success? && res.value.Valid() && res.value.m == b.m && res.value.n == a.n
    ensures a.m == b.n ==> forall c, r :: 0 <= c < b.m && 0 <= r < a.n ==> res.value.Get(c, r) == Dot(a, b, r, c, a.m)
  {
    if a.m != b.n {
      return Failure(CannotMultiply);
    }
    var result := Zero(b.m, a.n);
    var col := 0;
    while col < b.m
      invariant 0 <= col <= b.m
      invariant result.Valid() && result.m == b.m && result.n == a.n
      invariant forall c, r :: 0 <= c < col && 0 <= r < a.n ==> result.Get(c, r) == Dot(a, b, r, c, a.m)
    {
      var row := 0;
      while row < a.n
        invariant 0 <= row <= a.n
        invariant result.Valid() && result.m == b.m && result.n == a.n
        invariant forall c, r :: 0 <= c < col && 0 <= r < a.n ==> result.Get(c, r) == Dot(a, b, r, c, a.m)
        invariant forall r :: 0 <= r < row ==> result.Get(col, r) == Dot(a, b, r, col, a.m)
      {
        var dotProduct := 0.0;
        var i := 0;
        while i < a.m
          invariant 0 <= i <= a.m
          invariant dotProduct == Dot(a, b, row, col, i)
        {
          dotProduct := dotProduct + a.Get(i, row) * b.Get(col, i);
          i := i + 1;
        }
        result := result.Set(col, row, dotProduct);
        row := row + 1;
      }
      col := col + 1;
    }
    return Success(result);
  }

  /** `Matrix.fromPoint(p)`: the column (x, y, 1). */
  function FromPoint(p: Point): (v: Matrix)
    ensures v.Valid() && v.m == 1 && v.n == 3
  {
    Matrix(1, 3, [[p.x], [p.y], [1.0]])
  }

  /**
   * `multiply(point)`: lift the point to (x, y, 1), multiply, and read the
   * first two rows back as a point.
   */
  function Apply(a: Matrix, p: Point): (r: Result<Point, MatrixError>)
    requires a.Valid()
    ensures r.Success? <==> a.m == 3 && a.n >= 2
  {
    if a.m != 3 then Failure(CannotMultiply)
    else if a.n < 2 then Failure(MissingRow)
    else
      var v := Product(a, FromPoint(p));
      Success(Point(v.Get(0, 0), v.Get(0, 1)))
  }

  /** `Matrix.getTranslate(x, y)`: an affine matrix whose translation reads back as (x, y). */
  function Translate(x: real, y: real): (t: Matrix)
    ensures IsAffine(t) && Translation(t) == Point(x, y)
  {
    Matrix(3, 3, [[1.0, 0.0, x], [0.0, 1.0, y], [0.0, 0.0, 1.0]])
  }

  /** `Matrix.getScale(sx, sy)`: an affine matrix whose scale reads back as sx. */
  function Scale(sx: real, sy: real): (t: Matrix)
    ensures IsAffine(t) && ScaleOf(t) == sx
  {
    Matrix(3, 3, [[sx, 0.0, 0.0], [0.0, sy, 0.0], [0.0, 0.0, 1.0]])
  }

  /** `Matrix.getScaleAt(sx, sy, x, y)`: translate(x, y) * scale * translate(-x, -y), an affine matrix. */
  function ScaleAt(sx: real, sy: real, x: real, y: real): (t: Matrix)
    ensures IsAffine(t)
  {
    ProductAffine(Scale(sx, sy), Translate(-x, -y));
    ProductAffine(Translate(x, y), Product(Scale(sx, sy), Translate(-x, -y)));
    Product(Translate(x, y), Product(Scale(sx, sy), Translate(-x, -y)))
  }

  /**
   * A rotation given by the cosine and sine of its angle; the source computes
   * them with Math.cos and Math.sin, which are not modelled.
   */
  datatype Turn = Turn(cos: real, sin: real)

  /** `Matrix.getRotation(a)` for cos a = t.cos and sin a = t.sin: an affine matrix. */
  function Rotation(t: Turn): (r: Matrix)
    ensures IsAffine(r)
  {
    Matrix(3, 3, [[t.cos, -t.sin, 0.0], [t.sin, t.cos, 0.0], [0.0, 0.0, 1.0]])
  }

  /** `Matrix.getRotationAt(a, x, y)`: translate(x, y) * rotation * translate(-x, -y), an affine matrix. */
  function RotationAt(t: Turn, x: real, y: real): (r: Matrix)
    ensures IsAffine(r)
  {
    ProductAffine(Rotation(t), Translate(-x, -y));
    ProductAffine(Translate(x, y), Product(Rotation(t), Translate(-x, -y)));
    Product(Translate(x, y), Product(Rotation(t), Translate(-x, -y)))
  }

  /** `getScale()`: the entry (0, 0). */
  function ScaleOf(a: Matrix): real
    requires Is3x3(a)
  {
    a.Get(0, 0)
  }

  /** `getTranslation()`: the translation column (get(2, 0), get(2, 1)). */
  function Translation(a: Matrix): Point
    requires Is3x3(a)
  {
    Point(a.Get(2, 0), a.Get(2, 1))
  }

  /**
   * `getDeterminant()`: ad - bc for two columns, the six-term rule of Sarrus
   * for three, and `undefined` (None) for any other column count.
   */
  function Determinant(a: Matrix): (d: Option<real>)
    requires a.Valid()
    requires a.m == 2 ==> a.n >= 2
    requires a.m == 3 ==> a.n >= 3
    ensures d.Some? <==> a.m == 2 || a.m == 3
  {
    if a.m == 2 then
      Some(a.Get(0, 0) * a.Get(1, 1) - a.Get(1, 0) * a.Get(0, 1))
    else if a.m == 3 then
      var a_, b, c := a.Get(0, 0), a.Get(1, 0), a.Get(2, 0);
      var d, e, f := a.Get(0, 1), a.Get(1, 1), a.Get(2, 1);
      var g, h, i := a.Get(0, 2), a.Get(1, 2), a.Get(2, 2);
      Some(a_ * e * i + b * f * g + c * d * h - c * e * g - b * d * i - a_ * f * h)
    else
      None
  }

  /** The 2x2 minor the source builds with four `set` calls: rows (p, q) and (s, t). */
  function Minor(p: real, q: real, s: real, t: real): (a: Matrix)
    ensures a.Valid() && a.m == 2 && a.n == 2
  {
    Matrix(2, 2, [[p, q], [s, t]])
  }

  /** The determinant of a minor. */
  function MinorDet(p: real, q: real, s: real, t: real): real {
    Determinant(Minor(p, q, s, t)).value
  }

  /** The determinant of a 3x3 matrix. */
  function Det3(a: Matrix): real
    requires Is3x3(a)
  {
    Determinant(a).value
  }

  /**
   * `getInverse()`: the adjugate divided by the determinant. The source does
   * not guard against a zero determinant; here it is a precondition. The
   * inverse of an affine matrix is affine.
   */
  function Inverse(a: Matrix): (b: Matrix)
    requires Is3x3(a) && Det3(a) != 0.0
    ensures Is3x3(b)
    ensures IsAffine(a) ==> IsAffine(b)
  {
    var a11, a12, a13 := a.Get(0, 0), a.Get(1, 0), a.Get(2, 0);
    var a21, a22, a23 := a.Get(0, 1), a.Get(1, 1), a.Get(2, 1);
    var a31, a32, a33 := a.Get(0, 2), a.Get(1, 2), a.Get(2, 2);
    var d := Det3(a);
    AffineAdjugateRow(a);
    Matrix(3, 3, [
      [MinorDet(a22, a23, a32, a33) / d, MinorDet(a13, a12, a33, a32) / d, MinorDet(a12, a13, a22, a23) / d],
      [MinorDet(a23, a21, a33, a31) / d, MinorDet(a11, a13, a31, a33) / d, MinorDet(a13, a11, a23, a21) / d],
      [MinorDet(a21, a22, a31, a32) / d, MinorDet(a12, a11, a32, a31) / d, MinorDet(a11, a12, a21, a22) / d]])
  }

  // ---------------------------------------------------------------------------
  // Lemmas
  // ---------------------------------------------------------------------------

  /** The three-term dot product of a 3x3 product, written out. */
  lemma Dot3(a: Matrix, b: Matrix, r: nat, c: nat)
    requires a.Valid() && b.Valid() && a.m == 3 && b.n == 3 && r < a.n && c < b.m
    ensures Dot(a, b, r, c, 3) == a.Get(0, r) * b.Get(c, 0) + a.Get(1, r) * b.Get(c, 1) + a.Get(2, r) * b.Get(c, 2)
  {
    assert Dot(a, b, r, c, 1) == a.Get(0, r) * b.Get(c, 0);
    assert Dot(a, b, r, c, 2) == Dot(a, b, r, c, 1) + a.Get(1, r) * b.Get(c, 1);
  }

  /** Every entry of a product whose left factor has three columns. */
  lemma {:induction false} ProductEntries(a: Matrix, b: Matrix)
    requires a.Valid() && b.Valid() && a.m == 3 && b.n == 3
    ensures forall c, r :: 0 <= c < b.m && 0 <= r < a.n ==>
      Product(a, b).Get(c, r) == a.Get(0, r) * b.Get(c, 0) + a.Get(1, r) * b.Get(c, 1) + a.Get(2, r) * b.Get(c, 2)
  {
    forall c, r | 0 <= c < b.m && 0 <= r < a.n
      ensures Product(a, b).Get(c, r) == a.Get(0, r) * b.Get(c, 0) + a.Get(1, r) * b.Get(c, 1) + a.Get(2, r) * b.Get(c, 2)
    {
      Dot3(a, b, r, c);
    }
  }

  /** Row r of a times column c of b, for 3x3 matrices. */
  function RowCol(a: Matrix, b: Matrix, r: nat, c: nat): real
    requires Is3x3(a) && Is3x3(b) && r < 3 && c < 3
  {
    a.Get(0, r) * b.Get(c, 0) + a.Get(1, r) * b.Get(c, 1) + a.Get(2, r) * b.Get(c, 2)
  }

  /** The product of two 3x3 matrices with its nine entries written out. */
  lemma {:induction false} Product3x3(a: Matrix, b: Matrix)
    requires Is3x3(a) && Is3x3(b)
    ensures Product(a, b) == Matrix(3, 3, [
      [RowCol(a, b, 0, 0), RowCol(a, b, 0, 1), RowCol(a, b, 0, 2)],
      [RowCol(a, b, 1, 0), RowCol(a, b, 1, 1), RowCol(a, b, 1, 2)],
      [RowCol(a, b, 2, 0), RowCol(a, b, 2, 1), RowCol(a, b, 2, 2)]])
  {
    var p := Product(a, b);
    forall r | 0 <= r < 3 ensures p.data[r] == [RowCol(a, b, r, 0), RowCol(a, b, r, 1), RowCol(a, b, r, 2)] {
      Dot3(a, b, r, 0);
      Dot3(a, b, r, 1);
      Dot3(a, b, r, 2);
      assert p.data[r][0] == RowCol(a, b, r, 0);
      assert p.data[r][1] == RowCol(a, b, r, 1);
      assert p.data[r][2] == RowCol(a, b, r, 2);
    }
    assert p.data == [p.data[0], p.data[1], p.data[2]];
  }

  /** Two 3x3 matrices with the same nine entries are equal. */
  lemma Ext3(a: Matrix, b: Matrix)
    requires Is3x3(a) && Is3x3(b)
    requires forall c, r :: 0 <= c < 3 && 0 <= r < 3 ==> a.Get(c, r) == b.Get(c, r)
    ensures a == b
  {
    forall r | 0 <= r < 3 ensures a.data[r] == b.data[r] {
      assert a.data[r][0] == a.Get(0, r) == b.Get(0, r);
      assert a.data[r][1] == a.Get(1, r) == b.Get(1, r);
      assert a.data[r][2] == a.Get(2, r) == b.Get(2, r);
    }
  }

  /** `getTranslate(0, 0)` is the identity. */
  lemma TranslateZeroIsIdentity()
    ensures Translate(0.0, 0.0) == Identity()
  {
  }

  /** The identity is neutral on both sides. */
  lemma IdentityNeutral(a: Matrix)
    requires Is3x3(a)
    ensures Product(Identity(), a) == a
    ensures Product(a, Identity()) == a
  {
    IdentityNeutralLeft(a);
    IdentityNeutralRight(a);
  }

  lemma {:induction false} IdentityNeutralLeft(a: Matrix)
    requires Is3x3(a)
    ensures Product(Identity(), a) == a
  {
    ProductEntries(Identity(), a);
    Ext3(Product(Identity(), a), a);
  }

  lemma {:induction false} IdentityNeutralRight(a: Matrix)
    requires Is3x3(a)
    ensures Product(a, Identity()) == a
  {
    ProductEntries(a, Identity());
    Ext3(Product(a, Identity()), a);
  }

  /** Translations compose by adding their offsets. */
  lemma {:induction false} TranslateCompose(a: real, b: real, c: real, d: real)
    ensures Product(Translate(a, b), Translate(c, d)) == Translate(a + c, b + d)
  {
    ProductEntries(Translate(a, b), Translate(c, d));
    Ext3(Product(Translate(a, b), Translate(c, d)), Translate(a + c, b + d));
  }

  /** Applying a 3x3 matrix to a point, written out. */
  lemma {:induction false} ApplyEntries(a: Matrix, p: Point)
    requires Is3x3(a)
    ensures Apply(a, p).Success?
    ensures Apply(a, p).value.x == a.Get(0, 0) * p.x + a.Get(1, 0) * p.y + a.Get(2, 0)
    ensures Apply(a, p).value.y == a.Get(0, 1) * p.x + a.Get(1, 1) * p.y + a.Get(2, 1)
  {
    var v := FromPoint(p);
    assert v.Get(0, 0) == p.x && v.Get(0, 1) == p.y && v.Get(0, 2) == 1.0;
    ProductEntries(a, v);
    var w := Product(a, v);
    assert w.Get(0, 0) == a.Get(0, 0) * p.x + a.Get(1, 0) * p.y + a.Get(2, 0) * 1.0;
    assert w.Get(0, 1) == a.Get(0, 1) * p.x + a.Get(1, 1) * p.y + a.Get(2, 1) * 1.0;
  }

  /** `getTranslate(x, y)` moves every point by (x, y). */
  lemma {:induction false} TranslateMovesPoints(x: real, y: real, p: Point)
    ensures Apply(Translate(x, y), p) == Success(Point(p.x + x, p.y + y))
  {
    ApplyEntries(Translate(x, y), p);
  }

  /** The product of two 3x3 matrices given entry by entry, with the nine sums supplied as c11 .. c33. */
  lemma ProductOfEntries(a11: real, a12: real, a13: real, a21: real, a22: real, a23: real, a31: real, a32: real, a33: real,
                         b11: real, b12: real, b13: real, b21: real, b22: real, b23: real, b31: real, b32: real, b33: real,
                         c11: real, c12: real, c13: real, c21: real, c22: real, c23: real, c31: real, c32: real, c33: real)
    requires c11 == a11 * b11 + a12 * b21 + a13 * b31 && c12 == a11 * b12 + a12 * b22 + a13 * b32
    requires c13 == a11 * b13 + a12 * b23 + a13 * b33
    requires c21 == a21 * b11 + a22 * b21 + a23 * b31 && c22 == a21 * b12 + a22 * b22 + a23 * b32
    requires c23 == a21 * b13 + a22 * b23 + a23 * b33
    requires c31 == a31 * b11 + a32 * b21 + a33 * b31 && c32 == a31 * b12 + a32 * b22 + a33 * b32
    requires c33 == a31 * b13 + a32 * b23 + a33 * b33
    ensures Product(Matrix(3, 3, [[a11, a12, a13], [a21, a22, a23], [a31, a32, a33]]),
                    Matrix(3, 3, [[b11, b12, b13], [b21, b22, b23], [b31, b32, b33]])) ==
            Matrix(3, 3, [[c11, c12, c13], [c21, c22, c23], [c31, c32, c33]])
  {
    var a := Matrix(3, 3, [[a11, a12, a13], [a21, a22, a23], [a31, a32, a33]]);
    var b := Matrix(3, 3, [[b11, b12, b13], [b21, b22, b23], [b31, b32, b33]]);
    Product3x3(a, b);
    assert RowCol(a, b, 0, 0) == c11 && RowCol(a, b, 0, 1) == c12 && RowCol(a, b, 0, 2) == c13;
    assert RowCol(a, b, 1, 0) == c21 && RowCol(a, b, 1, 1) == c22 && RowCol(a, b, 1, 2) == c23;
    assert RowCol(a, b, 2, 0) == c31 && RowCol(a, b, 2, 1) == c32 && RowCol(a, b, 2, 2) == c33;
  }

  /** An affine matrix given entry by entry, applied to a point. */
  lemma ApplyAffineEntries(a11: real, a12: real, a13: real, a21: real, a22: real, a23: real, p: Point)
    ensures Apply(Matrix(3, 3, [[a11, a12, a13], [a21, a22, a23], [0.0, 0.0, 1.0]]), p) ==
            Success(Point(a11 * p.x + a12 * p.y + a13, a21 * p.x + a22 * p.y + a23))
  {
    var a := Matrix(3, 3, [[a11, a12, a13], [a21, a22, a23], [0.0, 0.0, 1.0]]);
    ApplyEntries(a, p);
    assert a.Get(0, 0) == a11 && a.Get(1, 0) == a12 && a.Get(2, 0) == a13;
    assert a.Get(0, 1) == a21 && a.Get(1, 1) == a22 && a.Get(2, 1) == a23;
    assert Apply(a, p).value.x == a11 * p.x + a12 * p.y + a13;
    assert Apply(a, p).value.y == a21 * p.x + a22 * p.y + a23;
    assert Apply(a, p).value == Point(a11 * p.x + a12 * p.y + a13, a21 * p.x + a22 * p.y + a23);
  }

  /** `getScaleAt(sx, sy, cx, cy)` written out: scale by (sx, sy), then move by (1 - s) times the centre. */
  lemma ScaleAtEntries(sx: real, sy: real, cx: real, cy: real)
    ensures ScaleAt(sx, sy, cx, cy) == Matrix(3, 3, [[sx, 0.0, cx - sx * cx], [0.0, sy, cy - sy * cy], [0.0, 0.0, 1.0]])
  {
    ProductOfEntries(sx, 0.0, 0.0, 0.0, sy, 0.0, 0.0, 0.0, 1.0,
                     1.0, 0.0, -cx, 0.0, 1.0, -cy, 0.0, 0.0, 1.0,
                     sx, 0.0, -sx * cx, 0.0, sy, -sy * cy, 0.0, 0.0, 1.0);
    ProductOfEntries(1.0, 0.0, cx, 0.0, 1.0, cy, 0.0, 0.0, 1.0,
                     sx, 0.0, -sx * cx, 0.0, sy, -sy * cy, 0.0, 0.0, 1.0,
                     sx, 0.0, cx - sx * cx, 0.0, sy, cy - sy * cy, 0.0, 0.0, 1.0);
  }

  /** The inner product of `getRotationAt`: first move the centre to the origin, then turn. */
  lemma TurnAfterShift(t: Turn, cx: real, cy: real)
    ensures Product(Rotation(t), Translate(-cx, -cy)) == Matrix(3, 3, [
      [t.cos, -t.sin, -t.cos * cx + t.sin * cy],
      [t.sin, t.cos, -t.sin * cx - t.cos * cy],
      [0.0, 0.0, 1.0]])
  {
    ProductOfEntries(t.cos, -t.sin, 0.0, t.sin, t.cos, 0.0, 0.0, 0.0, 1.0,
                     1.0, 0.0, -cx, 0.0, 1.0, -cy, 0.0, 0.0, 1.0,
                     t.cos, -t.sin, -t.cos * cx + t.sin * cy, t.sin, t.cos, -t.sin * cx - t.cos * cy, 0.0, 0.0, 1.0);
  }

  /** `getRotationAt(a, cx, cy)` written out. */
  lemma RotationAtEntries(t: Turn, cx: real, cy: real)
    ensures RotationAt(t, cx, cy) == Matrix(3, 3, [
      [t.cos, -t.sin, cx - t.cos * cx + t.sin * cy],
      [t.sin, t.cos, cy - t.sin * cx - t.cos * cy],
      [0.0, 0.0, 1.0]])
  {
    TurnAfterShift(t, cx, cy);
    var e13, e23 := -t.cos * cx + t.sin * cy, -t.sin * cx - t.cos * cy;
    ProductOfEntries(1.0, 0.0, cx, 0.0, 1.0, cy, 0.0, 0.0, 1.0,
                     t.cos, -t.sin, e13, t.sin, t.cos, e23, 0.0, 0.0, 1.0,
                     t.cos, -t.sin, cx + e13, t.sin, t.cos, cy + e23, 0.0, 0.0, 1.0);
  }

  /** `getScaleAt(sx, sy, cx, cy)` scales every point's offset from (cx, cy), so (cx, cy) stays fixed. */
  lemma {:induction false} ScaleAtAboutCentre(sx: real, sy: real, cx: real, cy: real, p: Point)
    ensures IsAffine(ScaleAt(sx, sy, cx, cy))
    ensures Apply(ScaleAt(sx, sy, cx, cy), p) == Success(Point(cx + sx * (p.x - cx), cy + sy * (p.y - cy)))
    ensures Apply(ScaleAt(sx, sy, cx, cy), Point(cx, cy)) == Success(Point(cx, cy))
  {
    var a := ScaleAt(sx, sy, cx, cy);
    ScaleAtEntries(sx, sy, cx, cy);
    ApplyAffineEntries(sx, 0.0, cx - sx * cx, 0.0, sy, cy - sy * cy, p);
    ApplyAffineEntries(sx, 0.0, cx - sx * cx, 0.0, sy, cy - sy * cy, Point(cx, cy));
    assert Apply(a, p).value.x == sx * p.x + 0.0 * p.y + (cx - sx * cx) == cx + sx * (p.x - cx);
    assert Apply(a, p).value.y == 0.0 * p.x + sy * p.y + (cy - sy * cy) == cy + sy * (p.y - cy);
    assert Apply(a, p).value == Point(cx + sx * (p.x - cx), cy + sy * (p.y - cy));
    assert Apply(a, Point(cx, cy)).value.x == sx * cx + 0.0 * cy + (cx - sx * cx) == cx;
    assert Apply(a, Point(cx, cy)).value.y == 0.0 * cx + sy * cy + (cy - sy * cy) == cy;
    assert Apply(a, Point(cx, cy)).value == Point(cx, cy);
  }

  /** `getRotationAt` turns every point about (cx, cy), so (cx, cy) stays fixed. */
  lemma {:induction false} RotationAtAboutCentre(t: Turn, cx: real, cy: real, p: Point)
    ensures IsAffine(RotationAt(t, cx, cy))
    ensures Apply(RotationAt(t, cx, cy), p) ==
      Success(Point(cx + t.cos * (p.x - cx) - t.sin * (p.y - cy), cy + t.sin * (p.x - cx) + t.cos * (p.y - cy)))
    ensures Apply(RotationAt(t, cx, cy), Point(cx, cy)) == Success(Point(cx, cy))
  {
    var a := RotationAt(t, cx, cy);
    RotationAtEntries(t, cx, cy);
    ApplyAffineEntries(t.cos, -t.sin, cx - t.cos * cx + t.sin * cy, t.sin, t.cos, cy - t.sin * cx - t.cos * cy, p);
    ApplyAffineEntries(t.cos, -t.sin, cx - t.cos * cx + t.sin * cy, t.sin, t.cos, cy - t.sin * cx - t.cos * cy, Point(cx, cy));
    assert Apply(a, p).value.x == t.cos * p.x + -t.sin * p.y + (cx - t.cos * cx + t.sin * cy)
                               == cx + t.cos * (p.x - cx) - t.sin * (p.y - cy);
    assert Apply(a, p).value.y == t.sin * p.x + t.cos * p.y + (cy - t.sin * cx - t.cos * cy)
                               == cy + t.sin * (p.x - cx) + t.cos * (p.y - cy);
    assert Apply(a, p).value == Point(cx + t.cos * (p.x - cx) - t.sin * (p.y - cy), cy + t.sin * (p.x - cx) + t.cos * (p.y - cy));
    assert Apply(a, Point(cx, cy)).value.x == t.cos * cx + -t.sin * cy + (cx - t.cos * cx + t.sin * cy) == cx;
    assert Apply(a, Point(cx, cy)).value.y == t.sin * cx + t.cos * cy + (cy - t.sin * cx - t.cos * cy) == cy;
    assert Apply(a, Point(cx, cy)).value == Point(cx, cy);
  }

  /** An affine matrix is the display of its six free entries above the row 0, 0, 1. */
  lemma AffineDisplay(a: Matrix)
    requires IsAffine(a)
    ensures a == Matrix(3, 3, [[a.Get(0, 0), a.Get(1, 0), a.Get(2, 0)], [a.Get(0, 1), a.Get(1, 1), a.Get(2, 1)], [0.0, 0.0, 1.0]])
  {
    assert a.data == [a.data[0], a.data[1], a.data[2]];
    assert a.data[0] == [a.Get(0, 0), a.Get(1, 0), a.Get(2, 0)];
    assert a.data[1] == [a.Get(0, 1), a.Get(1, 1), a.Get(2, 1)];
    assert a.data[2] == [0.0, 0.0, 1.0];
  }

  /** Composition of two affine matrices given entry by entry. */
  lemma ComposeAffineEntries(a11: real, a12: real, a13: real, a21: real, a22: real, a23: real,
                             b11: real, b12: real, b13: real, b21: real, b22: real, b23: real, p: Point)
    ensures var a := Matrix(3, 3, [[a11, a12, a13], [a21, a22, a23], [0.0, 0.0, 1.0]]);
            var b := Matrix(3, 3, [[b11, b12, b13], [b21, b22, b23], [0.0, 0.0, 1.0]]);
            IsAffine(Product(a, b)) && Apply(b, p).Success? && Apply(a, Apply(b, p).value) == Apply(Product(a, b), p)
  {
    var a := Matrix(3, 3, [[a11, a12, a13], [a21, a22, a23], [0.0, 0.0, 1.0]]);
    var b := Matrix(3, 3, [[b11, b12, b13], [b21, b22, b23], [0.0, 0.0, 1.0]]);
    var c11, c12, c13 := a11 * b11 + a12 * b21, a11 * b12 + a12 * b22, a11 * b13 + a12 * b23 + a13;
    var c21, c22, c23 := a21 * b11 + a22 * b21, a21 * b12 + a22 * b22, a21 * b13 + a22 * b23 + a23;
    ProductOfEntries(a11, a12, a13, a21, a22, a23, 0.0, 0.0, 1.0,
                     b11, b12, b13, b21, b22, b23, 0.0, 0.0, 1.0,
                     c11, c12, c13, c21, c22, c23, 0.0, 0.0, 1.0);
    ApplyComposed(a11, a12, a13, a21, a22, a23, b11, b12, b13, b21, b22, b23, c11, c12, c13, c21, c22, c23, p);
  }

  /** Applying b and then a to a point is applying the composed affine matrix c, given entry by entry. */
  lemma ApplyComposed(a11: real, a12: real, a13: real, a21: real, a22: real, a23: real,
                      b11: real, b12: real, b13: real, b21: real, b22: real, b23: real,
                      c11: real, c12: real, c13: real, c21: real, c22: real, c23: real, p: Point)
    requires c11 == a11 * b11 + a12 * b21 && c12 == a11 * b12 + a12 * b22 && c13 == a11 * b13 + a12 * b23 + a13
    requires c21 == a21 * b11 + a22 * b21 && c22 == a21 * b12 + a22 * b22 && c23 == a21 * b13 + a22 * b23 + a23
    ensures var b := Matrix(3, 3, [[b11, b12, b13], [b21, b22, b23], [0.0, 0.0, 1.0]]);
            Apply(b, p).Success? &&
            Apply(Matrix(3, 3, [[a11, a12, a13], [a21, a22, a23], [0.0, 0.0, 1.0]]), Apply(b, p).value) ==
            Apply(Matrix(3, 3, [[c11, c12, c13], [c21, c22, c23], [0.0, 0.0, 1.0]]), p)
  {
    var q := Point(b11 * p.x + b12 * p.y + b13, b21 * p.x + b22 * p.y + b23);
    ApplyAffineEntries(b11, b12, b13, b21, b22, b23, p);
    ApplyAffineEntries(a11, a12, a13, a21, a22, a23, q);
    ApplyAffineEntries(c11, c12, c13, c21, c22, c23, p);
    ComposeRow(a11, a12, a13, b11, b12, b13, b21, b22, b23, p.x, p.y, q.x, q.y, c11, c12, c13);
    ComposeRow(a21, a22, a23, b11, b12, b13, b21, b22, b23, p.x, p.y, q.x, q.y, c21, c22, c23);
    var w := Point(c11 * p.x + c12 * p.y + c13, c21 * p.x + c22 * p.y + c23);
    assert Point(a11 * q.x + a12 * q.y + a13, a21 * q.x + a22 * q.y + a23) == w;
  }

  /** One row (r1, r2, r3) of an affine matrix applied to the image (qx, qy) of (x, y) is the composed row (c1, c2, c3) applied to (x, y). */
  lemma ComposeRow(r1: real, r2: real, r3: real, b11: real, b12: real, b13: real, b21: real, b22: real, b23: real,
                   x: real, y: real, qx: real, qy: real, c1: real, c2: real, c3: real)
    requires qx == b11 * x + b12 * y + b13 && qy == b21 * x + b22 * y + b23
    requires c1 == r1 * b11 + r2 * b21 && c2 == r1 * b12 + r2 * b22 && c3 == r1 * b13 + r2 * b23 + r3
    ensures r1 * qx + r2 * qy + r3 == c1 * x + c2 * y + c3
  {
    assert r1 * qx == r1 * b11 * x + r1 * b12 * y + r1 * b13;
    assert r2 * qy == r2 * b21 * x + r2 * b22 * y + r2 * b23;
    assert c1 * x == r1 * b11 * x + r2 * b21 * x;
    assert c2 * y == r1 * b12 * y + r2 * b22 * y;
  }

  /** A product of affine matrices is affine, and applying it applies the right factor first. */
  lemma {:induction false} ApplyProduct(a: Matrix, b: Matrix, p: Point)
    requires IsAffine(a) && IsAffine(b)
    ensures IsAffine(Product(a, b))
    ensures Apply(b, p).Success? && Apply(a, Apply(b, p).value) == Apply(Product(a, b), p)
  {
    AffineDisplay(a);
    AffineDisplay(b);
    ComposeAffineEntries(a.Get(0, 0), a.Get(1, 0), a.Get(2, 0), a.Get(0, 1), a.Get(1, 1), a.Get(2, 1),
                         b.Get(0, 0), b.Get(1, 0), b.Get(2, 0), b.Get(0, 1), b.Get(1, 1), b.Get(2, 1), p);
  }

  /** A product of affine matrices is affine. */
  lemma ProductAffine(a: Matrix, b: Matrix)
    requires IsAffine(a) && IsAffine(b)
    ensures IsAffine(Product(a, b))
  {
    ApplyProduct(a, b, Point(0.0, 0.0));
  }

  /** The same, for operands that may not be affine. */
  lemma ProductAffineWhen(a: Matrix, b: Matrix)
    requires Is3x3(a) && Is3x3(b)
    ensures IsAffine(a) && IsAffine(b) ==> IsAffine(Product(a, b))
  {
    if IsAffine(a) && IsAffine(b) {
      ProductAffine(a, b);
    }
  }

  /** A 3x3 matrix is the display of its nine entries, row by row. */
  lemma Display3(a: Matrix)
    requires Is3x3(a)
    ensures a == Matrix(3, 3, [[a.Get(0, 0), a.Get(1, 0), a.Get(2, 0)],
                               [a.Get(0, 1), a.Get(1, 1), a.Get(2, 1)],
                               [a.Get(0, 2), a.Get(1, 2), a.Get(2, 2)]])
  {
    assert a.data == [a.data[0], a.data[1], a.data[2]];
    assert a.data[0] == [a.Get(0, 0), a.Get(1, 0), a.Get(2, 0)];
    assert a.data[1] == [a.Get(0, 1), a.Get(1, 1), a.Get(2, 1)];
    assert a.data[2] == [a.Get(0, 2), a.Get(1, 2), a.Get(2, 2)];
  }

  /** The rule of Sarrus on a 3x3 matrix given row by row. */
  lemma DeterminantEntries(a11: real, a12: real, a13: real, a21: real, a22: real, a23: real, a31: real, a32: real, a33: real)
    ensures Determinant(Matrix(3, 3, [[a11, a12, a13], [a21, a22, a23], [a31, a32, a33]])) ==
      Some(a11 * a22 * a33 + a12 * a23 * a31 + a13 * a21 * a32 - a13 * a22 * a31 - a12 * a21 * a33 - a11 * a23 * a32)
  {
    var a := Matrix(3, 3, [[a11, a12, a13], [a21, a22, a23], [a31, a32, a33]]);
    assert a.Get(0, 0) == a11 && a.Get(1, 0) == a12 && a.Get(2, 0) == a13;
    assert a.Get(0, 1) == a21 && a.Get(1, 1) == a22 && a.Get(2, 1) == a23;
    assert a.Get(0, 2) == a31 && a.Get(1, 2) == a32 && a.Get(2, 2) == a33;
    assert Determinant(a).value ==
      a11 * a22 * a33 + a12 * a23 * a31 + a13 * a21 * a32 - a13 * a22 * a31 - a12 * a21 * a33 - a11 * a23 * a32;
  }

  /** For an affine matrix, the last row of the adjugate divided by the determinant is (0, 0, 1). */
  lemma AffineAdjugateRow(a: Matrix)
    requires Is3x3(a) && Det3(a) != 0.0
    ensures IsAffine(a) ==>
      && MinorDet(a.Get(0, 1), a.Get(1, 1), a.Get(0, 2), a.Get(1, 2)) / Det3(a) == 0.0
      && MinorDet(a.Get(1, 0), a.Get(0, 0), a.Get(1, 2), a.Get(0, 2)) / Det3(a) == 0.0
      && MinorDet(a.Get(0, 0), a.Get(1, 0), a.Get(0, 1), a.Get(1, 1)) / Det3(a) == 1.0
  {
    var a11, a12, a21, a22 := a.Get(0, 0), a.Get(1, 0), a.Get(0, 1), a.Get(1, 1);
    MinorDetValue(a21, a22, a.Get(0, 2), a.Get(1, 2));
    MinorDetValue(a12, a11, a.Get(1, 2), a.Get(0, 2));
    MinorDetValue(a11, a12, a21, a22);
    if IsAffine(a) {
      assert Det3(a) == a11 * a22 - a12 * a21;
    }
  }

  /** A minor's determinant is p * t - q * s. */
  lemma MinorDetValue(p: real, q: real, s: real, t: real)
    ensures MinorDet(p, q, s, t) == p * t - q * s
  {
    var m := Minor(p, q, s, t);
    assert m.Get(0, 0) == p && m.Get(1, 0) == q && m.Get(0, 1) == s && m.Get(1, 1) == t;
  }

  /** Every translation has determinant 1 and `getScale(sx, sy)` has determinant sx * sy. */
  lemma BuilderDeterminants(x: real, y: real, sx: real, sy: real)
    ensures Determinant(Translate(x, y)) == Some(1.0)
    ensures Determinant(Scale(sx, sy)) == Some(sx * sy)
  {
    DeterminantEntries(1.0, 0.0, x, 0.0, 1.0, y, 0.0, 0.0, 1.0);
    DeterminantEntries(sx, 0.0, 0.0, 0.0, sy, 0.0, 0.0, 0.0, 1.0);
    assert Determinant(Translate(x, y)).value == 1.0;
    assert Determinant(Scale(sx, sy)).value == sx * sy;
  }

  /** The adjugate the source divides by the determinant: the nine minor determinants, laid out as `getInverse` lays them out. */
  function Adjugate(a: Matrix): (adj: Matrix)
    requires Is3x3(a)
    ensures Is3x3(adj)
  {
    var a11, a12, a13 := a.Get(0, 0), a.Get(1, 0), a.Get(2, 0);
    var a21, a22, a23 := a.Get(0, 1), a.Get(1, 1), a.Get(2, 1);
    var a31, a32, a33 := a.Get(0, 2), a.Get(1, 2), a.Get(2, 2);
    Matrix(3, 3, [
      [MinorDet(a22, a23, a32, a33), MinorDet(a13, a12, a33, a32), MinorDet(a12, a13, a22, a23)],
      [MinorDet(a23, a21, a33, a31), MinorDet(a11, a13, a31, a33), MinorDet(a13, a11, a23, a21)],
      [MinorDet(a21, a22, a31, a32), MinorDet(a12, a11, a32, a31), MinorDet(a11, a12, a21, a22)]])
  }

  /** The adjugate of a matrix given row by row: each entry is a minor's determinant. */
  lemma AdjugateEntries(a11: real, a12: real, a13: real, a21: real, a22: real, a23: real, a31: real, a32: real, a33: real)
    ensures Adjugate(Matrix(3, 3, [[a11, a12, a13], [a21, a22, a23], [a31, a32, a33]])) == Matrix(3, 3, [[a22 * a33 - a23 * a32, a13 * a32 - a12 * a33, a12 * a23 - a13 * a22], [a23 * a31 - a21 * a33, a11 * a33 - a13 * a31, a13 * a21 - a11 * a23], [a21 * a32 - a22 * a31, a12 * a31 - a11 * a32, a11 * a22 - a12 * a21]])
  {
    var a := Matrix(3, 3, [[a11, a12, a13], [a21, a22, a23], [a31, a32, a33]]);
    assert a.Get(0, 0) == a11 && a.Get(1, 0) == a12 && a.Get(2, 0) == a13;
    assert a.Get(0, 1) == a21 && a.Get(1, 1) == a22 && a.Get(2, 1) == a23;
    assert a.Get(0, 2) == a31 && a.Get(1, 2) == a32 && a.Get(2, 2) == a33;
    MinorDetValue(a22, a23, a32, a33); MinorDetValue(a13, a12, a33, a32); MinorDetValue(a12, a13, a22, a23);
    MinorDetValue(a23, a21, a33, a31); MinorDetValue(a11, a13, a31, a33); MinorDetValue(a13, a11, a23, a21);
    MinorDetValue(a21, a22, a31, a32); MinorDetValue(a12, a11, a32, a31); MinorDetValue(a11, a12, a21, a22);
  }

  /**
   * The cross product c = v x w is orthogonal to v and to w, and u . c is the determinant of
   * the matrix with rows u, v, w.
   */
  lemma CrossProduct(u1: real, u2: real, u3: real, v1: real, v2: real, v3: real, w1: real, w2: real, w3: real,
                     c1: real, c2: real, c3: real)
    requires c1 == v2 * w3 - v3 * w2 && c2 == v3 * w1 - v1 * w3 && c3 == v1 * w2 - v2 * w1
    ensures v1 * c1 + v2 * c2 + v3 * c3 == 0.0 && w1 * c1 + w2 * c2 + w3 * c3 == 0.0
    ensures u1 * c1 + u2 * c2 + u3 * c3 == u1 * v2 * w3 + u2 * v3 * w1 + u3 * v1 * w2 - u3 * v2 * w1 - u2 * v1 * w3 - u1 * v3 * w2
  {
  }
  /** `CrossProduct` with the factors of each product swapped. */
  lemma CrossProductLeft(u1: real, u2: real, u3: real, v1: real, v2: real, v3: real, w1: real, w2: real, w3: real,
                     c1: real, c2: real, c3: real)
    requires c1 == v2 * w3 - v3 * w2 && c2 == v3 * w1 - v1 * w3 && c3 == v1 * w2 - v2 * w1
    ensures c1 * v1 + c2 * v2 + c3 * v3 == 0.0 && c1 * w1 + c2 * w2 + c3 * w3 == 0.0
    ensures c1 * u1 + c2 * u2 + c3 * u3 == u1 * v2 * w3 + u2 * v3 * w1 + u3 * v1 * w2 - u3 * v2 * w1 - u2 * v1 * w3 - u1 * v3 * w2
  {
    CrossProduct(u1, u2, u3, v1, v2, v3, w1, w2, w3, c1, c2, c3);
  }

  /** a times b, on either side, is d times the identity, entry by entry. */
  predicate ScaledInversePair(a11: real, a12: real, a13: real, a21: real, a22: real, a23: real, a31: real, a32: real, a33: real,
                              b11: real, b12: real, b13: real, b21: real, b22: real, b23: real, b31: real, b32: real, b33: real, d: real)
  {
    a11 * b11 + a12 * b21 + a13 * b31 == d
    && a11 * b12 + a12 * b22 + a13 * b32 == 0.0
    && a11 * b13 + a12 * b23 + a13 * b33 == 0.0
    && a21 * b11 + a22 * b21 + a23 * b31 == 0.0
    && a21 * b12 + a22 * b22 + a23 * b32 == d
    && a21 * b13 + a22 * b23 + a23 * b33 == 0.0
    && a31 * b11 + a32 * b21 + a33 * b31 == 0.0
    && a31 * b12 + a32 * b22 + a33 * b32 == 0.0
    && a31 * b13 + a32 * b23 + a33 * b33 == d
    && b11 * a11 + b12 * a21 + b13 * a31 == d
    && b11 * a12 + b12 * a22 + b13 * a32 == 0.0
    && b11 * a13 + b12 * a23 + b13 * a33 == 0.0
    && b21 * a11 + b22 * a21 + b23 * a31 == 0.0
    && b21 * a12 + b22 * a22 + b23 * a32 == d
    && b21 * a13 + b22 * a23 + b23 * a33 == 0.0
    && b31 * a11 + b32 * a21 + b33 * a31 == 0.0
    && b31 * a12 + b32 * a22 + b33 * a32 == 0.0
    && b31 * a13 + b32 * a23 + b33 * a33 == d
  }

  /** b is d times i, entry by entry. */
  predicate ScaledBy(b11: real, b12: real, b13: real, b21: real, b22: real, b23: real, b31: real, b32: real, b33: real,
                     i11: real, i12: real, i13: real, i21: real, i22: real, i23: real, i31: real, i32: real, i33: real, d: real)
  {
    b11 == i11 * d
    && b12 == i12 * d
    && b13 == i13 * d
    && b21 == i21 * d
    && b22 == i22 * d
    && b23 == i23 * d
    && b31 == i31 * d
    && b32 == i32 * d
    && b33 == i33 * d
  }

  /** Dividing every entry by a nonzero d and multiplying back gives the entries again. */
  lemma DivisionScales(b11: real, b12: real, b13: real, b21: real, b22: real, b23: real, b31: real, b32: real, b33: real, d: real)
    requires d != 0.0
    ensures ScaledBy(b11, b12, b13, b21, b22, b23, b31, b32, b33,
                     b11 / d, b12 / d, b13 / d, b21 / d, b22 / d, b23 / d, b31 / d, b32 / d, b33 / d, d)
  {
  }

  /**
   * Laplace expansion: each row of a matrix against each column of its adjugate b, and each row
   * of b against each column of the matrix, gives the determinant on the diagonal and zero elsewhere.
   */
  lemma LaplaceExpansion(a11: real, a12: real, a13: real, a21: real, a22: real, a23: real, a31: real, a32: real, a33: real,
                         b11: real, b12: real, b13: real, b21: real, b22: real, b23: real, b31: real, b32: real, b33: real, d: real)
    requires b11 == a22 * a33 - a23 * a32 && b12 == a13 * a32 - a12 * a33 && b13 == a12 * a23 - a13 * a22
    requires b21 == a23 * a31 - a21 * a33 && b22 == a11 * a33 - a13 * a31 && b23 == a13 * a21 - a11 * a23
    requires b31 == a21 * a32 - a22 * a31 && b32 == a12 * a31 - a11 * a32 && b33 == a11 * a22 - a12 * a21
    requires d == a11 * a22 * a33 + a12 * a23 * a31 + a13 * a21 * a32 - a13 * a22 * a31 - a12 * a21 * a33 - a11 * a23 * a32
    ensures ScaledInversePair(a11, a12, a13, a21, a22, a23, a31, a32, a33,
                              b11, b12, b13, b21, b22, b23, b31, b32, b33, d)
  {
    CrossProduct(a11, a12, a13, a21, a22, a23, a31, a32, a33, b11, b21, b31);
    CrossProduct(a21, a22, a23, a31, a32, a33, a11, a12, a13, b12, b22, b32);
    CrossProduct(a31, a32, a33, a11, a12, a13, a21, a22, a23, b13, b23, b33);
    CrossProductLeft(a11, a21, a31, a12, a22, a32, a13, a23, a33, b11, b12, b13);
    CrossProductLeft(a12, a22, a32, a13, a23, a33, a11, a21, a31, b21, b22, b23);
    CrossProductLeft(a13, a23, a33, a11, a21, a31, a12, a22, a32, b31, b32, b33);
  }


  /** Multiplying a matrix by its adjugate b, on either side, gives its determinant on the diagonal. */
  lemma AdjugateProductEntries(a11: real, a12: real, a13: real, a21: real, a22: real, a23: real, a31: real, a32: real, a33: real,
                               b11: real, b12: real, b13: real, b21: real, b22: real, b23: real, b31: real, b32: real, b33: real, d: real)
    requires b11 == a22 * a33 - a23 * a32 && b12 == a13 * a32 - a12 * a33 && b13 == a12 * a23 - a13 * a22
    requires b21 == a23 * a31 - a21 * a33 && b22 == a11 * a33 - a13 * a31 && b23 == a13 * a21 - a11 * a23
    requires b31 == a21 * a32 - a22 * a31 && b32 == a12 * a31 - a11 * a32 && b33 == a11 * a22 - a12 * a21
    requires d == a11 * a22 * a33 + a12 * a23 * a31 + a13 * a21 * a32 - a13 * a22 * a31 - a12 * a21 * a33 - a11 * a23 * a32
    ensures Product(Matrix(3, 3, [[a11, a12, a13], [a21, a22, a23], [a31, a32, a33]]), Matrix(3, 3, [[b11, b12, b13], [b21, b22, b23], [b31, b32, b33]])) == Matrix(3, 3, [[d, 0.0, 0.0], [0.0, d, 0.0], [0.0, 0.0, d]])
    ensures Product(Matrix(3, 3, [[b11, b12, b13], [b21, b22, b23], [b31, b32, b33]]), Matrix(3, 3, [[a11, a12, a13], [a21, a22, a23], [a31, a32, a33]])) == Matrix(3, 3, [[d, 0.0, 0.0], [0.0, d, 0.0], [0.0, 0.0, d]])
  {
    LaplaceExpansion(a11, a12, a13, a21, a22, a23, a31, a32, a33, b11, b12, b13, b21, b22, b23, b31, b32, b33, d);
    ProductOfEntries(a11, a12, a13, a21, a22, a23, a31, a32, a33, b11, b12, b13, b21, b22, b23, b31, b32, b33, d, 0.0, 0.0, 0.0, d, 0.0, 0.0, 0.0, d);
    ProductOfEntries(b11, b12, b13, b21, b22, b23, b31, b32, b33, a11, a12, a13, a21, a22, a23, a31, a32, a33, d, 0.0, 0.0, 0.0, d, 0.0, 0.0, 0.0, d);
  }

  /** If x, y, z are d times i1, i2, i3 and a row against (x, y, z) is e * d, then the row against (i1, i2, i3) is e. */
  lemma Unscale(p: real, q: real, s: real, x: real, y: real, z: real, i1: real, i2: real, i3: real, d: real, e: real)
    requires d != 0.0 && x == i1 * d && y == i2 * d && z == i3 * d
    requires p * x + q * y + s * z == e * d
    ensures p * i1 + q * i2 + s * i3 == e
  {
    assert (p * i1 + q * i2 + s * i3) * d == e * d;
  }

  /** `Unscale` with the factors of each product swapped. */
  lemma UnscaleLeft(x: real, y: real, z: real, p: real, q: real, s: real, i1: real, i2: real, i3: real, d: real, e: real)
    requires d != 0.0 && x == i1 * d && y == i2 * d && z == i3 * d
    requires x * p + y * q + z * s == e * d
    ensures i1 * p + i2 * q + i3 * s == e
  {
    Unscale(p, q, s, x, y, z, i1, i2, i3, d, e);
  }

  /** Two matrices given entry by entry whose product a * b is the identity. */
  lemma RightInverseEntries(a11: real, a12: real, a13: real, a21: real, a22: real, a23: real, a31: real, a32: real, a33: real,
                            b11: real, b12: real, b13: real, b21: real, b22: real, b23: real, b31: real, b32: real, b33: real)
    requires a11 * b11 + a12 * b21 + a13 * b31 == 1.0
    requires a11 * b12 + a12 * b22 + a13 * b32 == 0.0
    requires a11 * b13 + a12 * b23 + a13 * b33 == 0.0
    requires a21 * b11 + a22 * b21 + a23 * b31 == 0.0
    requires a21 * b12 + a22 * b22 + a23 * b32 == 1.0
    requires a21 * b13 + a22 * b23 + a23 * b33 == 0.0
    requires a31 * b11 + a32 * b21 + a33 * b31 == 0.0
    requires a31 * b12 + a32 * b22 + a33 * b32 == 0.0
    requires a31 * b13 + a32 * b23 + a33 * b33 == 1.0
    ensures Product(Matrix(3, 3, [[a11, a12, a13], [a21, a22, a23], [a31, a32, a33]]), Matrix(3, 3, [[b11, b12, b13], [b21, b22, b23], [b31, b32, b33]])) == Identity()
  {
    ProductOfEntries(a11, a12, a13, a21, a22, a23, a31, a32, a33, b11, b12, b13, b21, b22, b23, b31, b32, b33, 1.0, 0.0, 0.0, 0.0, 1.0, 0.0, 0.0, 0.0, 1.0);
  }

  /** Two matrices given entry by entry whose product b * a is the identity. */
  lemma LeftInverseEntries(a11: real, a12: real, a13: real, a21: real, a22: real, a23: real, a31: real, a32: real, a33: real,
                           b11: real, b12: real, b13: real, b21: real, b22: real, b23: real, b31: real, b32: real, b33: real)
    requires b11 * a11 + b12 * a21 + b13 * a31 == 1.0
    requires b11 * a12 + b12 * a22 + b13 * a32 == 0.0
    requires b11 * a13 + b12 * a23 + b13 * a33 == 0.0
    requires b21 * a11 + b22 * a21 + b23 * a31 == 0.0
    requires b21 * a12 + b22 * a22 + b23 * a32 == 1.0
    requires b21 * a13 + b22 * a23 + b23 * a33 == 0.0
    requires b31 * a11 + b32 * a21 + b33 * a31 == 0.0
    requires b31 * a12 + b32 * a22 + b33 * a32 == 0.0
    requires b31 * a13 + b32 * a23 + b33 * a33 == 1.0
    ensures Product(Matrix(3, 3, [[b11, b12, b13], [b21, b22, b23], [b31, b32, b33]]), Matrix(3, 3, [[a11, a12, a13], [a21, a22, a23], [a31, a32, a33]])) == Identity()
  {
    ProductOfEntries(b11, b12, b13, b21, b22, b23, b31, b32, b33, a11, a12, a13, a21, a22, a23, a31, a32, a33, 1.0, 0.0, 0.0, 0.0, 1.0, 0.0, 0.0, 0.0, 1.0);
  }

  /** If a times b is d times the identity on both sides and b is d times i, then i is a two-sided inverse of a. */
  lemma DivideByDeterminant(a11: real, a12: real, a13: real, a21: real, a22: real, a23: real, a31: real, a32: real, a33: real,
                            b11: real, b12: real, b13: real, b21: real, b22: real, b23: real, b31: real, b32: real, b33: real,
                            i11: real, i12: real, i13: real, i21: real, i22: real, i23: real, i31: real, i32: real, i33: real, d: real)
    requires d != 0.0
    requires ScaledInversePair(a11, a12, a13, a21, a22, a23, a31, a32, a33,
                               b11, b12, b13, b21, b22, b23, b31, b32, b33, d)
    requires ScaledBy(b11, b12, b13, b21, b22, b23, b31, b32, b33,
                      i11, i12, i13, i21, i22, i23, i31, i32, i33, d)
    ensures Product(Matrix(3, 3, [[a11, a12, a13], [a21, a22, a23], [a31, a32, a33]]), Matrix(3, 3, [[i11, i12, i13], [i21, i22, i23], [i31, i32, i33]])) == Identity()
    ensures Product(Matrix(3, 3, [[i11, i12, i13], [i21, i22, i23], [i31, i32, i33]]), Matrix(3, 3, [[a11, a12, a13], [a21, a22, a23], [a31, a32, a33]])) == Identity()
  {
    Unscale(a11, a12, a13, b11, b21, b31, i11, i21, i31, d, 1.0);
    Unscale(a11, a12, a13, b12, b22, b32, i12, i22, i32, d, 0.0);
    Unscale(a11, a12, a13, b13, b23, b33, i13, i23, i33, d, 0.0);
    Unscale(a21, a22, a23, b11, b21, b31, i11, i21, i31, d, 0.0);
    Unscale(a21, a22, a23, b12, b22, b32, i12, i22, i32, d, 1.0);
    Unscale(a21, a22, a23, b13, b23, b33, i13, i23, i33, d, 0.0);
    Unscale(a31, a32, a33, b11, b21, b31, i11, i21, i31, d, 0.0);
    Unscale(a31, a32, a33, b12, b22, b32, i12, i22, i32, d, 0.0);
    Unscale(a31, a32, a33, b13, b23, b33, i13, i23, i33, d, 1.0);
    UnscaleLeft(b11, b12, b13, a11, a21, a31, i11, i12, i13, d, 1.0);
    UnscaleLeft(b11, b12, b13, a12, a22, a32, i11, i12, i13, d, 0.0);
    UnscaleLeft(b11, b12, b13, a13, a23, a33, i11, i12, i13, d, 0.0);
    UnscaleLeft(b21, b22, b23, a11, a21, a31, i21, i22, i23, d, 0.0);
    UnscaleLeft(b21, b22, b23, a12, a22, a32, i21, i22, i23, d, 1.0);
    UnscaleLeft(b21, b22, b23, a13, a23, a33, i21, i22, i23, d, 0.0);
    UnscaleLeft(b31, b32, b33, a11, a21, a31, i31, i32, i33, d, 0.0);
    UnscaleLeft(b31, b32, b33, a12, a22, a32, i31, i32, i33, d, 0.0);
    UnscaleLeft(b31, b32, b33, a13, a23, a33, i31, i32, i33, d, 1.0);
    RightInverseEntries(a11, a12, a13, a21, a22, a23, a31, a32, a33, i11, i12, i13, i21, i22, i23, i31, i32, i33);
    LeftInverseEntries(a11, a12, a13, a21, a22, a23, a31, a32, a33, i11, i12, i13, i21, i22, i23, i31, i32, i33);
  }

  /** The adjugate of a matrix given row by row, divided by its nonzero determinant, is its two-sided inverse. */
  lemma InverseOfEntries(a11: real, a12: real, a13: real, a21: real, a22: real, a23: real, a31: real, a32: real, a33: real, d: real)
    requires d == a11 * a22 * a33 + a12 * a23 * a31 + a13 * a21 * a32 - a13 * a22 * a31 - a12 * a21 * a33 - a11 * a23 * a32 && d != 0.0
    ensures Product(Matrix(3, 3, [[a11, a12, a13], [a21, a22, a23], [a31, a32, a33]]), Matrix(3, 3, [[(a22 * a33 - a23 * a32) / d, (a13 * a32 - a12 * a33) / d, (a12 * a23 - a13 * a22) / d], [(a23 * a31 - a21 * a33) / d, (a11 * a33 - a13 * a31) / d, (a13 * a21 - a11 * a23) / d], [(a21 * a32 - a22 * a31) / d, (a12 * a31 - a11 * a32) / d, (a11 * a22 - a12 * a21) / d]])) == Identity()
    ensures Product(Matrix(3, 3, [[(a22 * a33 - a23 * a32) / d, (a13 * a32 - a12 * a33) / d, (a12 * a23 - a13 * a22) / d], [(a23 * a31 - a21 * a33) / d, (a11 * a33 - a13 * a31) / d, (a13 * a21 - a11 * a23) / d], [(a21 * a32 - a22 * a31) / d, (a12 * a31 - a11 * a32) / d, (a11 * a22 - a12 * a21) / d]]), Matrix(3, 3, [[a11, a12, a13], [a21, a22, a23], [a31, a32, a33]])) == Identity()
  {
    DivisionScales(a22 * a33 - a23 * a32, a13 * a32 - a12 * a33, a12 * a23 - a13 * a22, a23 * a31 - a21 * a33, a11 * a33 - a13 * a31, a13 * a21 - a11 * a23, a21 * a32 - a22 * a31, a12 * a31 - a11 * a32, a11 * a22 - a12 * a21, d);
    LaplaceExpansion(a11, a12, a13, a21, a22, a23, a31, a32, a33,
                     a22 * a33 - a23 * a32, a13 * a32 - a12 * a33, a12 * a23 - a13 * a22, a23 * a31 - a21 * a33, a11 * a33 - a13 * a31, a13 * a21 - a11 * a23, a21 * a32 - a22 * a31, a12 * a31 - a11 * a32, a11 * a22 - a12 * a21, d);
    DivideByDeterminant(a11, a12, a13, a21, a22, a23, a31, a32, a33,
                        a22 * a33 - a23 * a32, a13 * a32 - a12 * a33, a12 * a23 - a13 * a22, a23 * a31 - a21 * a33, a11 * a33 - a13 * a31, a13 * a21 - a11 * a23, a21 * a32 - a22 * a31, a12 * a31 - a11 * a32, a11 * a22 - a12 * a21,
                        (a22 * a33 - a23 * a32) / d, (a13 * a32 - a12 * a33) / d, (a12 * a23 - a13 * a22) / d, (a23 * a31 - a21 * a33) / d, (a11 * a33 - a13 * a31) / d, (a13 * a21 - a11 * a23) / d, (a21 * a32 - a22 * a31) / d, (a12 * a31 - a11 * a32) / d, (a11 * a22 - a12 * a21) / d, d);
  }

  /** M * adj(M) and adj(M) * M are the determinant times the identity. */
  lemma {:induction false} AdjugateProducts(a: Matrix)
    requires Is3x3(a)
    ensures Product(a, Adjugate(a)) == Matrix(3, 3, [[Det3(a), 0.0, 0.0], [0.0, Det3(a), 0.0], [0.0, 0.0, Det3(a)]])
    ensures Product(Adjugate(a), a) == Matrix(3, 3, [[Det3(a), 0.0, 0.0], [0.0, Det3(a), 0.0], [0.0, 0.0, Det3(a)]])
  {
    var a11, a12, a13 := a.Get(0, 0), a.Get(1, 0), a.Get(2, 0);
    var a21, a22, a23 := a.Get(0, 1), a.Get(1, 1), a.Get(2, 1);
    var a31, a32, a33 := a.Get(0, 2), a.Get(1, 2), a.Get(2, 2);
    Display3(a);
    DeterminantEntries(a11, a12, a13, a21, a22, a23, a31, a32, a33);
    AdjugateEntries(a11, a12, a13, a21, a22, a23, a31, a32, a33);
    AdjugateProductEntries(a11, a12, a13, a21, a22, a23, a31, a32, a33,
                           a22 * a33 - a23 * a32, a13 * a32 - a12 * a33, a12 * a23 - a13 * a22, a23 * a31 - a21 * a33, a11 * a33 - a13 * a31, a13 * a21 - a11 * a23, a21 * a32 - a22 * a31, a12 * a31 - a11 * a32, a11 * a22 - a12 * a21, Det3(a));
  }

  /** For a nonzero determinant, `getInverse()` is a two-sided inverse: M * M^-1 and M^-1 * M are the identity. */
  lemma {:induction false} InverseIsInverse(a: Matrix)
    requires Is3x3(a) && Det3(a) != 0.0
    ensures Product(a, Inverse(a)) == Identity()
    ensures Product(Inverse(a), a) == Identity()
  {
    var a11, a12, a13 := a.Get(0, 0), a.Get(1, 0), a.Get(2, 0);
    var a21, a22, a23 := a.Get(0, 1), a.Get(1, 1), a.Get(2, 1);
    var a31, a32, a33 := a.Get(0, 2), a.Get(1, 2), a.Get(2, 2);
    var d := Det3(a);
    Display3(a);
    DeterminantEntries(a11, a12, a13, a21, a22, a23, a31, a32, a33);
    MinorDetValue(a22, a23, a32, a33); MinorDetValue(a13, a12, a33, a32); MinorDetValue(a12, a13, a22, a23);
    MinorDetValue(a23, a21, a33, a31); MinorDetValue(a11, a13, a31, a33); MinorDetValue(a13, a11, a23, a21);
    MinorDetValue(a21, a22, a31, a32); MinorDetValue(a12, a11, a32, a31); MinorDetValue(a11, a12, a21, a22);
    assert Inverse(a) == Matrix(3, 3, [[(a22 * a33 - a23 * a32) / d, (a13 * a32 - a12 * a33) / d, (a12 * a23 - a13 * a22) / d], [(a23 * a31 - a21 * a33) / d, (a11 * a33 - a13 * a31) / d, (a13 * a21 - a11 * a23) / d], [(a21 * a32 - a22 * a31) / d, (a12 * a31 - a11 * a32) / d, (a11 * a22 - a12 * a21) / d]]);
    InverseOfEntries(a11, a12, a13, a21, a22, a23, a31, a32, a33, d);
  }

  /** The inverse of `getTranslate(x, y)` is `getTranslate(-x, -y)`. */
  lemma TranslateInverse(x: real, y: real)
    ensures Det3(Translate(x, y)) == 1.0
    ensures Inverse(Translate(x, y)) == Translate(-x, -y)
  {
  }

  /** The inverse of an affine matrix is affine and undoes it on every point. */
  lemma {:induction false} InverseUndoesApply(a: Matrix, p: Point)
    requires IsAffine(a) && Det3(a) != 0.0
    ensures IsAffine(Inverse(a))
    ensures Apply(a, p).Success? && Apply(Inverse(a), Apply(a, p).value) == Success(p)
  {
    var inv := Inverse(a);
    InverseIsInverse(a);
    ProductEntries(inv, a);
    assert IsAffine(inv) by {
      assert inv.Get(0, 2) == Product(inv, a).Get(0, 2) == 0.0;
      assert inv.Get(1, 2) == Product(inv, a).Get(1, 2) == 0.0;
      assert inv.Get(2, 2) == Product(inv, a).Get(2, 2) == 1.0;
    }
    ApplyProduct(inv, a, p);
    IdentityNeutral(Identity());
    ApplyEntries(Identity(), p);
  }

  /** Pre-multiplying an affine matrix by `getTranslate(x, y)` shifts its translation column by (x, y). */
  lemma {:induction false} TranslateShiftsTranslation(x: real, y: real, a: Matrix)
    requires IsAffine(a)
    ensures Is3x3(Product(Translate(x, y), a))
    ensures Translation(Product(Translate(x, y), a)) == Point(Translation(a).x + x, Translation(a).y + y)
  {
    ProductEntries(Translate(x, y), a);
  }
}
