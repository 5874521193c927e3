/** Square matrices of reals (src/matrices.rs): the 4x4 matrices that represent affine
    transformations, with their product and their action on tuples, and the 2x2 and 3x3
    matrices that the source declares with a constructor and an index operator only.

    A 4x4 matrix is held as its four rows, each row a 4-tuple, so that "row i dotted with a
    tuple" is literally `Dot`. */
module Matrices {
  import opened Numerics
  import opened Tuples

  datatype Matrix4 = Matrix4(r0: Tuple, r1: Tuple, r2: Tuple, r3: Tuple)

  /** Coordinate j (x, y, z, w for j = 0, 1, 2, 3) of a tuple. */
  function Coord(t: Tuple, j: nat): real
    requires j < 4
  {
    if j == 0 then t.x else if j == 1 then t.y else if j == 2 then t.z else t.w
  }

  /** Row i of a matrix. */
  function RowAt(m: Matrix4, i: nat): Tuple
    requires i < 4
  {
    if i == 0 then m.r0 else if i == 1 then m.r1 else if i == 2 then m.r2 else m.r3
  }

  /** Column j of a matrix. */
  function Col(m: Matrix4, j: nat): Tuple
    requires j < 4
  {
    if j == 0 then Tuple(m.r0.x, m.r1.x, m.r2.x, m.r3.x)
    else if j == 1 then Tuple(m.r0.y, m.r1.y, m.r2.y, m.r3.y)
    else if j == 2 then Tuple(m.r0.z, m.r1.z, m.r2.z, m.r3.z)
    else Tuple(m.r0.w, m.r1.w, m.r2.w, m.r3.w)
  }

  /** `Index<(usize, usize)> for Matrix4`: row i, column j. An index of 4 or more makes the
      source panic, so callers must stay in range. */
  function At(m: Matrix4, i: usize, j: usize): real
    requires i < 4 && j < 4
  {
    Coord(RowAt(m, i), j)
  }

  /** `Matrix4::new`: the sixteen arguments in row-major order. */
  function New4(m00: real, m01: real, m02: real, m03: real,
                m10: real, m11: real, m12: real, m13: real,
                m20: real, m21: real, m22: real, m23: real,
                m30: real, m31: real, m32: real, m33: real): (m: Matrix4)
    ensures At(m, 0, 0) == m00 && At(m, 0, 1) == m01 && At(m, 0, 2) == m02 && At(m, 0, 3) == m03
    ensures At(m, 1, 0) == m10 && At(m, 1, 1) == m11 && At(m, 1, 2) == m12 && At(m, 1, 3) == m13
    ensures At(m, 2, 0) == m20 && At(m, 2, 1) == m21 && At(m, 2, 2) == m22 && At(m, 2, 3) == m23
    ensures At(m, 3, 0) == m30 && At(m, 3, 1) == m31 && At(m, 3, 2) == m32 && At(m, 3, 3) == m33
  {
    Matrix4(Tuple(m00, m01, m02, m03), Tuple(m10, m11, m12, m13),
            Tuple(m20, m21, m22, m23), Tuple(m30, m31, m32, m33))
  }

  /** An n x n grid of reals stored as n rows of n entries. */
  predicate IsGrid(m: seq<seq<real>>, n: nat)
  {
    |m| == n && forall i :: 0 <= i < n ==> |m[i]| == n
  }

  type Matrix3 = m: seq<seq<real>> | IsGrid(m, 3)
    witness [[0.0, 0.0, 0.0], [0.0, 0.0, 0.0], [0.0, 0.0, 0.0]]

  type Matrix2 = m: seq<seq<real>> | IsGrid(m, 2)
    witness [[0.0, 0.0], [0.0, 0.0]]

  /** `Index<(usize, usize)> for Matrix3`. */
  function At3(m: Matrix3, i: usize, j: usize): real
    requires i < 3 && j < 3
  {
    m[i][j]
  }

  /** `Matrix3::new`: the nine arguments in row-major order. */
  function New3(m00: real, m01: real, m02: real,
                m10: real, m11: real, m12: real,
                m20: real, m21: real, m22: real): (m: Matrix3)
    ensures At3(m, 0, 0) == m00 && At3(m, 0, 1) == m01 && At3(m, 0, 2) == m02
    ensures At3(m, 1, 0) == m10 && At3(m, 1, 1) == m11 && At3(m, 1, 2) == m12
    ensures At3(m, 2, 0) == m20 && At3(m, 2, 1) == m21 && At3(m, 2, 2) == m22
  {
    [[m00, m01, m02], [m10, m11, m12], [m20, m21, m22]]
  }

  /** `Index<(usize, usize)> for Matrix2`. */
  function At2(m: Matrix2, i: usize, j: usize): real
    requires i < 2 && j < 2
  {
    m[i][j]
  }

  /** `Matrix2::new`: the four arguments in row-major order. */
  function New2(m00: real, m01: real, m10: real, m11: real): (m: Matrix2)
    ensures At2(m, 0, 0) == m00 && At2(m, 0, 1) == m01
    ensures At2(m, 1, 0) == m10 && At2(m, 1, 1) == m11
  {
    [[m00, m01], [m10, m11]]
  }

  /** The identity matrix (the source's `IDENTITY`). */
  const Identity: Matrix4 := Matrix4(Tuple(1.0, 0.0, 0.0, 0.0), Tuple(0.0, 1.0, 0.0, 0.0),
                                     Tuple(0.0, 0.0, 1.0, 0.0), Tuple(0.0, 0.0, 0.0, 1.0))

  /** The last row is (0, 0, 0, 1): the matrix is an affine transformation. */
  predicate IsAffine(m: Matrix4)
  {
    m.r3 == Tuple(0.0, 0.0, 0.0, 1.0)
  }

  /** Entry (i, j) of a * b as the source writes it: row i of a against column j of b. */
  function Entry(a: Matrix4, b: Matrix4, i: nat, j: nat): real
    requires i < 4 && j < 4
  {
    At(a, i, 0) * At(b, 0, j) + At(a, i, 1) * At(b, 1, j) + At(a, i, 2) * At(b, 2, j) + At(a, i, 3) * At(b, 3, j)
  }

  /** A row r times the matrix b: r dotted with each column of b. */
  function RowTimes(r: Tuple, b: Matrix4): Tuple
  {
    Tuple(Dot(r, Col(b, 0)), Dot(r, Col(b, 1)), Dot(r, Col(b, 2)), Dot(r, Col(b, 3)))
  }

  /** The tuple u with every coordinate multiplied by c from the left. */
  function Weighted(c: real, u: Tuple): Tuple
  {
    Tuple(c * u.x, c * u.y, c * u.z, c * u.w)
  }

  /** The matrix product that `Mul<Matrix4>` computes. */
  function Product(a: Matrix4, b: Matrix4): (r: Matrix4)
    ensures IsAffine(a) && IsAffine(b) ==> IsAffine(r)
  {
    Matrix4(RowTimes(a.r0, b), RowTimes(a.r1, b), RowTimes(a.r2, b), RowTimes(a.r3, b))
  }

  /** `Mul<Matrix4> for Matrix4`: fills a zero 4x4 array entry by entry in two nested loops. */
  method Mul(a: Matrix4, b: Matrix4) returns (r: Matrix4)
    ensures r == Product(a, b)
  {
    var result := new real[4, 4]((_, _) => 0.0);
    for i := 0 to 4
      invariant forall i', j :: 0 <= i' < i && 0 <= j < 4 ==> result[i', j] == Entry(a, b, i', j)
    {
      for j := 0 to 4
        invariant forall i', j' :: 0 <= i' < i && 0 <= j' < 4 ==> result[i', j'] == Entry(a, b, i', j')
        invariant forall j' :: 0 <= j' < j ==> result[i, j'] == Entry(a, b, i, j')
      {
        result[i, j] := At(a, i, 0) * At(b, 0, j) + At(a, i, 1) * At(b, 1, j) +
                        At(a, i, 2) * At(b, 2, j) + At(a, i, 3) * At(b, 3, j);
        assert result[i, j] == Entry(a, b, i, j);
      }
    }
    r := New4(result[0, 0], result[0, 1], result[0, 2], result[0, 3],
              result[1, 0], result[1, 1], result[1, 2], result[1, 3],
              result[2, 0], result[2, 1], result[2, 2], result[2, 3],
              result[3, 0], result[3, 1], result[3, 2], result[3, 3]);
    forall i, j | 0 <= i < 4 && 0 <= j < 4
      ensures At(r, i, j) == At(Product(a, b), i, j)
    {
      ProductEntry(a, b, i, j);
    }
    EqualEntries(r, Product(a, b));
  }

  /** `Mul<Tuple> for Matrix4`: each component of the result is a row dotted with the tuple. */
  function Apply(m: Matrix4, t: Tuple): Tuple
  {
    Tuple(Dot(m.r0, t), Dot(m.r1, t), Dot(m.r2, t), Dot(m.r3, t))
  }

  /** The transposed matrix (the source's `transpose`, used to carry normals to world space). */
  function Transpose(m: Matrix4): (r: Matrix4)
    ensures forall i, j :: 0 <= i < 4 && 0 <= j < 4 ==> At(r, i, j) == At(m, j, i)
  {
    Matrix4(Col(m, 0), Col(m, 1), Col(m, 2), Col(m, 3))
  }

  // ---------------------------------------------------------------------------------------------
  // Properties

  /** Two matrices with the same entries are the same matrix. */
  lemma EqualEntries(a: Matrix4, b: Matrix4)
    requires forall i, j :: 0 <= i < 4 && 0 <= j < 4 ==> At(a, i, j) == At(b, i, j)
    ensures a == b
  {
    assert At(a, 0, 0) == At(b, 0, 0) && At(a, 0, 1) == At(b, 0, 1) && At(a, 0, 2) == At(b, 0, 2) && At(a, 0, 3) == At(b, 0, 3);
    assert At(a, 1, 0) == At(b, 1, 0) && At(a, 1, 1) == At(b, 1, 1) && At(a, 1, 2) == At(b, 1, 2) && At(a, 1, 3) == At(b, 1, 3);
    assert At(a, 2, 0) == At(b, 2, 0) && At(a, 2, 1) == At(b, 2, 1) && At(a, 2, 2) == At(b, 2, 2) && At(a, 2, 3) == At(b, 2, 3);
    assert At(a, 3, 0) == At(b, 3, 0) && At(a, 3, 1) == At(b, 3, 1) && At(a, 3, 2) == At(b, 3, 2) && At(a, 3, 3) == At(b, 3, 3);
  }

  /** Matrix equality (derived `PartialEq`) is entrywise equality. */
  lemma EqualityIsEntrywise(a: Matrix4, b: Matrix4)
    ensures a == b <==> forall i: usize, j: usize :: i < 4 && j < 4 ==> At(a, i, j) == At(b, i, j)
  {
    if forall i: usize, j: usize :: i < 4 && j < 4 ==> At(a, i, j) == At(b, i, j) {
      EqualEntries(a, b);
    }
  }

  /** An affine matrix preserves w, so points stay points and vectors stay vectors. */
  lemma ApplyAffine(m: Matrix4, t: Tuple)
    requires IsAffine(m)
    ensures Apply(m, t).w == t.w
    ensures IsPoint(t) ==> IsPoint(Apply(m, t))
    ensures IsVector(t) ==> IsVector(Apply(m, t))
  {
  }

  /** Component i of m * t is row i of m dotted with t. */
  lemma ApplyIsRowDot(m: Matrix4, t: Tuple, i: nat)
    requires i < 4
    ensures Coord(Apply(m, t), i) == Dot(RowAt(m, i), t)
  {
  }

  /** Multiplying by a product applies the right-hand factor first: (a * b) * t == a * (b * t). */
  lemma ApplyProduct(a: Matrix4, b: Matrix4, t: Tuple)
    ensures Apply(Product(a, b), t) == Apply(a, Apply(b, t))
  {
    RowTimesApply(a.r0, b, t);
    RowTimesApply(a.r1, b, t);
    RowTimesApply(a.r2, b, t);
    RowTimesApply(a.r3, b, t);
  }

  /** The scalar identity behind ApplyProduct, one row at a time: a row times b is the
      combination of b's rows weighted by the row's coordinates, and Dot is linear. */
  lemma RowTimesApply(r: Tuple, b: Matrix4, t: Tuple)
    ensures Dot(RowTimes(r, b), t) == Dot(r, Apply(b, t))
  {
    RowTimesIsWeightedSum(r, b);
    DotWeightedSum(r, b, t);
  }

  /** The weighted sum of b's rows with weights r. */
  function WeightedSum(r: Tuple, b: Matrix4): Tuple
  {
    Add(Add(Add(Weighted(r.x, b.r0), Weighted(r.y, b.r1)), Weighted(r.z, b.r2)), Weighted(r.w, b.r3))
  }

  lemma RowTimesIsWeightedSum(r: Tuple, b: Matrix4)
    ensures RowTimes(r, b) == WeightedSum(r, b)
  {
  }

  lemma DotWeightedSum(r: Tuple, b: Matrix4, t: Tuple)
    ensures Dot(WeightedSum(r, b), t) == r.x * Dot(b.r0, t) + r.y * Dot(b.r1, t) + r.z * Dot(b.r2, t) + r.w * Dot(b.r3, t)
  {
    var u0, u1, u2, u3 := Weighted(r.x, b.r0), Weighted(r.y, b.r1), Weighted(r.z, b.r2), Weighted(r.w, b.r3);
    DotAdd(Add(Add(u0, u1), u2), u3, t);
    DotAdd(Add(u0, u1), u2, t);
    DotAdd(u0, u1, t);
    DotWeighted(r.x, b.r0, t);
    DotWeighted(r.y, b.r1, t);
    DotWeighted(r.z, b.r2, t);
    DotWeighted(r.w, b.r3, t);
  }

  lemma DotWeighted(c: real, u: Tuple, t: Tuple)
    ensures Dot(Weighted(c, u), t) == c * Dot(u, t)
  {
  }

  /** Entry (i, j) of the product is the source's four-term sum. */
  lemma ProductEntry(a: Matrix4, b: Matrix4, i: nat, j: nat)
    requires i < 4 && j < 4
    ensures At(Product(a, b), i, j) == Entry(a, b, i, j)
  {
    ProductRow(a, b, i);
    RowTimesCoord(RowAt(a, i), b, j);
    ColCoord(b, j);
    EntryByRow(a, b, i, j);
  }

  lemma EntryByRow(a: Matrix4, b: Matrix4, i: nat, j: nat)
    requires i < 4 && j < 4
    ensures Entry(a, b, i, j) == Dot(RowAt(a, i), Tuple(Coord(b.r0, j), Coord(b.r1, j), Coord(b.r2, j), Coord(b.r3, j)))
  {
  }

  lemma ProductRow(a: Matrix4, b: Matrix4, i: nat)
    requires i < 4
    ensures RowAt(Product(a, b), i) == RowTimes(RowAt(a, i), b)
  {
  }

  lemma RowTimesCoord(r: Tuple, b: Matrix4, j: nat)
    requires j < 4
    ensures Coord(RowTimes(r, b), j) == Dot(r, Col(b, j))
  {
  }

  lemma ColCoord(b: Matrix4, j: nat)
    requires j < 4
    ensures Col(b, j) == Tuple(Coord(b.r0, j), Coord(b.r1, j), Coord(b.r2, j), Coord(b.r3, j))
  {
  }

  /** m * (a + b) == m * a + m * b. */
  lemma ApplyAdd(m: Matrix4, a: Tuple, b: Tuple)
    ensures Apply(m, Add(a, b)) == Add(Apply(m, a), Apply(m, b))
  {
    DotAddRight(m.r0, a, b);
    DotAddRight(m.r1, a, b);
    DotAddRight(m.r2, a, b);
    DotAddRight(m.r3, a, b);
  }

  /** m * (a * f) == (m * a) * f. */
  lemma ApplyScale(m: Matrix4, a: Tuple, factor: real)
    ensures Apply(m, Scale(a, factor)) == Scale(Apply(m, a), factor)
  {
    DotScaleRight(m.r0, a, factor);
    DotScaleRight(m.r1, a, factor);
    DotScaleRight(m.r2, a, factor);
    DotScaleRight(m.r3, a, factor);
  }

  lemma DotAddRight(r: Tuple, a: Tuple, b: Tuple)
    ensures Dot(r, Add(a, b)) == Dot(r, a) + Dot(r, b)
  {
  }

  lemma DotScaleRight(r: Tuple, a: Tuple, factor: real)
    ensures Dot(r, Scale(a, factor)) == Dot(r, a) * factor
  {
  }

  /** The identity leaves every tuple unchanged. */
  lemma ApplyIdentity(t: Tuple)
    ensures Apply(Identity, t) == t
  {
  }

  /** The identity is neutral on both sides of the product. */
  lemma ProductIdentity(m: Matrix4)
    ensures Product(Identity, m) == m
    ensures Product(m, Identity) == m
  {
  }

  lemma IdentityIsAffine()
    ensures IsAffine(Identity)
  {
  }

  lemma TransposeInvolutive(m: Matrix4)
    ensures Transpose(Transpose(m)) == m
  {
  }

  /** The unit tests' worked examples of construction and indexing. */
  lemma New2Example()
    ensures var m := New2(-3.0, 5.0, 1.0, -2.0); At2(m, 0, 1) == 5.0 && At2(m, 1, 1) == -2.0
  {
  }

  lemma New3Example()
    ensures var m := New3(-3.0, 5.0, 0.0, 1.0, -2.0, -7.0, 0.0, 1.0, 1.0); At3(m, 1, 1) == -2.0
  {
  }
}
