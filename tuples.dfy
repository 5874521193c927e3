/** Homogeneous 4-tuples (src/tuples.rs). Points carry w = 1, vectors and colours w = 0;
    every operator works componentwise on all four coordinates, so the w-coordinate does the
    bookkeeping of what kind of tuple a result is. */
module Tuples {
  import opened Numerics

  /** `Tuple::new(x, y, z, w)`; Point, Vector and Color are aliases of it in the source. */
  datatype Tuple = Tuple(x: real, y: real, z: real, w: real)

  predicate IsPoint(t: Tuple) { t.w == 1.0 }

  predicate IsVector(t: Tuple) { t.w == 0.0 }

  /** `Tuple::point`. */
  function Point(x: real, y: real, z: real): (p: Tuple)
    ensures IsPoint(p) && !IsVector(p)
    ensures p.x == x && p.y == y && p.z == z
  {
    Tuple(x, y, z, 1.0)
  }

  /** `Tuple::vector`. */
  function Vector(x: real, y: real, z: real): (v: Tuple)
    ensures IsVector(v) && !IsPoint(v)
    ensures v.x == x && v.y == y && v.z == z
  {
    Tuple(x, y, z, 0.0)
  }

  /** `Tuple::color`: red, green and blue in x, y and z, with w = 0. */
  function Color(red: real, green: real, blue: real): (c: Tuple)
    ensures IsVector(c)
    ensures Red(c) == red && Green(c) == green && Blue(c) == blue
  {
    Tuple(red, green, blue, 0.0)
  }

  function Red(c: Tuple): real { c.x }

  function Green(c: Tuple): real { c.y }

  function Blue(c: Tuple): real { c.z }

  /** The colour black (the source's `Color::BLACK`), which is also the zero tuple. */
  const Black: Tuple := Tuple(0.0, 0.0, 0.0, 0.0)

  /** `impl Add for Tuple`. */
  function Add(a: Tuple, b: Tuple): (r: Tuple)
    ensures IsPoint(a) && IsVector(b) ==> IsPoint(r)
    ensures IsVector(a) && IsPoint(b) ==> IsPoint(r)
    ensures IsVector(a) && IsVector(b) ==> IsVector(r)
  {
    Tuple(a.x + b.x, a.y + b.y, a.z + b.z, a.w + b.w)
  }

  /** `impl Sub for Tuple`. */
  function Sub(a: Tuple, b: Tuple): (r: Tuple)
    ensures IsPoint(a) && IsPoint(b) ==> IsVector(r)
    ensures IsPoint(a) && IsVector(b) ==> IsPoint(r)
    ensures IsVector(a) && IsVector(b) ==> IsVector(r)
  {
    Tuple(a.x - b.x, a.y - b.y, a.z - b.z, a.w - b.w)
  }

  /** `impl Neg for Tuple`. */
  function Neg(a: Tuple): (r: Tuple)
    ensures IsVector(a) <==> IsVector(r)
    ensures Add(a, r) == Black
  {
    Tuple(-a.x, -a.y, -a.z, -a.w)
  }

  /** `impl Mul<f32> for Tuple`: scaling by a factor. */
  function Scale(a: Tuple, factor: real): Tuple
  {
    Tuple(a.x * factor, a.y * factor, a.z * factor, a.w * factor)
  }

  /** `impl Mul<Tuple> for Tuple`: the componentwise (Hadamard) product, used to blend colours. */
  function Hadamard(a: Tuple, b: Tuple): Tuple
  {
    Tuple(a.x * b.x, a.y * b.y, a.z * b.z, a.w * b.w)
  }

  /** `impl Div<f32> for Tuple`. A zero factor gives the zero tuple (see Quot). */
  function Div(a: Tuple, factor: real): Tuple
  {
    Tuple(Quot(a.x, factor), Quot(a.y, factor), Quot(a.z, factor), Quot(a.w, factor))
  }

  /** `Tuple::dot`: the four-term sum of products. */
  function Dot(a: Tuple, b: Tuple): real
  {
    a.x * b.x + a.y * b.y + a.z * b.z + a.w * b.w
  }

  /** `Tuple::cross`: always a vector, orthogonal to both operands' x, y, z parts. */
  function Cross(a: Tuple, b: Tuple): (r: Tuple)
    ensures IsVector(r)
    ensures IsVector(a) ==> Dot(a, r) == 0.0
    ensures IsVector(b) ==> Dot(b, r) == 0.0
  {
    Vector(a.y * b.z - a.z * b.y, a.z * b.x - a.x * b.z, a.x * b.y - a.y * b.x)
  }

  /** `Tuple::magnitude`, with the square root passed in. */
  function Magnitude(sqrt: real -> real, a: Tuple): real
  {
    sqrt(Dot(a, a))
  }

  /** `Tuple::normalize`: every component divided by the magnitude. */
  function Normalize(sqrt: real -> real, a: Tuple): (r: Tuple)
    ensures IsVector(a) ==> IsVector(r)
  {
    DivProperties(a, Magnitude(sqrt, a));
    Div(a, Magnitude(sqrt, a))
  }

  /** The approx crate's default epsilon for f32, which is `f32::EPSILON`. */
  const DefaultEpsilon: real := F32Epsilon

  /** `AbsDiffEq::abs_diff_eq`: every component within epsilon of the other's. */
  predicate AbsDiffEq(a: Tuple, b: Tuple, epsilon: real)
  {
    Abs(a.x - b.x) <= epsilon && Abs(a.y - b.y) <= epsilon &&
    Abs(a.z - b.z) <= epsilon && Abs(a.w - b.w) <= epsilon
  }

  // ---------------------------------------------------------------------------------------------
  // Properties relating the operators

  /** Scaling keeps vectors vectors; factor 1 changes nothing and factor 0 gives zero. */
  lemma ScaleProperties(a: Tuple, factor: real)
    ensures IsVector(a) ==> IsVector(Scale(a, factor))
    ensures factor == 1.0 ==> Scale(a, factor) == a
    ensures factor == 0.0 ==> Scale(a, factor) == Black
  {
  }

  /** The Hadamard product with a vector (or colour) is one; all-ones is its unit. */
  lemma HadamardProperties(a: Tuple, b: Tuple)
    ensures IsVector(a) || IsVector(b) ==> IsVector(Hadamard(a, b))
    ensures b == Tuple(1.0, 1.0, 1.0, 1.0) ==> Hadamard(a, b) == a
  {
  }

  /** Division keeps vectors vectors, and a non-zero factor scales the quotient back. */
  lemma DivProperties(a: Tuple, factor: real)
    ensures IsVector(a) ==> IsVector(Div(a, factor))
    ensures factor != 0.0 ==> Scale(Div(a, factor), factor) == a
  {
  }

  lemma SubIsAddNeg(a: Tuple, b: Tuple)
    ensures Sub(a, b) == Add(a, Neg(b))
  {
  }

  /** Adding and then subtracting the same tuple gives back the start. */
  lemma AddSubRoundTrip(a: Tuple, b: Tuple)
    ensures Sub(Add(a, b), b) == a
    ensures Add(Sub(a, b), b) == a
  {
  }

  lemma NegInvolutive(a: Tuple)
    ensures Neg(Neg(a)) == a
  {
  }

  /** Subtracting from the zero vector negates. */
  lemma ZeroMinus(v: Tuple)
    ensures Sub(Black, v) == Neg(v)
  {
  }

  lemma ScaleDivRoundTrip(a: Tuple, factor: real)
    requires factor != 0.0
    ensures Div(Scale(a, factor), factor) == a
  {
    var s := Scale(a, factor);
    var d := Div(s, factor);
    DivProperties(s, factor);
    ProductCancels(d.x, a.x, factor);
    ProductCancels(d.y, a.y, factor);
    ProductCancels(d.z, a.z, factor);
    ProductCancels(d.w, a.w, factor);
  }

  lemma ProductCancels(u: real, v: real, f: real)
    requires f != 0.0 && u * f == v * f
    ensures u == v
  {
    assert (u - v) * f == 0.0;
  }

  /** A tuple dotted with itself is a sum of squares. */
  lemma DotSelfNonNegative(a: Tuple)
    ensures Dot(a, a) >= 0.0
  {
  }

  /** Dot is additive in its first argument. */
  lemma DotAdd(a: Tuple, b: Tuple, c: Tuple)
    ensures Dot(Add(a, b), c) == Dot(a, c) + Dot(b, c)
  {
  }

  /** Negating one side negates the dot product. */
  lemma DotNegLeft(a: Tuple, b: Tuple)
    ensures Dot(Neg(a), b) == -Dot(a, b)
  {
  }

  lemma DotSymmetric(a: Tuple, b: Tuple)
    ensures Dot(a, b) == Dot(b, a)
  {
  }

  lemma CrossAntiCommutative(a: Tuple, b: Tuple)
    ensures Cross(a, b) == Neg(Cross(b, a))
  {
  }

  lemma HadamardCommutative(a: Tuple, b: Tuple)
    ensures Hadamard(a, b) == Hadamard(b, a)
  {
  }

  /** abs_diff_eq is an equivalence of tolerance zero with equality, reflexive and symmetric. */
  lemma AbsDiffEqProperties(a: Tuple, b: Tuple, epsilon: real)
    ensures epsilon >= 0.0 ==> AbsDiffEq(a, a, epsilon)
    ensures AbsDiffEq(a, b, epsilon) <==> AbsDiffEq(b, a, epsilon)
    ensures AbsDiffEq(a, b, 0.0) <==> a == b
  {
    assert Abs(a.x - b.x) == Abs(b.x - a.x);
    assert Abs(a.y - b.y) == Abs(b.y - a.y);
    assert Abs(a.z - b.z) == Abs(b.z - a.z);
    assert Abs(a.w - b.w) == Abs(b.w - a.w);
  }

  // ---------------------------------------------------------------------------------------------
  // The worked examples of the unit tests

  lemma DotExample()
    ensures Dot(Vector(1.0, 2.0, 3.0), Vector(2.0, 3.0, 4.0)) == 20.0
  {
  }

  lemma HadamardExample()
    ensures Hadamard(Color(1.0, 0.2, 0.4), Color(0.9, 1.0, 0.1)) == Color(0.9, 0.2, 0.04)
  {
  }
}
