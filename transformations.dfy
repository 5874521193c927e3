/** The affine transformation matrices (src/transformations.rs). Each constructor is a 4x4
    matrix literal whose last row is (0, 0, 0, 1). The rotations take the sine and cosine
    functions as parameters: only their values at the angle enter the matrix. */
module Transformations {
  import opened Tuples
  import opened Matrices

  /** `translation(x, y, z)`. */
  function Translation(x: real, y: real, z: real): (m: Matrix4)
    ensures IsAffine(m)
  {
    Matrix4(Tuple(1.0, 0.0, 0.0, x),
            Tuple(0.0, 1.0, 0.0, y),
            Tuple(0.0, 0.0, 1.0, z),
            Tuple(0.0, 0.0, 0.0, 1.0))
  }

  /** `scaling(x, y, z)`. */
  function Scaling(x: real, y: real, z: real): (m: Matrix4)
    ensures IsAffine(m)
  {
    Matrix4(Tuple(x, 0.0, 0.0, 0.0),
            Tuple(0.0, y, 0.0, 0.0),
            Tuple(0.0, 0.0, z, 0.0),
            Tuple(0.0, 0.0, 0.0, 1.0))
  }

  /** `rotation_x(r)`: a rotation about the x axis. */
  function RotationX(r: real, sin: real -> real, cos: real -> real): (m: Matrix4)
    ensures IsAffine(m)
  {
    Matrix4(Tuple(1.0, 0.0, 0.0, 0.0),
            Tuple(0.0, cos(r), -sin(r), 0.0),
            Tuple(0.0, sin(r), cos(r), 0.0),
            Tuple(0.0, 0.0, 0.0, 1.0))
  }

  /** `rotation_y(r)`: a rotation about the y axis. */
  function RotationY(r: real, sin: real -> real, cos: real -> real): (m: Matrix4)
    ensures IsAffine(m)
  {
    Matrix4(Tuple(cos(r), 0.0, sin(r), 0.0),
            Tuple(0.0, 1.0, 0.0, 0.0),
            Tuple(-sin(r), 0.0, cos(r), 0.0),
            Tuple(0.0, 0.0, 0.0, 1.0))
  }

  /** `rotation_z(r)`: a rotation about the z axis. */
  function RotationZ(r: real, sin: real -> real, cos: real -> real): (m: Matrix4)
    ensures IsAffine(m)
  {
    Matrix4(Tuple(cos(r), -sin(r), 0.0, 0.0),
            Tuple(sin(r), cos(r), 0.0, 0.0),
            Tuple(0.0, 0.0, 1.0, 0.0),
            Tuple(0.0, 0.0, 0.0, 1.0))
  }

  /** `shearing(x_y, x_z, y_x, y_z, z_x, z_y)`: each coordinate moves in proportion to the
      other two. */
  function Shearing(xy: real, xz: real, yx: real, yz: real, zx: real, zy: real): (m: Matrix4)
    ensures IsAffine(m)
  {
    Matrix4(Tuple(1.0, xy, xz, 0.0),
            Tuple(yx, 1.0, yz, 0.0),
            Tuple(zx, zy, 1.0, 0.0),
            Tuple(0.0, 0.0, 0.0, 1.0))
  }

  // ---------------------------------------------------------------------------------------------
  // What each transformation does to a tuple

  /** A translation adds (x, y, z) scaled by w: a point moves, a vector does not. */
  lemma TranslationApply(x: real, y: real, z: real, t: Tuple)
    ensures Apply(Translation(x, y, z), t) == Tuple(t.x + x * t.w, t.y + y * t.w, t.z + z * t.w, t.w)
  {
  }

  lemma TranslationMovesPoints(x: real, y: real, z: real, p: Tuple)
    requires IsPoint(p)
    ensures Apply(Translation(x, y, z), p) == Point(p.x + x, p.y + y, p.z + z)
  {
    TranslationApply(x, y, z, p);
  }

  lemma TranslationFixesVectors(x: real, y: real, z: real, v: Tuple)
    requires IsVector(v)
    ensures Apply(Translation(x, y, z), v) == v
  {
    TranslationApply(x, y, z, v);
  }

  /** Translating by the opposite offset undoes a translation. */
  lemma TranslationUndone(x: real, y: real, z: real, t: Tuple)
    ensures Apply(Translation(-x, -y, -z), Apply(Translation(x, y, z), t)) == t
  {
    TranslationApply(x, y, z, t);
    TranslationApply(-x, -y, -z, Apply(Translation(x, y, z), t));
  }

  /** Scaling multiplies x, y and z by the factors and leaves w alone. */
  lemma ScalingApply(x: real, y: real, z: real, t: Tuple)
    ensures Apply(Scaling(x, y, z), t) == Tuple(x * t.x, y * t.y, z * t.z, t.w)
  {
  }

  /** Scaling by -1 along x reflects across the plane x = 0. */
  lemma ReflectionAcrossX(t: Tuple)
    ensures Apply(Scaling(-1.0, 1.0, 1.0), t) == Tuple(-t.x, t.y, t.z, t.w)
  {
    ScalingApply(-1.0, 1.0, 1.0, t);
  }

  /** Scaling by the reciprocal factors undoes a scaling with non-zero factors. */
  lemma ScalingUndone(x: real, y: real, z: real, t: Tuple)
    requires x != 0.0 && y != 0.0 && z != 0.0
    ensures Apply(Scaling(1.0 / x, 1.0 / y, 1.0 / z), Apply(Scaling(x, y, z), t)) == t
  {
    ScalingApply(x, y, z, t);
    ScalingApply(1.0 / x, 1.0 / y, 1.0 / z, Apply(Scaling(x, y, z), t));
    ReciprocalCancels(x, t.x);
    ReciprocalCancels(y, t.y);
    ReciprocalCancels(z, t.z);
  }

  lemma ReciprocalCancels(f: real, u: real)
    requires f != 0.0
    ensures 1.0 / f * (f * u) == u
  {
    assert 1.0 / f * f == 1.0;
  }

  /** Shearing: x' = x + x_y*y + x_z*z, y' = y + y_x*x + y_z*z, z' = z + z_x*x + z_y*y. */
  lemma ShearingApply(xy: real, xz: real, yx: real, yz: real, zx: real, zy: real, t: Tuple)
    ensures Apply(Shearing(xy, xz, yx, yz, zx, zy), t) ==
            Tuple(t.x + xy * t.y + xz * t.z, yx * t.x + t.y + yz * t.z, zx * t.x + zy * t.y + t.z, t.w)
  {
  }

  /** A rotation about x keeps x and w and turns (y, z) by the angle. */
  lemma RotationXApply(r: real, sin: real -> real, cos: real -> real, t: Tuple)
    ensures Apply(RotationX(r, sin, cos), t) ==
            Tuple(t.x, cos(r) * t.y - sin(r) * t.z, sin(r) * t.y + cos(r) * t.z, t.w)
  {
  }

  /** A rotation about y keeps y and w and turns (z, x) by the angle. */
  lemma RotationYApply(r: real, sin: real -> real, cos: real -> real, t: Tuple)
    ensures Apply(RotationY(r, sin, cos), t) ==
            Tuple(cos(r) * t.x + sin(r) * t.z, t.y, -sin(r) * t.x + cos(r) * t.z, t.w)
  {
  }

  /** A rotation about z keeps z and w and turns (x, y) by the angle. */
  lemma RotationZApply(r: real, sin: real -> real, cos: real -> real, t: Tuple)
    ensures Apply(RotationZ(r, sin, cos), t) ==
            Tuple(cos(r) * t.x - sin(r) * t.y, sin(r) * t.x + cos(r) * t.y, t.z, t.w)
  {
  }

  /** A chain of transformations C * B * A, as the source writes it, applies A first. */
  lemma ChainAppliesRightToLeft(c: Matrix4, b: Matrix4, a: Matrix4, t: Tuple)
    ensures Apply(Product(Product(c, b), a), t) == Apply(c, Apply(b, Apply(a, t)))
  {
    ApplyProduct(Product(c, b), a, t);
    ApplyProduct(c, b, Apply(a, t));
  }

  /** Any chain of the constructors above is affine, so it maps points to points and vectors
      to vectors. */
  lemma ChainKeepsKind(c: Matrix4, b: Matrix4, a: Matrix4, t: Tuple)
    requires IsAffine(a) && IsAffine(b) && IsAffine(c)
    ensures IsPoint(t) ==> IsPoint(Apply(Product(Product(c, b), a), t))
    ensures IsVector(t) ==> IsVector(Apply(Product(Product(c, b), a), t))
  {
    ApplyAffine(Product(Product(c, b), a), t);
  }

  /** The unit test's worked chain: rotate a quarter turn about x (given as its sine 1 and
      cosine 0), scale by 5, then translate by (10, 5, 7): the point (1, 0, 1) ends at (15, 0, 7). */
  lemma ChainExample(sin: real -> real, cos: real -> real, quarter: real)
    requires sin(quarter) == 1.0 && cos(quarter) == 0.0
    ensures Apply(Product(Product(Translation(10.0, 5.0, 7.0), Scaling(5.0, 5.0, 5.0)), RotationX(quarter, sin, cos)),
                  Point(1.0, 0.0, 1.0)) == Point(15.0, 0.0, 7.0)
  {
    var p := Point(1.0, 0.0, 1.0);
    ChainAppliesRightToLeft(Translation(10.0, 5.0, 7.0), Scaling(5.0, 5.0, 5.0), RotationX(quarter, sin, cos), p);
    RotationXApply(quarter, sin, cos, p);
    ScalingApply(5.0, 5.0, 5.0, Point(1.0, -1.0, 0.0));
    TranslationApply(10.0, 5.0, 7.0, Point(5.0, -5.0, 0.0));
  }
}
