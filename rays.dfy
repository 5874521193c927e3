/** Rays (src/rays.rs): an origin point and a direction vector. */
module Rays {
  import opened Tuples
  import opened Matrices

  /** `Ray { origin, direction }`; `Ray::new` stores both unchanged. */
  datatype Ray = Ray(origin: Tuple, direction: Tuple)

  /** `Ray::position`: the point reached after travelling t units of the direction. */
  function Position(ray: Ray, t: real): (p: Tuple)
    ensures IsPoint(ray.origin) && IsVector(ray.direction) ==> IsPoint(p)
    ensures t == 0.0 ==> p == ray.origin
  {
    ScaleProperties(ray.direction, t);
    Add(ray.origin, Scale(ray.direction, t))
  }

  /** The ray seen through the matrix m: origin and direction both multiplied by m. The source
      calls `Ray::transform` without defining it in these files; this is its usual meaning. */
  function Transform(ray: Ray, m: Matrix4): (r: Ray)
    ensures IsAffine(m) && IsPoint(ray.origin) ==> IsPoint(r.origin)
    ensures IsAffine(m) && IsVector(ray.direction) ==> IsVector(r.direction)
  {
    ApplyAffineKind(m, ray.origin);
    ApplyAffineKind(m, ray.direction);
    Ray(Apply(m, ray.origin), Apply(m, ray.direction))
  }

  lemma ApplyAffineKind(m: Matrix4, t: Tuple)
    ensures IsAffine(m) && IsPoint(t) ==> IsPoint(Apply(m, t))
    ensures IsAffine(m) && IsVector(t) ==> IsVector(Apply(m, t))
  {
    if IsAffine(m) {
      ApplyAffine(m, t);
    }
  }

  // ---------------------------------------------------------------------------------------------
  // Properties

  /** Along the x axis, position(t) moves x by exactly t, for negative and fractional t too. */
  lemma PositionAlongX(ray: Ray, t: real)
    requires ray.direction == Vector(1.0, 0.0, 0.0)
    ensures Position(ray, t) == Tuple(ray.origin.x + t, ray.origin.y, ray.origin.z, ray.origin.w)
  {
  }

  /** The unit test's ray from (2, 3, 4) in direction (1, 0, 0) reaches (2 + t, 3, 4); the
      test checks t = 0, 1, -1 and 2.5. */
  lemma PositionExample(t: real)
    ensures Position(Ray(Point(2.0, 3.0, 4.0), Vector(1.0, 0.0, 0.0)), t) == Point(2.0 + t, 3.0, 4.0)
  {
    PositionAlongX(Ray(Point(2.0, 3.0, 4.0), Vector(1.0, 0.0, 0.0)), t);
  }

  /** Transforming a ray and then travelling along it reaches the transformed position: the
      matrix commutes with `position`. */
  lemma TransformPosition(ray: Ray, m: Matrix4, t: real)
    ensures Position(Transform(ray, m), t) == Apply(m, Position(ray, t))
  {
    ApplyAdd(m, ray.origin, Scale(ray.direction, t));
    ApplyScale(m, ray.direction, t);
  }
}
