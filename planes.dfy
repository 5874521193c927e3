/** The plane y = 0 in its own object space (src/shapes/planes.rs and its older form
    src/planes.rs). A ray whose direction has a y-component below f64's epsilon in magnitude
    runs parallel to the plane (or within it) and meets it nowhere. */
module Planes {
  import opened Numerics
  import opened Tuples
  import opened Rays
  import opened Intersections

  /** `Plane::local_intersect` of src/shapes/planes.rs: the distances at which the ray meets
      the plane. */
  function PlaneRoots(ray: Ray): (ts: seq<real>)
    ensures |ts| <= 1
    ensures |ts| == 0 <==> Abs(ray.direction.y) < F64Epsilon
    ensures |ts| == 1 ==> Position(ray, ts[0]).y == 0.0
  {
    if Abs(ray.direction.y) < F64Epsilon then
      []
    else
      var t := -ray.origin.y / ray.direction.y;
      assert t * ray.direction.y == -ray.origin.y;
      [t]
  }

  /** `Plane::local_intersect` of src/planes.rs, which wraps each root with the plane itself. */
  function PlaneIntersections<O>(ray: Ray, plane: O): (xs: seq<Intersection<O>>)
    ensures |xs| == |PlaneRoots(ray)|
    ensures forall i :: 0 <= i < |xs| ==> xs[i].t == PlaneRoots(ray)[i] && xs[i].obj == plane
  {
    if Abs(ray.direction.y) < F64Epsilon then
      []
    else
      [Intersection(-ray.origin.y / ray.direction.y, plane)]
  }

  /** `Plane::local_normal_at`: straight up, wherever the point is. */
  function PlaneLocalNormal(p: Tuple): (n: Tuple)
    ensures IsVector(n) && n.x == 0.0 && n.y == 1.0 && n.z == 0.0
  {
    Vector(0.0, 1.0, 0.0)
  }

  // ---------------------------------------------------------------------------------------------
  // Properties

  /** A ray that is not parallel to the plane meets it exactly once, and the root is the
      unique distance at which the ray's height is zero. */
  lemma PlaneRootIsUnique(ray: Ray, t: real)
    requires Abs(ray.direction.y) >= F64Epsilon
    ensures Position(ray, t).y == 0.0 <==> PlaneRoots(ray) == [t]
  {
    var d := ray.direction.y;
    assert d != 0.0;
    if Position(ray, t).y == 0.0 {
      assert t * d == -ray.origin.y;
      assert PlaneRoots(ray)[0] * d == -ray.origin.y;
      CancelFactor(t, PlaneRoots(ray)[0], d);
    }
  }

  lemma CancelFactor(u: real, v: real, f: real)
    requires f != 0.0 && u * f == v * f
    ensures u == v
  {
    assert (u - v) * f == 0.0;
  }

  /** A ray whose origin is as far from the plane as its direction is long in y, pointing
      towards the plane, meets it at t = 1: the unit tests' rays from (0, 1, 0) downwards and
      from (0, -1, 0) upwards. */
  lemma UnitDistanceRoot(ray: Ray)
    requires ray.origin.y == -ray.direction.y && Abs(ray.direction.y) >= F64Epsilon
    ensures PlaneRoots(ray) == [1.0]
  {
    PlaneRootIsUnique(ray, 1.0);
  }

  /** Rays in direction (0, 0, 1), parallel to the plane whether above it or within it, miss. */
  lemma ParallelRaysMiss(origin: Tuple)
    ensures PlaneRoots(Ray(origin, Vector(0.0, 0.0, 1.0))) == []
  {
  }
}
