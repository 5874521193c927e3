/** Shapes (src/shapes.rs, src/spheres.rs): a geometry in object space placed in the world by a
    transformation, whose inverse is cached, and painted with a material. The source has a
    `Sphere` struct and a `Shape` trait with a `BaseShape` record; here one class carries the
    shared state and a datatype says which geometry it is. Objects are compared by reference,
    as `ptr::eq` does in the source. */
module Shapes {
  import opened Numerics
  import opened Tuples
  import opened Matrices
  import opened Rays
  import opened Intersections
  import opened Materials
  import opened Spheres
  import opened Planes

  datatype Geometry = SphereGeometry | PlaneGeometry

  /** `local_intersect`: the distances along an object-space ray at which it meets the
      geometry. */
  function LocalRoots(g: Geometry, sqrt: real -> real, ray: Ray): seq<real>
  {
    match g
    case SphereGeometry => SphereRoots(sqrt, ray)
    case PlaneGeometry => PlaneRoots(ray)
  }

  /** `local_normal_at`: the geometry's normal at an object-space point. */
  function LocalNormal(g: Geometry, p: Tuple): (n: Tuple)
    ensures IsPoint(p) ==> IsVector(n)
  {
    match g
    case SphereGeometry => SphereLocalNormal(p)
    case PlaneGeometry => PlaneLocalNormal(p)
  }

  /** `normal_at`: the point is taken into object space by the inverse transform, the local
      normal is taken back by the inverse's transpose, its w is set to 0 and it is normalized. */
  function WorldNormal(sqrt: real -> real, g: Geometry, inverse: Matrix4, p: Tuple): (n: Tuple)
    ensures IsVector(n)
  {
    var wn := Apply(Transpose(inverse), LocalNormal(g, Apply(inverse, p)));
    Normalize(sqrt, Tuple(wn.x, wn.y, wn.z, 0.0))
  }

  /** Each distance paired with the object it belongs to. */
  function WithObject<O>(ts: seq<real>, obj: O): (xs: seq<Intersection<O>>)
    ensures |xs| == |ts|
    ensures forall i :: 0 <= i < |xs| ==> xs[i] == Intersection(ts[i], obj)
  {
    if ts == [] then [] else [Intersection(ts[0], obj)] + WithObject(ts[1..], obj)
  }

  class Shape {
    const geometry: Geometry
    var transform: Matrix4
    var inversedTransform: Matrix4
    var material: Material

    /** `BaseShape::new` and `Sphere::new`: identity transform and inverse, default material. */
    constructor (geometry: Geometry)
      ensures this.geometry == geometry
      ensures transform == Identity && inversedTransform == Identity
      ensures material == DefaultMaterial
    {
      this.geometry := geometry;
      transform := Identity;
      inversedTransform := Identity;
      material := DefaultMaterial;
    }

    /** `set_transform`: stores the transform and caches its inverse; the material stays. */
    method SetTransform(t: Matrix4, inverse: Matrix4 -> Matrix4)
      modifies this
      ensures transform == t && inversedTransform == inverse(t)
      ensures material == old(material)
    {
      transform := t;
      inversedTransform := inverse(t);
    }

    /** `set_material`: stores the material; the transform and its inverse stay. */
    method SetMaterial(m: Material)
      modifies this
      ensures material == m
      ensures transform == old(transform) && inversedTransform == old(inversedTransform)
    {
      material := m;
    }

    /** `intersect`: the ray is taken into object space with the cached inverse and the local
        intersections are returned as they are, each one referring to this object. */
    function Intersect(sqrt: real -> real, ray: Ray): (xs: seq<Intersection<Shape>>)
      reads this
      ensures var ts := LocalRoots(geometry, sqrt, Transform(ray, inversedTransform));
        |xs| == |ts| && forall i :: 0 <= i < |xs| ==> xs[i].t == ts[i] && xs[i].obj == this
    {
      WithObject(LocalRoots(geometry, sqrt, Transform(ray, inversedTransform)), this)
    }

    /** `normal_at` for this object. */
    function NormalAt(sqrt: real -> real, p: Tuple): (n: Tuple)
      reads this
      ensures IsVector(n)
    {
      WorldNormal(sqrt, geometry, inversedTransform, p)
    }
  }

  // ---------------------------------------------------------------------------------------------
  // Properties

  /** A sphere gives no intersections when the object-space discriminant is negative and
      otherwise exactly two, both referring to the sphere. */
  lemma SphereIntersectCount(s: Shape, sqrt: real -> real, ray: Ray)
    requires s.geometry == SphereGeometry
    ensures var local := Transform(ray, s.inversedTransform);
      (|s.Intersect(sqrt, ray)| == 0 <==> Discriminant(local) < 0.0) &&
      (|s.Intersect(sqrt, ray)| == 0 || |s.Intersect(sqrt, ray)| == 2)
    ensures forall x :: x in s.Intersect(sqrt, ray) ==> x.obj == s
  {
  }

  /** Each distance a sphere reports reaches a world point that the inverse transform takes
      onto the unit sphere, for any transform and any ray that is not degenerate in object
      space. */
  lemma SphereHitsOnSurface(s: Shape, sqrt: real -> real, ray: Ray)
    requires s.geometry == SphereGeometry && IsSqrt(sqrt)
    requires QuadA(Transform(ray, s.inversedTransform)) != 0.0
    ensures forall x :: x in s.Intersect(sqrt, ray) ==>
      var v := Sub(Apply(s.inversedTransform, Position(ray, x.t)), Point(0.0, 0.0, 0.0));
      Dot(v, v) == 1.0
  {
    var local := Transform(ray, s.inversedTransform);
    RootsOnUnitSphere(sqrt, local);
    forall x | x in s.Intersect(sqrt, ray)
      ensures var v := Sub(Apply(s.inversedTransform, Position(ray, x.t)), Point(0.0, 0.0, 0.0));
        Dot(v, v) == 1.0
    {
      TransformPosition(ray, s.inversedTransform, x.t);
    }
  }

  /** A plane gives at most one intersection, none for a ray parallel to it in object space,
      and its one distance reaches a world point that the inverse transform takes onto y = 0. */
  lemma PlaneIntersectProperties(s: Shape, sqrt: real -> real, ray: Ray)
    requires s.geometry == PlaneGeometry
    ensures |s.Intersect(sqrt, ray)| <= 1
    ensures |s.Intersect(sqrt, ray)| == 0 <==>
            Abs(Transform(ray, s.inversedTransform).direction.y) < F64Epsilon
    ensures forall x :: x in s.Intersect(sqrt, ray) ==>
            x.obj == s && Apply(s.inversedTransform, Position(ray, x.t)).y == 0.0
  {
    forall x | x in s.Intersect(sqrt, ray)
      ensures x.obj == s && Apply(s.inversedTransform, Position(ray, x.t)).y == 0.0
    {
      TransformPosition(ray, s.inversedTransform, x.t);
    }
  }

  /** Without a transformation the world normal is the normalized local normal. */
  lemma IdentityWorldNormal(sqrt: real -> real, g: Geometry, p: Tuple)
    requires IsVector(LocalNormal(g, p))
    ensures WorldNormal(sqrt, g, Identity, p) == Normalize(sqrt, LocalNormal(g, p))
  {
    ApplyIdentity(p);
    TransposeIdentity();
    ApplyIdentity(LocalNormal(g, p));
  }

  /** For the untransformed unit sphere the normal at a point on its surface is the vector from
      the centre to that point (the unit tests' points on the axes and at (1, 1, 1)/sqrt(3)). */
  lemma UnitSphereNormal(sqrt: real -> real, p: Tuple)
    requires IsSqrt(sqrt) && IsPoint(p)
    requires var v := Sub(p, Point(0.0, 0.0, 0.0)); Dot(v, v) == 1.0
    ensures WorldNormal(sqrt, SphereGeometry, Identity, p) == Sub(p, Point(0.0, 0.0, 0.0))
  {
    IdentityWorldNormal(sqrt, SphereGeometry, p);
    UnitNormalize(sqrt, Sub(p, Point(0.0, 0.0, 0.0)));
  }

  /** The untransformed plane's normal is (0, 1, 0) at every point. */
  lemma UnitPlaneNormal(sqrt: real -> real, p: Tuple)
    requires IsSqrt(sqrt)
    ensures WorldNormal(sqrt, PlaneGeometry, Identity, p) == Vector(0.0, 1.0, 0.0)
  {
    IdentityWorldNormal(sqrt, PlaneGeometry, p);
    UnitNormalize(sqrt, LocalNormal(PlaneGeometry, p));
  }

  lemma TransposeIdentity()
    ensures Transpose(Identity) == Identity
  {
    EqualEntries(Transpose(Identity), Identity);
  }

  /** Normalizing a vector of length one leaves it unchanged. */
  lemma UnitNormalize(sqrt: real -> real, v: Tuple)
    requires IsSqrt(sqrt) && IsVector(v) && Dot(v, v) == 1.0
    ensures Normalize(sqrt, v) == v
  {
    SqrtOfSquare(sqrt, 1.0);
    assert Magnitude(sqrt, v) == 1.0;
  }
}
