/** The unit sphere at the origin in its own object space (src/spheres.rs): the quadratic that
    intersects it with a ray, and its surface normal. The square root is a parameter; lemmas
    that need its meaning require IsSqrt. */
module Spheres {
  import opened Numerics
  import opened Tuples
  import opened Rays

  /** The vector from the sphere's centre to the ray's origin. */
  function SphereToRay(ray: Ray): Tuple
  {
    Sub(ray.origin, Point(0.0, 0.0, 0.0))
  }

  /** The coefficients a, b and c of a*t^2 + b*t + c = 0, whose roots are the distances along
      the ray at which it meets the sphere. */
  function QuadA(ray: Ray): real
  {
    Dot(ray.direction, ray.direction)
  }

  function QuadB(ray: Ray): real
  {
    2.0 * Dot(ray.direction, SphereToRay(ray))
  }

  function QuadC(ray: Ray): real
  {
    Dot(SphereToRay(ray), SphereToRay(ray)) - 1.0
  }

  function Discriminant(ray: Ray): real
  {
    QuadB(ray) * QuadB(ray) - 4.0 * QuadA(ray) * QuadC(ray)
  }

  /** The t values of `Sphere::intersect` for a ray already in object space: none when the
      discriminant is negative, otherwise the two roots of the quadratic, smaller first. A
      zero direction makes the source divide by zero; Quot gives 0 there. */
  function SphereRoots(sqrt: real -> real, ray: Ray): (ts: seq<real>)
    ensures |ts| == 0 <==> Discriminant(ray) < 0.0
    ensures |ts| == 0 || |ts| == 2
  {
    var a, b, disc := QuadA(ray), QuadB(ray), Discriminant(ray);
    if disc < 0.0 then
      []
    else
      [Quot(-b - sqrt(disc), 2.0 * a), Quot(-b + sqrt(disc), 2.0 * a)]
  }

  /** The sphere's normal in object space at p: the vector from the centre to p. */
  function SphereLocalNormal(p: Tuple): (n: Tuple)
    ensures IsPoint(p) ==> IsVector(n)
  {
    Sub(p, Point(0.0, 0.0, 0.0))
  }

  // ---------------------------------------------------------------------------------------------
  // Properties

  /** Each root solves the quadratic. */
  lemma RootsSolveQuadratic(sqrt: real -> real, ray: Ray)
    requires IsSqrt(sqrt) && QuadA(ray) != 0.0
    ensures forall t :: t in SphereRoots(sqrt, ray) ==>
              QuadA(ray) * t * t + QuadB(ray) * t + QuadC(ray) == 0.0
  {
    var a, b, c, disc := QuadA(ray), QuadB(ray), QuadC(ray), Discriminant(ray);
    if disc >= 0.0 {
      var s := sqrt(disc);
      assert s * s == b * b - 4.0 * a * c;
      QuadraticRoot(a, b, c, -s, Quot(-b - s, 2.0 * a));
      QuadraticRoot(a, b, c, s, Quot(-b + s, 2.0 * a));
    }
  }

  /** If s^2 is the discriminant and 2at = -b + s, then t is a root. */
  lemma QuadraticRoot(a: real, b: real, c: real, s: real, t: real)
    requires a != 0.0 && s * s == b * b - 4.0 * a * c && t * (2.0 * a) == -b + s
    ensures a * t * t + b * t + c == 0.0
  {
    var u := 2.0 * a * t;
    assert u == s - b;
    assert 4.0 * a * (a * t * t + b * t + c) == u * u + 2.0 * b * u + 4.0 * a * c;
    assert u * u + 2.0 * b * u == s * s - b * b;
    NonZeroFactor(4.0 * a, a * t * t + b * t + c);
  }

  lemma NonZeroFactor(f: real, v: real)
    requires f != 0.0 && f * v == 0.0
    ensures v == 0.0
  {
  }

  /** Each root is a distance at which the ray is on the unit sphere: the point it reaches is
      at distance 1 from the centre. */
  lemma RootsOnUnitSphere(sqrt: real -> real, ray: Ray)
    requires IsSqrt(sqrt) && QuadA(ray) != 0.0
    ensures forall t :: t in SphereRoots(sqrt, ray) ==>
              var v := Sub(Position(ray, t), Point(0.0, 0.0, 0.0)); Dot(v, v) == 1.0
  {
    RootsSolveQuadratic(sqrt, ray);
    forall t | t in SphereRoots(sqrt, ray)
      ensures var v := Sub(Position(ray, t), Point(0.0, 0.0, 0.0)); Dot(v, v) == 1.0
    {
      DistanceAlongRay(ray, t);
    }
  }

  /** |origin + t*direction - centre|^2 == a*t^2 + b*t + c + 1. */
  lemma DistanceAlongRay(ray: Ray, t: real)
    ensures var v := Sub(Position(ray, t), Point(0.0, 0.0, 0.0));
      Dot(v, v) == QuadA(ray) * t * t + QuadB(ray) * t + QuadC(ray) + 1.0
  {
    var u, d := SphereToRay(ray), ray.direction;
    assert Sub(Position(ray, t), Point(0.0, 0.0, 0.0)) == Add(u, Scale(d, t));
    DotAddScale(u, d, t);
  }

  /** The square of u + t*d, expanded as a polynomial in t. */
  lemma DotAddScale(u: Tuple, d: Tuple, t: real)
    ensures Dot(Add(u, Scale(d, t)), Add(u, Scale(d, t))) ==
            Dot(d, d) * t * t + 2.0 * Dot(d, u) * t + Dot(u, u)
  {
    var tt := t * t;
    SquareExpand(u.x, d.x, t, tt);
    SquareExpand(u.y, d.y, t, tt);
    SquareExpand(u.z, d.z, t, tt);
    SquareExpand(u.w, d.w, t, tt);
    Distribute(d.x * d.x, d.y * d.y, d.z * d.z, d.w * d.w, tt);
    Distribute(d.x * u.x, d.y * u.y, d.z * u.z, d.w * u.w, t);
    assert Dot(d, d) * t * t == Dot(d, d) * tt;
  }

  lemma SquareExpand(u: real, d: real, t: real, tt: real)
    requires tt == t * t
    ensures (u + d * t) * (u + d * t) == d * d * tt + 2.0 * (d * u * t) + u * u
  {
  }

  lemma Distribute(p: real, q: real, r: real, s: real, k: real)
    ensures (p + q + r + s) * k == p * k + q * k + r * k + s * k
  {
  }

  /** For a non-zero direction the roots come smaller first, and coincide exactly when the
      ray grazes the sphere (a zero discriminant). */
  lemma RootsOrdered(sqrt: real -> real, ray: Ray)
    requires IsSqrt(sqrt) && QuadA(ray) > 0.0 && Discriminant(ray) >= 0.0
    ensures SphereRoots(sqrt, ray)[0] <= SphereRoots(sqrt, ray)[1]
    ensures SphereRoots(sqrt, ray)[0] == SphereRoots(sqrt, ray)[1] <==> Discriminant(ray) == 0.0
  {
    var a, b, disc := QuadA(ray), QuadB(ray), Discriminant(ray);
    var s := sqrt(disc);
    SqrtZeroIffZero(sqrt, disc);
    DivideOrdered(-b - s, -b + s, 2.0 * a);
  }

  /** Under IsSqrt, sqrt(x) is zero exactly when x is. */
  lemma SqrtZeroIffZero(sqrt: real -> real, x: real)
    requires IsSqrt(sqrt) && x >= 0.0
    ensures sqrt(x) >= 0.0
    ensures sqrt(x) == 0.0 <==> x == 0.0
  {
    var s := sqrt(x);
    assert s >= 0.0 && s * s == x;
    if s != 0.0 {
      PositiveSquare(s, x);
    } else {
      assert x == 0.0 * 0.0;
    }
  }

  lemma PositiveSquare(s: real, x: real)
    requires s > 0.0 && x == s * s
    ensures x > 0.0
  {
    calc {
      x;
    ==
      s * s;
    >
      0.0;
    }
  }

  lemma SquareAboveOne(y: real)
    requires y > 1.0
    ensures y * y > 1.0
  {
    calc {
      y * y;
    ==
      (y - 1.0) * (y - 1.0) + 2.0 * y - 1.0;
    >
      1.0;
    }
  }

  lemma DivideOrdered(p: real, q: real, m: real)
    requires m > 0.0 && p <= q
    ensures Quot(p, m) <= Quot(q, m)
    ensures Quot(p, m) == Quot(q, m) <==> p == q
  {
    assert Quot(p, m) * m == p && Quot(q, m) * m == q;
  }

  /** Under IsSqrt, the square root of a square of a non-negative number is that number. */
  lemma SqrtOfSquare(sqrt: real -> real, v: real)
    requires IsSqrt(sqrt) && v >= 0.0
    ensures sqrt(v * v) == v
  {
    var s := sqrt(v * v);
    assert s >= 0.0 && s * s == v * v;
    assert (s - v) * (s + v) == 0.0;
    if s != v {
      NonZeroFactor(s - v, s + v);
    }
  }

  /** A ray along +z through (0, y, z): the discriminant is 4(1 - y^2), and when the ray meets
      the sphere the roots are -z -/+ half the discriminant's square root. */
  lemma AlongZRoots(sqrt: real -> real, y: real, z: real)
    ensures Discriminant(Ray(Point(0.0, y, z), Vector(0.0, 0.0, 1.0))) == 4.0 * (1.0 - y * y)
    ensures var s := sqrt(4.0 * (1.0 - y * y));
      SphereRoots(sqrt, Ray(Point(0.0, y, z), Vector(0.0, 0.0, 1.0))) ==
        if y * y > 1.0 then [] else [-z - s / 2.0, -z + s / 2.0]
  {
    var ray := Ray(Point(0.0, y, z), Vector(0.0, 0.0, 1.0));
    assert QuadA(ray) == 1.0 && QuadB(ray) == 2.0 * z && QuadC(ray) == y * y + z * z - 1.0;
  }

  /** A ray along the z axis meets the sphere at distances -z - 1 and -z + 1, whatever side it
      starts on: the unit tests' rays from z = -5 (4 and 6), from the centre (-1 and 1) and
      from z = 5, with the sphere behind it (-6 and -4). */
  lemma ThroughCentreRoots(sqrt: real -> real, z: real)
    requires IsSqrt(sqrt)
    ensures SphereRoots(sqrt, Ray(Point(0.0, 0.0, z), Vector(0.0, 0.0, 1.0))) == [-z - 1.0, -z + 1.0]
  {
    AlongZRoots(sqrt, 0.0, z);
    SqrtOfSquare(sqrt, 2.0);
  }

  /** A ray along z at height y = 1 grazes the sphere: both roots are -z (5 from z = -5). */
  lemma TangentRoots(sqrt: real -> real, z: real)
    requires IsSqrt(sqrt)
    ensures SphereRoots(sqrt, Ray(Point(0.0, 1.0, z), Vector(0.0, 0.0, 1.0))) == [-z, -z]
  {
    AlongZRoots(sqrt, 1.0, z);
    SqrtOfSquare(sqrt, 0.0);
  }

  /** A ray along z at a height above 1 misses the sphere (y = 2 in the unit test). */
  lemma MissRoots(sqrt: real -> real, y: real, z: real)
    requires y > 1.0
    ensures SphereRoots(sqrt, Ray(Point(0.0, y, z), Vector(0.0, 0.0, 1.0))) == []
  {
    AlongZRoots(sqrt, y, z);
    SquareAboveOne(y);
  }
}
