# A model of rust-tracer's core

This project models the core of rust-tracer in Dafny and proves properties about it. rust-tracer is a small Whitted-style ray tracer written in Rust, following "The Ray Tracer Challenge". The model follows the source module by module:

- **Tuples** (`tuples.dfy`): homogeneous 4-tuples, where points carry w = 1 and vectors and colours carry w = 0. Every operator works componentwise, and the w-coordinate records what kind of tuple a result is.
- **Matrices** (`matrices.dfy`): 4x4 matrices stored row-major, with indexing and the 2x2 and 3x3 constructors. The matrix product is computed by a method with nested loops over an array, as the source does, and is proved equal to the entrywise definition. Applying a matrix to a tuple is also modelled.
- **Transformations** (`transformations.dfy`): the affine transformations translation, scaling, rotation and shearing.
- **Rays** (`rays.dfy`): rays and positions along them.
- **Intersections** (`intersections.dfy`):
  - sorting of intersections (a stable sort);
  - choosing the hit;
  - the shading state of a hit.
- **Geometry** (`spheres.dfy`, `planes.dfy`): the sphere's quadratic and the plane's single root.
- **Shapes** (`shapes.dfy`): shapes as objects with a transform, a cached inverse and a material.
- **Patterns** (`patterns.dfy`): the stripe pattern.
- **World** (`world.dfy`): the world's intersection loop and `color_at`.
- **Camera** (`camera.dfy`): sizing from the aspect ratio, the ray through a pixel, and the nested render loop.
- **Canvas** (`canvas.dfy`): the pixel grid and its plain-PPM ("P3") text.
- **PPM formatter** (`ppm.dfy`): the line-wrapping writer behind the PPM text, with 69-character lines.

Modelling choices:

- **Scalars** are `real`.
- **Transcendental functions are parameters.** The square root, the tangent in `Camera::new`, the sine and cosine of the rotations, and matrix inversion are passed in as functions. Lemmas that need the square root's meaning require the ghost law `IsSqrt`.
- **Phong lighting is a parameter.** The world's shading takes it as a function of the material, the light, the point, the eye vector and the normal.
- **Floor, rounding and Rust's float remainder** are defined exactly.
- **Division by zero.** Rust's float division gives an infinity or NaN for a zero divisor, which has no counterpart among the reals. Here `Quot` returns 0 in that case. `Div`, `Normalize`, the sphere's `2a`, the camera's aspect ratio and its pixel size all divide through `Quot`.
- **Shapes.** The source's `Sphere`, the `Shape` trait, `BaseShape` and the two `Plane` variants are represented by one class, `Shape`. It has a `Geometry` field (sphere or plane) and the mutable transform, inverse and material.
- **Object identity.** An intersection refers to its shape by reference, so the source's `ptr::eq` comparison is reference equality of Dafny objects.
- **Helpers the source calls but does not define.** These are `Transformation::IDENTITY`, `transpose`, `Ray::transform` and `Color::BLACK`. They are defined here by their standard meaning: the identity matrix, the transpose, both ends of the ray multiplied by the matrix, and the zero colour.
- **Features this version of the code does not have.** This version of the code has no shadow-biased `over_point` in the shading state, no shadow rays (`is_shadowed`), no view transform and no `reflect`, and the model adds none of them. `World::contains` uses the derived `PartialEq` of spheres, which compares by value, not by address, and the model does the same (`SameShape`).

How the imperative parts are modelled:

- The canvas, the PPM formatter, the shapes, the patterns and the camera are classes whose methods update their fields.
- The formatter keeps a ghost list of finished lines, and its output is always their rendering. Each method is specified by the pure `Step` function on a layout. The wrapping properties are proved about `WriteAll`, which applies `Step` to a list of tokens.
- `Canvas.ToPpm` is proved to produce exactly the rendering of `PpmLines`: the header lines followed by each row's block of lines.
- `Camera.Render` is proved to produce a canvas of the camera's size. Each pixel (x, y) of it holds the colour `ColorAt` gives for `RayForPixel(x, y)`.

## Model

| member | source | states |
|---|---|---|
| Numerics.Quot | src/tuples.rs:141-143 | a non-zero divisor times the quotient gives back the dividend |
| Numerics.Round | src/canvas.rs:83 | `round` lies within one half of its argument; halves go away from zero (at least -0.5 off for non-negative input, below +0.5 off for negative input) |
| Numerics.FRem | src/patterns.rs:15 | Rust's float `%` truncates: the remainder has the dividend's sign and is smaller than the divisor in magnitude |
| Numerics.FRemTwoZeroIffEven | src/patterns.rs:15 | `n % 2.0 == 0.0` holds for an integer n exactly when n is even, negative n included |
| Tuples.Point | src/tuples.rs:24-26 | `point` has w = 1, so it is a point and not a vector, and it keeps x, y, z |
| Tuples.Vector | src/tuples.rs:28-30 | `vector` has w = 0, so it is a vector and not a point, and it keeps x, y, z |
| Tuples.Color | src/tuples.rs:75-89 | `color` has w = 0; `red`, `green` and `blue` read back the three components |
| Tuples.IsPoint | src/tuples.rs:48-50 | `is_point` holds exactly for w = 1; `point` builds one and nothing built by `vector` is one (Tuples.Point, Tuples.Vector) |
| Tuples.IsVector | src/tuples.rs:52-54 | `is_vector` holds exactly for w = 0; `vector` and `color` build one, and the kind rules of Add, Sub, Neg and Cross keep it |
| Tuples.Red | src/tuples.rs:79-81 | the red channel is x; Tuples.Color reads it back |
| Tuples.Green | src/tuples.rs:83-85 | the green channel is y; Tuples.Color reads it back |
| Tuples.Blue | src/tuples.rs:87-89 | the blue channel is z; Tuples.Color reads it back |
| Tuples.Dot | src/tuples.rs:65-67 | the four-term sum of products: non-negative on a tuple with itself, symmetric, additive, negated by negating one side, 20 for the test's vectors (Tuples.DotSelfNonNegative, DotSymmetric, DotAdd, DotNegLeft, DotExample) |
| Tuples.Scale | src/tuples.rs:119-126 | componentwise scaling: keeps vectors vectors, 1 is its unit and 0 gives zero, division by the same non-zero factor undoes it, and matrices commute with it (Tuples.ScaleProperties, ScaleDivRoundTrip, Matrices.ApplyScale) |
| Tuples.Hadamard | src/tuples.rs:128-135 | the componentwise product: commutative, all-ones as unit, a vector with a vector operand, the test's colour product (Tuples.HadamardProperties, HadamardCommutative, HadamardExample) |
| Tuples.Div | src/tuples.rs:137-144 | componentwise division: keeps vectors vectors, and multiplying back by a non-zero factor gives the tuple (Tuples.DivProperties, ScaleDivRoundTrip) |
| Tuples.AbsDiffEq | src/tuples.rs:154-159 | every component within epsilon: reflexive, symmetric, and equality at epsilon 0 (Tuples.AbsDiffEqProperties) |
| Tuples.Add | src/tuples.rs:96-98 | point + vector and vector + point are points; vector + vector is a vector |
| Tuples.Sub | src/tuples.rs:105-107 | point - point is a vector, point - vector is a point, vector - vector is a vector |
| Tuples.Neg | src/tuples.rs:114-116 | negation keeps vectors vectors, and a + (-a) is zero |
| Tuples.Cross | src/tuples.rs:69-73 | the cross product is always a vector, orthogonal to each vector operand |
| Tuples.ScaleProperties | src/tuples.rs:123-125 | scaling keeps vectors vectors; factor 1 is the identity and factor 0 gives zero |
| Tuples.HadamardProperties | src/tuples.rs:132-134 | the componentwise product with a vector or colour is one, and all-ones is its unit |
| Tuples.DivProperties | src/tuples.rs:141-143 | division keeps vectors vectors; multiplying a quotient by its non-zero divisor gives back the tuple |
| Tuples.ScaleDivRoundTrip | src/tuples.rs:123-143 | dividing a scaled tuple by the same non-zero factor gives back the tuple |
| Tuples.SubIsAddNeg | src/tuples.rs:101-116 | a - b == a + (-b) |
| Tuples.AddSubRoundTrip | src/tuples.rs:92-108 | subtraction undoes addition, and addition undoes subtraction |
| Tuples.NegInvolutive | src/tuples.rs:114-116 | -(-a) == a |
| Tuples.ZeroMinus | src/tuples.rs:105-116 | zero - v == -v |
| Tuples.DotSelfNonNegative | src/tuples.rs:65-67 | a · a >= 0 |
| Tuples.DotAdd | src/tuples.rs:65-67 | the dot product is additive in its first argument |
| Tuples.DotNegLeft | src/tuples.rs:65-67 | (-a) · b == -(a · b) |
| Tuples.DotSymmetric | src/tuples.rs:65-67 | a · b == b · a |
| Tuples.CrossAntiCommutative | src/tuples.rs:69-73 | a × b == -(b × a) |
| Tuples.HadamardCommutative | src/tuples.rs:132-134 | the componentwise product commutes |
| Tuples.AbsDiffEqProperties | src/tuples.rs:154-159 | `abs_diff_eq` is reflexive for a non-negative epsilon and symmetric; with epsilon 0 it is equality |
| Tuples.DotExample | src/tuples.rs:65-67 | (1, 2, 3) · (2, 3, 4) == 20 |
| Tuples.HadamardExample | src/tuples.rs:132-134 | (1, 0.2, 0.4) * (0.9, 1, 0.1) == (0.9, 0.2, 0.04) |
| Matrices.New4 | src/matrices.rs:11-18 | `Matrix4::new` stores its 16 arguments row-major: entry (i, j) is argument 4i + j |
| Matrices.New3 | src/matrices.rs:86-92 | `Matrix3::new` stores its 9 arguments row-major |
| Matrices.New2 | src/matrices.rs:66-70 | `Matrix2::new` stores its 4 arguments row-major |
| Matrices.At | src/matrices.rs:25-27 | `m[(i, j)]` is entry j of row i: Matrices.New4 reads each argument back through it, and Matrices.EqualityIsEntrywise decides equality through it |
| Matrices.At3 | src/matrices.rs:99-101 | 3x3 indexing: Matrices.New3 reads each argument back through it |
| Matrices.At2 | src/matrices.rs:77-79 | 2x2 indexing: Matrices.New2 reads each argument back through it |
| Matrices.New3Example | src/matrices.rs:86-101 | the 3x3 indexing example reads back -2 at (1, 1) |
| Matrices.New2Example | src/matrices.rs:66-80 | the 2x2 indexing example reads back 5 at (0, 1) and -2 at (1, 1) |
| Matrices.EqualityIsEntrywise | src/matrices.rs:6 | the derived matrix equality holds exactly when all 16 entries agree |
| Matrices.EqualEntries | src/matrices.rs:6 | matrices with the same 16 entries are equal |
| Matrices.Mul | src/matrices.rs:34-45 | the nested loops over a 4x4 array compute the matrix product |
| Matrices.Product | src/matrices.rs:34-45 | the product of two affine matrices (last row 0, 0, 0, 1) is affine |
| Matrices.ProductEntry | src/matrices.rs:38-41 | entry (i, j) of the product is the sum over k of a(i, k) · b(k, j) |
| Matrices.ApplyIsRowDot | src/matrices.rs:52-59 | each component of matrix × tuple is the matching row dotted with the tuple |
| Matrices.Apply | src/matrices.rs:52-59 | matrix × tuple: each component is a row dotted with the tuple, w is kept by affine matrices, it is linear, the identity fixes it and a product applies right to left (Matrices.ApplyIsRowDot, ApplyAffine, ApplyAdd, ApplyScale, ApplyIdentity, ApplyProduct) |
| Matrices.ApplyAffine | src/matrices.rs:57 | an affine matrix keeps w, so points stay points and vectors stay vectors |
| Matrices.ApplyProduct | src/matrices.rs:34-59 | (A · B) × t == A × (B × t) |
| Matrices.ApplyAdd | src/matrices.rs:52-59 | matrix × tuple is additive |
| Matrices.ApplyScale | src/matrices.rs:52-59 | matrix × tuple commutes with scaling |
| Matrices.ApplyIdentity | src/spheres.rs:19 | the identity matrix leaves every tuple unchanged |
| Matrices.ProductIdentity | src/spheres.rs:19 | the identity is a unit of the product on both sides |
| Matrices.IdentityIsAffine | src/spheres.rs:19 | the identity's last row is (0, 0, 0, 1) |
| Matrices.Transpose | src/spheres.rs:58 | the transpose swaps entry (i, j) with entry (j, i) |
| Matrices.TransposeInvolutive | src/spheres.rs:58 | transposing twice gives back the matrix |
| Transformations.Translation | src/transformations.rs:8-13 | translation is affine |
| Transformations.Scaling | src/transformations.rs:15-20 | scaling is affine |
| Transformations.RotationX | src/transformations.rs:22-27 | rotation about x is affine |
| Transformations.RotationY | src/transformations.rs:29-34 | rotation about y is affine |
| Transformations.RotationZ | src/transformations.rs:36-41 | rotation about z is affine |
| Transformations.Shearing | src/transformations.rs:43-48 | shearing is affine |
| Transformations.TranslationApply | src/transformations.rs:8-13 | translation adds (x, y, z) times w to a tuple |
| Transformations.TranslationMovesPoints | src/transformations.rs:8-13 | translating a point adds (x, y, z) to it |
| Transformations.TranslationFixesVectors | src/transformations.rs:8-13 | translation leaves a vector unchanged |
| Transformations.TranslationUndone | src/transformations.rs:8-13 | translating by (-x, -y, -z) undoes translating by (x, y, z) |
| Transformations.ScalingApply | src/transformations.rs:15-20 | scaling multiplies x, y, z by the factors and keeps w |
| Transformations.ReflectionAcrossX | src/transformations.rs:15-20 | scaling by (-1, 1, 1) negates x only |
| Transformations.ScalingUndone | src/transformations.rs:15-20 | scaling by the reciprocals undoes a scaling by non-zero factors |
| Transformations.ShearingApply | src/transformations.rs:43-48 | x' = x + x_y·y + x_z·z, and likewise for y' and z'; w is kept |
| Transformations.RotationXApply | src/transformations.rs:22-27 | rotation about x keeps x and w and rotates y and z by the given sine and cosine |
| Transformations.RotationYApply | src/transformations.rs:29-34 | rotation about y keeps y and w and rotates x and z |
| Transformations.RotationZApply | src/transformations.rs:36-41 | rotation about z keeps z and w and rotates x and y |
| Transformations.ChainAppliesRightToLeft | src/transformations.rs:214-223 | (C · B · A) × p == C × (B × (A × p)) |
| Transformations.ChainKeepsKind | src/transformations.rs:8-48 | a chain of affine transformations keeps points points and vectors vectors |
| Transformations.ChainExample | src/transformations.rs:199-223 | translation(10, 5, 7) · scaling(5, 5, 5) · rotation_x(π/2) takes (1, 0, 1) to (15, 0, 7), when the rotation's sine is 1 and cosine 0 |
| Rays.Position | src/rays.rs:18-20 | with a point origin and a vector direction, the position is a point; at t = 0 it is the origin |
| Rays.PositionAlongX | src/rays.rs:18-20 | along direction (1, 0, 0) the position shifts x by t, for negative and fractional t too |
| Rays.PositionExample | src/rays.rs:41-49 | the ray from (2, 3, 4) along (1, 0, 0) is at (2 + t, 3, 4) |
| Rays.Transform | src/spheres.rs:35 | an affine transform keeps the ray's origin a point and its direction a vector |
| Rays.TransformPosition | src/shapes.rs:75 | the position along a transformed ray is the transformed position |
| Rays.ApplyAffineKind | src/matrices.rs:52-59 | an affine matrix keeps points points and vectors vectors |
| Intersections.EqualityIsTAndObject | src/intersections.rs:16-18 | two intersections are equal exactly when their t values and their objects are |
| Intersections.Insert | src/intersections.rs:36 | one insertion step adds the element to the multiset of the list |
| Intersections.InsertKeepsSorted | src/intersections.rs:36 | inserting into a sorted list keeps it sorted |
| Intersections.SortByT | src/intersections.rs:35-38 | `intersections` returns a permutation of its input, sorted ascending by t |
| Intersections.SortIsStable | src/intersections.rs:36 | intersections with equal t keep their input order, as the standard library's `sort_by` does |
| Intersections.Hit | src/intersections.rs:40-42 | `hit` is None exactly when no t is positive (t = 0 is not a hit); otherwise it is an element with positive t |
| Intersections.HitIsFirstPositive | src/intersections.rs:40-42 | the hit is the first element with a positive t |
| Intersections.HitIsLeastPositive | src/intersections.rs:40-42 | on a sorted list the hit has the least positive t |
| Intersections.HitOfSortedIsLowestPositive | src/intersections.rs:35-42 | the hit of the sorted candidates is a candidate with the least positive t, and there is none exactly when no candidate has a positive t |
| Intersections.Prepare | src/intersections.rs:55-74 | `prepare` copies t and the object, sets point = position(t) and eyev = -direction, sets `inside` exactly when normal · eye < 0 and then negates the normal, so afterwards normalv · eyev >= 0 |
| Spheres.SphereRoots | src/spheres.rs:43-51 | there is no root exactly when the discriminant is negative; otherwise there are exactly two |
| Spheres.QuadA | src/spheres.rs:39 | a = direction · direction; the roots solve a·t² + b·t + c = 0 when it is non-zero (Spheres.RootsSolveQuadratic) |
| Spheres.QuadB | src/spheres.rs:37-40 | b = 2 · direction · (origin - (0, 0, 0)) for the ray in object space; see Spheres.RootsSolveQuadratic |
| Spheres.QuadC | src/spheres.rs:37-41 | c = (origin - (0, 0, 0)) · (origin - (0, 0, 0)) - 1 for the ray in object space; see Spheres.RootsSolveQuadratic |
| Spheres.Discriminant | src/spheres.rs:43 | b² - 4ac: negative exactly when there is no root, zero exactly when the two roots coincide (Spheres.SphereRoots, RootsOrdered) |
| Spheres.SphereLocalNormal | src/spheres.rs:56-57 | the object-space normal at a point is a vector |
| Spheres.RootsSolveQuadratic | src/spheres.rs:39-49 | each root t satisfies a·t² + b·t + c = 0 (for a non-zero direction) |
| Spheres.RootsOnUnitSphere | src/spheres.rs:34-51 | each root reaches a point at distance 1 from the centre |
| Spheres.RootsOrdered | src/spheres.rs:48-49 | for a non-zero direction t1 <= t2, with equality exactly when the discriminant is 0 (the tangent case) |
| Spheres.AlongZRoots | src/spheres.rs:43-49 | a ray along z through (0, y, z) has discriminant 4(1 - y²) and roots -z ∓ sqrt(disc)/2 |
| Spheres.ThroughCentreRoots | src/spheres.rs:74-82 | a ray along z through the centre's axis meets the sphere at -z - 1 and -z + 1 |
| Spheres.TangentRoots | src/spheres.rs:84-92 | the tangent ray from (0, 1, z) gives the double root -z |
| Spheres.MissRoots | src/spheres.rs:94-100 | a ray along z with y > 1 misses |
| Planes.PlaneRoots | src/shapes/planes.rs:12-18 | there is at most one root; there is none exactly when abs(direction.y) < f64::EPSILON; the root's position lies on y = 0 |
| Planes.PlaneRootIsUnique | src/shapes/planes.rs:12-18 | for a non-parallel ray, t is the root exactly when position(t) has y = 0, so the root is -origin.y / direction.y |
| Planes.UnitDistanceRoot | src/shapes/planes.rs:62-82 | rays from (0, 1, 0) downwards and from (0, -1, 0) upwards hit at t = 1 |
| Planes.ParallelRaysMiss | src/planes.rs:66-84 | parallel and coplanar rays have no intersection |
| Planes.PlaneIntersections | src/planes.rs:32-39 | each root is paired with the plane itself |
| Planes.PlaneLocalNormal | src/planes.rs:41-43 | the normal is the vector (0, 1, 0) at every point |
| Shapes.LocalNormal | src/shapes.rs:49 | the local normal at a point is a vector, for each geometry |
| Shapes.LocalRoots | src/shapes.rs:47 | `local_intersect` by geometry, as seen through Shape.Intersect: a sphere gives no root exactly when the discriminant is negative and otherwise two, each on the unit sphere when a ≠ 0; a plane gives at most one, none exactly when the ray runs within epsilon of parallel, and that one on y = 0 (Shapes.SphereIntersectCount, SphereHitsOnSurface, PlaneIntersectProperties) |
| Shapes.WorldNormal | src/shapes.rs:79-86 | w is zeroed before normalising, so the normal is a vector |
| Shapes.Shape.constructor | src/shapes.rs:19-25 | a new shape has the identity transform and inverse and the default material |
| Shapes.Shape.SetTransform | src/shapes.rs:35-38 | stores the transform and caches its inverse; the material is unchanged |
| Shapes.Shape.SetMaterial | src/shapes.rs:70-72 | stores the material; the transform and its inverse are unchanged |
| Shapes.Shape.Intersect | src/shapes.rs:74-77 | exactly the local roots of the ray transformed by the cached inverse, same length and order, each referring to this shape |
| Shapes.Shape.NormalAt | src/shapes.rs:79-86 | the world normal is a vector |
| Shapes.SphereIntersectCount | src/spheres.rs:34-51 | a sphere reports no intersection exactly when the object-space discriminant is negative, otherwise two, each referring to the sphere |
| Shapes.SphereHitsOnSurface | src/spheres.rs:34-51 | each reported t reaches a world point that the inverse transform takes onto the unit sphere |
| Shapes.PlaneIntersectProperties | src/shapes.rs:74-77 | a plane reports at most one intersection, none exactly for an object-space parallel ray, and the point it reaches maps onto y = 0 |
| Shapes.IdentityWorldNormal | src/shapes.rs:79-86 | without a transformation the world normal is the normalised local normal |
| Shapes.UnitSphereNormal | src/spheres.rs:55-61 | on the untransformed unit sphere the normal at a surface point is the vector from the centre to it |
| Shapes.UnitPlaneNormal | src/planes.rs:41-43 | the untransformed plane's normal is (0, 1, 0) everywhere |
| Shapes.TransposeIdentity | src/shapes.rs:82 | the transpose of the identity is the identity |
| Patterns.PatternAt | src/patterns.rs:12-22 | the stripe is colour a exactly when floor(x) is even, otherwise b |
| Patterns.StripeIgnoresYAndZ | src/patterns.rs:15 | the stripe depends only on x |
| Patterns.StripePeriodic | src/patterns.rs:15 | the stripe repeats with period 2 in x |
| Patterns.StripeAlternates | src/patterns.rs:15 | moving one unit in x swaps the colours |
| Patterns.StripeBands | src/patterns.rs:14-19 | [0, 1) is a, [1, 2) is b, [-1, 0) is b and [-2, -1) is a |
| Patterns.Pattern.constructor | src/patterns.rs:37-43 | a new pattern has the identity transform and inverse |
| Patterns.Pattern.NewStripe | src/patterns.rs:33-35 | `stripe(a, b)` is a fresh stripe pattern of a and b with the identity transform |
| Patterns.Pattern.SetTransform | src/patterns.rs:49-52 | stores the transform and caches its inverse; the pattern type is a constant |
| Patterns.Pattern.PatternAtShape | src/patterns.rs:54-59 | the colour is the pattern at (pattern inverse · object inverse) × p |
| Patterns.UntransformedPatternAtShape | src/patterns.rs:54-59 | with both inverses the identity, the colour is the pattern at the world point |
| World.NewWorld | src/world.rs:21-23 | a new world has no objects and no lights |
| World.WithObjectsAndLight | src/world.rs:25-27 | the objects in the given order and exactly one light |
| World.ContainsMembers | src/world.rs:45-47 | an object equal by value to one of the world's objects is contained |
| World.ContainsOwnObjects | src/world.rs:45-47 | every object of the world is contained |
| World.SameShape | src/world.rs:45-47 | the derived `PartialEq` of shapes: equal geometry, transform, inverse and material, compared by value |
| World.Contains | src/world.rs:45-47 | `contains` holds when some object is equal by value, so for every object of the world and every copy of one (World.ContainsMembers, ContainsOwnObjects) |
| World.Candidates | src/world.rs:49-53 | every gathered intersection refers to one of the world's objects |
| World.CandidatesMembers | src/world.rs:49-53 | an intersection is gathered exactly when some object reports it, and the count is the sum of the per-object counts |
| World.Intersect | src/world.rs:49-55 | the loop's result is the sorted concatenation of the objects' intersections: sorted, and a permutation of the concatenation |
| World.HitInWorld | src/world.rs:63-66 | the hit is one of the gathered intersections and belongs to an object of the world |
| World.ShadeHitLights | src/world.rs:57-61 | with no light the shaded colour is black; with one light it is that light's lighting |
| World.ShadeHitAddLight | src/world.rs:57-61 | adding a light adds its lighting to the sum |
| World.LightSum | src/world.rs:58-60 | the per-light colours added from black in the lights' order (World.ShadeHitLights, ShadeHitAddLight) |
| World.ShadeHit | src/world.rs:57-61 | the sum over the lights of the hit object's material lit by each: black with no light, the light's colour with one, and each added light adds its colour (World.ShadeHitLights, ShadeHitAddLight) |
| World.ColorAtMiss | src/world.rs:63-67 | without an intersection of positive t the colour is black |
| World.ColorAtHit | src/world.rs:63-72 | otherwise the colour is the shaded, prepared intersection with the least positive t, so intersections behind the ray are ignored |
| World.ColorAt | src/world.rs:63-73 | black when no intersection has a positive t; otherwise the shaded, prepared intersection of least positive t (World.ColorAtMiss, ColorAtHit, EmptyWorldIsBlack) |
| World.EmptyWorldIsBlack | src/world.rs:21-23 | a world without objects is black in every direction |
| Camera.ViewportShape | src/camera.rs:21-40 | half_width·vsize == half_height·hsize, pixel_size·hsize == 2·half_width and pixel_size·vsize == 2·half_height, and the longer side spans half_view |
| Camera.ViewportOf | src/camera.rs:21-40 | the sizing of `Camera::new`: half extents in the ratio of the sides, the longer side spanning half_view, square pixels covering both sides (Camera.ViewportShape, PixelSizeExamples) |
| Camera.CanvasPoint | src/camera.rs:56-62 | the centre of a pixel at z = -1: neighbours one pixel_size apart, every centre strictly inside the canvas, the middle one of an odd canvas on the axis (Camera.CanvasPointSpacing, CanvasPointInside, CentreCanvasPoint) |
| Camera.CanvasPointSpacing | src/camera.rs:56-60 | one column to the right moves the centre pixel_size towards -x; one row down moves it pixel_size towards -y |
| Camera.CanvasPointInside | src/camera.rs:21-62 | for a positive half view, every pixel centre (px < hsize, py < vsize) lies strictly between -half_width and half_width, and between -half_height and half_height |
| Camera.PixelRay | src/camera.rs:55-67 | from the transformed eye towards the transformed pixel centre, reaching it at its distance; a point and a vector under an affine inverse; the centre ray of an untransformed odd canvas is (0, 0, 0) along (0, 0, -1) (Camera.PixelRayReachesPixel, UntransformedPixelRay, CentrePixelRay) |
| Camera.PixelSizeExamples | src/camera.rs:106-118 | with half_view 1, both 200x125 and 125x200 give pixel size 0.01 |
| Camera.PixelRayReachesPixel | src/camera.rs:55-67 | the ray starts at the inverse applied to the origin and reaches the transformed pixel centre at its distance; under an affine inverse it is a point plus a vector |
| Camera.UntransformedPixelRay | src/camera.rs:62-66 | without a transformation the ray starts at the origin towards the normalised pixel centre |
| Camera.CentreCanvasPoint | src/camera.rs:56-60 | for odd sizes the centre pixel's point is (0, 0, -1) |
| Camera.CentrePixelRay | src/camera.rs:120-128 | the centre pixel's ray of an untransformed camera with odd sizes starts at the origin and points along (0, 0, -1) |
| Camera.Camera.constructor | src/camera.rs:20-44 | stores hsize, vsize and field_of_view; identity transform; half_width, half_height and pixel_size are those ViewportOf computes from tan(field_of_view / 2) |
| Camera.Camera.SetTransform | src/camera.rs:50-53 | stores the transform and caches its inverse |
| Camera.Camera.RayForPixel | src/camera.rs:55-67 | `ray_for_pixel` is PixelRay on the camera's cached inverse and sizing, so the properties of Camera.PixelRay hold for it; Camera.Camera.Render fills the canvas with the colours along these rays |
| Camera.Camera.PixelColor | src/camera.rs:74-75 | the colour for pixel (x, y) is the picture's entry, i.e. `color_at(ray_for_pixel(x, y))` |
| Camera.Camera.Render | src/camera.rs:69-81 | a fresh hsize x vsize canvas whose pixel (x, y) is `color_at(ray_for_pixel(x, y))` for every x < hsize and y < vsize |
| PpmFormatting.PpmFormatter.constructor | src/canvas.rs:16-23 | an empty output and an empty current line |
| PpmFormatting.PpmFormatter.Write | src/canvas.rs:25-34 | one Step: the line is finished first when line + separator + token would exceed the maximum; the separator goes in only when the line is not empty |
| PpmFormatting.PpmFormatter.NewLine | src/canvas.rs:36-39 | the line and a newline go to the output; the line is cleared |
| PpmFormatting.PpmFormatter.Flush | src/canvas.rs:41-46 | finishes the current line unless it is empty |
| PpmFormatting.PpmFormatter.ToString | src/canvas.rs:48-51 | flushes and returns the whole output |
| PpmFormatting.RenderSnoc | src/canvas.rs:37 | finishing a line appends it and a newline to the output |
| PpmFormatting.RenderAppend | src/canvas.rs:36-39 | the output of two runs of lines is the concatenation of their outputs |
| PpmFormatting.StepBounded | src/canvas.rs:26-32 | a token no longer than the maximum, written on a line within the maximum, keeps every line within the maximum |
| PpmFormatting.WriteAllBounded | src/canvas.rs:25-34 | if every token is at most max_length long, no line exceeds max_length |
| PpmFormatting.BlockBounded | src/canvas.rs:25-39 | a block of such tokens ended by `new_line` has no line longer than the maximum |
| PpmFormatting.TokensInOrder | src/canvas.rs:25-39 | the lines hold the tokens in the order written: consecutive groups, each line being its group joined by the separator |
| PpmFormatting.StepDescribed | src/canvas.rs:25-34 | a write either starts a new group with the token or appends it to the current group |
| PpmFormatting.StepFromLines | src/canvas.rs:25-34 | a write adds at most one finished line and does not depend on the lines finished before |
| PpmFormatting.WriteAllFromLines | src/canvas.rs:25-39 | writing after some finished lines adds the same lines as writing with none |
| PpmFormatting.WriteAllSnoc | src/canvas.rs:25-34 | writing one more token is one more Step |
| PpmFormatting.SingleTokenBlock | src/canvas.rs:26-28 | a lone token that fits makes one line; one that does not fit even with the separator counted on an empty line is preceded by an empty line |
| PpmFormatting.RenderEndsWithNewline | src/canvas.rs:37 | output with a finished line ends with '\n' |
| Canvases.F32ToU8 | src/canvas.rs:82-84 | round(v·255) saturated to [0, 255]: within one half of v·255 in range, 0 for v <= 0, 255 for v >= 1 |
| Canvases.F32ToU8Examples | src/canvas.rs:82-84 | 1.5 gives 255, 0.5 gives 128 and -0.5 gives 0 |
| Canvases.NatToString | src/canvas.rs:90 | `format!("{}", n)` is a non-empty string of decimal digits |
| Canvases.DecimalRoundTrip | src/canvas.rs:90 | reading the digits back gives n |
| Canvases.NoLeadingZero | src/canvas.rs:90 | only 0 is written with a leading zero |
| Canvases.ChannelTokenShort | src/canvas.rs:96-98 | a channel value takes at most three digits |
| Canvases.RowTokensShort | src/canvas.rs:95-99 | a row yields three tokens per pixel, none longer than three characters |
| Canvases.RowsLinesSnoc | src/canvas.rs:94-101 | each row's block of lines follows the previous rows' lines: every row starts on a fresh line |
| Canvases.RowsLinesBounded | src/canvas.rs:94-101 | no line of the pixel data is longer than 69 characters |
| Canvases.PpmLinesBounded | src/canvas.rs:86-104 | no line of the file is longer than 69 characters, as long as the dimensions line is not |
| Canvases.PpmHeader | src/canvas.rs:87-93 | the file starts with the lines `P3`, `w h` and `255`, followed by the rows' lines |
| Canvases.PpmEndsWithNewline | src/canvas.rs:100-102 | the PPM text ends with '\n' |
| Canvases.ShortHeaderTokens | src/canvas.rs:88-93 | `P3` and `255` each fit on a line of their own |
| Canvases.OneTokenBlock | src/canvas.rs:88-93 | one token written on a fresh line and ended by `new_line` adds that token's block |
| Canvases.NextPixel | src/canvas.rs:95-99 | writing a pixel's three channels continues the row's layout |
| Canvases.WriteRow | src/canvas.rs:95-100 | a row's channels, then `new_line`, add the row's block of lines |
| Canvases.WriteRows | src/canvas.rs:94-101 | the loop over the rows adds the lines of all rows |
| Canvases.Canvas.constructor | src/canvas.rs:62-72 | a width x height grid with every pixel black |
| Canvases.Canvas.PixelAt | src/canvas.rs:74-76 | `pixel_at(x, y)` is entry x of row y: black after Canvases.Canvas.constructor, the written colour after Canvases.Canvas.WritePixel, every other pixel unchanged |
| Canvases.Canvas.WritePixel | src/canvas.rs:78-80 | afterwards `pixel_at(x, y)` is the colour, and every other pixel is unchanged |
| Canvases.Canvas.ToPpm | src/canvas.rs:86-104 | the text is the rendering of the header lines followed by each row's block of lines |

## Left out

- The example programs and scene drivers (`examples/`, `src/examples/`) are not modelled. They build scenes and write files, which is I/O.
- `src/lib.rs` holds only module declarations.
- `World::default` (src/world.rs:29-43) is not modelled. It is a fixed test scene built from operations that are modelled.
- `Material::lighting` is not modelled. It is the Phong equation, which needs the square root and `powf`, so the world takes it as a parameter. Materials and point lights are modelled as plain records.
- Square root, tangent, sine, cosine and matrix inversion are not modelled. The model passes them in as functions and proves nothing about their accuracy. Lemmas that need the square root assume its defining law (`IsSqrt`), or only `sqrt(1) == 1` in `CentrePixelRay`.
- f32/f64 rounding, NaN and infinity are not modelled, because scalars are exact reals. The only other place they would show is `partial_cmp(...).unwrap()` in the sort, and that panic cannot happen over reals.
- Tuples.Div, Tuples.Normalize: a zero divisor gives 0 (through `Quot`), where Rust would give an infinity or NaN.
- Spheres.SphereRoots: for a zero direction (a = 0) the roots are 0, where Rust would divide by zero. The lemmas about the roots require a != 0.
- Camera.Camera.constructor: a zero size is not modelled as Rust computes it. A zero vsize gives an aspect of 0 here, where Rust gets an infinite aspect. A zero hsize gives a half width of 0 and a pixel size of Quot(0, 0) = 0, where Rust computes 0/0 = NaN (src/camera.rs:22, 40). ViewportShape and CanvasPointInside require both sizes to be positive.
- Canvases.Canvas.ToPpm: string lengths are counted in characters, not bytes. The PPM tokens are ASCII, so the two agree there.
- Canvases.Canvas.ToPpm: the `fmt::Error` results of the formatter are not modelled, because writing to a `String` cannot fail.
- Canvases.Canvas.PixelAt, Canvases.Canvas.WritePixel: pixel indices out of range make `pixel_at` and `write_pixel` panic in the source (src/canvas.rs:74-80). Here the precondition excludes them, so the panic is not modelled.
- Camera.Camera.Render: its contract compares the pixels with the colours computed on the camera and world as they were when `render` was called. Render changes neither.
- Intersections.Hit: `hit` returns a reference into the slice; here it returns the value. Intersection values are immutable, so the difference is not observable.
- The float values of the unit tests that depend on π (the rotation tests, the camera's field of view `FRAC_PI_2`) are stated for any sine and cosine, or with half_view = tan(π/4) = 1.
- The long-line PPM test is not reproduced literally. Its property, that no line exceeds 69 characters, is proved (`PpmLinesBounded`).
- `reflect` is not modelled; no function in the modelled files calls it.
- The `transform()`, `inversed_transform()` and `material()` accessors (src/shapes.rs:27-33, 54-60, 66-68) are field reads of `Shape` here.
