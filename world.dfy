/** The world (src/world.rs): the objects of a scene and the lights that shine on them, and
    the colour seen along a ray. The Phong `lighting` of a material is a parameter of the
    functions that need it. */
module World {
  import opened Tuples
  import opened Rays
  import opened Intersections
  import opened Materials
  import opened Shapes
  import opened Sequences

  /** `World { objects, lights }`. */
  datatype World = World(objects: seq<Shape>, lights: seq<PointLight>)

  /** `World::new`: no objects and no lights. */
  function NewWorld(): (w: World)
    ensures |w.objects| == 0 && |w.lights| == 0
  {
    World([], [])
  }

  /** `World::with_objects_and_light`: the objects in the given order and one light. */
  function WithObjectsAndLight(objects: seq<Shape>, light: PointLight): (w: World)
    ensures w.objects == objects && w.lights == [light]
  {
    World(objects, [light])
  }

  /** The derived `PartialEq` of the source's sphere: equal transforms, inverses and
      materials. It compares values, not addresses. */
  predicate SameShape(a: Shape, b: Shape)
    reads a, b
  {
    a.geometry == b.geometry && a.transform == b.transform &&
    a.inversedTransform == b.inversedTransform && a.material == b.material
  }

  /** `World::contains`: some object of the world equals o by value. */
  predicate Contains(w: World, o: Shape)
    reads w.objects, o
  {
    exists i :: 0 <= i < |w.objects| && SameShape(w.objects[i], o)
  }

  /** What each object reports, in the world's order. */
  function Reports(objects: seq<Shape>, sqrt: real -> real, ray: Ray): (rs: seq<seq<Intersection<Shape>>>)
    reads objects
    ensures |rs| == |objects|
    ensures forall i :: 0 <= i < |objects| ==> rs[i] == objects[i].Intersect(sqrt, ray)
  {
    seq(|objects|, i reads objects requires 0 <= i < |objects| => objects[i].Intersect(sqrt, ray))
  }

  /** The intersections of every object, object by object in the world's order, before
      sorting. */
  function Candidates(objects: seq<Shape>, sqrt: real -> real, ray: Ray): (xs: seq<Intersection<Shape>>)
    reads objects
    ensures forall k :: 0 <= k < |xs| ==> xs[k].obj in objects
  {
    var reports := Reports(objects, sqrt, ray);
    FlattenAll(reports, (x: Intersection<Shape>) => x.obj in objects);
    Flatten(reports)
  }

  /** `World::intersect`: every object's intersections gathered in a loop, then sorted by t. */
  method Intersect(w: World, sqrt: real -> real, ray: Ray) returns (xs: seq<Intersection<Shape>>)
    ensures xs == SortByT(Candidates(w.objects, sqrt, ray))
    ensures Sorted(xs) && multiset(xs) == multiset(Candidates(w.objects, sqrt, ray))
  {
    ghost var reports := Reports(w.objects, sqrt, ray);
    var result := [];
    for i := 0 to |w.objects|
      invariant result == Flatten(reports[..i])
    {
      FlattenStep(reports, i);
      result := result + w.objects[i].Intersect(sqrt, ray);
    }
    assert reports[..|w.objects|] == reports;
    xs := SortByT(result);
  }

  /** The per-light colours of a point, added up from black in the order of the lights (the
      iterator `sum` of the source). */
  function LightSum(lighting: Lighting, m: Material, lights: seq<PointLight>,
                    point: Tuple, eyev: Tuple, normalv: Tuple): Tuple
  {
    if lights == [] then
      Black
    else
      Add(LightSum(lighting, m, lights[..|lights| - 1], point, eyev, normalv),
          lighting(m, lights[|lights| - 1], point, eyev, normalv))
  }

  /** `World::shade_hit`: the sum over the lights of the hit object's material lit by each. */
  function ShadeHit(w: World, lighting: Lighting, comps: Computations<Shape>): Tuple
    reads comps.obj
  {
    LightSum(lighting, comps.obj.material, w.lights, comps.point, comps.eyev, comps.normalv)
  }

  /** The object's `normal_at` as a function of the point, from the object's current state. */
  function NormalFunction(obj: Shape, sqrt: real -> real): Tuple -> Tuple
    reads obj
  {
    var g, inverse := obj.geometry, obj.inversedTransform;
    p => WorldNormal(sqrt, g, inverse, p)
  }

  /** `World::color_at`: black when no intersection lies in front of the ray's origin,
      otherwise the shaded hit. */
  function ColorAt(w: World, sqrt: real -> real, lighting: Lighting, ray: Ray): Tuple
    reads w.objects
  {
    HitInWorld(w, sqrt, ray);
    match Hit(SortByT(Candidates(w.objects, sqrt, ray)))
    case None => Black
    case Some(h) => ShadeHit(w, lighting, Prepare(h, ray, NormalFunction(h.obj, sqrt)))
  }

  /** The hit belongs to one of the world's objects. */
  lemma HitInWorld(w: World, sqrt: real -> real, ray: Ray)
    ensures var h := Hit(SortByT(Candidates(w.objects, sqrt, ray)));
      h.Some? ==> h.value in Candidates(w.objects, sqrt, ray) && h.value.obj in w.objects
  {
    var xs := Candidates(w.objects, sqrt, ray);
    SameElements(xs, SortByT(xs));
  }

  // ---------------------------------------------------------------------------------------------
  // Properties

  /** An object of the world is contained in it, and so is any object equal to one of them by
      value, whatever its address. */
  lemma ContainsMembers(w: World, o: Shape, i: int)
    requires 0 <= i < |w.objects| && SameShape(w.objects[i], o)
    ensures Contains(w, o)
  {
  }

  lemma ContainsOwnObjects(w: World, o: Shape)
    requires o in w.objects
    ensures Contains(w, o)
  {
    var i :| 0 <= i < |w.objects| && w.objects[i] == o;
    ContainsMembers(w, o, i);
  }

  /** An intersection is among the world's exactly when one of the objects reports it, and
      the world's intersections number the sum of what each object reports. */
  lemma CandidatesMembers(objects: seq<Shape>, sqrt: real -> real, ray: Ray)
    ensures var xs := Candidates(objects, sqrt, ray);
      forall k :: 0 <= k < |xs| ==> exists i :: 0 <= i < |objects| && xs[k] in objects[i].Intersect(sqrt, ray)
    ensures var xs := Candidates(objects, sqrt, ray);
      forall i, j :: 0 <= i < |objects| && 0 <= j < |objects[i].Intersect(sqrt, ray)| ==>
        objects[i].Intersect(sqrt, ray)[j] in xs
    ensures |Candidates(objects, sqrt, ray)| == TotalLength(Reports(objects, sqrt, ray))
  {
    FlattenMembers(Reports(objects, sqrt, ray));
    FlattenLength(Reports(objects, sqrt, ray));
  }

  /** With no light the shaded colour is black; with one light it is that light's colour. */
  lemma ShadeHitLights(w: World, lighting: Lighting, comps: Computations<Shape>)
    ensures w.lights == [] ==> ShadeHit(w, lighting, comps) == Black
    ensures |w.lights| == 1 ==>
      ShadeHit(w, lighting, comps) ==
      lighting(comps.obj.material, w.lights[0], comps.point, comps.eyev, comps.normalv)
  {
    if |w.lights| == 1 {
      assert w.lights[..0] == [];
      assert LightSum(lighting, comps.obj.material, w.lights[..0], comps.point, comps.eyev, comps.normalv) == Black;
    }
  }

  /** Adding a light adds its colour to what the others give. */
  lemma ShadeHitAddLight(w: World, lighting: Lighting, comps: Computations<Shape>, light: PointLight)
    ensures ShadeHit(w.(lights := w.lights + [light]), lighting, comps) ==
      Add(ShadeHit(w, lighting, comps), lighting(comps.obj.material, light, comps.point, comps.eyev, comps.normalv))
  {
    assert (w.lights + [light])[..|w.lights|] == w.lights;
  }

  /** When no object reports an intersection with a positive t, the ray sees black. */
  lemma ColorAtMiss(w: World, sqrt: real -> real, lighting: Lighting, ray: Ray)
    requires forall x :: x in Candidates(w.objects, sqrt, ray) ==> x.t <= 0.0
    ensures ColorAt(w, sqrt, lighting, ray) == Black
  {
    HitOfSortedIsLowestPositive(Candidates(w.objects, sqrt, ray));
  }

  /** Otherwise the ray sees the shaded intersection of least positive t: intersections behind
      the ray's origin, and those farther away, are ignored. */
  lemma ColorAtHit(w: World, sqrt: real -> real, lighting: Lighting, ray: Ray)
    requires exists k :: 0 <= k < |Candidates(w.objects, sqrt, ray)| && Candidates(w.objects, sqrt, ray)[k].t > 0.0
    ensures var xs := Candidates(w.objects, sqrt, ray);
      var h := Hit(SortByT(xs));
      && h.Some? && h.value in xs && h.value.t > 0.0
      && (forall k :: 0 <= k < |xs| && xs[k].t > 0.0 ==> h.value.t <= xs[k].t)
      && ColorAt(w, sqrt, lighting, ray) ==
         ShadeHit(w, lighting, Prepare(h.value, ray, NormalFunction(h.value.obj, sqrt)))
  {
    HitOfSortedIsLowestPositive(Candidates(w.objects, sqrt, ray));
  }

  /** A world without objects is black in every direction. */
  lemma EmptyWorldIsBlack(sqrt: real -> real, lighting: Lighting, ray: Ray)
    ensures ColorAt(NewWorld(), sqrt, lighting, ray) == Black
  {
  }
}
