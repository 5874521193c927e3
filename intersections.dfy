/** Intersections of a ray with objects (src/intersections.rs): aggregating them in order of
    distance, choosing the hit, and the precomputed shading state of a hit.

    The source's intersection holds a reference to the object it hit and compares objects by
    address (`ptr::eq`). Here the object type is a parameter O; the renderer instantiates it
    with the class of shapes, whose equality is reference identity. */
module Intersections {
  import opened Tuples
  import opened Rays

  datatype Option<T> = None | Some(value: T)

  /** `Intersection { t, object }`; `Intersection::new` stores both unchanged. Equality of two
      intersections is the source's `PartialEq`: the same t and the same object. */
  datatype Intersection<O> = Intersection(t: real, obj: O)

  /** Ascending by t. */
  ghost predicate Sorted<O>(xs: seq<Intersection<O>>)
  {
    forall i, j :: 0 <= i < j < |xs| ==> xs[i].t <= xs[j].t
  }

  /** Every entry has a t of at least b. */
  ghost predicate AllAtLeast<O>(xs: seq<Intersection<O>>, b: real)
  {
    forall i :: 0 <= i < |xs| ==> xs[i].t >= b
  }

  /** Puts x in front of the first element with a t not below x's. */
  function Insert<O(==)>(x: Intersection<O>, xs: seq<Intersection<O>>): (r: seq<Intersection<O>>)
    ensures multiset(r) == multiset(xs) + multiset{x}
  {
    if xs == [] || x.t <= xs[0].t then
      [x] + xs
    else
      assert xs == [xs[0]] + xs[1..];
      [xs[0]] + Insert(x, xs[1..])
  }

  /** `intersections`: the candidates sorted by t with the standard library's stable sort,
      here a stable insertion sort. The comparison cannot fail over reals. */
  function SortByT<O(==)>(xs: seq<Intersection<O>>): (r: seq<Intersection<O>>)
    ensures multiset(r) == multiset(xs)
    ensures Sorted(r)
  {
    if xs == [] then
      []
    else
      assert xs == [xs[0]] + xs[1..];
      var rest := SortByT(xs[1..]);
      InsertKeepsSorted(xs[0], rest);
      Insert(xs[0], rest)
  }

  lemma {:induction false} InsertKeepsSorted<O>(x: Intersection<O>, xs: seq<Intersection<O>>)
    requires Sorted(xs)
    ensures Sorted(Insert(x, xs))
  {
    if xs == [] || x.t <= xs[0].t {
      SortedCons(x, xs);
    } else {
      InsertKeepsSorted(x, xs[1..]);
      SortedTail(xs);
      InsertAtLeast(x, xs[1..], xs[0].t);
      SortedCons(xs[0], Insert(x, xs[1..]));
    }
  }

  /** Inserting an element of t at least b into a list whose entries are all at least b keeps
      them all at least b. */
  lemma {:induction false} InsertAtLeast<O>(x: Intersection<O>, xs: seq<Intersection<O>>, b: real)
    requires AllAtLeast(xs, b) && x.t >= b
    ensures AllAtLeast(Insert(x, xs), b)
  {
    if xs != [] && x.t > xs[0].t {
      InsertAtLeast(x, xs[1..], b);
    }
  }

  lemma SortedTail<O>(xs: seq<Intersection<O>>)
    requires Sorted(xs) && xs != []
    ensures Sorted(xs[1..]) && AllAtLeast(xs[1..], xs[0].t)
  {
  }

  lemma SortedCons<O>(x: Intersection<O>, xs: seq<Intersection<O>>)
    requires Sorted(xs) && AllAtLeast(xs, x.t)
    ensures Sorted([x] + xs)
  {
  }

  /** `hit`: the first intersection with a strictly positive t, if there is one. */
  function Hit<O>(xs: seq<Intersection<O>>): (r: Option<Intersection<O>>)
    ensures r.None? <==> forall i :: 0 <= i < |xs| ==> xs[i].t <= 0.0
    ensures r.Some? ==> r.value in xs && r.value.t > 0.0
  {
    if xs == [] then
      None
    else if xs[0].t > 0.0 then
      Some(xs[0])
    else
      Hit(xs[1..])
  }

  /** Entry k has a positive t and no entry before it does. */
  ghost predicate IsFirstPositive<O>(xs: seq<Intersection<O>>, k: int)
    requires 0 <= k < |xs|
  {
    xs[k].t > 0.0 && forall j :: 0 <= j < k ==> xs[j].t <= 0.0
  }

  /** The shading state of a hit (`Computations`). */
  datatype Computations<O> = Computations(t: real, obj: O, point: Tuple, eyev: Tuple,
                                          normalv: Tuple, inside: bool)

  /** `Computations::prepare`. The object's `normal_at` is passed in as `normalAt`. The eye
      vector points back along the ray; a normal that points away from the eye is turned
      round and the hit marked as inside the object. */
  function Prepare<O>(i: Intersection<O>, ray: Ray, normalAt: Tuple -> Tuple): (c: Computations<O>)
    ensures c.t == i.t && c.obj == i.obj
    ensures c.point == Position(ray, i.t) && c.eyev == Neg(ray.direction)
    ensures c.inside <==> Dot(normalAt(c.point), c.eyev) < 0.0
    ensures c.normalv == (if c.inside then Neg(normalAt(c.point)) else normalAt(c.point))
    ensures Dot(c.normalv, c.eyev) >= 0.0
  {
    var point := Position(ray, i.t);
    var eyev := Neg(ray.direction);
    var normalv := normalAt(point);
    DotNegLeft(normalv, eyev);
    if Dot(normalv, eyev) < 0.0 then
      Computations(i.t, i.obj, point, eyev, Neg(normalv), true)
    else
      Computations(i.t, i.obj, point, eyev, normalv, false)
  }

  // ---------------------------------------------------------------------------------------------
  // Properties

  /** Two intersections are equal exactly when their t values and their objects are. */
  lemma EqualityIsTAndObject<O>(a: Intersection<O>, b: Intersection<O>)
    ensures a == b <==> a.t == b.t && a.obj == b.obj
  {
  }

  /** The hit is the first entry with a positive t: every entry before it has t <= 0. */
  lemma {:induction false} HitIsFirstPositive<O>(xs: seq<Intersection<O>>)
    requires Hit(xs).Some?
    ensures exists k :: 0 <= k < |xs| && xs[k] == Hit(xs).value && IsFirstPositive(xs, k)
  {
    if xs[0].t > 0.0 {
      assert IsFirstPositive(xs, 0);
    } else {
      HitIsFirstPositive(xs[1..]);
      var k :| 0 <= k < |xs[1..]| && xs[1..][k] == Hit(xs[1..]).value && IsFirstPositive(xs[1..], k);
      assert IsFirstPositive(xs, k + 1);
    }
  }

  /** On sorted input the hit is the intersection with the least positive t. */
  lemma {:induction false} HitIsLeastPositive<O>(xs: seq<Intersection<O>>)
    requires Sorted(xs)
    requires Hit(xs).Some?
    ensures Hit(xs).value.t > 0.0
    ensures forall i :: 0 <= i < |xs| && xs[i].t > 0.0 ==> Hit(xs).value.t <= xs[i].t
  {
    HitIsFirstPositive(xs);
    var k :| 0 <= k < |xs| && xs[k] == Hit(xs).value && IsFirstPositive(xs, k);
    forall i | 0 <= i < |xs| && xs[i].t > 0.0
      ensures xs[k].t <= xs[i].t
    {
      assert !(i < k);
    }
  }

  /** The hit of the sorted intersections is one of the candidates, and no candidate has a
      smaller positive t: the test "the hit is always the lowest non-negative intersection". */
  lemma HitOfSortedIsLowestPositive<O>(xs: seq<Intersection<O>>)
    ensures var h := Hit(SortByT(xs));
      (h.None? <==> forall i :: 0 <= i < |xs| ==> xs[i].t <= 0.0) &&
      (h.Some? ==> h.value in xs && h.value.t > 0.0 &&
                   forall i :: 0 <= i < |xs| && xs[i].t > 0.0 ==> h.value.t <= xs[i].t)
  {
    var s := SortByT(xs);
    SameElements(xs, s);
    if Hit(s).Some? {
      HitIsLeastPositive(s);
    }
  }

  /** Two lists with the same multiset hold the same elements. */
  lemma SameElements<T>(xs: seq<T>, ys: seq<T>)
    requires multiset(xs) == multiset(ys)
    ensures forall i :: 0 <= i < |xs| ==> xs[i] in ys
    ensures forall i :: 0 <= i < |ys| ==> ys[i] in xs
  {
    forall i | 0 <= i < |xs|
      ensures xs[i] in ys
    {
      assert xs[i] in multiset(xs);
    }
    forall i | 0 <= i < |ys|
      ensures ys[i] in xs
    {
      assert ys[i] in multiset(ys);
    }
  }

  /** The intersections with a given t, in order. */
  function Ties<O>(xs: seq<Intersection<O>>, c: real): (r: seq<Intersection<O>>)
    ensures |r| <= |xs|
  {
    if xs == [] then []
    else if xs[0].t == c then [xs[0]] + Ties(xs[1..], c)
    else Ties(xs[1..], c)
  }

  lemma {:induction false} InsertTies<O>(x: Intersection<O>, xs: seq<Intersection<O>>, c: real)
    ensures Ties(Insert(x, xs), c) == if x.t == c then [x] + Ties(xs, c) else Ties(xs, c)
  {
    if xs == [] || x.t <= xs[0].t {
      assert Insert(x, xs)[1..] == xs;
    } else {
      InsertTies(x, xs[1..], c);
      assert Insert(x, xs)[1..] == Insert(x, xs[1..]);
    }
  }

  /** The sort is stable: intersections with equal t keep their input order, as with the
      standard library's `sort_by`. */
  lemma {:induction false} SortIsStable<O>(xs: seq<Intersection<O>>, c: real)
    ensures Ties(SortByT(xs), c) == Ties(xs, c)
  {
    if xs != [] {
      SortIsStable(xs[1..], c);
      InsertTies(xs[0], SortByT(xs[1..]), c);
    }
  }
}
