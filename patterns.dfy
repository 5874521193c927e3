/** Patterns (src/patterns.rs): colours that vary over a shape's surface. The only kind is the
    stripe, which alternates between two colours across unit bands of x. A pattern has its own
    transformation with a cached inverse, applied after the shape's. */
module Patterns {
  import opened Numerics
  import opened Tuples
  import opened Matrices
  import opened Shapes

  /** `PatternType::Stripe { a, b }`. */
  datatype PatternType = Stripe(a: Tuple, b: Tuple)

  /** `PatternType::pattern_at`: the source tests `point.x.floor() % 2. == 0.` with Rust's
      truncating float remainder; the result is colour a exactly when floor(x) is even, for
      negative x too. */
  function PatternAt(pattern: PatternType, p: Tuple): (c: Tuple)
    ensures c == if p.x.Floor % 2 == 0 then pattern.a else pattern.b
  {
    FRemTwoZeroIffEven(p.x.Floor);
    match pattern
    case Stripe(a, b) => if FRem(p.x.Floor as real, 2.0) == 0.0 then a else b
  }

  class Pattern {
    var transform: Matrix4
    var inversedTransform: Matrix4
    const patternType: PatternType

    /** `Pattern::new`: the identity transform and inverse. */
    constructor (patternType: PatternType)
      ensures this.patternType == patternType
      ensures transform == Identity && inversedTransform == Identity
    {
      this.patternType := patternType;
      transform := Identity;
      inversedTransform := Identity;
    }

    /** `Pattern::stripe`: a new stripe pattern of a and b. */
    static method NewStripe(a: Tuple, b: Tuple) returns (p: Pattern)
      ensures fresh(p)
      ensures p.patternType == Stripe(a, b)
      ensures p.transform == Identity && p.inversedTransform == Identity
    {
      p := new Pattern(Stripe(a, b));
    }

    /** `Pattern::set_transform`: stores the transform and caches its inverse. */
    method SetTransform(t: Matrix4, inverse: Matrix4 -> Matrix4)
      modifies this
      ensures transform == t && inversedTransform == inverse(t)
    {
      transform := t;
      inversedTransform := inverse(t);
    }

    /** `Pattern::pattern_at_shape`: the world point is taken into the object's space and from
        there into the pattern's, which is the same as applying the product of the two
        inverses, the pattern's on the left. */
    function PatternAtShape(obj: Shape, p: Tuple): (c: Tuple)
      reads this, obj
      ensures c == PatternAt(patternType, Apply(Product(inversedTransform, obj.inversedTransform), p))
    {
      ApplyProduct(inversedTransform, obj.inversedTransform, p);
      PatternAt(patternType, Apply(inversedTransform, Apply(obj.inversedTransform, p)))
    }
  }

  // ---------------------------------------------------------------------------------------------
  // Properties

  /** The stripe depends on x alone: it is constant in y and z. */
  lemma StripeIgnoresYAndZ(pattern: PatternType, p: Tuple, q: Tuple)
    requires p.x == q.x
    ensures PatternAt(pattern, p) == PatternAt(pattern, q)
  {
  }

  /** The stripe repeats every two units of x. */
  lemma StripePeriodic(pattern: PatternType, p: Tuple)
    ensures PatternAt(pattern, p.(x := p.x + 2.0)) == PatternAt(pattern, p)
  {
    FloorShift(p.x, 2);
    ParityShift(p.x.Floor);
  }

  /** Moving one unit along x switches to the other band: from an a band to a b band and back. */
  lemma StripeAlternates(pattern: PatternType, p: Tuple)
    ensures PatternAt(pattern, p.(x := p.x + 1.0)) ==
            if p.x.Floor % 2 == 0 then pattern.b else pattern.a
  {
    FloorShift(p.x, 1);
    ParityShift(p.x.Floor);
  }

  lemma FloorShift(x: real, k: int)
    ensures (x + k as real).Floor == x.Floor + k
  {
  }

  /** Adding one flips the parity of an integer and adding two keeps it. */
  lemma ParityShift(n: int)
    ensures (n + 1) % 2 == 0 <==> n % 2 != 0
    ensures (n + 2) % 2 == n % 2
  {
    var q := n / 2;
    assert n == 2 * q + n % 2;
    assert n + 1 == 2 * q + (n % 2 + 1);
    assert n + 2 == 2 * (q + 1) + n % 2;
  }

  /** The bands of the unit test: [0, 1) is a, [1, 2) is b, [-1, 0) is b (so -0.1 and -1 give
      b) and [-2, -1) is a (so -1.1 gives a). */
  lemma StripeBands(pattern: PatternType, p: Tuple)
    ensures 0.0 <= p.x < 1.0 ==> PatternAt(pattern, p) == pattern.a
    ensures 1.0 <= p.x < 2.0 ==> PatternAt(pattern, p) == pattern.b
    ensures -1.0 <= p.x < 0.0 ==> PatternAt(pattern, p) == pattern.b
    ensures -2.0 <= p.x < -1.0 ==> PatternAt(pattern, p) == pattern.a
  {
  }

  /** With neither the object nor the pattern transformed, the colour at a world point is the
      pattern's own colour there. */
  lemma UntransformedPatternAtShape(pattern: Pattern, obj: Shape, p: Tuple)
    requires pattern.inversedTransform == Identity && obj.inversedTransform == Identity
    ensures pattern.PatternAtShape(obj, p) == PatternAt(pattern.patternType, p)
  {
    ApplyIdentity(p);
  }
}
