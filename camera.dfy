/** The camera (src/camera.rs): a canvas of hsize x vsize pixels one unit in front of the eye,
    sized by the field of view, and the rendering of a world through it. The tangent of the
    half field of view is computed with a tangent function passed in. */
module Camera {
  import opened Numerics
  import opened Tuples
  import opened Matrices
  import opened Rays
  import opened Materials
  import opened Shapes
  import opened World
  import opened Canvases

  /** The half extents of the canvas and the side of a (square) pixel, in world units. */
  datatype Viewport = Viewport(halfWidth: real, halfHeight: real, pixelSize: real)

  /** The sizing in `Camera::new`: the longer side of the canvas spans the half view and the
      shorter one is scaled by the aspect ratio. */
  function ViewportOf(halfView: real, hsize: nat, vsize: nat): Viewport
  {
    var aspect := Quot(hsize as real, vsize as real);
    var halfWidth := if aspect >= 1.0 then halfView else halfView * aspect;
    var halfHeight := if aspect >= 1.0 then Quot(halfView, aspect) else halfView;
    Viewport(halfWidth, halfHeight, Quot(halfWidth * 2.0, hsize as real))
  }

  /** The centre of pixel (px, py) on the canvas, at z = -1 in camera space; x grows to the
      left of the image and y downwards. */
  function CanvasPoint(view: Viewport, px: nat, py: nat): Tuple
  {
    Point(view.halfWidth - (px as real + 0.5) * view.pixelSize,
          view.halfHeight - (py as real + 0.5) * view.pixelSize, -1.0)
  }

  /** `ray_for_pixel`, with the inverse of the camera transform: from the eye, transformed,
      towards the transformed centre of the pixel. */
  function PixelRay(inverse: Matrix4, view: Viewport, sqrt: real -> real, px: nat, py: nat): Ray
  {
    var pixel := Apply(inverse, CanvasPoint(view, px, py));
    var origin := Apply(inverse, Point(0.0, 0.0, 0.0));
    Ray(origin, Normalize(sqrt, Sub(pixel, origin)))
  }

  class Camera {
    const hsize: nat
    const vsize: nat
    const fieldOfView: real
    var transform: Matrix4
    var inversedTransform: Matrix4
    const pixelSize: real
    const halfWidth: real
    const halfHeight: real

    /** `Camera::new`: sized by the tangent of half the field of view, untransformed. */
    constructor (hsize: nat, vsize: nat, fieldOfView: real, tan: real -> real)
      ensures this.hsize == hsize && this.vsize == vsize && this.fieldOfView == fieldOfView
      ensures transform == Identity && inversedTransform == Identity
      ensures Viewport(halfWidth, halfHeight, pixelSize) == ViewportOf(tan(fieldOfView / 2.0), hsize, vsize)
    {
      var view := ViewportOf(tan(fieldOfView / 2.0), hsize, vsize);
      this.hsize := hsize;
      this.vsize := vsize;
      this.fieldOfView := fieldOfView;
      transform := Identity;
      inversedTransform := Identity;
      pixelSize := view.pixelSize;
      halfWidth := view.halfWidth;
      halfHeight := view.halfHeight;
    }

    /** `set_transform`: stores the transform and caches its inverse (the inversion is passed
        in); the sizing stays. */
    method SetTransform(t: Matrix4, inverse: Matrix4 -> Matrix4)
      modifies this
      ensures transform == t && inversedTransform == inverse(t)
    {
      transform := t;
      inversedTransform := inverse(t);
    }

    /** `ray_for_pixel` on this camera's sizing and transform. */
    function RayForPixel(sqrt: real -> real, px: nat, py: nat): Ray
      reads this
    {
      PixelRay(inversedTransform, Viewport(halfWidth, halfHeight, pixelSize), sqrt, px, py)
    }

    /** The picture p shows the world: each entry is the colour seen along its pixel's ray. */
    ghost predicate Shows(p: seq<seq<Tuple>>, w: World, sqrt: real -> real, lighting: Lighting)
      reads this, w.objects
    {
      && |p| == vsize && (forall y :: 0 <= y < vsize ==> |p[y]| == hsize)
      && forall y, x {:trigger RayForPixel(sqrt, x, y)} :: 0 <= y < vsize && 0 <= x < hsize ==>
           p[y][x] == ColorAt(w, sqrt, lighting, RayForPixel(sqrt, x, y))
    }

    /** The colours the world shows along the pixels' rays, row by row. */
    lemma Picture(w: World, sqrt: real -> real, lighting: Lighting) returns (p: seq<seq<Tuple>>)
      ensures Shows(p, w, sqrt, lighting)
    {
      p := seq(vsize, (y: int) requires 0 <= y reads this, w.objects =>
        seq(hsize, (x: int) requires 0 <= x && 0 <= y reads this, w.objects =>
          ColorAt(w, sqrt, lighting, RayForPixel(sqrt, x, y))));
    }

    /** The body of the loop of `render` up to the write: the ray of the pixel and the colour the
        world shows along it, which is the picture's entry. */
    method PixelColor(w: World, sqrt: real -> real, lighting: Lighting, x: nat, y: nat,
                      ghost picture: seq<seq<Tuple>>) returns (color: Tuple)
      requires x < hsize && y < vsize && Shows(picture, w, sqrt, lighting)
      ensures color == picture[y][x]
    {
      var ray := RayForPixel(sqrt, x, y);
      color := ColorAt(w, sqrt, lighting, ray);
    }

    /** `render`: every pixel of a fresh hsize x vsize canvas is the colour the world shows
        along that pixel's ray, row by row. Rendering changes no object of the world, so the
        colour is the one of the world as it was when rendering began. */
    method Render(w: World, sqrt: real -> real, lighting: Lighting) returns (image: Canvas)
      ensures fresh(image) && image.Valid() && image.width == hsize && image.height == vsize
      ensures forall y, x :: 0 <= y < vsize && 0 <= x < hsize ==>
                image.PixelAt(x, y) == old(ColorAt(w, sqrt, lighting, RayForPixel(sqrt, x, y)))
    {
      ghost var picture := Picture(w, sqrt, lighting);
      image := new Canvas(hsize, vsize);
      for y := 0 to vsize
        invariant fresh(image) && image.Valid() && image.width == hsize && image.height == vsize
        invariant unchanged(this) && unchanged(w.objects)
        invariant forall j, i :: 0 <= j < y && 0 <= i < hsize ==> image.PixelAt(i, j) == picture[j][i]
      {
        for x := 0 to hsize
          invariant fresh(image) && image.Valid() && image.width == hsize && image.height == vsize
          invariant unchanged(this) && unchanged(w.objects)
          invariant forall j, i :: 0 <= j < y && 0 <= i < hsize ==> image.PixelAt(i, j) == picture[j][i]
          invariant forall i :: 0 <= i < x ==> image.PixelAt(i, y) == picture[y][i]
        {
          var color := PixelColor(w, sqrt, lighting, x, y, picture);
          image.WritePixel(x, y, color);
        }
      }
    }
  }

  // ---------------------------------------------------------------------------------------------
  // Properties

  /** The ray of a pixel starts at the transformed eye and, after travelling the distance to
      the transformed centre of the pixel, reaches it (when that distance is not zero). Under an
      affine transform its origin is a point and its direction a vector. */
  lemma PixelRayReachesPixel(inverse: Matrix4, view: Viewport, sqrt: real -> real, px: nat, py: nat)
    ensures var r := PixelRay(inverse, view, sqrt, px, py);
      var target := Apply(inverse, CanvasPoint(view, px, py));
      var distance := Magnitude(sqrt, Sub(target, r.origin));
      && r.origin == Apply(inverse, Point(0.0, 0.0, 0.0))
      && (distance != 0.0 ==> Position(r, distance) == target)
      && (IsAffine(inverse) ==> IsPoint(r.origin) && IsVector(r.direction))
  {
    var target := Apply(inverse, CanvasPoint(view, px, py));
    var origin := Apply(inverse, Point(0.0, 0.0, 0.0));
    DivProperties(Sub(target, origin), Magnitude(sqrt, Sub(target, origin)));
    ApplyAffineKind(inverse, CanvasPoint(view, px, py));
    ApplyAffineKind(inverse, Point(0.0, 0.0, 0.0));
  }

  /** Keeping the aspect ratio: half width over half height is hsize over vsize, the pixels
      are square (pixel_size covers the width and the height alike), and the longer side spans
      the half view. */
  lemma ViewportShape(halfView: real, hsize: nat, vsize: nat)
    requires hsize > 0 && vsize > 0
    ensures var v := ViewportOf(halfView, hsize, vsize);
      && v.halfWidth * vsize as real == v.halfHeight * hsize as real
      && v.pixelSize * hsize as real == 2.0 * v.halfWidth
      && v.pixelSize * vsize as real == 2.0 * v.halfHeight
      && (hsize >= vsize ==> v.halfWidth == halfView)
      && (hsize <= vsize ==> v.halfHeight == halfView)
  {
    var h, n := hsize as real, vsize as real;
    var v := ViewportOf(halfView, hsize, vsize);
    var aspect := Quot(h, n);
    assert aspect * n == h;
    AspectOrder(h, n, aspect);
    if aspect >= 1.0 {
      assert v.halfHeight * aspect == halfView;
      SameProduct(v.halfHeight, aspect, n, halfView);
    } else {
      assert v.halfWidth == halfView * aspect;
      assert v.halfWidth * n == halfView * (aspect * n);
    }
    assert v.pixelSize * h == 2.0 * v.halfWidth;
    SquarePixels(v.pixelSize, v.halfWidth, v.halfHeight, h, n);
  }

  lemma AspectOrder(h: real, n: real, aspect: real)
    requires h > 0.0 && n > 0.0 && aspect * n == h
    ensures aspect >= 1.0 <==> h >= n
    ensures aspect <= 1.0 <==> h <= n
  {
    if aspect >= 1.0 {
      assert (aspect - 1.0) * n >= 0.0;
    }
    if aspect <= 1.0 {
      assert (1.0 - aspect) * n >= 0.0;
    }
  }

  /** y * a = x and a * n = h give y * h = x * n. */
  lemma SameProduct(y: real, a: real, n: real, x: real)
    requires y * a == x
    ensures y * (a * n) == x * n
  {
    assert y * (a * n) == (y * a) * n;
  }

  /** A pixel side covering the width covers the height when the halves keep the ratio. */
  lemma SquarePixels(s: real, hw: real, hh: real, h: real, n: real)
    requires h > 0.0 && s * h == 2.0 * hw && hw * n == hh * h
    ensures s * n == 2.0 * hh
  {
    assert (s * n) * h == (s * h) * n;
    assert (s * n) * h == (2.0 * hh) * h;
    ProductCancels(s * n, 2.0 * hh, h);
  }

  /** The unit tests' pixel sizes: with a quarter-turn field of view (half view 1) a 200 x 125
      and a 125 x 200 canvas both have pixels 0.01 wide. */
  lemma PixelSizeExamples()
    ensures ViewportOf(1.0, 200, 125).pixelSize == 0.01
    ensures ViewportOf(1.0, 125, 200).pixelSize == 0.01
  {
  }

  /** The centre pixel of a canvas of odd width and height sits on the axis: for an
      untransformed camera its ray starts at the origin and points straight down -z. Of the
      square root only sqrt(1) = 1 is needed. */
  lemma CentrePixelRay(halfView: real, hsize: nat, vsize: nat, sqrt: real -> real)
    requires hsize % 2 == 1 && vsize % 2 == 1
    requires sqrt(1.0) == 1.0
    ensures PixelRay(Identity, ViewportOf(halfView, hsize, vsize), sqrt, hsize / 2, vsize / 2) ==
            Ray(Point(0.0, 0.0, 0.0), Vector(0.0, 0.0, -1.0))
  {
    var down := Vector(0.0, 0.0, -1.0);
    assert Normalize(sqrt, down) == down by {
      assert Magnitude(sqrt, down) == 1.0;
    }
    assert Sub(Point(0.0, 0.0, -1.0), Point(0.0, 0.0, 0.0)) == down;
    CentreCanvasPoint(halfView, hsize, vsize);
    UntransformedPixelRay(ViewportOf(halfView, hsize, vsize), sqrt, hsize / 2, vsize / 2);
  }

  /** Without a transform, the ray of a pixel leaves the origin towards the pixel's centre. */
  lemma UntransformedPixelRay(view: Viewport, sqrt: real -> real, px: nat, py: nat)
    ensures PixelRay(Identity, view, sqrt, px, py) ==
            Ray(Point(0.0, 0.0, 0.0), Normalize(sqrt, Sub(CanvasPoint(view, px, py), Point(0.0, 0.0, 0.0))))
  {
    ApplyIdentity(CanvasPoint(view, px, py));
    ApplyIdentity(Point(0.0, 0.0, 0.0));
  }

  /** The centre of the middle pixel of an odd-sized canvas is the point straight ahead. */
  lemma CentreCanvasPoint(halfView: real, hsize: nat, vsize: nat)
    requires hsize % 2 == 1 && vsize % 2 == 1
    ensures CanvasPoint(ViewportOf(halfView, hsize, vsize), hsize / 2, vsize / 2) == Point(0.0, 0.0, -1.0)
  {
    var view := ViewportOf(halfView, hsize, vsize);
    ViewportShape(halfView, hsize, vsize);
    HalfOfOdd(hsize, view.pixelSize, view.halfWidth);
    HalfOfOdd(vsize, view.pixelSize, view.halfHeight);
  }

  /** Neighbouring pixel centres are one pixel apart: one column to the right moves the
      centre pixel_size to the left (-x), one row down moves it pixel_size down (-y). */
  lemma CanvasPointSpacing(view: Viewport, px: nat, py: nat)
    ensures var p := CanvasPoint(view, px, py);
      && CanvasPoint(view, px + 1, py) == p.(x := p.x - view.pixelSize)
      && CanvasPoint(view, px, py + 1) == p.(y := p.y - view.pixelSize)
  {
  }

  /** Every pixel centre of a canvas with a positive half view lies strictly inside the
      canvas: |x| < half_width and |y| < half_height. */
  lemma CanvasPointInside(halfView: real, hsize: nat, vsize: nat, px: nat, py: nat)
    requires halfView > 0.0 && px < hsize && py < vsize
    ensures var view := ViewportOf(halfView, hsize, vsize);
      var p := CanvasPoint(view, px, py);
      && -view.halfWidth < p.x < view.halfWidth
      && -view.halfHeight < p.y < view.halfHeight
  {
    var view := ViewportOf(halfView, hsize, vsize);
    ViewportShape(halfView, hsize, vsize);
    HalvesPositive(halfView, view.halfWidth, view.halfHeight, hsize as real, vsize as real);
    InsideHalf(view.halfWidth, view.pixelSize, hsize, px);
    InsideHalf(view.halfHeight, view.pixelSize, vsize, py);
  }

  /** Half extents in the ratio of the sides, the longer one the (positive) half view, are both
      positive. */
  lemma HalvesPositive(halfView: real, hw: real, hh: real, h: real, n: real)
    requires halfView > 0.0 && h > 0.0 && n > 0.0 && hw * n == hh * h
    requires (h >= n ==> hw == halfView) && (h <= n ==> hh == halfView)
    ensures hw > 0.0 && hh > 0.0
  {
    if h >= n {
      PositiveFactor(hh, h, halfView * n);
    } else {
      PositiveFactor(hw, n, halfView * h);
    }
  }

  /** a * b = c with b and c positive makes a positive. */
  lemma PositiveFactor(a: real, b: real, c: real)
    requires b > 0.0 && c > 0.0 && a * b == c
    ensures a > 0.0
  {
    assert a == c / b;
  }

  /** The centre of cell k of `size` cells of side s, counted from +half, lies strictly
      between -half and half when the cells cover 2 halves. */
  lemma InsideHalf(half: real, s: real, size: nat, k: nat)
    requires half > 0.0 && k < size && s * size as real == 2.0 * half
    ensures -half < half - (k as real + 0.5) * s < half
  {
    PositiveFactor(s, size as real, 2.0 * half);
    var c := k as real + 0.5;
    assert c * s > 0.0;
    assert size as real - c > 0.0;
    assert (size as real - c) * s > 0.0;
    assert (size as real - c) * s == size as real * s - c * s;
  }

  /** For an odd size 2k + 1, (k + 0.5) pixels of a side that covers 2 halves make one half. */
  lemma HalfOfOdd(size: nat, s: real, half: real)
    requires size % 2 == 1 && s * size as real == 2.0 * half
    ensures (size / 2) as real + 0.5 == size as real / 2.0
    ensures ((size / 2) as real + 0.5) * s == half
  {
    assert size == 2 * (size / 2) + 1;
    assert size as real == 2.0 * (size / 2) as real + 1.0;
  }
}
