/**
 * The line drawing of the first renderer: DrawLine
 * (TinyRenderer/src/our_gl.cpp, TinyRenderer/src/drawing.cpp) and its
 * earlier copy draw_line (TinyRenderer/src/line.cpp), and the wireframe
 * pass RenderWireframe (TinyRenderer/src/render.cpp) built on it.
 */
module LegacyDrawing {
  import opened RealMath
  import opened LinAlg

  /** One call of TGAImage::set(x, y, color). */
  datatype Plot<C> = Plot(x: int, y: int, color: C)

  /**
   * A TGAImage as the drawing code uses it. The body of TGAImage is not
   * part of this model, so the canvas keeps its size and the sequence of
   * set calls made on it.
   */
  class Canvas<C> {
    const width: int
    const height: int
    var plots: seq<Plot<C>>

    /** TGAImage(w, h, bpp): nothing drawn yet. */
    constructor (width: int, height: int)
      ensures this.width == width && this.height == height && plots == []
    {
      this.width, this.height := width, height;
      plots := [];
    }

    /** set(x, y, color). */
    method Set(x: int, y: int, c: C)
      modifies this
      ensures plots == old(plots) + [Plot(x, y, c)]
    {
      plots := plots + [Plot(x, y, c)];
    }
  }

  /** The set calls that plot the points in order, all in one colour. */
  function Plots<C>(points: seq<(int, int)>, c: C): (r: seq<Plot<C>>)
    ensures |r| == |points|
  {
    seq(|points|, k requires 0 <= k < |points| => Plot(points[k].0, points[k].1, c))
  }

  lemma PlotsAppend<C>(a: seq<(int, int)>, b: seq<(int, int)>, c: C)
    ensures Plots(a + b, c) == Plots(a, c) + Plots(b, c)
  {
    assert forall k :: 0 <= k < |a + b| ==> Plots(a + b, c)[k] == (Plots(a, c) + Plots(b, c))[k];
  }

  // ---------------------------------------------------------------------------
  // DrawLine
  // ---------------------------------------------------------------------------

  function Abs(n: int): (r: nat)
    ensures r == n || r == -n
  {
    if n < 0 then -n else n
  }

  /** larger_diff = max(|x1 - x0|, |y1 - y0|): the number of steps of the line. */
  function LargerDiff(x0: int, y0: int, x1: int, y1: int): (r: nat)
    ensures Abs(x1 - x0) <= r && Abs(y1 - y0) <= r
    ensures r == Abs(x1 - x0) || r == Abs(y1 - y0)
  {
    if Abs(x1 - x0) >= Abs(y1 - y0) then Abs(x1 - x0) else Abs(y1 - y0)
  }

  /** t = i / larger_diff, or 0 when the endpoints coincide. */
  function Step(i: int, larger: nat): real
  {
    if larger == 0 then 0.0 else i as real / larger as real
  }

  /** int x = x0 + (x1 - x0) * t: evaluated in floating point, then truncated. */
  function Lerp(a: int, b: int, t: real): int
  {
    Trunc(a as real + (b - a) as real * t)
  }

  /** The point plotted at step i. */
  function LinePoint(x0: int, y0: int, x1: int, y1: int, i: int): (int, int)
  {
    var t := Step(i, LargerDiff(x0, y0, x1, y1));
    (Lerp(x0, x1, t), Lerp(y0, y1, t))
  }

  /** The points DrawLine plots, for i = 0 .. larger_diff. */
  function LinePoints(x0: int, y0: int, x1: int, y1: int): (r: seq<(int, int)>)
    ensures |r| == LargerDiff(x0, y0, x1, y1) + 1
  {
    seq(LargerDiff(x0, y0, x1, y1) + 1, i => LinePoint(x0, y0, x1, y1, i))
  }

  /**
   * DrawLine(x0, y0, x1, y1, image, color): one set per step. The same loop
   * is draw_line in line.cpp and DrawLine in drawing.cpp.
   */
  method DrawLine<C>(x0: int, y0: int, x1: int, y1: int, image: Canvas<C>, color: C)
    modifies image
    ensures image.plots == old(image.plots) + Plots(LinePoints(x0, y0, x1, y1), color)
  {
    var xDiff := Abs(x1 - x0);
    var yDiff := Abs(y1 - y0);
    var largerDiff := if xDiff >= yDiff then xDiff else yDiff;
    ghost var points := LinePoints(x0, y0, x1, y1);
    ghost var start := image.plots;
    var i := 0;
    while i <= largerDiff
      invariant 0 <= i <= largerDiff + 1 == |points|
      invariant image.plots == start + Plots(points[..i], color)
    {
      var t := if largerDiff == 0 then 0.0 else i as real / largerDiff as real;
      var x, y := Lerp(x0, x1, t), Lerp(y0, y1, t);
      assert t == Step(i, LargerDiff(x0, y0, x1, y1));
      image.Set(x, y, color);
      assert points[..i + 1] == points[..i] + [(x, y)];
      PlotsAppend(points[..i], [(x, y)], color);
      i := i + 1;
    }
    assert points[..i] == points;
  }

  /** The line starts at (x0, y0) and ends at (x1, y1). */
  lemma LineEnds(x0: int, y0: int, x1: int, y1: int)
    ensures var p := LinePoints(x0, y0, x1, y1);
      p[0] == (x0, y0) && p[|p| - 1] == (x1, y1)
  {
    var n := LargerDiff(x0, y0, x1, y1);
    LerpEnds(x0, x1);
    LerpEnds(y0, y1);
    if n > 0 {
      DivideByItself(n as real);
      assert Step(0, n) == 0.0 && Step(n, n) == 1.0;
    }
  }

  /** t = 0 gives the start, t = 1 the end. */
  lemma LerpEnds(a: int, b: int)
    ensures Lerp(a, b, 0.0) == a && Lerp(a, b, 1.0) == b
  {
    TruncOfInt(a);
    TruncOfInt(b);
  }

  /** Equal endpoints plot the single pixel (x0, y0). */
  lemma SinglePointLine(x0: int, y0: int)
    ensures LinePoints(x0, y0, x0, y0) == [(x0, y0)]
  {
    LineEnds(x0, y0, x0, y0);
  }

  /** Every plotted point lies in the bounding box of the endpoints. */
  lemma LineInBox(x0: int, y0: int, x1: int, y1: int, i: nat)
    requires i < |LinePoints(x0, y0, x1, y1)|
    ensures var p := LinePoints(x0, y0, x1, y1)[i];
      MinInt(x0, x1) <= p.0 <= MaxInt(x0, x1) && MinInt(y0, y1) <= p.1 <= MaxInt(y0, y1)
  {
    var n := LargerDiff(x0, y0, x1, y1);
    var t := Step(i, n);
    StepIsFraction(i, n);
    LerpBetween(x0, x1, t);
    LerpBetween(y0, y1, t);
  }

  /** Steps 0 .. larger are fractions in [0, 1]. */
  lemma StepIsFraction(i: int, larger: nat)
    requires 0 <= i <= larger
    ensures 0.0 <= Step(i, larger) <= 1.0
  {
    if larger > 0 {
      QuotientAtMostOne(i as real, larger as real);
    }
  }

  lemma QuotientAtMostOne(a: real, b: real)
    requires 0.0 <= a <= b && 0.0 < b
    ensures 0.0 <= a / b <= 1.0
  {
    var q := a / b;
    assert q * b == a;
  }

  lemma LerpBetween(a: int, b: int, t: real)
    requires 0.0 <= t <= 1.0
    ensures MinInt(a, b) <= Lerp(a, b, t) <= MaxInt(a, b)
  {
    InterpolationBetween(a, b, t);
    TruncBetween(a as real + (b - a) as real * t, MinInt(a, b), MaxInt(a, b));
  }

  lemma InterpolationBetween(a: int, b: int, t: real)
    requires 0.0 <= t <= 1.0
    ensures MinInt(a, b) as real <= a as real + (b - a) as real * t <= MaxInt(a, b) as real
  {
    var d := (b - a) as real;
    if a <= b {
      FractionOf(d, t);
    } else {
      FractionOf(-d, t);
      assert -d * t == -(d * t);
    }
  }

  lemma FractionOf(d: real, t: real)
    requires 0.0 <= d && 0.0 <= t <= 1.0
    ensures 0.0 <= d * t <= d
  {
    assert d - d * t == d * (1.0 - t);
  }

  /**
   * Consecutive points differ by at most one pixel on each axis: larger_diff
   * steps are enough for the line to have no gaps.
   */
  lemma LineConnected(x0: int, y0: int, x1: int, y1: int, i: nat)
    requires i + 1 < |LinePoints(x0, y0, x1, y1)|
    ensures var p, q := LinePoints(x0, y0, x1, y1)[i], LinePoints(x0, y0, x1, y1)[i + 1];
      Abs(q.0 - p.0) <= 1 && Abs(q.1 - p.1) <= 1
  {
    var n := LargerDiff(x0, y0, x1, y1);
    LerpStep(x0, x1, i, n);
    LerpStep(y0, y1, i, n);
  }

  /** From step i to i + 1 the interpolated value moves by (b - a) / n, at most 1. */
  lemma LerpStep(a: int, b: int, i: nat, n: nat)
    requires i < n && Abs(b - a) <= n
    ensures Abs(Lerp(a, b, Step(i + 1, n)) - Lerp(a, b, Step(i, n))) <= 1
  {
    ValuesClose(a, b, i, n);
    LerpNear(a, b, Step(i, n), Step(i + 1, n));
  }

  lemma LerpNear(a: int, b: int, s: real, t: real)
    requires -1.0 <= (a as real + (b - a) as real * t) - (a as real + (b - a) as real * s) <= 1.0
    ensures Abs(Lerp(a, b, t) - Lerp(a, b, s)) <= 1
  {
    TruncNear(a as real + (b - a) as real * s, a as real + (b - a) as real * t);
  }

  lemma ValuesClose(a: int, b: int, i: nat, n: nat)
    requires i < n && Abs(b - a) <= n
    ensures var d := (b - a) as real;
      -1.0 <= (a as real + d * Step(i + 1, n)) - (a as real + d * Step(i, n)) <= 1.0
  {
    var d, m := (b - a) as real, n as real;
    assert -m <= d <= m;
    StepDifference(d, i as real, m);
    UnitStep(d, m);
  }

  lemma StepDifference(d: real, i: real, m: real)
    requires 0.0 < m
    ensures d * ((i + 1.0) / m) - d * (i / m) == d * (1.0 / m)
  {
    assert (i + 1.0) / m == i / m + 1.0 / m;
  }

  lemma UnitStep(d: real, m: real)
    requires 0.0 < m && -m <= d <= m
    ensures -1.0 <= d * (1.0 / m) <= 1.0
  {
    var k := 1.0 / m;
    assert 0.0 < k;
    assert m * k == 1.0;
    assert d * k <= m * k;
    assert -m * k <= d * k;
  }

  /** Values at most 1 apart truncate to integers at most 1 apart. */
  lemma TruncNear(u: real, v: real)
    requires -1.0 <= v - u <= 1.0
    ensures Abs(Trunc(v) - Trunc(u)) <= 1
  {
    if u <= v {
      TruncMonotone(u, v);
      TruncMonotone(v, u + 1.0);
      TruncShift(u);
    } else {
      TruncMonotone(v, u);
      TruncMonotone(u, v + 1.0);
      TruncShift(v);
    }
  }

  /** Truncation moves by at most 1 when its argument does. */
  lemma TruncShift(x: real)
    ensures Trunc(x + 1.0) <= Trunc(x) + 1
  {
    if 0.0 <= x {
      assert (x + 1.0).Floor == x.Floor + 1;
    } else if x <= -1.0 {
      assert (-x).Floor == (-(x + 1.0)).Floor + 1;
    }
  }

  // ---------------------------------------------------------------------------
  // RenderWireframe
  // ---------------------------------------------------------------------------

  /**
   * What RenderWireframe reads of the OBJ model: vertex positions and faces
   * of vertex indices, of which it uses the first three.
   */
  datatype Mesh = Mesh(verts: seq<Vector>, faces: seq<seq<int>>)
  {
    predicate Valid()
    {
      (forall k :: 0 <= k < |verts| ==> |verts[k]| == 3) &&
      forall i :: 0 <= i < |faces| ==> |faces[i]| >= 3 && forall j :: 0 <= j < 3 ==> 0 <= faces[i][j] < |verts|
    }
  }

  /** int x = (v.x + 1.) * width / 2.: NDC coordinate v as a pixel on an axis of the given size. */
  function ToPixel(v: real, size: int): int
  {
    Trunc((v + 1.0) * size as real / 2.0)
  }

  /** The NDC range [-1, 1] spans the pixels 0 .. size, the ends exactly. */
  lemma NdcToPixel(v: real, size: nat)
    requires -1.0 <= v <= 1.0
    ensures ToPixel(-1.0, size) == 0 && ToPixel(1.0, size) == size
    ensures 0 <= ToPixel(v, size) <= size
  {
    NdcEnds(size);
    NdcScaled(v, size as real);
    TruncBetween((v + 1.0) * size as real / 2.0, 0, size);
  }

  lemma NdcEnds(size: nat)
    ensures ToPixel(-1.0, size) == 0 && ToPixel(1.0, size) == size
  {
    assert (-1.0 + 1.0) * size as real / 2.0 == 0 as real;
    assert (1.0 + 1.0) * size as real / 2.0 == size as real;
    TruncOfInt(0);
    TruncOfInt(size);
  }

  lemma NdcScaled(v: real, n: real)
    requires -1.0 <= v <= 1.0 && 0.0 <= n
    ensures 0.0 <= (v + 1.0) * n / 2.0 <= n
  {
    FractionOf(n, (v + 1.0) / 2.0);
    HalfScaled(v + 1.0, n);
  }

  lemma HalfScaled(a: real, n: real)
    ensures a * n / 2.0 == n * (a / 2.0)
  {
  }

  /** The screen pixel of vertex k of face i. */
  function Corner(m: Mesh, i: nat, k: nat, width: int, height: int): (int, int)
    requires m.Valid() && i < |m.faces| && k < 3
  {
    var v := m.verts[m.faces[i][k]];
    (ToPixel(v[0], width), ToPixel(v[1], height))
  }

  /** Edge j of face i: the line from face[j] to face[(j + 1) % 3]. */
  function Edge(m: Mesh, i: nat, j: nat, width: int, height: int): seq<(int, int)>
    requires m.Valid() && i < |m.faces| && j < 3
  {
    var a, b := Corner(m, i, j, width, height), Corner(m, i, (j + 1) % 3, width, height);
    LinePoints(a.0, a.1, b.0, b.1)
  }

  /** The first k edges of face i, in order. */
  function FaceEdges(m: Mesh, i: nat, k: nat, width: int, height: int): seq<(int, int)>
    requires m.Valid() && i < |m.faces| && k <= 3
  {
    if k == 0 then [] else FaceEdges(m, i, k - 1, width, height) + Edge(m, i, k - 1, width, height)
  }

  /** The points the first n faces plot, faces in index order. */
  function WireframePoints(m: Mesh, n: nat, width: int, height: int): seq<(int, int)>
    requires m.Valid() && n <= |m.faces|
  {
    if n == 0 then [] else WireframePoints(m, n - 1, width, height) + FaceEdges(m, n - 1, 3, width, height)
  }

  /** RenderWireframe(model, color, image): three lines per face, faces in order. */
  method RenderWireframe<C>(m: Mesh, color: C, image: Canvas<C>)
    requires m.Valid()
    modifies image
    ensures image.plots == old(image.plots) + Plots(WireframePoints(m, |m.faces|, image.width, image.height), color)
  {
    ghost var start := image.plots;
    var i := 0;
    while i < |m.faces|
      invariant 0 <= i <= |m.faces|
      invariant image.plots == start + Plots(WireframePoints(m, i, image.width, image.height), color)
    {
      DrawFace(m, i, color, image);
      WireframeStep(m, i, image.width, image.height, color);
      i := i + 1;
    }
  }

  lemma WireframeStep<C>(m: Mesh, i: nat, width: int, height: int, color: C)
    requires m.Valid() && i < |m.faces|
    ensures Plots(WireframePoints(m, i + 1, width, height), color)
         == Plots(WireframePoints(m, i, width, height), color) + Plots(FaceEdges(m, i, 3, width, height), color)
  {
    PlotsAppend(WireframePoints(m, i, width, height), FaceEdges(m, i, 3, width, height), color);
  }

  /** The inner loop of RenderWireframe: edges j = 0, 1, 2 of face i. */
  method DrawFace<C>(m: Mesh, i: nat, color: C, image: Canvas<C>)
    requires m.Valid() && i < |m.faces|
    modifies image
    ensures image.plots == old(image.plots) + Plots(FaceEdges(m, i, 3, image.width, image.height), color)
  {
    ghost var start := image.plots;
    var j := 0;
    while j < 3
      invariant 0 <= j <= 3
      invariant image.plots == start + Plots(FaceEdges(m, i, j, image.width, image.height), color)
    {
      DrawEdge(m, i, j, color, image);
      PlotsAppend(FaceEdges(m, i, j, image.width, image.height), Edge(m, i, j, image.width, image.height), color);
      j := j + 1;
    }
  }

  /** One pass of the inner loop of RenderWireframe: the line from face[j] to face[(j + 1) % 3]. */
  method DrawEdge<C>(m: Mesh, i: nat, j: nat, color: C, image: Canvas<C>)
    requires m.Valid() && i < |m.faces| && j < 3
    modifies image
    ensures image.plots == old(image.plots) + Plots(Edge(m, i, j, image.width, image.height), color)
  {
    var face := m.faces[i];
    var v0, v1 := m.verts[face[j]], m.verts[face[(j + 1) % 3]];
    var x0, y0 := ToPixel(v0[0], image.width), ToPixel(v0[1], image.height);
    var x1, y1 := ToPixel(v1[0], image.width), ToPixel(v1[1], image.height);
    DrawLine(x0, y0, x1, y1, image, color);
  }

  /** Each edge of a face ends where the next one starts: the outline is closed. */
  lemma FaceOutlineClosed(m: Mesh, i: nat, j: nat, width: int, height: int)
    requires m.Valid() && i < |m.faces| && j < 3
    ensures var e, f := Edge(m, i, j, width, height), Edge(m, i, (j + 1) % 3, width, height);
      e[0] == Corner(m, i, j, width, height) && e[|e| - 1] == f[0]
  {
    var a, b := Corner(m, i, j, width, height), Corner(m, i, (j + 1) % 3, width, height);
    var c := Corner(m, i, ((j + 1) % 3 + 1) % 3, width, height);
    LineEnds(a.0, a.1, b.0, b.1);
    LineEnds(b.0, b.1, c.0, c.1);
  }

  /** The first k edges of a face plot its corners 0 .. k - 1. */
  lemma {:induction false} FaceEdgesHaveCorners(m: Mesh, i: nat, k: nat, width: int, height: int)
    requires m.Valid() && i < |m.faces| && k <= 3
    ensures forall c :: 0 <= c < k ==> Corner(m, i, c, width, height) in FaceEdges(m, i, k, width, height)
  {
    if k > 0 {
      var prev, e := FaceEdges(m, i, k - 1, width, height), Edge(m, i, k - 1, width, height);
      assert FaceEdges(m, i, k, width, height) == prev + e;
      FaceEdgesHaveCorners(m, i, k - 1, width, height);
      FaceOutlineClosed(m, i, k - 1, width, height);
      assert e[0] in prev + e;
      forall c | 0 <= c < k - 1
        ensures Corner(m, i, c, width, height) in prev + e
      {
        assert Corner(m, i, c, width, height) in prev;
      }
    }
  }

  /** Every corner of every face drawn so far is plotted. */
  lemma {:induction false} WireframeHasCorners(m: Mesh, n: nat, width: int, height: int, i: nat, k: nat)
    requires m.Valid() && i < n <= |m.faces| && k < 3
    ensures Corner(m, i, k, width, height) in WireframePoints(m, n, width, height)
  {
    var prev, face := WireframePoints(m, n - 1, width, height), FaceEdges(m, n - 1, 3, width, height);
    assert WireframePoints(m, n, width, height) == prev + face;
    if i < n - 1 {
      WireframeHasCorners(m, n - 1, width, height, i, k);
    } else {
      FaceEdgesHaveCorners(m, n - 1, 3, width, height);
    }
  }

  /** Every plotted point lies on one of the three edges of one of the faces. */
  lemma WireframeOnlyEdges(m: Mesh, n: nat, width: int, height: int, p: (int, int))
    requires m.Valid() && n <= |m.faces|
    requires p in WireframePoints(m, n, width, height)
    ensures exists i, j :: 0 <= i < n && 0 <= j < 3 && p in Edge(m, i, j, width, height)
  {
    WireframeOnlyFaces(m, n, width, height, p);
    var i :| 0 <= i < n && p in FaceEdges(m, i, 3, width, height);
    FaceEdgesOnlyEdges(m, i, 3, width, height, p);
    var j :| 0 <= j < 3 && p in Edge(m, i, j, width, height);
  }

  lemma {:induction false} WireframeOnlyFaces(m: Mesh, n: nat, width: int, height: int, p: (int, int))
    requires m.Valid() && n <= |m.faces|
    requires p in WireframePoints(m, n, width, height)
    ensures exists i :: 0 <= i < n && p in FaceEdges(m, i, 3, width, height)
  {
    var rest, face := WireframePoints(m, n - 1, width, height), FaceEdges(m, n - 1, 3, width, height);
    assert WireframePoints(m, n, width, height) == rest + face;
    if p in rest {
      WireframeOnlyFaces(m, n - 1, width, height, p);
    } else {
      assert p in FaceEdges(m, n - 1, 3, width, height);
    }
  }

  lemma {:induction false} FaceEdgesOnlyEdges(m: Mesh, i: nat, k: nat, width: int, height: int, p: (int, int))
    requires m.Valid() && i < |m.faces| && k <= 3
    requires p in FaceEdges(m, i, k, width, height)
    ensures exists j :: 0 <= j < k && p in Edge(m, i, j, width, height)
  {
    if p !in Edge(m, i, k - 1, width, height) {
      FaceEdgesOnlyEdges(m, i, k - 1, width, height, p);
    }
  }
}
