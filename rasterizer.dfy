/**
 * OurGL's rasterizer (our_gl.h / our_gl.cpp): DrawModel runs the vertex
 * shader over the three vertices of every face and DrawTriangle scans the
 * triangle's bounding box, keeping the fragments that lie inside the
 * triangle and pass the depth test.
 *
 * The loops are specified by two functions: PixelWrite is what the loop
 * body does at one pixel given the depth stored there, and Scan is what
 * the rest of the loops, from pixel (x, y) on in the loop's order (x outer,
 * y inner), does to the two buffers.
 */
module Rasterizer {
  import opened Wrappers
  import opened RealMath
  import opened LinAlg
  import opened Images
  import opened GeometryUtils
  import opened OurGl
  import opened Shaders

  /** The faces of a model; DrawModel reads the first three vertices of each. */
  datatype Model = Model(faces: seq<seq<Vertex>>)
  {
    predicate Valid()
    {
      forall i :: 0 <= i < |faces| ==> ValidFace(faces[i])
    }
  }

  predicate ValidFace(face: seq<Vertex>)
  {
    |face| >= 3 && face[0].Valid() && face[1].Valid() && face[2].Valid()
  }

  /** The three gl_Positions of a face: screen x, screen y and depth. */
  datatype Triangle = Triangle(p0: Vector, p1: Vector, p2: Vector)
  {
    predicate Valid()
    {
      |p0| == 3 && |p1| == 3 && |p2| == 3
    }
  }

  /** Everything the fragment stage reads while a triangle is drawn. */
  datatype Pipeline = Pipeline(lib: MathLib, kind: ShaderKind, vary: Varyings, u: Uniforms, shadow: Raster<GrayscaleColor>)
  {
    ghost predicate Valid()
    {
      ValidLib(lib) && vary.Valid() && u.Valid() && shadow.Valid()
    }
  }

  // ---------------------------------------------------------------------------
  // The bounding box
  // ---------------------------------------------------------------------------

  /** The pixels min_x <= x < max_x, min_y <= y < max_y the two loops visit. */
  datatype Box = Box(minX: int, maxX: int, minY: int, maxY: int)
  {
    predicate Contains(x: int, y: int)
    {
      minX <= x < maxX && minY <= y < maxY
    }
  }

  function Min3(a: real, b: real, c: real): real { MinReal(a, MinReal(b, c)) }
  function Max3(a: real, b: real, c: real): real { MaxReal(a, MaxReal(b, c)) }

  /**
   * The vertices' extent widened by one pixel on each side, truncated to
   * int and clamped to [0, width - 1] x [0, height - 1]. std::clamp needs a
   * non-empty range, so the buffer must be at least one pixel each way.
   */
  function BoundingBox(t: Triangle, width: int, height: int): (b: Box)
    requires t.Valid() && 1 <= width && 1 <= height
    ensures 0 <= b.minX <= b.maxX <= width - 1 && 0 <= b.minY <= b.maxY <= height - 1
  {
    var loX, hiX := Min3(t.p0[0], t.p1[0], t.p2[0]) - 1.0, Max3(t.p0[0], t.p1[0], t.p2[0]) + 1.0;
    var loY, hiY := Min3(t.p0[1], t.p1[1], t.p2[1]) - 1.0, Max3(t.p0[1], t.p1[1], t.p2[1]) + 1.0;
    TruncMonotone(loX, hiX);
    TruncMonotone(loY, hiY);
    Box(ClampInt(Trunc(loX), 0, width - 1), ClampInt(Trunc(hiX), 0, width - 1),
        ClampInt(Trunc(loY), 0, height - 1), ClampInt(Trunc(hiY), 0, height - 1))
  }

  // ---------------------------------------------------------------------------
  // One pixel
  // ---------------------------------------------------------------------------

  /** The weights of pixel (x, y) with respect to the screen positions of the vertices. */
  function PixelBarycentric(t: Triangle, x: int, y: int): (b: Vector)
    requires t.Valid()
    ensures |b| == 3
  {
    GetBarycentric([x as real, y as real], t.p0[..2], t.p1[..2], t.p2[..2])
  }

  /** The interpolated depth b0 z0 + b1 z1 + b2 z2. */
  function Depth(t: Triangle, b: Vector): real
    requires t.Valid() && |b| == 3
  {
    b[0] * t.p0[2] + b[1] * t.p1[2] + b[2] * t.p2[2]
  }

  /** gl_FragCoord: the interpolated screen position, clamped below at 0, and the depth. */
  function FragCoord(t: Triangle, b: Vector, z: real): (c: Vector)
    requires t.Valid() && |b| == 3
    ensures |c| == 3 && 0.0 <= c[0] && 0.0 <= c[1] && c[2] == z
  {
    [MaxReal(b[0] * t.p0[0] + b[1] * t.p1[0] + b[2] * t.p2[0], 0.0),
     MaxReal(b[0] * t.p0[1] + b[1] * t.p1[1] + b[2] * t.p2[1], 0.0),
     z]
  }

  /** The depth test: the stored byte, read as a fraction of 255, lies below z, and z is at most 1. */
  predicate PassesDepthTest(stored: GrayscaleColor, z: real)
  {
    stored.value as real / 255.0 < z && z <= 1.0
  }

  /** The byte stored for a depth that passed the test: z * 255 truncated. */
  function Quantize(z: real): (d: GrayscaleColor)
    requires 0.0 < z <= 1.0
    ensures d.value as real <= z * 255.0 < d.value as real + 1.0
  {
    TruncBetween(z * 255.0, 0, 255);
    GrayscaleColor(Trunc(z * 255.0))
  }

  /** A depth that passes the test is quantized to a byte no smaller than the stored one. */
  lemma QuantizeNeverDecreases(stored: GrayscaleColor, z: real)
    requires PassesDepthTest(stored, z)
    ensures 0.0 < z && stored.value <= Quantize(z).value
  {
    var s := stored.value as real;
    assert s < z * 255.0 by {
      assert s / 255.0 < z;
      assert s == (s / 255.0) * 255.0;
    }
    TruncBetween(z * 255.0, stored.value, 255);
  }

  /** What the loop writes at one pixel. */
  datatype PixelUpdate = PixelUpdate(color: RgbaColor, depth: GrayscaleColor)

  /**
   * The body of DrawTriangle's loops at pixel (x, y) over a depth buffer
   * holding `stored` there: nothing when a weight is negative or the depth
   * test fails, an error when the fragment shader fails, else the fragment
   * colour and the quantized depth.
   */
  function PixelWrite(pipe: Pipeline, t: Triangle, x: int, y: int, stored: GrayscaleColor): (r: Result<Option<PixelUpdate>>)
    requires pipe.Valid() && t.Valid()
  {
    var b := PixelBarycentric(t, x, y);
    if !Covered(b) then Ok(None)
    else
      var z := Depth(t, b);
      if !PassesDepthTest(stored, z) then Ok(None)
      else
        var color :- Fragment(pipe.lib, pipe.kind, pipe.vary, pipe.u, pipe.shadow, b);
        Ok(Some(PixelUpdate(color, Quantize(z))))
  }

  /**
   * A pixel is written exactly when it is covered and passes the depth
   * test, and the depth then written is at least the stored one; a pixel
   * is never written with a depth above 255 or at or below 0.
   */
  lemma PixelWriteRule(pipe: Pipeline, t: Triangle, x: int, y: int, stored: GrayscaleColor)
    requires pipe.Valid() && t.Valid()
    ensures var b := PixelBarycentric(t, x, y);
      var r := PixelWrite(pipe, t, x, y, stored);
      (r.Err? || (r.Ok? && r.value.Some?) <==> Covered(b) && PassesDepthTest(stored, Depth(t, b))) &&
      (r.Ok? && r.value.Some? ==> stored.value <= r.value.value.depth.value && 0.0 < Depth(t, b) <= 1.0)
  {
    var b := PixelBarycentric(t, x, y);
    if Covered(b) && PassesDepthTest(stored, Depth(t, b)) {
      QuantizeNeverDecreases(stored, Depth(t, b));
    }
  }

  // ---------------------------------------------------------------------------
  // The whole box
  // ---------------------------------------------------------------------------

  /** What the loop body does at pixel (x, y) given the depth stored there. */
  type PixelRule = (int, int, GrayscaleColor) -> Result<Option<PixelUpdate>>

  /** The loop body of DrawTriangle for one pipeline and one triangle. */
  ghost function RuleOf(pipe: Pipeline, t: Triangle): PixelRule
  {
    (x: int, y: int, stored: GrayscaleColor) =>
      if pipe.Valid() && t.Valid() then PixelWrite(pipe, t, x, y, stored) else Ok(None)
  }

  /** A box of pixels inside a width x height buffer. */
  predicate BoxInside(box: Box, width: int, height: int)
  {
    0 <= box.minX && box.maxX <= width && 0 <= box.minY && box.maxY <= height
  }

  /**
   * The loops of DrawTriangle from pixel (x, y) on (x outer, y inner), over
   * the buffers as they are when that pixel is reached: the first error the
   * rule raises, or the buffers once the last pixel of the box is done.
   */
  function Sweep(rule: PixelRule, box: Box, colors: seq<RgbaColor>, depths: seq<GrayscaleColor>,
                 width: int, height: int, x: int, y: int): (r: Result<(seq<RgbaColor>, seq<GrayscaleColor>)>)
    requires BoxInside(box, width, height) && box.minX <= x && box.minY <= y
    requires |colors| == |depths| == width * height
    ensures r.Ok? ==> |r.value.0| == |colors| && |r.value.1| == |depths|
    decreases box.maxX - x, box.maxY - y
  {
    if box.maxX <= x then Ok((colors, depths))
    else if box.maxY <= y then Sweep(rule, box, colors, depths, width, height, x + 1, box.minY)
    else
      IndexInRange(x, y, width, height);
      var i := Index(x, y, width);
      match rule(x, y, depths[i])
      case Err(e) => Err(e)
      case Ok(None) => Sweep(rule, box, colors, depths, width, height, x, y + 1)
      case Ok(Some(u)) => Sweep(rule, box, colors[i := u.color], depths[i := u.depth], width, height, x, y + 1)
  }

  /** DrawTriangle as a value: the sweep of the triangle's bounding box from its first pixel. */
  ghost function TriangleSpec(pipe: Pipeline, t: Triangle, colors: seq<RgbaColor>, depths: seq<GrayscaleColor>, width: int, height: int): (r: Result<(seq<RgbaColor>, seq<GrayscaleColor>)>)
    requires t.Valid() && 1 <= width && 1 <= height
    requires |colors| == |depths| == width * height
    ensures r.Ok? ==> |r.value.0| == |colors| && |r.value.1| == |depths|
  {
    var box := BoundingBox(t, width, height);
    Sweep(RuleOf(pipe, t), box, colors, depths, width, height, box.minX, box.minY)
  }

  /** Pixel (px, py) comes before (x, y) in the loop order. */
  predicate Before(px: int, py: int, x: int, y: int)
  {
    px < x || (px == x && py < y)
  }

  lemma IndexInjective(x: int, y: int, px: int, py: int, width: int, height: int)
    requires 0 <= x < width && 0 <= y < height && 0 <= px < width && 0 <= py < height
    requires Index(x, y, width) == Index(px, py, width)
    ensures x == px && y == py
  {
    DivModOfIndex(x, y, width);
    DivModOfIndex(px, py, width);
  }

  /**
   * The sweep from (x, y) on leaves alone every pixel outside the box and
   * every pixel the loops have already passed.
   */
  lemma {:induction false} SweepKeepsOthers(rule: PixelRule, box: Box, colors: seq<RgbaColor>, depths: seq<GrayscaleColor>,
                                             width: int, height: int, x: int, y: int, px: int, py: int)
    requires BoxInside(box, width, height) && box.minX <= x && box.minY <= y
    requires |colors| == |depths| == width * height
    requires Sweep(rule, box, colors, depths, width, height, x, y).Ok?
    requires 0 <= px < width && 0 <= py < height
    requires !box.Contains(px, py) || Before(px, py, x, y)
    ensures 0 <= Index(px, py, width) < |depths|
    ensures var r := Sweep(rule, box, colors, depths, width, height, x, y).value;
      r.0[Index(px, py, width)] == colors[Index(px, py, width)] && r.1[Index(px, py, width)] == depths[Index(px, py, width)]
    decreases box.maxX - x, box.maxY - y
  {
    IndexInRange(px, py, width, height);
    if box.maxX <= x {
    } else if box.maxY <= y {
      SweepKeepsOthers(rule, box, colors, depths, width, height, x + 1, box.minY, px, py);
    } else {
      IndexInRange(x, y, width, height);
      var i := Index(x, y, width);
      if i == Index(px, py, width) {
        IndexInjective(x, y, px, py, width, height);
      }
      match rule(x, y, depths[i])
      case Ok(None) =>
        SweepKeepsOthers(rule, box, colors, depths, width, height, x, y + 1, px, py);
      case Ok(Some(u)) =>
        SweepKeepsOthers(rule, box, colors[i := u.color], depths[i := u.depth], width, height, x, y + 1, px, py);
    }
  }

  /**
   * Each pixel of the box the sweep has yet to reach ends up holding what
   * the rule makes of the depth stored there before: the loops visit it
   * exactly once.
   */
  lemma {:induction false} SweepWritesEachPixelOnce(rule: PixelRule, box: Box, colors: seq<RgbaColor>, depths: seq<GrayscaleColor>,
                                                     width: int, height: int, x: int, y: int, px: int, py: int)
    requires BoxInside(box, width, height) && box.minX <= x && box.minY <= y
    requires |colors| == |depths| == width * height
    requires Sweep(rule, box, colors, depths, width, height, x, y).Ok?
    requires box.Contains(px, py) && !Before(px, py, x, y)
    ensures 0 <= Index(px, py, width) < |depths|
    ensures var i := Index(px, py, width);
      var w := rule(px, py, depths[i]);
      var r := Sweep(rule, box, colors, depths, width, height, x, y).value;
      w.Ok? &&
      r.0[i] == (if w.value.Some? then w.value.value.color else colors[i]) &&
      r.1[i] == (if w.value.Some? then w.value.value.depth else depths[i])
    decreases box.maxX - x, box.maxY - y
  {
    IndexInRange(px, py, width, height);
    if box.maxY <= y {
      SweepWritesEachPixelOnce(rule, box, colors, depths, width, height, x + 1, box.minY, px, py);
    } else {
      IndexInRange(x, y, width, height);
      var i := Index(x, y, width);
      if px == x && py == y {
        match rule(x, y, depths[i])
        case Ok(None) =>
          SweepKeepsOthers(rule, box, colors, depths, width, height, x, y + 1, px, py);
        case Ok(Some(u)) =>
          SweepKeepsOthers(rule, box, colors[i := u.color], depths[i := u.depth], width, height, x, y + 1, px, py);
      } else {
        if i == Index(px, py, width) {
          IndexInjective(x, y, px, py, width, height);
        }
        match rule(x, y, depths[i])
        case Ok(None) =>
          SweepWritesEachPixelOnce(rule, box, colors, depths, width, height, x, y + 1, px, py);
        case Ok(Some(u)) =>
          SweepWritesEachPixelOnce(rule, box, colors[i := u.color], depths[i := u.depth], width, height, x, y + 1, px, py);
      }
    }
  }

  /** A rule that never raises an error gives a sweep that never fails. */
  lemma {:induction false} SweepWithoutErrors(rule: PixelRule, box: Box, colors: seq<RgbaColor>, depths: seq<GrayscaleColor>,
                                               width: int, height: int, x: int, y: int)
    requires BoxInside(box, width, height) && box.minX <= x && box.minY <= y
    requires |colors| == |depths| == width * height
    requires forall px, py, stored :: rule(px, py, stored).Ok?
    ensures Sweep(rule, box, colors, depths, width, height, x, y).Ok?
    decreases box.maxX - x, box.maxY - y
  {
    if box.maxX <= x {
    } else if box.maxY <= y {
      SweepWithoutErrors(rule, box, colors, depths, width, height, x + 1, box.minY);
    } else {
      IndexInRange(x, y, width, height);
      var i := Index(x, y, width);
      match rule(x, y, depths[i])
      case Ok(None) =>
        SweepWithoutErrors(rule, box, colors, depths, width, height, x, y + 1);
      case Ok(Some(u)) =>
        SweepWithoutErrors(rule, box, colors[i := u.color], depths[i := u.depth], width, height, x, y + 1);
    }
  }

  /** A rule that never writes gives a sweep that leaves both buffers as they are. */
  lemma {:induction false} SweepWithoutWrites(rule: PixelRule, box: Box, colors: seq<RgbaColor>, depths: seq<GrayscaleColor>,
                                               width: int, height: int, x: int, y: int)
    requires BoxInside(box, width, height) && box.minX <= x && box.minY <= y
    requires |colors| == |depths| == width * height
    requires forall px, py, stored :: rule(px, py, stored) == Ok(None)
    ensures Sweep(rule, box, colors, depths, width, height, x, y) == Ok((colors, depths))
    decreases box.maxX - x, box.maxY - y
  {
    if box.maxX <= x {
    } else if box.maxY <= y {
      SweepWithoutWrites(rule, box, colors, depths, width, height, x + 1, box.minY);
    } else {
      IndexInRange(x, y, width, height);
      assert rule(x, y, depths[Index(x, y, width)]) == Ok(None);
      SweepWithoutWrites(rule, box, colors, depths, width, height, x, y + 1);
    }
  }

  // ---------------------------------------------------------------------------
  // What DrawTriangle draws
  // ---------------------------------------------------------------------------

  lemma ScaleLower(k: real, lo: real, v: real)
    requires 0.0 <= k && lo <= v
    ensures k * lo <= k * v
  {
  }

  lemma WeightedLower(b0: real, b1: real, b2: real, a0: real, a1: real, a2: real, lo: real)
    requires 0.0 <= b0 && 0.0 <= b1 && 0.0 <= b2
    requires lo <= a0 && lo <= a1 && lo <= a2
    ensures (b0 + b1 + b2) * lo <= b0 * a0 + b1 * a1 + b2 * a2
  {
    ScaleLower(b0, lo, a0);
    ScaleLower(b1, lo, a1);
    ScaleLower(b2, lo, a2);
    assert (b0 + b1 + b2) * lo == b0 * lo + b1 * lo + b2 * lo;
  }

  lemma WeightedUpper(b0: real, b1: real, b2: real, a0: real, a1: real, a2: real, hi: real)
    requires 0.0 <= b0 && 0.0 <= b1 && 0.0 <= b2
    requires a0 <= hi && a1 <= hi && a2 <= hi
    ensures b0 * a0 + b1 * a1 + b2 * a2 <= (b0 + b1 + b2) * hi
  {
    ScaleLower(b0, a0, hi);
    ScaleLower(b1, a1, hi);
    ScaleLower(b2, a2, hi);
    assert (b0 + b1 + b2) * hi == b0 * hi + b1 * hi + b2 * hi;
  }

  /** A weighted average of three values lies between their minimum and maximum. */
  lemma ConvexBetween(b0: real, b1: real, b2: real, a0: real, a1: real, a2: real)
    requires 0.0 <= b0 && 0.0 <= b1 && 0.0 <= b2 && b0 + b1 + b2 == 1.0
    ensures Min3(a0, a1, a2) <= b0 * a0 + b1 * a1 + b2 * a2 <= Max3(a0, a1, a2)
  {
    WeightedLower(b0, b1, b2, a0, a1, a2, Min3(a0, a1, a2));
    WeightedUpper(b0, b1, b2, a0, a1, a2, Max3(a0, a1, a2));
  }

  /**
   * One axis of the box: a pixel coordinate c between the vertices' extremes
   * lies in [clamp(trunc(lo - 1)), clamp(trunc(hi + 1))) unless it is the
   * last one, n - 1, that the clamp makes the exclusive bound.
   */
  lemma MarginCovers(c: int, lo: real, hi: real, n: int)
    requires 0 <= c < n - 1 && lo <= c as real <= hi
    ensures ClampInt(Trunc(lo - 1.0), 0, n - 1) <= c < ClampInt(Trunc(hi + 1.0), 0, n - 1)
  {
    assert Trunc(lo - 1.0) <= c by {
      TruncMonotone(lo - 1.0, c as real);
      TruncOfInt(c);
    }
    assert c < Trunc(hi + 1.0) by {
      TruncMonotone(c as real + 1.0, hi + 1.0);
      TruncOfInt(c + 1);
    }
  }

  /** A pixel that is a convex combination of the vertices lies in the box, except in the last column or row. */
  lemma CombinationInBox(t: Triangle, width: int, height: int, x: int, y: int, b0: real, b1: real, b2: real)
    requires t.Valid() && 1 <= width && 1 <= height
    requires 0 <= x < width - 1 && 0 <= y < height - 1
    requires 0.0 <= b0 && 0.0 <= b1 && 0.0 <= b2 && b0 + b1 + b2 == 1.0
    requires b0 * t.p0[0] + b1 * t.p1[0] + b2 * t.p2[0] == x as real
    requires b0 * t.p0[1] + b1 * t.p1[1] + b2 * t.p2[1] == y as real
    ensures BoundingBox(t, width, height).Contains(x, y)
  {
    AxisInBox(x, b0, b1, b2, t.p0[0], t.p1[0], t.p2[0], width);
    AxisInBox(y, b0, b1, b2, t.p0[1], t.p1[1], t.p2[1], height);
  }

  lemma AxisInBox(c: int, b0: real, b1: real, b2: real, a0: real, a1: real, a2: real, n: int)
    requires 0 <= c < n - 1
    requires 0.0 <= b0 && 0.0 <= b1 && 0.0 <= b2 && b0 + b1 + b2 == 1.0
    requires b0 * a0 + b1 * a1 + b2 * a2 == c as real
    ensures ClampInt(Trunc(Min3(a0, a1, a2) - 1.0), 0, n - 1) <= c < ClampInt(Trunc(Max3(a0, a1, a2) + 1.0), 0, n - 1)
  {
    ConvexBetween(b0, b1, b2, a0, a1, a2);
    MarginCovers(c, Min3(a0, a1, a2), Max3(a0, a1, a2), n);
  }

  /**
   * The one-pixel margin of the bounding box is enough: a pixel inside the
   * triangle lies in the box, unless it is in the last column or the last
   * row of the buffer, which the box never reaches.
   */
  lemma CoveredPixelsInBox(t: Triangle, width: int, height: int, x: int, y: int)
    requires t.Valid() && 1 <= width && 1 <= height
    requires 0 <= x < width - 1 && 0 <= y < height - 1
    requires Covered(PixelBarycentric(t, x, y))
    ensures BoundingBox(t, width, height).Contains(x, y)
  {
    var target, q0, q1, q2 := [x as real, y as real], t.p0[..2], t.p1[..2], t.p2[..2];
    var b := PixelBarycentric(t, x, y);
    if Area2(q0, q1, q2) == 0.0 {
      DegenerateCoversNothing(target, q0, q1, q2);
      assert false;
    }
    BarycentricReconstructs(target, q0, q1, q2);
    assert q0[0] == t.p0[0] && q1[0] == t.p1[0] && q2[0] == t.p2[0];
    assert q0[1] == t.p0[1] && q1[1] == t.p1[1] && q2[1] == t.p2[1];
    CombinationInBox(t, width, height, x, y, b[0], b[1], b[2]);
  }

  /**
   * The box the clamp's comment evidently intends: the same clamped corners,
   * with the loops running up to and including max_x and max_y, so that the
   * last column and row of the buffer can be drawn.
   */
  function InclusiveBox(t: Triangle, width: int, height: int): (b: Box)
    requires t.Valid() && 1 <= width && 1 <= height
    ensures 0 <= b.minX < b.maxX <= width && 0 <= b.minY < b.maxY <= height
  {
    var box := BoundingBox(t, width, height);
    Box(box.minX, box.maxX + 1, box.minY, box.maxY + 1)
  }

  /** With the inclusive loops every covered pixel of the buffer, the last column and row included, lies in the box. */
  lemma CoveredPixelsInInclusiveBox(t: Triangle, width: int, height: int, x: int, y: int)
    requires t.Valid() && 1 <= width && 1 <= height
    requires 0 <= x < width && 0 <= y < height
    requires Covered(PixelBarycentric(t, x, y))
    ensures InclusiveBox(t, width, height).Contains(x, y)
  {
    var target, q0, q1, q2 := [x as real, y as real], t.p0[..2], t.p1[..2], t.p2[..2];
    var b := PixelBarycentric(t, x, y);
    if Area2(q0, q1, q2) == 0.0 {
      DegenerateCoversNothing(target, q0, q1, q2);
      assert false;
    }
    BarycentricReconstructs(target, q0, q1, q2);
    assert q0[0] == t.p0[0] && q1[0] == t.p1[0] && q2[0] == t.p2[0];
    assert q0[1] == t.p0[1] && q1[1] == t.p1[1] && q2[1] == t.p2[1];
    AxisInInclusiveBox(x, b[0], b[1], b[2], t.p0[0], t.p1[0], t.p2[0], width);
    AxisInInclusiveBox(y, b[0], b[1], b[2], t.p0[1], t.p1[1], t.p2[1], height);
  }

  lemma AxisInInclusiveBox(c: int, b0: real, b1: real, b2: real, a0: real, a1: real, a2: real, n: int)
    requires 0 <= c < n
    requires 0.0 <= b0 && 0.0 <= b1 && 0.0 <= b2 && b0 + b1 + b2 == 1.0
    requires b0 * a0 + b1 * a1 + b2 * a2 == c as real
    ensures ClampInt(Trunc(Min3(a0, a1, a2) - 1.0), 0, n - 1) <= c <= ClampInt(Trunc(Max3(a0, a1, a2) + 1.0), 0, n - 1)
  {
    ConvexBetween(b0, b1, b2, a0, a1, a2);
    var lo, hi := Min3(a0, a1, a2), Max3(a0, a1, a2);
    assert Trunc(lo - 1.0) <= c by {
      TruncMonotone(lo - 1.0, c as real);
      TruncOfInt(c);
    }
    assert c < Trunc(hi + 1.0) by {
      TruncMonotone(c as real + 1.0, hi + 1.0);
      TruncOfInt(c + 1);
    }
  }

  /** A right triangle in the corner of a 2 × 2 buffer; its vertex (1, 0) lies in the last column. */
  const CornerTriangle := Triangle([0.0, 0.0, 0.5], [1.0, 0.0, 0.5], [0.0, 1.0, 0.5])

  /**
   * The box as written leaves out the last column: pixel (1, 0) of a 2 × 2
   * buffer is a vertex of CornerTriangle, so it is covered, yet the loop
   * `x != max_x` with max_x clamped to 1 never reaches x = 1. The inclusive
   * box contains it.
   */
  lemma LastColumnSkipped()
    ensures CornerTriangle.Valid() && Covered(PixelBarycentric(CornerTriangle, 1, 0))
    ensures !BoundingBox(CornerTriangle, 2, 2).Contains(1, 0)
    ensures InclusiveBox(CornerTriangle, 2, 2).Contains(1, 0)
  {
    var t := CornerTriangle;
    var q0, q1, q2 := t.p0[..2], t.p1[..2], t.p2[..2];
    assert q0 == [0.0, 0.0] && q1 == [1.0, 0.0] && q2 == [0.0, 1.0];
    assert Area2(q0, q1, q2) == 1.0;
    BarycentricOfVertices(q0, q1, q2);
    assert [1 as real, 0 as real] == q1;
    assert Max3(t.p0[0], t.p1[0], t.p2[0]) + 1.0 == 2 as real;
    TruncOfInt(2);
    assert BoundingBox(t, 2, 2).maxX == 1;
    CoveredPixelsInInclusiveBox(t, 2, 2, 1, 0);
  }

  /**
   * DrawTriangle pixel by pixel: when it completes, every pixel outside the
   * last column and the last row holds what the loop body makes of the
   * depth stored there before the triangle (a write exactly where the pixel
   * is covered and passes the depth test), and the last column and the last
   * row are untouched.
   */
  lemma TrianglePixel(pipe: Pipeline, t: Triangle, colors: seq<RgbaColor>, depths: seq<GrayscaleColor>,
                      width: int, height: int, px: int, py: int)
    requires pipe.Valid() && t.Valid() && 1 <= width && 1 <= height
    requires |colors| == |depths| == width * height
    requires TriangleSpec(pipe, t, colors, depths, width, height).Ok?
    requires 0 <= px < width && 0 <= py < height
    ensures 0 <= Index(px, py, width) < |depths|
    ensures var i := Index(px, py, width);
      var r := TriangleSpec(pipe, t, colors, depths, width, height).value;
      var w := PixelWrite(pipe, t, px, py, depths[i]);
      (px < width - 1 && py < height - 1 ==>
        w.Ok? &&
        r.0[i] == (if w.value.Some? then w.value.value.color else colors[i]) &&
        r.1[i] == (if w.value.Some? then w.value.value.depth else depths[i])) &&
      (px == width - 1 || py == height - 1 ==> r.0[i] == colors[i] && r.1[i] == depths[i])
  {
    var box := BoundingBox(t, width, height);
    var rule := RuleOf(pipe, t);
    IndexInRange(px, py, width, height);
    var i := Index(px, py, width);
    assert rule(px, py, depths[i]) == PixelWrite(pipe, t, px, py, depths[i]);
    if box.Contains(px, py) {
      SweepWritesEachPixelOnce(rule, box, colors, depths, width, height, box.minX, box.minY, px, py);
    } else {
      SweepKeepsOthers(rule, box, colors, depths, width, height, box.minX, box.minY, px, py);
      if px < width - 1 && py < height - 1 && Covered(PixelBarycentric(t, px, py)) {
        CoveredPixelsInBox(t, width, height, px, py);
      }
    }
  }

  /** No stored depth decreases when DrawTriangle completes. */
  lemma TriangleDepthsNeverDecrease(pipe: Pipeline, t: Triangle, colors: seq<RgbaColor>, depths: seq<GrayscaleColor>,
                                    width: int, height: int)
    requires pipe.Valid() && t.Valid() && 1 <= width && 1 <= height
    requires |colors| == |depths| == width * height
    requires TriangleSpec(pipe, t, colors, depths, width, height).Ok?
    ensures var r := TriangleSpec(pipe, t, colors, depths, width, height).value;
      forall i :: 0 <= i < |depths| ==> depths[i].value <= r.1[i].value
  {
    var r := TriangleSpec(pipe, t, colors, depths, width, height).value;
    forall i | 0 <= i < |depths|
      ensures depths[i].value <= r.1[i].value
    {
      PixelOfIndex(i, width, height);
      var px, py := i % width, i / width;
      TrianglePixel(pipe, t, colors, depths, width, height, px, py);
      PixelWriteRule(pipe, t, px, py, depths[i]);
    }
  }

  /** The shadow pass and the depth pass never fail: their fragment stage is a constant. */
  lemma ConstantShadersNeverFail(pipe: Pipeline, t: Triangle, colors: seq<RgbaColor>, depths: seq<GrayscaleColor>,
                                 width: int, height: int)
    requires pipe.Valid() && t.Valid() && 1 <= width && 1 <= height
    requires |colors| == |depths| == width * height
    requires !pipe.kind.MainShader?
    ensures TriangleSpec(pipe, t, colors, depths, width, height).Ok?
  {
    var box := BoundingBox(t, width, height);
    var rule := RuleOf(pipe, t);
    forall px, py, stored
      ensures rule(px, py, stored).Ok?
    {
      assert rule(px, py, stored) == PixelWrite(pipe, t, px, py, stored);
    }
    SweepWithoutErrors(rule, box, colors, depths, width, height, box.minX, box.minY);
  }

  /** The shadow pass paints every pixel it writes opaque white. */
  lemma DepthPassPaintsWhite(pipe: Pipeline, t: Triangle, colors: seq<RgbaColor>, depths: seq<GrayscaleColor>,
                             width: int, height: int, px: int, py: int)
    requires pipe.Valid() && t.Valid() && 1 <= width && 1 <= height
    requires |colors| == |depths| == width * height
    requires pipe.kind.DepthShader?
    requires 0 <= px < width && 0 <= py < height
    ensures TriangleSpec(pipe, t, colors, depths, width, height).Ok?
    ensures 0 <= Index(px, py, width) < |colors|
    ensures var i := Index(px, py, width);
      var r := TriangleSpec(pipe, t, colors, depths, width, height).value;
      r.0[i] == colors[i] || r.0[i] == RgbaColor(255, 255, 255, 255)
  {
    ConstantShadersNeverFail(pipe, t, colors, depths, width, height);
    TrianglePixel(pipe, t, colors, depths, width, height, px, py);
  }

  /** A triangle whose screen positions are collinear draws nothing. */
  lemma DegenerateTriangleDrawsNothing(pipe: Pipeline, t: Triangle, colors: seq<RgbaColor>, depths: seq<GrayscaleColor>,
                                       width: int, height: int)
    requires pipe.Valid() && t.Valid() && 1 <= width && 1 <= height
    requires |colors| == |depths| == width * height
    requires Area2(t.p0[..2], t.p1[..2], t.p2[..2]) == 0.0
    ensures TriangleSpec(pipe, t, colors, depths, width, height) == Ok((colors, depths))
  {
    var box := BoundingBox(t, width, height);
    var rule := RuleOf(pipe, t);
    forall px, py, stored
      ensures rule(px, py, stored) == Ok(None)
    {
      DegenerateCoversNothing([px as real, py as real], t.p0[..2], t.p1[..2], t.p2[..2]);
    }
    SweepWithoutWrites(rule, box, colors, depths, width, height, box.minX, box.minY);
  }

  // ---------------------------------------------------------------------------
  // What DrawModel draws
  // ---------------------------------------------------------------------------

  /** The state DrawModel changes: the shader's varyings and the two buffers. */
  datatype Frame = Frame(vary: Varyings, colors: seq<RgbaColor>, depths: seq<GrayscaleColor>)

  /**
   * One face: the vertex stage for vertices 0, 1 and 2 in order (each may
   * throw), then the triangle of the three screen positions.
   */
  ghost function FaceSpec(lib: MathLib, kind: ShaderKind, u: Uniforms, shadow: Raster<GrayscaleColor>, face: seq<Vertex>,
                          f: Frame, width: int, height: int): (r: Result<Frame>)
    requires ValidLib(lib) && u.Valid() && shadow.Valid() && ValidFace(face) && f.vary.Valid()
    requires 1 <= width && 1 <= height && |f.colors| == |f.depths| == width * height
    ensures r.Ok? ==> r.value.vary.Valid() && |r.value.colors| == |f.colors| && |r.value.depths| == |f.depths|
  {
    var t :- FaceTriangle(kind, u, face);
    var vary := FaceVaryings(kind, f.vary, face);
    var drawn :- TriangleSpec(Pipeline(lib, kind, vary, u, shadow), t, f.colors, f.depths, width, height);
    Ok(Frame(vary, drawn.0, drawn.1))
  }

  /** The screen positions of vertices 0, 1 and 2, or the first error the vertex stage raises. */
  function FaceTriangle(kind: ShaderKind, u: Uniforms, face: seq<Vertex>): (r: Result<Triangle>)
    requires u.Valid() && ValidFace(face)
    ensures r.Ok? ==> r.value.Valid()
    ensures r.Ok? <==> ScreenPosition(kind, u, face[0]).Ok? && ScreenPosition(kind, u, face[1]).Ok? && ScreenPosition(kind, u, face[2]).Ok?
  {
    var p0 :- ScreenPosition(kind, u, face[0]);
    var p1 :- ScreenPosition(kind, u, face[1]);
    var p2 :- ScreenPosition(kind, u, face[2]);
    Ok(Triangle(p0, p1, p2))
  }

  /** The varyings once the vertex stage has run for vertices 0, 1 and 2. */
  function FaceVaryings(kind: ShaderKind, vary: Varyings, face: seq<Vertex>): (r: Varyings)
    requires vary.Valid() && ValidFace(face)
    ensures r.Valid()
    ensures !kind.MainShader? ==> r == vary
  {
    VaryingsAfter(kind, VaryingsAfter(kind, VaryingsAfter(kind, vary, face[0], 0), face[1], 1), face[2], 2)
  }

  /** What DrawModel does with one face, given the state before it. */
  type FaceStep = (seq<Vertex>, Frame) -> Result<Frame>

  /** FaceSpec as a step, for one shader, one set of uniforms and one buffer size. */
  ghost function StepOf(lib: MathLib, kind: ShaderKind, u: Uniforms, shadow: Raster<GrayscaleColor>, width: int, height: int): FaceStep
  {
    (face: seq<Vertex>, f: Frame) =>
      if FaceInput(lib, u, shadow, face, f, width, height) then FaceSpec(lib, kind, u, shadow, face, f, width, height) else Ok(f)
  }

  ghost predicate FaceInput(lib: MathLib, u: Uniforms, shadow: Raster<GrayscaleColor>, face: seq<Vertex>, f: Frame, width: int, height: int)
  {
    ValidLib(lib) && u.Valid() && shadow.Valid() && ValidFace(face) && f.vary.Valid() &&
    1 <= width && 1 <= height && |f.colors| == |f.depths| == width * height
  }

  /** The faces in index order, each from the state the previous one left, stopping at the first error. */
  function Faces(step: FaceStep, faces: seq<seq<Vertex>>, f: Frame): (r: Result<Frame>)
    decreases |faces|
  {
    if faces == [] then Ok(f)
    else
      var next :- step(faces[0], f);
      Faces(step, faces[1..], next)
  }

  /** DrawModel as a value. */
  ghost function ModelSpec(lib: MathLib, kind: ShaderKind, u: Uniforms, shadow: Raster<GrayscaleColor>, faces: seq<seq<Vertex>>,
                           f: Frame, width: int, height: int): (r: Result<Frame>)
  {
    Faces(StepOf(lib, kind, u, shadow, width, height), faces, f)
  }

  /** Drawing a model is drawing its first faces, then the rest from where they left off. */
  lemma {:induction false} FacesAppend(step: FaceStep, a: seq<seq<Vertex>>, b: seq<seq<Vertex>>, f: Frame)
    ensures var first := Faces(step, a, f);
      Faces(step, a + b, f) == (if first.Err? then first else Faces(step, b, first.value))
    decreases |a|
  {
    if a != [] {
      assert (a + b)[0] == a[0];
      assert (a + b)[1..] == a[1..] + b;
      var next := step(a[0], f);
      if next.Ok? {
        FacesAppend(step, a[1..], b, next.value);
      }
    } else {
      assert a + b == b;
    }
  }

  /** Every stored depth is at most the one at the same index in `after`. */
  predicate DepthsBelow(before: seq<GrayscaleColor>, after: seq<GrayscaleColor>)
  {
    |before| == |after| && forall i :: 0 <= i < |before| ==> before[i].value <= after[i].value
  }

  lemma {:induction false} FacesKeepDepthOrder(step: FaceStep, faces: seq<seq<Vertex>>, f: Frame)
    requires forall face, g :: step(face, g).Ok? ==> DepthsBelow(g.depths, step(face, g).value.depths)
    requires Faces(step, faces, f).Ok?
    ensures DepthsBelow(f.depths, Faces(step, faces, f).value.depths)
    decreases |faces|
  {
    if faces != [] {
      var next := step(faces[0], f).value;
      FacesKeepDepthOrder(step, faces[1..], next);
    }
  }

  lemma {:induction false} FacesKeepVaryings(step: FaceStep, faces: seq<seq<Vertex>>, f: Frame)
    requires forall face, g :: step(face, g).Ok? ==> step(face, g).value.vary == g.vary
    requires Faces(step, faces, f).Ok?
    ensures Faces(step, faces, f).value.vary == f.vary
    decreases |faces|
  {
    if faces != [] {
      var next := step(faces[0], f).value;
      FacesKeepVaryings(step, faces[1..], next);
    }
  }

  lemma {:induction false} FacesKeepColorCount(step: FaceStep, faces: seq<seq<Vertex>>, f: Frame)
    requires forall face, g :: step(face, g).Ok? ==> |step(face, g).value.colors| == |g.colors|
    requires Faces(step, faces, f).Ok?
    ensures |Faces(step, faces, f).value.colors| == |f.colors|
    decreases |faces|
  {
    if faces != [] {
      var next := step(faces[0], f).value;
      FacesKeepColorCount(step, faces[1..], next);
    }
  }

  /** Drawing a model keeps the colour buffer's size. */
  lemma ModelKeepsColorCount(lib: MathLib, kind: ShaderKind, u: Uniforms, shadow: Raster<GrayscaleColor>,
                             faces: seq<seq<Vertex>>, f: Frame, width: int, height: int)
    requires ModelSpec(lib, kind, u, shadow, faces, f, width, height).Ok?
    ensures |ModelSpec(lib, kind, u, shadow, faces, f, width, height).value.colors| == |f.colors|
  {
    var step := StepOf(lib, kind, u, shadow, width, height);
    forall face, g | step(face, g).Ok?
      ensures |step(face, g).value.colors| == |g.colors|
    {
    }
    FacesKeepColorCount(step, faces, f);
  }

  /** No stored depth decreases when a whole model is drawn. */
  lemma ModelDepthsNeverDecrease(lib: MathLib, kind: ShaderKind, u: Uniforms, shadow: Raster<GrayscaleColor>,
                                 faces: seq<seq<Vertex>>, f: Frame, width: int, height: int)
    requires ModelSpec(lib, kind, u, shadow, faces, f, width, height).Ok?
    ensures DepthsBelow(f.depths, ModelSpec(lib, kind, u, shadow, faces, f, width, height).value.depths)
  {
    var step := StepOf(lib, kind, u, shadow, width, height);
    forall face, g | step(face, g).Ok?
      ensures DepthsBelow(g.depths, step(face, g).value.depths)
    {
      if FaceInput(lib, u, shadow, face, g, width, height) {
        FaceDepthsNeverDecrease(lib, kind, u, shadow, face, g, width, height);
      }
    }
    FacesKeepDepthOrder(step, faces, f);
  }

  lemma FaceDepthsNeverDecrease(lib: MathLib, kind: ShaderKind, u: Uniforms, shadow: Raster<GrayscaleColor>, face: seq<Vertex>,
                                f: Frame, width: int, height: int)
    requires ValidLib(lib) && u.Valid() && shadow.Valid() && ValidFace(face) && f.vary.Valid()
    requires 1 <= width && 1 <= height && |f.colors| == |f.depths| == width * height
    requires FaceSpec(lib, kind, u, shadow, face, f, width, height).Ok?
    ensures DepthsBelow(f.depths, FaceSpec(lib, kind, u, shadow, face, f, width, height).value.depths)
  {
    TriangleDepthsNeverDecrease(Pipeline(lib, kind, FaceVaryings(kind, f.vary, face), u, shadow), FaceTriangle(kind, u, face).value,
                                f.colors, f.depths, width, height);
  }

  /**
   * The shadow pass and the depth pass keep the shader's varyings: only the
   * main shader's vertex stage writes them.
   */
  lemma ConstantShadersKeepVaryings(lib: MathLib, kind: ShaderKind, u: Uniforms, shadow: Raster<GrayscaleColor>,
                                    faces: seq<seq<Vertex>>, f: Frame, width: int, height: int)
    requires !kind.MainShader?
    requires ModelSpec(lib, kind, u, shadow, faces, f, width, height).Ok?
    ensures ModelSpec(lib, kind, u, shadow, faces, f, width, height).value.vary == f.vary
  {
    var step := StepOf(lib, kind, u, shadow, width, height);
    forall face, g | step(face, g).Ok?
      ensures step(face, g).value.vary == g.vary
    {
    }
    FacesKeepVaryings(step, faces, f);
  }

  // ---------------------------------------------------------------------------
  // OurGL
  // ---------------------------------------------------------------------------

  /**
   * The state of OurGL: the viewport and output size, the uniforms, and the
   * shadow depth map, which OurGL reaches through a pointer to an image it
   * does not own.
   */
  class OurGL {
    var viewport: Matrix
    var width: int
    var height: int
    var vpm: Matrix
    var lightVpm: Matrix
    var shadowVpm: Matrix
    var lightDir: Vector
    var viewVector: Vector
    var texture: Raster<RgbaColor>
    var tangentNormalMap: Raster<RgbaColor>
    var shadowDepthMap: Image?<GrayscaleColor>

    ghost predicate Valid()
      reads this, shadowDepthMap
    {
      Shaders.Uniforms(viewport, width, height, vpm, lightVpm, shadowVpm, lightDir, viewVector, texture, tangentNormalMap).Valid() &&
      (shadowDepthMap != null ==> shadowDepthMap.Valid())
    }

    /** OurGL(): a 0x0 output, zero matrices and vectors, empty images and no shadow map. */
    constructor ()
      ensures Valid() && width == 0 && height == 0 && shadowDepthMap == null
      ensures viewport == ZeroMatrix(4, 4) && vpm == ZeroMatrix(4, 4) && lightVpm == ZeroMatrix(4, 4) && shadowVpm == ZeroMatrix(4, 4)
      ensures lightDir == Zeros(3) && viewVector == Zeros(3)
      ensures texture == Raster(0, 0, []) && tangentNormalMap == Raster(0, 0, [])
    {
      viewport, width, height := ZeroMatrix(4, 4), 0, 0;
      vpm, lightVpm, shadowVpm := ZeroMatrix(4, 4), ZeroMatrix(4, 4), ZeroMatrix(4, 4);
      lightDir, viewVector := Zeros(3), Zeros(3);
      texture, tangentNormalMap := Raster(0, 0, []), Raster(0, 0, []);
      shadowDepthMap := null;
    }

    function Uniforms(): (u: Shaders.Uniforms)
      reads this, shadowDepthMap
      requires Valid()
      ensures u.Valid()
    {
      Shaders.Uniforms(viewport, width, height, vpm, lightVpm, shadowVpm, lightDir, viewVector, texture, tangentNormalMap)
    }

    /** The shadow depth map as the main shader sees it; the other shaders never read it. */
    function ShadowSnapshot(kind: ShaderKind): (s: Raster<GrayscaleColor>)
      reads this, shadowDepthMap
      requires Valid()
      ensures s.Valid()
    {
      if kind.MainShader? && shadowDepthMap != null then shadowDepthMap.Value() else Raster(0, 0, [])
    }

    function PipelineFor(lib: MathLib, shader: Shader): (p: Pipeline)
      reads this, shadowDepthMap, shader
      requires Valid() && ValidLib(lib) && shader.Valid()
      ensures p.Valid()
    {
      Pipeline(lib, shader.kind, shader.varyings, Uniforms(), ShadowSnapshot(shader.kind))
    }

    /**
     * DrawModel(model, shader, image, z_buffer): face by face, the vertex
     * stage for vertices 0, 1 and 2, then DrawTriangle. The main pass reads
     * the shadow map, which must not be the depth buffer it draws into; the
     * shadow pass draws into the shadow map itself.
     */
    method DrawModel(lib: MathLib, model: Model, shader: Shader, image: Image<RgbaColor>, zBuffer: Image<GrayscaleColor>) returns (r: Outcome)
      requires Valid() && ValidLib(lib) && shader.Valid() && model.Valid()
      requires shader.kind.MainShader? ==> shadowDepthMap != null && shadowDepthMap != zBuffer
      requires image.Valid() && zBuffer.Valid() && image.width == zBuffer.width && image.height == zBuffer.height
      requires |model.faces| > 0 ==> 1 <= zBuffer.width && 1 <= zBuffer.height
      modifies shader, image, zBuffer
      ensures Valid() && shader.Valid() && image.Valid() && zBuffer.Valid()
      ensures image.width == old(image.width) && image.height == old(image.height)
      ensures zBuffer.width == old(zBuffer.width) && zBuffer.height == old(zBuffer.height)
      ensures var spec := old(ModelSpec(lib, shader.kind, Uniforms(), ShadowSnapshot(shader.kind), model.faces,
                                        Frame(shader.varyings, image.data, zBuffer.data), zBuffer.width, zBuffer.height));
        (r.Pass? <==> spec.Ok?) &&
        (r.Pass? ==> spec.value == Frame(shader.varyings, image.data, zBuffer.data)) &&
        (r.Fail? ==> spec == Err(r.error))
    {
      var w, h := zBuffer.width, zBuffer.height;
      var u := Uniforms();
      ghost var shadow := ShadowSnapshot(shader.kind);
      ghost var spec := ModelSpec(lib, shader.kind, u, shadow, model.faces, Frame(shader.varyings, image.data, zBuffer.data), w, h);
      var i := 0;
      while i != |model.faces|
        invariant 0 <= i <= |model.faces|
        invariant Valid() && shader.Valid() && image.Valid() && zBuffer.Valid()
        invariant image.width == w && image.height == h && zBuffer.width == w && zBuffer.height == h
        invariant Uniforms() == u && ShadowSnapshot(shader.kind) == shadow
        invariant spec == ModelSpec(lib, shader.kind, u, shadow, model.faces[i..], Frame(shader.varyings, image.data, zBuffer.data), w, h)
        decreases |model.faces| - i
      {
        assert model.faces[i..][0] == model.faces[i] && model.faces[i..][1..] == model.faces[i + 1..];
        assert FaceInput(lib, u, shadow, model.faces[i], Frame(shader.varyings, image.data, zBuffer.data), w, h);
        r := DrawFace(lib, model.faces[i], shader, image, zBuffer);
        if r.Fail? {
          return;
        }
        i := i + 1;
      }
      r := Pass;
    }

    /** One iteration of DrawModel's loop: the vertex stage for vertices 0, 1 and 2, then DrawTriangle. */
    method DrawFace(lib: MathLib, face: seq<Vertex>, shader: Shader, image: Image<RgbaColor>, zBuffer: Image<GrayscaleColor>) returns (r: Outcome)
      requires Valid() && ValidLib(lib) && shader.Valid() && ValidFace(face)
      requires shader.kind.MainShader? ==> shadowDepthMap != null && shadowDepthMap != zBuffer
      requires image.Valid() && zBuffer.Valid() && image.width == zBuffer.width && image.height == zBuffer.height
      requires 1 <= zBuffer.width && 1 <= zBuffer.height
      modifies shader, image, zBuffer
      ensures Valid() && shader.Valid() && image.Valid() && zBuffer.Valid()
      ensures Uniforms() == old(Uniforms()) && ShadowSnapshot(shader.kind) == old(ShadowSnapshot(shader.kind))
      ensures image.width == old(image.width) && image.height == old(image.height)
      ensures zBuffer.width == old(zBuffer.width) && zBuffer.height == old(zBuffer.height)
      ensures var spec := old(FaceSpec(lib, shader.kind, Uniforms(), ShadowSnapshot(shader.kind), face,
                                       Frame(shader.varyings, image.data, zBuffer.data), zBuffer.width, zBuffer.height));
        (r.Pass? <==> spec.Ok?) &&
        (r.Pass? ==> spec.value == Frame(shader.varyings, image.data, zBuffer.data)) &&
        (r.Fail? ==> spec == Err(r.error))
    {
      var t := ShadeFace(Uniforms(), face, shader);
      if t.Err? {
        return Fail(t.error);
      }
      r := DrawTriangle(lib, t.value, shader, image, zBuffer);
    }

    /**
     * DrawTriangle(gl_Positions, shader, image, z_buffer). The fragment
     * shader of the main pass reads the shadow map, which must therefore
     * not be the depth buffer being drawn; the colour image must have the
     * depth buffer's size. Whether or not a fragment fails, no stored depth
     * ever decreases.
     */
    method DrawTriangle(lib: MathLib, t: Triangle, shader: Shader, image: Image<RgbaColor>, zBuffer: Image<GrayscaleColor>) returns (r: Outcome)
      requires Valid() && ValidLib(lib) && shader.Valid() && t.Valid()
      requires shader.kind.MainShader? ==> shadowDepthMap != null && shadowDepthMap != zBuffer
      requires image.Valid() && zBuffer.Valid() && image.width == zBuffer.width && image.height == zBuffer.height
      requires 1 <= zBuffer.width && 1 <= zBuffer.height
      modifies image, zBuffer
      ensures image.Valid() && zBuffer.Valid()
      ensures image.width == old(image.width) && image.height == old(image.height)
      ensures zBuffer.width == old(zBuffer.width) && zBuffer.height == old(zBuffer.height)
      ensures var spec := old(TriangleSpec(PipelineFor(lib, shader), t, image.data, zBuffer.data, zBuffer.width, zBuffer.height));
        (r.Pass? <==> spec.Ok?) &&
        (r.Pass? ==> image.data == spec.value.0 && zBuffer.data == spec.value.1) &&
        (r.Fail? ==> spec == Err(r.error))
      ensures forall i :: 0 <= i < |zBuffer.data| ==> old(zBuffer.data[i].value) <= zBuffer.data[i].value
    {
      var w, h := zBuffer.width, zBuffer.height;
      var u := Uniforms();
      var shadow := ShadowSnapshot(shader.kind);
      ghost var pipe := PipelineFor(lib, shader);
      ghost var depths := zBuffer.data;
      var box := BoundingBox(t, w, h);
      ghost var rule := RuleOf(pipe, t);
      ghost var spec := Sweep(rule, box, image.data, zBuffer.data, w, h, box.minX, box.minY);
      var x := box.minX;
      while x != box.maxX
        invariant box.minX <= x <= box.maxX
        invariant image.Valid() && zBuffer.Valid()
        invariant image.width == w && image.height == h && zBuffer.width == w && zBuffer.height == h
        invariant spec == Sweep(rule, box, image.data, zBuffer.data, w, h, x, box.minY)
        invariant forall i :: 0 <= i < |zBuffer.data| ==> depths[i].value <= zBuffer.data[i].value
        decreases box.maxX - x
      {
        r := DrawColumn(lib, t, shader, u, shadow, box, x, image, zBuffer, pipe, depths);
        if r.Fail? {
          return;
        }
        x := x + 1;
      }
      r := Pass;
    }
  }

  /**
   * The body of DrawTriangle's loops at pixel (x, y): the barycentric
   * coordinates, the coverage and depth tests, and the fragment shader.
   */
  method ShadePixel(lib: MathLib, t: Triangle, shader: Shader, u: Uniforms, shadow: Raster<GrayscaleColor>,
                    x: int, y: int, stored: GrayscaleColor, ghost pipe: Pipeline) returns (r: Result<Option<PixelUpdate>>)
    requires shader.Valid() && t.Valid()
    requires pipe == Pipeline(lib, shader.kind, shader.varyings, u, shadow) && pipe.Valid()
    ensures r == RuleOf(pipe, t)(x, y, stored)
    ensures r.Ok? && r.value.Some? ==> stored.value <= r.value.value.depth.value
  {
    var b := PixelBarycentric(t, x, y);
    if !Covered(b) {
      return Ok(None);
    }
    var z := Depth(t, b);
    if !PassesDepthTest(stored, z) {
      return Ok(None);
    }
    var color := shader.ShadeFragment(lib, u, shadow, FragCoord(t, b, z), b);
    if color.Err? {
      return Err(color.error);
    }
    QuantizeNeverDecreases(stored, z);
    r := Ok(Some(PixelUpdate(color.value, Quantize(z))));
  }

  /**
   * The inner loop of DrawTriangle: column x of the box, from its first
   * row to its last.
   */
  method DrawColumn(lib: MathLib, t: Triangle, shader: Shader, u: Uniforms, shadow: Raster<GrayscaleColor>, box: Box, x: int,
                    image: Image<RgbaColor>, zBuffer: Image<GrayscaleColor>, ghost pipe: Pipeline, ghost depths: seq<GrayscaleColor>)
      returns (r: Outcome)
    requires shader.Valid() && t.Valid()
    requires pipe == Pipeline(lib, shader.kind, shader.varyings, u, shadow) && pipe.Valid()
    requires image.Valid() && zBuffer.Valid()
    requires image.width == zBuffer.width && image.height == zBuffer.height
    requires BoxInside(box, zBuffer.width, zBuffer.height) && box.minX <= x < box.maxX && box.minY <= box.maxY
    requires |depths| == |zBuffer.data| && forall i :: 0 <= i < |depths| ==> depths[i].value <= zBuffer.data[i].value
    modifies image, zBuffer
    ensures image.Valid() && zBuffer.Valid()
    ensures image.width == old(image.width) && image.height == old(image.height)
    ensures zBuffer.width == old(zBuffer.width) && zBuffer.height == old(zBuffer.height)
    ensures var before := old(Sweep(RuleOf(pipe, t), box, image.data, zBuffer.data, zBuffer.width, zBuffer.height, x, box.minY));
      (r.Pass? ==> before == Sweep(RuleOf(pipe, t), box, image.data, zBuffer.data, zBuffer.width, zBuffer.height, x + 1, box.minY)) &&
      (r.Fail? ==> before == Err(r.error))
    ensures forall i :: 0 <= i < |depths| ==> depths[i].value <= zBuffer.data[i].value
  {
    var w, h := zBuffer.width, zBuffer.height;
    ghost var rule := RuleOf(pipe, t);
    ghost var spec := Sweep(rule, box, image.data, zBuffer.data, w, h, x, box.minY);
    var y := box.minY;
    while y != box.maxY
      invariant box.minY <= y <= box.maxY
      invariant image.Valid() && zBuffer.Valid()
      invariant image.width == w && image.height == h && zBuffer.width == w && zBuffer.height == h
      invariant spec == Sweep(rule, box, image.data, zBuffer.data, w, h, x, y)
      invariant forall i :: 0 <= i < |zBuffer.data| ==> depths[i].value <= zBuffer.data[i].value
      decreases box.maxY - y
    {
      IndexInRange(x, y, w, h);
      var written := ShadePixel(lib, t, shader, u, shadow, x, y, zBuffer.data[Index(x, y, w)], pipe);
      if written.Err? {
        return Fail(written.error);
      }
      if written.value.Some? {
        var update := written.value.value;
        zBuffer.Set(x, y, update.depth);
        image.Set(x, y, update.color);
      }
      y := y + 1;
    }
    r := Pass;
  }

  /**
   * The vertex stage of one face: ShadeVertex for vertices 0, 1 and 2 in
   * order, stopping at the first that throws.
   */
  method ShadeFace(u: Uniforms, face: seq<Vertex>, shader: Shader) returns (r: Result<Triangle>)
    requires u.Valid() && ValidFace(face) && shader.Valid()
    modifies shader
    ensures shader.Valid()
    ensures r == FaceTriangle(shader.kind, u, face)
    ensures r.Ok? ==> shader.varyings == FaceVaryings(shader.kind, old(shader.varyings), face)
  {
    var p0 := shader.ShadeVertex(u, face[0], 0);
    if p0.Err? {
      return Err(p0.error);
    }
    var p1 := shader.ShadeVertex(u, face[1], 1);
    if p1.Err? {
      return Err(p1.error);
    }
    var p2 := shader.ShadeVertex(u, face[2], 2);
    if p2.Err? {
      return Err(p2.error);
    }
    r := Ok(Triangle(p0.value, p1.value, p2.value));
  }
}
