/**
 * The triangle rasterizers of the first renderer (TinyRenderer/src/our_gl.cpp
 * and TinyRenderer/src/drawing.cpp).
 *
 * The integer DrawTriangle scans the exact bounds of its three vertices and
 * plots every point the integer inside test accepts. The depth-tested
 * overloads all share one loop: the vertices' bounds widened by a pixel,
 * truncated and clamped to the depth buffer, scanned x outer and y inner;
 * they differ only in what the loop body does at one pixel, which this
 * module calls a Rule. Sweep is what the loops do, given the rule.
 *
 * TGAImage::set is recorded on a LegacyDrawing.Canvas, as for DrawLine.
 */
module LegacyRaster {
  import opened Wrappers
  import opened RealMath
  import opened LinAlg
  import opened Images
  import opened OurGl
  import opened LegacyDrawing
  import Rasterizer
  import LegacyGeometry
  import GeometryNew

  type Box = Rasterizer.Box

  // ---------------------------------------------------------------------------
  // The integer DrawTriangle
  // ---------------------------------------------------------------------------

  /** Three integer screen points (Vec2i). */
  predicate Corners(p0: seq<int>, p1: seq<int>, p2: seq<int>)
  {
    |p0| == 2 && |p1| == 2 && |p2| == 2
  }

  /** min_x, max_x, min_y, max_y: the exact bounds of the vertices, visited half-open. */
  function IntBox(p0: seq<int>, p1: seq<int>, p2: seq<int>): (b: Box)
    requires Corners(p0, p1, p2)
    ensures b.minX <= b.maxX && b.minY <= b.maxY
    ensures b.minX <= p0[0] && b.minX <= p1[0] && b.minX <= p2[0]
    ensures b.maxX >= p0[0] && b.maxX >= p1[0] && b.maxX >= p2[0]
    ensures b.minY <= p0[1] && b.minY <= p1[1] && b.minY <= p2[1]
    ensures b.maxY >= p0[1] && b.maxY >= p1[1] && b.maxY >= p2[1]
    ensures b.minX == p0[0] || b.minX == p1[0] || b.minX == p2[0]
    ensures b.maxX == p0[0] || b.maxX == p1[0] || b.maxX == p2[0]
    ensures b.minY == p0[1] || b.minY == p1[1] || b.minY == p2[1]
    ensures b.maxY == p0[1] || b.maxY == p1[1] || b.maxY == p2[1]
  {
    Rasterizer.Box(MinInt(p0[0], MinInt(p1[0], p2[0])), MaxInt(p0[0], MaxInt(p1[0], p2[0])),
                   MinInt(p0[1], MinInt(p1[1], p2[1])), MaxInt(p0[1], MaxInt(p1[1], p2[1])))
  }

  /** IsPointInTriangle(edge1, edge2, (x0 - x, y0 - y)) with the edges from p0. */
  predicate Inside(p0: seq<int>, p1: seq<int>, p2: seq<int>, x: int, y: int)
    requires Corners(p0, p1, p2)
  {
    IsPointInTriangle(IntSub(p1, p0), IntSub(p2, p0), IntSub(p0, [x, y]))
  }

  /** The points the inner loop plots in column x, rows box.minY .. y - 1, in order. */
  function ColumnPoints(p0: seq<int>, p1: seq<int>, p2: seq<int>, box: Box, x: int, y: int): seq<(int, int)>
    requires Corners(p0, p1, p2)
    decreases y - box.minY
  {
    if y <= box.minY then []
    else ColumnPoints(p0, p1, p2, box, x, y - 1) + (if Inside(p0, p1, p2, x, y - 1) then [(x, y - 1)] else [])
  }

  /** The points the loops plot in columns box.minX .. x - 1, in order. */
  function ScanPoints(p0: seq<int>, p1: seq<int>, p2: seq<int>, box: Box, x: int): seq<(int, int)>
    requires Corners(p0, p1, p2)
    decreases x - box.minX
  {
    if x <= box.minX then []
    else ScanPoints(p0, p1, p2, box, x - 1) + ColumnPoints(p0, p1, p2, box, x - 1, box.maxY)
  }

  /** The points of column x the inner loop has plotted once it reaches row y. */
  lemma {:induction false} ColumnMembership(p0: seq<int>, p1: seq<int>, p2: seq<int>, box: Box, x: int, y: int, a: int, b: int)
    requires Corners(p0, p1, p2)
    ensures (a, b) in ColumnPoints(p0, p1, p2, box, x, y) <==> a == x && box.minY <= b < y && Inside(p0, p1, p2, a, b)
    decreases y - box.minY
  {
    if box.minY < y {
      ColumnMembership(p0, p1, p2, box, x, y - 1, a, b);
    }
  }

  /** The points of the columns before x: those of the box left of x that are inside. */
  lemma {:induction false} ScanMembership(p0: seq<int>, p1: seq<int>, p2: seq<int>, box: Box, x: int, a: int, b: int)
    requires Corners(p0, p1, p2)
    ensures (a, b) in ScanPoints(p0, p1, p2, box, x) <==>
      box.minX <= a < x && box.minY <= b < box.maxY && Inside(p0, p1, p2, a, b)
    decreases x - box.minX
  {
    if box.minX < x {
      ScanMembership(p0, p1, p2, box, x - 1, a, b);
      ColumnMembership(p0, p1, p2, box, x - 1, box.maxY, a, b);
    }
  }

  /**
   * The integer DrawTriangle plots exactly the points of [min_x, max_x) x
   * [min_y, max_y) that the inside test accepts, which are the points whose
   * barycentric weights are all non-negative; column max_x and row max_y
   * are never plotted.
   */
  lemma IntTriangleCoverage(p0: seq<int>, p1: seq<int>, p2: seq<int>, a: int, b: int)
    requires Corners(p0, p1, p2)
    ensures var box := IntBox(p0, p1, p2);
      (a, b) in ScanPoints(p0, p1, p2, box, box.maxX) <==> box.Contains(a, b) && Inside(p0, p1, p2, a, b)
    ensures Inside(p0, p1, p2, a, b) <==> Covered(GetBarycentric(ToReal([a, b]), ToReal(p0), ToReal(p1), ToReal(p2)))
  {
    var box := IntBox(p0, p1, p2);
    ScanMembership(p0, p1, p2, box, box.maxX, a, b);
    InsideTestsAgree([a, b], p0, p1, p2);
  }

  /** Collinear vertices plot nothing. */
  lemma CollinearDrawsNothing(p0: seq<int>, p1: seq<int>, p2: seq<int>)
    requires Corners(p0, p1, p2)
    requires (p1[0] - p0[0]) * (p2[1] - p0[1]) - (p2[0] - p0[0]) * (p1[1] - p0[1]) == 0
    ensures var box := IntBox(p0, p1, p2); ScanPoints(p0, p1, p2, box, box.maxX) == []
  {
    var box := IntBox(p0, p1, p2);
    var s := ScanPoints(p0, p1, p2, box, box.maxX);
    if s != [] {
      ScanMembership(p0, p1, p2, box, box.maxX, s[0].0, s[0].1);
      assert s[0] in s;
      InsideNeedsArea(p0, p1, p2, s[0].0, s[0].1);
    }
  }

  /** The inside test accepts nothing when the edges from p0 are parallel. */
  lemma InsideNeedsArea(p0: seq<int>, p1: seq<int>, p2: seq<int>, x: int, y: int)
    requires Corners(p0, p1, p2)
    requires Inside(p0, p1, p2, x, y)
    ensures (p1[0] - p0[0]) * (p2[1] - p0[1]) - (p2[0] - p0[0]) * (p1[1] - p0[1]) != 0
  {
    var e1, e2 := IntSub(p1, p0), IntSub(p2, p0);
    assert e1[0] * e2[1] - e2[0] * e1[1] != 0;
    assert e1 == [p1[0] - p0[0], p1[1] - p0[1]] && e2 == [p2[0] - p0[0], p2[1] - p0[1]];
  }

  /** DrawTriangle(x0, y0, x1, y1, x2, y2, image, color). */
  method DrawIntTriangle<C>(p0: seq<int>, p1: seq<int>, p2: seq<int>, image: Canvas<C>, color: C)
    requires Corners(p0, p1, p2)
    modifies image
    ensures var box := IntBox(p0, p1, p2);
      image.plots == old(image.plots) + Plots(ScanPoints(p0, p1, p2, box, box.maxX), color)
  {
    var box := IntBox(p0, p1, p2);
    ghost var start := image.plots;
    var x := box.minX;
    while x != box.maxX
      invariant box.minX <= x <= box.maxX
      invariant image.plots == start + Plots(ScanPoints(p0, p1, p2, box, x), color)
      decreases box.maxX - x
    {
      DrawIntColumn(p0, p1, p2, box, x, image, color);
      ScanStep(start, p0, p1, p2, box, x, color);
      x := x + 1;
    }
  }

  /** One more column extends what the outer loop has plotted after any earlier calls. */
  lemma ScanStep<C>(start: seq<Plot<C>>, p0: seq<int>, p1: seq<int>, p2: seq<int>, box: Box, x: int, color: C)
    requires Corners(p0, p1, p2) && box.minX <= x
    ensures start + Plots(ScanPoints(p0, p1, p2, box, x + 1), color) ==
            (start + Plots(ScanPoints(p0, p1, p2, box, x), color)) + Plots(ColumnPoints(p0, p1, p2, box, x, box.maxY), color)
  {
    PlotsAppend(ScanPoints(p0, p1, p2, box, x), ColumnPoints(p0, p1, p2, box, x, box.maxY), color);
  }

  /** The inner loop of the integer DrawTriangle: column x from min_y to max_y. */
  method DrawIntColumn<C>(p0: seq<int>, p1: seq<int>, p2: seq<int>, box: Box, x: int, image: Canvas<C>, color: C)
    requires Corners(p0, p1, p2) && box.minY <= box.maxY
    modifies image
    ensures image.plots == old(image.plots) + Plots(ColumnPoints(p0, p1, p2, box, x, box.maxY), color)
  {
    var edge1, edge2 := IntSub(p1, p0), IntSub(p2, p0);
    ghost var start := image.plots;
    var y := box.minY;
    while y != box.maxY
      invariant box.minY <= y <= box.maxY
      invariant image.plots == start + Plots(ColumnPoints(p0, p1, p2, box, x, y), color)
      decreases box.maxY - y
    {
      if IsPointInTriangle(edge1, edge2, IntSub(p0, [x, y])) {
        image.Set(x, y, color);
        PlotsAppend(ColumnPoints(p0, p1, p2, box, x, y), [(x, y)], color);
      }
      y := y + 1;
    }
  }

  // ---------------------------------------------------------------------------
  // The depth-tested loops
  // ---------------------------------------------------------------------------

  /** A rectangular depth buffer indexed [y][x], at least one pixel each way. */
  predicate Grid<D>(rows: seq<seq<D>>)
  {
    1 <= |rows| && 1 <= |rows[0]| && forall r :: 0 <= r < |rows| ==> |rows[r]| == |rows[0]|
  }

  /** Two buffers with the same rows and row lengths. */
  predicate SameShape<D>(a: seq<seq<D>>, b: seq<seq<D>>)
  {
    |a| == |b| && forall r :: 0 <= r < |a| ==> |a[r]| == |b[r]|
  }

  /** A box of pixels that the buffer holds. */
  predicate BoxIn<D>(box: Box, rows: seq<seq<D>>)
    requires Grid(rows)
  {
    Rasterizer.BoxInside(box, |rows[0]|, |rows|)
  }

  /**
   * What a loop body does at pixel (x, y) given the depth stored there:
   * throw, skip the pixel, or set the image to a colour and the buffer to
   * a new depth.
   */
  type Rule<C, !D> = (int, int, D) -> Result<Option<(C, D)>>

  /**
   * The loops from pixel (x, y) on (x outer, y inner), given the image's
   * set calls so far and the buffer as it is when that pixel is reached:
   * the first exception the body throws, or the set calls and the buffer
   * once the last pixel of the box is done.
   */
  function Sweep<C, D>(rule: Rule<C, D>, box: Box, plots: seq<Plot<C>>, rows: seq<seq<D>>, x: int, y: int): (r: Result<(seq<Plot<C>>, seq<seq<D>>)>)
    requires Grid(rows) && BoxIn(box, rows) && box.minX <= x && box.minY <= y
    ensures r.Ok? ==> SameShape(r.value.1, rows) && Grid(r.value.1)
    decreases box.maxX - x, box.maxY - y
  {
    if box.maxX <= x then Ok((plots, rows))
    else if box.maxY <= y then Sweep(rule, box, plots, rows, x + 1, box.minY)
    else
      match rule(x, y, rows[y][x])
      case Err(e) => Err(e)
      case Ok(None) => Sweep(rule, box, plots, rows, x, y + 1)
      case Ok(Some(w)) => Sweep(rule, box, plots + [Plot(x, y, w.0)], rows[y := rows[y][x := w.1]], x, y + 1)
  }

  /**
   * The sweep from (x, y) on leaves alone every entry outside the box and
   * every entry the loops have already passed.
   */
  lemma {:induction false} SweepKeepsOthers<C, D>(rule: Rule<C, D>, box: Box, plots: seq<Plot<C>>, rows: seq<seq<D>>,
                                                  x: int, y: int, px: int, py: int)
    requires Grid(rows) && BoxIn(box, rows) && box.minX <= x && box.minY <= y
    requires Sweep(rule, box, plots, rows, x, y).Ok?
    requires 0 <= py < |rows| && 0 <= px < |rows[0]|
    requires !box.Contains(px, py) || Rasterizer.Before(px, py, x, y)
    ensures Sweep(rule, box, plots, rows, x, y).value.1[py][px] == rows[py][px]
    decreases box.maxX - x, box.maxY - y
  {
    if box.maxX <= x {
    } else if box.maxY <= y {
      SweepKeepsOthers(rule, box, plots, rows, x + 1, box.minY, px, py);
    } else {
      match rule(x, y, rows[y][x])
      case Ok(None) =>
        SweepKeepsOthers(rule, box, plots, rows, x, y + 1, px, py);
      case Ok(Some(w)) =>
        SweepKeepsOthers(rule, box, plots + [Plot(x, y, w.0)], rows[y := rows[y][x := w.1]], x, y + 1, px, py);
    }
  }

  /**
   * Each entry of the box the sweep has yet to reach ends up holding what
   * the rule makes of the depth stored there before: the loops visit it
   * exactly once.
   */
  lemma {:induction false} SweepWritesEachPixelOnce<C, D>(rule: Rule<C, D>, box: Box, plots: seq<Plot<C>>, rows: seq<seq<D>>,
                                                          x: int, y: int, px: int, py: int)
    requires Grid(rows) && BoxIn(box, rows) && box.minX <= x && box.minY <= y
    requires Sweep(rule, box, plots, rows, x, y).Ok?
    requires box.Contains(px, py) && !Rasterizer.Before(px, py, x, y)
    ensures var w := rule(px, py, rows[py][px]);
      w.Ok? &&
      Sweep(rule, box, plots, rows, x, y).value.1[py][px] == (if w.value.Some? then w.value.value.1 else rows[py][px])
    decreases box.maxX - x, box.maxY - y
  {
    if box.maxY <= y {
      SweepWritesEachPixelOnce(rule, box, plots, rows, x + 1, box.minY, px, py);
    } else if px == x && py == y {
      match rule(x, y, rows[y][x])
      case Ok(None) =>
        SweepKeepsOthers(rule, box, plots, rows, x, y + 1, px, py);
      case Ok(Some(w)) =>
        SweepKeepsOthers(rule, box, plots + [Plot(x, y, w.0)], rows[y := rows[y][x := w.1]], x, y + 1, px, py);
    } else {
      match rule(x, y, rows[y][x])
      case Ok(None) =>
        SweepWritesEachPixelOnce(rule, box, plots, rows, x, y + 1, px, py);
      case Ok(Some(w)) =>
        SweepWritesEachPixelOnce(rule, box, plots + [Plot(x, y, w.0)], rows[y := rows[y][x := w.1]], x, y + 1, px, py);
    }
  }

  /**
   * The set calls of the sweep extend the earlier ones, and each new one is
   * at a pixel of the box not yet passed, with the colour the rule gives
   * for the depth stored there before the sweep.
   */
  lemma {:induction false} SweepPlotsFollowRule<C, D>(rule: Rule<C, D>, box: Box, plots: seq<Plot<C>>, rows: seq<seq<D>>,
                                                      x: int, y: int, k: int)
    requires Grid(rows) && BoxIn(box, rows) && box.minX <= x && box.minY <= y
    requires Sweep(rule, box, plots, rows, x, y).Ok?
    requires |plots| <= k < |Sweep(rule, box, plots, rows, x, y).value.0|
    ensures var r := Sweep(rule, box, plots, rows, x, y).value.0;
      r[..|plots|] == plots
    ensures var p := Sweep(rule, box, plots, rows, x, y).value.0[k];
      box.Contains(p.x, p.y) && !Rasterizer.Before(p.x, p.y, x, y) &&
      var w := rule(p.x, p.y, rows[p.y][p.x]);
      w.Ok? && w.value.Some? && w.value.value.0 == p.color
    decreases box.maxX - x, box.maxY - y
  {
    if box.maxX <= x {
    } else if box.maxY <= y {
      SweepPlotsFollowRule(rule, box, plots, rows, x + 1, box.minY, k);
    } else {
      match rule(x, y, rows[y][x])
      case Ok(None) =>
        SweepPlotsFollowRule(rule, box, plots, rows, x, y + 1, k);
      case Ok(Some(w)) =>
        var plots', rows' := plots + [Plot(x, y, w.0)], rows[y := rows[y][x := w.1]];
        var r := Sweep(rule, box, plots', rows', x, y + 1).value.0;
        if k == |plots| {
          SweepPrefix(rule, box, plots', rows', x, y + 1);
          assert r[k] == plots'[k];
        } else {
          SweepPlotsFollowRule(rule, box, plots', rows', x, y + 1, k);
          var p := r[k];
          assert rows'[p.y][p.x] == rows[p.y][p.x];
        }
        SweepPrefix(rule, box, plots', rows', x, y + 1);
        assert r[..|plots|] == r[..|plots'|][..|plots|];
    }
  }

  /** The sweep only appends set calls. */
  lemma {:induction false} SweepPrefix<C, D>(rule: Rule<C, D>, box: Box, plots: seq<Plot<C>>, rows: seq<seq<D>>, x: int, y: int)
    requires Grid(rows) && BoxIn(box, rows) && box.minX <= x && box.minY <= y
    requires Sweep(rule, box, plots, rows, x, y).Ok?
    ensures var r := Sweep(rule, box, plots, rows, x, y).value.0;
      |plots| <= |r| && r[..|plots|] == plots
    decreases box.maxX - x, box.maxY - y
  {
    if box.maxX <= x {
    } else if box.maxY <= y {
      SweepPrefix(rule, box, plots, rows, x + 1, box.minY);
    } else {
      match rule(x, y, rows[y][x])
      case Ok(None) =>
        SweepPrefix(rule, box, plots, rows, x, y + 1);
      case Ok(Some(w)) =>
        var plots' := plots + [Plot(x, y, w.0)];
        SweepPrefix(rule, box, plots', rows[y := rows[y][x := w.1]], x, y + 1);
        var r := Sweep(rule, box, plots', rows[y := rows[y][x := w.1]], x, y + 1).value.0;
        assert r[..|plots|] == r[..|plots'|][..|plots|];
    }
  }

  /** A rule that never throws gives a sweep that never throws. */
  lemma {:induction false} SweepWithoutErrors<C, D>(rule: Rule<C, D>, box: Box, plots: seq<Plot<C>>, rows: seq<seq<D>>, x: int, y: int)
    requires Grid(rows) && BoxIn(box, rows) && box.minX <= x && box.minY <= y
    requires forall px, py, stored :: rule(px, py, stored).Ok?
    ensures Sweep(rule, box, plots, rows, x, y).Ok?
    decreases box.maxX - x, box.maxY - y
  {
    if box.maxX <= x {
    } else if box.maxY <= y {
      SweepWithoutErrors(rule, box, plots, rows, x + 1, box.minY);
    } else {
      match rule(x, y, rows[y][x])
      case Ok(None) =>
        SweepWithoutErrors(rule, box, plots, rows, x, y + 1);
      case Ok(Some(w)) =>
        SweepWithoutErrors(rule, box, plots + [Plot(x, y, w.0)], rows[y := rows[y][x := w.1]], x, y + 1);
    }
  }

  /** std::vector<std::vector<D>>& z_buffer, or the TGAImage the shader overload reads and writes as one. */
  class DepthBuffer<D> {
    var rows: seq<seq<D>>

    predicate Valid()
      reads this
    {
      Grid(rows)
    }

    constructor (rows: seq<seq<D>>)
      requires Grid(rows)
      ensures Valid() && this.rows == rows
    {
      this.rows := rows;
    }

    /** z_buffer[y][x] = d. */
    method Set(x: int, y: int, d: D)
      requires Valid() && 0 <= y < |rows| && 0 <= x < |rows[0]|
      modifies this
      ensures Valid() && SameShape(rows, old(rows))
      ensures rows == old(rows)[y := old(rows)[y][x := d]]
    {
      rows := rows[y := rows[y][x := d]];
    }
  }

  /**
   * The two loops of a depth-tested DrawTriangle over a box inside the
   * buffer, with the loop body given as a rule. When the body throws, the
   * loops stop and the exception propagates.
   */
  method DrawBox<C, D>(rule: Rule<C, D>, box: Box, image: Canvas<C>, zBuffer: DepthBuffer<D>) returns (r: Outcome)
    requires zBuffer.Valid() && BoxIn(box, zBuffer.rows) && box.minX <= box.maxX && box.minY <= box.maxY
    modifies image, zBuffer
    ensures zBuffer.Valid() && SameShape(zBuffer.rows, old(zBuffer.rows))
    ensures var spec := old(Sweep(rule, box, image.plots, zBuffer.rows, box.minX, box.minY));
      (r.Pass? <==> spec.Ok?) &&
      (r.Pass? ==> image.plots == spec.value.0 && zBuffer.rows == spec.value.1) &&
      (r.Fail? ==> spec == Err(r.error))
  {
    ghost var shape := zBuffer.rows;
    ghost var spec := Sweep(rule, box, image.plots, zBuffer.rows, box.minX, box.minY);
    var x := box.minX;
    while x != box.maxX
      invariant box.minX <= x <= box.maxX
      invariant zBuffer.Valid() && SameShape(zBuffer.rows, shape)
      invariant spec == Sweep(rule, box, image.plots, zBuffer.rows, x, box.minY)
      decreases box.maxX - x
    {
      r := DrawBoxColumn(rule, box, x, image, zBuffer);
      if r.Fail? {
        return;
      }
      x := x + 1;
    }
    r := Pass;
  }

  /** The inner loop: column x of the box, from its first row to its last. */
  method DrawBoxColumn<C, D>(rule: Rule<C, D>, box: Box, x: int, image: Canvas<C>, zBuffer: DepthBuffer<D>) returns (r: Outcome)
    requires zBuffer.Valid() && BoxIn(box, zBuffer.rows) && box.minX <= x < box.maxX && box.minY <= box.maxY
    modifies image, zBuffer
    ensures zBuffer.Valid() && SameShape(zBuffer.rows, old(zBuffer.rows))
    ensures var before := old(Sweep(rule, box, image.plots, zBuffer.rows, x, box.minY));
      (r.Pass? ==> before == Sweep(rule, box, image.plots, zBuffer.rows, x + 1, box.minY)) &&
      (r.Fail? ==> before == Err(r.error))
  {
    ghost var shape := zBuffer.rows;
    ghost var spec := Sweep(rule, box, image.plots, zBuffer.rows, x, box.minY);
    var y := box.minY;
    while y != box.maxY
      invariant box.minY <= y <= box.maxY
      invariant zBuffer.Valid() && SameShape(zBuffer.rows, shape)
      invariant spec == Sweep(rule, box, image.plots, zBuffer.rows, x, y)
      decreases box.maxY - y
    {
      var written := rule(x, y, zBuffer.rows[y][x]);
      if written.Err? {
        return Fail(written.error);
      }
      if written.value.Some? {
        var w := written.value.value;
        zBuffer.Set(x, y, w.1);
        image.Set(x, y, w.0);
      }
      y := y + 1;
    }
    r := Pass;
  }

  // ---------------------------------------------------------------------------
  // The float z-buffer overloads
  // ---------------------------------------------------------------------------

  type Triangle = Rasterizer.Triangle

  /** The clamped bounding box of the vertices over the buffer: z_buffer[0].size() wide, z_buffer.size() high. */
  function BufferBox<D>(t: Triangle, rows: seq<seq<D>>): (b: Box)
    requires t.Valid() && Grid(rows)
    ensures BoxIn(b, rows) && b.minX <= b.maxX && b.minY <= b.maxY
  {
    Rasterizer.BoundingBox(t, |rows[0]|, |rows|)
  }

  /** a * w.x + b * w.y + c * w.z, component by component. */
  function Interpolate(a: Vector, b: Vector, c: Vector, w: Vector): (r: Vector)
    requires |a| == |b| == |c| && |w| == 3
    ensures |r| == |a|
  {
    LinAlg.Add(LinAlg.Add(LinAlg.Scale(a, w[0]), LinAlg.Scale(b, w[1])), LinAlg.Scale(c, w[2]))
  }

  lemma InterpolateAt(a: Vector, b: Vector, c: Vector, w: Vector, i: int)
    requires |a| == |b| == |c| && |w| == 3 && 0 <= i < |a|
    ensures Interpolate(a, b, c, w)[i] == w[0] * a[i] + w[1] * b[i] + w[2] * c[i]
  {
  }

  /**
   * max(0, -(normal.normalize() * light_dir.normalize())). normalize() does
   * not guard its division: a zero vector becomes NaN, the dot product is
   * NaN and std::max(0., NaN) is 0, so either vector of norm 0 gives 0.
   */
  function Intensity(lib: MathLib, normal: Vector, lightDir: Vector): real
    requires |normal| == 3 && |lightDir| == 3
  {
    if LegacyGeometry.Norm(lib, normal) == 0.0 || LegacyGeometry.Norm(lib, lightDir) == 0.0 then 0.0
    else MaxReal(0.0, -1.0 * Dot(LegacyGeometry.Rescaled(lib, normal, 1.0), LegacyGeometry.Rescaled(lib, lightDir, 1.0)))
  }

  /** The intensity is a fraction: the dot product of two unit vectors is at least -1. */
  lemma IntensityIsFraction(lib: MathLib, normal: Vector, lightDir: Vector)
    requires ValidLib(lib) && |normal| == 3 && |lightDir| == 3
    ensures 0.0 <= Intensity(lib, normal, lightDir) <= 1.0
  {
    if LegacyGeometry.Norm(lib, normal) != 0.0 && LegacyGeometry.Norm(lib, lightDir) != 0.0 {
      var u, v := LegacyGeometry.Rescaled(lib, normal, 1.0), LegacyGeometry.Rescaled(lib, lightDir, 1.0);
      LegacyGeometry.RescaledLength(lib, normal, 1.0);
      LegacyGeometry.RescaledLength(lib, lightDir, 1.0);
      UnitDotAtLeastMinusOne(u, v);
    }
  }

  lemma UnitDotAtLeastMinusOne(u: Vector, v: Vector)
    requires |u| == 3 && |v| == 3 && SqLength(u) == 1.0 && SqLength(v) == 1.0
    ensures -1.0 <= Dot(u, v)
  {
    var s := LinAlg.Add(u, v);
    Dot3(u, v);
    Dot3(u, u);
    Dot3(v, v);
    Dot3(s, s);
    assert SqLength(s) == SqLength(u) + 2.0 * Dot(u, v) + SqLength(v);
    GeometryVec.SqLengthNonNegative(s);
  }

  /** A light shining straight against the normal gives full intensity. */
  lemma HeadOnLightIsFull(lib: MathLib, normal: Vector)
    requires ValidLib(lib) && |normal| == 3 && LegacyGeometry.Norm(lib, normal) != 0.0
    ensures Intensity(lib, normal, LinAlg.Scale(normal, -1.0)) == 1.0
  {
    var u := LegacyGeometry.Rescaled(lib, normal, 1.0);
    RescaledOpposite(lib, normal);
    LegacyGeometry.RescaledLength(lib, normal, 1.0);
    DotWithOpposite(u);
  }

  /** Reversing a vector reverses its normalisation. */
  lemma RescaledOpposite(lib: MathLib, normal: Vector)
    requires |normal| == 3 && LegacyGeometry.Norm(lib, normal) != 0.0
    ensures LegacyGeometry.Norm(lib, LinAlg.Scale(normal, -1.0)) == LegacyGeometry.Norm(lib, normal)
    ensures LegacyGeometry.Rescaled(lib, LinAlg.Scale(normal, -1.0), 1.0) == LinAlg.Scale(LegacyGeometry.Rescaled(lib, normal, 1.0), -1.0)
  {
    var l := LinAlg.Scale(normal, -1.0);
    SqLengthScaled(normal, -1.0);
    assert SqLength(l) == SqLength(normal);
    var k := 1.0 / LegacyGeometry.Norm(lib, normal);
    var u, v := LegacyGeometry.Rescaled(lib, normal, 1.0), LegacyGeometry.Rescaled(lib, l, 1.0);
    assert u == LinAlg.Scale(normal, k) && v == LinAlg.Scale(l, k);
    forall i | 0 <= i < 3
      ensures v[i] == LinAlg.Scale(u, -1.0)[i]
    {
      assert v[i] == (normal[i] * -1.0) * k;
    }
  }

  lemma DotWithOpposite(u: Vector)
    requires |u| == 3
    ensures Dot(u, LinAlg.Scale(u, -1.0)) == -Dot(u, u)
  {
    var v := LinAlg.Scale(u, -1.0);
    Dot3(u, v);
    Dot3(u, u);
  }

  /**
   * FindNearestTextureColor(st, texture) of the first renderer: out_of_range
   * unless both coordinates lie in [0, 1], else the texel at
   * min(int(s * width), width - 1), min(int(t * height), height - 1).
   */
  function SampleChecked<C>(st: Vector, texture: Raster<C>): (r: Result<C>)
    requires |st| == 2 && texture.Valid() && 1 <= texture.width && 1 <= texture.height
    ensures r.Err? <==> !(0.0 <= st[0] <= 1.0 && 0.0 <= st[1] <= 1.0)
    ensures r.Err? ==> r == Err(OutOfRange("st should be in range [0, 1]"))
  {
    if st[0] < 0.0 || st[0] > 1.0 || st[1] < 0.0 || st[1] > 1.0 then Err(OutOfRange("st should be in range [0, 1]"))
    else
      CheckedIndexInRange(st[0], texture.width);
      CheckedIndexInRange(st[1], texture.height);
      var x, y := CheckedIndex(st[0], texture.width), CheckedIndex(st[1], texture.height);
      IndexInRange(x, y, texture.width, texture.height);
      Ok(texture.data[Index(x, y, texture.width)])
  }

  /** min(static_cast<int>(s * size), size - 1). */
  function CheckedIndex(s: real, size: int): int
  {
    MinInt(Trunc(s * size as real), size - 1)
  }

  lemma CheckedIndexInRange(s: real, size: int)
    requires 0.0 <= s <= 1.0 && 1 <= size
    ensures 0 <= CheckedIndex(s, size) < size
  {
    FractionOf(size as real, s);
    assert s * size as real == size as real * s;
    TruncBetween(s * size as real, 0, size);
  }

  /** s = 1 reads the last column, and on [0, 1) both samplers read the same texel. */
  lemma CheckedIndexAgrees(s: real, size: int)
    requires 1 <= size
    ensures CheckedIndex(1.0, size) == size - 1
    ensures 0.0 <= s < 1.0 ==> CheckedIndex(s, size) == TexelIndex(s, size)
  {
    assert 1.0 * size as real == size as real;
    TruncOfInt(size);
    if 0.0 <= s < 1.0 {
      WrapIsFraction(s);
      assert s.Floor == 0;
      assert Wrap(s) == s;
    }
  }

  /** The checked sampler agrees with the wrapping one wherever it does not throw below 1. */
  lemma SampleCheckedAgrees<C>(st: Vector, texture: Raster<C>)
    requires |st| == 2 && texture.Valid() && 1 <= texture.width && 1 <= texture.height
    requires 0.0 <= st[0] < 1.0 && 0.0 <= st[1] < 1.0
    ensures SampleChecked(st, texture) == FindNearestTextureColor(st, texture)
  {
    CheckedIndexAgrees(st[0], texture.width);
    CheckedIndexAgrees(st[1], texture.height);
    SampleTexel(st, texture);
  }

  /**
   * What the three float overloads colour a pixel with: a fixed colour;
   * that colour times the intensity from the interpolated normal; or the
   * texel at the interpolated texture coordinates times that intensity.
   * TGAColor's operator* is not part of this model: it is the scale
   * parameter.
   */
  datatype Shading<!C> =
    | Flat(color: C)
    | Lit(lib: MathLib, normals: seq<Vector>, color: C, lightDir: Vector, scale: (C, real) -> C)
    | Textured(lib: MathLib, normals: seq<Vector>, texcoords: seq<Vector>, texture: Raster<C>, lightDir: Vector, scale: (C, real) -> C)
  {
    predicate Valid()
    {
      match this
      case Flat(_) => true
      case Lit(_, normals, _, lightDir, _) =>
        |normals| == 3 && |normals[0]| == 3 && |normals[1]| == 3 && |normals[2]| == 3 && |lightDir| == 3
      case Textured(_, normals, texcoords, texture, lightDir, _) =>
        |normals| == 3 && |normals[0]| == 3 && |normals[1]| == 3 && |normals[2]| == 3 && |lightDir| == 3 &&
        |texcoords| == 3 && |texcoords[0]| == 2 && |texcoords[1]| == 2 && |texcoords[2]| == 2 &&
        texture.Valid() && 1 <= texture.width && 1 <= texture.height
    }
  }

  /** The colour a covered pixel that passed the depth test gets, for the barycentric weights b. */
  function Shade<C>(s: Shading<C>, b: Vector): (r: Result<C>)
    requires s.Valid() && |b| == 3
    ensures r.Err? ==> s.Textured?
  {
    match s
    case Flat(color) => Ok(color)
    case Lit(lib, normals, color, lightDir, scale) =>
      Ok(scale(color, Intensity(lib, Interpolate(normals[0], normals[1], normals[2], b), lightDir)))
    case Textured(lib, normals, texcoords, texture, lightDir, scale) =>
      var intensity := Intensity(lib, Interpolate(normals[0], normals[1], normals[2], b), lightDir);
      var texel :- SampleChecked(Interpolate(texcoords[0], texcoords[1], texcoords[2], b), texture);
      Ok(scale(texel, intensity))
  }

  /**
   * The loop body of the float overloads: skip a pixel with a negative
   * weight or whose stored depth is not below the interpolated z, else
   * shade it and store z.
   */
  function FloatPixel<C>(s: Shading<C>, t: Triangle, x: int, y: int, stored: real): (r: Result<Option<(C, real)>>)
    requires s.Valid() && t.Valid()
  {
    var b := Rasterizer.PixelBarycentric(t, x, y);
    if !Covered(b) then Ok(None)
    else
      var z := Rasterizer.Depth(t, b);
      if !(stored < z) then Ok(None)
      else
        var color :- Shade(s, b);
        Ok(Some((color, z)))
  }

  function FloatRule<C>(s: Shading<C>, t: Triangle): Rule<C, real>
  {
    (x: int, y: int, stored: real) => if s.Valid() && t.Valid() then FloatPixel(s, t, x, y, stored) else Ok(None)
  }

  /** A float overload as a value: the sweep of the clamped box from its first pixel. */
  function FloatSpec<C>(s: Shading<C>, t: Triangle, plots: seq<Plot<C>>, rows: seq<seq<real>>): (r: Result<(seq<Plot<C>>, seq<seq<real>>)>)
    requires t.Valid() && Grid(rows)
    ensures r.Ok? ==> SameShape(r.value.1, rows) && Grid(r.value.1)
  {
    var box := BufferBox(t, rows);
    Sweep(FloatRule(s, t), box, plots, rows, box.minX, box.minY)
  }

  /**
   * A pixel is written, or its shading throws, exactly when its weights are
   * non-negative and the stored depth lies below the interpolated z; only
   * the textured overload can throw, and a write stores that z, so the
   * stored value strictly increases.
   */
  lemma FloatPixelRule<C>(s: Shading<C>, t: Triangle, x: int, y: int, stored: real)
    requires s.Valid() && t.Valid()
    ensures var b := Rasterizer.PixelBarycentric(t, x, y);
      var r := FloatPixel(s, t, x, y, stored);
      (r.Err? ==> s.Textured?) &&
      (r.Err? || r.value.Some? <==> Covered(b) && stored < Rasterizer.Depth(t, b)) &&
      (r.Ok? && r.value.Some? ==> r.value.value.1 == Rasterizer.Depth(t, b) && stored < r.value.value.1)
  {
  }

  /**
   * After a float overload, every entry of the buffer is at least what it
   * was, and an entry that changed is inside the clamped box, at a pixel
   * whose weights are non-negative, and now holds the interpolated z.
   */
  lemma FloatTriangleDepths<C>(s: Shading<C>, t: Triangle, plots: seq<Plot<C>>, rows: seq<seq<real>>, px: int, py: int)
    requires s.Valid() && t.Valid() && Grid(rows)
    requires FloatSpec(s, t, plots, rows).Ok?
    requires 0 <= py < |rows| && 0 <= px < |rows[0]|
    ensures var after := FloatSpec(s, t, plots, rows).value.1;
      rows[py][px] <= after[py][px] &&
      (after[py][px] != rows[py][px] ==>
        BufferBox(t, rows).Contains(px, py) && Covered(Rasterizer.PixelBarycentric(t, px, py)) &&
        after[py][px] == Rasterizer.Depth(t, Rasterizer.PixelBarycentric(t, px, py)))
  {
    var box := BufferBox(t, rows);
    var rule := FloatRule(s, t);
    if box.Contains(px, py) {
      SweepWritesEachPixelOnce(rule, box, plots, rows, box.minX, box.minY, px, py);
      FloatPixelRule(s, t, px, py, rows[py][px]);
    } else {
      SweepKeepsOthers(rule, box, plots, rows, box.minX, box.minY, px, py);
    }
  }

  /**
   * The image is set only at covered pixels of the clamped box; the flat
   * overload sets them to its colour, which is what it draws everywhere.
   */
  lemma FloatTrianglePlots<C>(s: Shading<C>, t: Triangle, plots: seq<Plot<C>>, rows: seq<seq<real>>, k: int)
    requires s.Valid() && t.Valid() && Grid(rows)
    requires FloatSpec(s, t, plots, rows).Ok?
    requires |plots| <= k < |FloatSpec(s, t, plots, rows).value.0|
    ensures var p := FloatSpec(s, t, plots, rows).value.0[k];
      BufferBox(t, rows).Contains(p.x, p.y) && Covered(Rasterizer.PixelBarycentric(t, p.x, p.y)) &&
      (s.Flat? ==> p.color == s.color)
  {
    var box := BufferBox(t, rows);
    SweepPlotsFollowRule(FloatRule(s, t), box, plots, rows, box.minX, box.minY, k);
    var p := Sweep(FloatRule(s, t), box, plots, rows, box.minX, box.minY).value.0[k];
    FloatPixelRule(s, t, p.x, p.y, rows[p.y][p.x]);
  }

  /** The flat and lit overloads never throw. */
  lemma UntexturedNeverThrows<C>(s: Shading<C>, t: Triangle, plots: seq<Plot<C>>, rows: seq<seq<real>>)
    requires !s.Textured? && Grid(rows) && t.Valid()
    ensures FloatSpec(s, t, plots, rows).Ok?
  {
    var rule := FloatRule(s, t);
    forall px, py, stored
      ensures rule(px, py, stored).Ok?
    {
      if s.Valid() && t.Valid() {
        FloatPixelRule(s, t, px, py, stored);
      }
    }
    var box := BufferBox(t, rows);
    SweepWithoutErrors(rule, box, plots, rows, box.minX, box.minY);
  }

  /** Texture coordinates inside [0, 1] at every vertex keep the textured overload from throwing. */
  lemma TexturedInUnitSquareNeverThrows<C>(s: Shading<C>, t: Triangle, plots: seq<Plot<C>>, rows: seq<seq<real>>)
    requires s.Textured? && s.Valid() && t.Valid() && Grid(rows)
    requires forall v, i :: 0 <= v < 3 && 0 <= i < 2 ==> 0.0 <= s.texcoords[v][i] <= 1.0
    ensures FloatSpec(s, t, plots, rows).Ok?
  {
    var rule := FloatRule(s, t);
    forall px, py, stored
      ensures rule(px, py, stored).Ok?
    {
      var b := Rasterizer.PixelBarycentric(t, px, py);
      if Covered(b) {
        TexcoordsInUnitSquare(s, t, px, py);
      }
    }
    var box := BufferBox(t, rows);
    SweepWithoutErrors(rule, box, plots, rows, box.minX, box.minY);
  }

  lemma TexcoordsInUnitSquare<C>(s: Shading<C>, t: Triangle, x: int, y: int)
    requires s.Textured? && s.Valid() && t.Valid()
    requires forall v, i :: 0 <= v < 3 && 0 <= i < 2 ==> 0.0 <= s.texcoords[v][i] <= 1.0
    requires Covered(Rasterizer.PixelBarycentric(t, x, y))
    ensures var st := Interpolate(s.texcoords[0], s.texcoords[1], s.texcoords[2], Rasterizer.PixelBarycentric(t, x, y));
      0.0 <= st[0] <= 1.0 && 0.0 <= st[1] <= 1.0
  {
    var b := Rasterizer.PixelBarycentric(t, x, y);
    WeightsAreConvex(t, x, y);
    var a := s.texcoords;
    UnitCoordinate(a, b, 0);
    UnitCoordinate(a, b, 1);
  }

  lemma UnitCoordinate(a: seq<Vector>, b: Vector, i: int)
    requires |a| == 3 && |a[0]| == |a[1]| == |a[2]| && 0 <= i < |a[0]| && |b| == 3
    requires Covered(b) && b[0] + b[1] + b[2] == 1.0
    requires 0.0 <= a[0][i] <= 1.0 && 0.0 <= a[1][i] <= 1.0 && 0.0 <= a[2][i] <= 1.0
    ensures 0.0 <= Interpolate(a[0], a[1], a[2], b)[i] <= 1.0
  {
    InterpolateAt(a[0], a[1], a[2], b, i);
    UnitMix(b[0], b[1], b[2], a[0][i], a[1][i], a[2][i]);
  }

  lemma UnitMix(b0: real, b1: real, b2: real, x0: real, x1: real, x2: real)
    requires 0.0 <= b0 && 0.0 <= b1 && 0.0 <= b2 && b0 + b1 + b2 == 1.0
    requires 0.0 <= x0 <= 1.0 && 0.0 <= x1 <= 1.0 && 0.0 <= x2 <= 1.0
    ensures 0.0 <= b0 * x0 + b1 * x1 + b2 * x2 <= 1.0
  {
    Rasterizer.ConvexBetween(b0, b1, b2, x0, x1, x2);
  }

  /** Non-negative weights come from a proper triangle, so they sum to 1. */
  lemma WeightsAreConvex(t: Triangle, x: int, y: int)
    requires t.Valid() && Covered(Rasterizer.PixelBarycentric(t, x, y))
    ensures var b := Rasterizer.PixelBarycentric(t, x, y); b[0] + b[1] + b[2] == 1.0
  {
    var target, q0, q1, q2 := [x as real, y as real], t.p0[..2], t.p1[..2], t.p2[..2];
    if Area2(q0, q1, q2) == 0.0 {
      DegenerateCoversNothing(target, q0, q1, q2);
    } else {
      BarycentricReconstructs(target, q0, q1, q2);
    }
  }

  /**
   * DrawTriangle(v0, v1, v2, color, image, z_buffer): the flat overload of
   * our_gl.cpp, and the z-buffer DrawTriangle of drawing.cpp once its
   * weights are in the right order. It cannot throw.
   */
  method DrawFlatTriangle<C>(t: Triangle, color: C, image: Canvas<C>, zBuffer: DepthBuffer<real>)
    requires t.Valid() && zBuffer.Valid()
    modifies image, zBuffer
    ensures zBuffer.Valid()
    ensures var spec := old(FloatSpec(Flat(color), t, image.plots, zBuffer.rows));
      spec.Ok? && image.plots == spec.value.0 && zBuffer.rows == spec.value.1
  {
    UntexturedNeverThrows(Flat(color), t, image.plots, zBuffer.rows);
    var box := BufferBox(t, zBuffer.rows);
    var r := DrawBox(FloatRule(Flat(color), t), box, image, zBuffer);
  }

  /**
   * DrawTriangle(p0, p1, p2, n0, n1, n2, color, light_dir, image, z_buffer):
   * the colour times the intensity at the interpolated normal. It cannot
   * throw.
   */
  method DrawLitTriangle<C>(lib: MathLib, t: Triangle, normals: seq<Vector>, color: C, lightDir: Vector, scale: (C, real) -> C,
                            image: Canvas<C>, zBuffer: DepthBuffer<real>)
    requires t.Valid() && zBuffer.Valid() && Lit(lib, normals, color, lightDir, scale).Valid()
    modifies image, zBuffer
    ensures zBuffer.Valid()
    ensures var spec := old(FloatSpec(Lit(lib, normals, color, lightDir, scale), t, image.plots, zBuffer.rows));
      spec.Ok? && image.plots == spec.value.0 && zBuffer.rows == spec.value.1
  {
    var s := Lit(lib, normals, color, lightDir, scale);
    UntexturedNeverThrows(s, t, image.plots, zBuffer.rows);
    var box := BufferBox(t, zBuffer.rows);
    var r := DrawBox(FloatRule(s, t), box, image, zBuffer);
  }

  /**
   * DrawTriangle(p0, p1, p2, n0, n1, n2, st0, st1, st2, texture, light_dir,
   * image, z_buffer): the texel at the interpolated coordinates times the
   * intensity; the sampler throws for coordinates outside [0, 1].
   */
  method DrawTexturedTriangle<C>(lib: MathLib, t: Triangle, normals: seq<Vector>, texcoords: seq<Vector>, texture: Raster<C>,
                                 lightDir: Vector, scale: (C, real) -> C, image: Canvas<C>, zBuffer: DepthBuffer<real>)
      returns (r: Outcome)
    requires t.Valid() && zBuffer.Valid() && Textured(lib, normals, texcoords, texture, lightDir, scale).Valid()
    modifies image, zBuffer
    ensures zBuffer.Valid()
    ensures var spec := old(FloatSpec(Textured(lib, normals, texcoords, texture, lightDir, scale), t, image.plots, zBuffer.rows));
      (r.Pass? <==> spec.Ok?) &&
      (r.Pass? ==> image.plots == spec.value.0 && zBuffer.rows == spec.value.1) &&
      (r.Fail? ==> spec == Err(r.error))
  {
    var s := Textured(lib, normals, texcoords, texture, lightDir, scale);
    var box := BufferBox(t, zBuffer.rows);
    r := DrawBox(FloatRule(s, t), box, image, zBuffer);
  }

  // ---------------------------------------------------------------------------
  // The z-buffer DrawTriangle of drawing.cpp
  // ---------------------------------------------------------------------------

  /**
   * GetBarycentric(edge1, edge2, origin_from_point) of drawing.cpp as
   * written: from the same cross product as the our_gl.cpp function, it
   * returns the weights of the second and third vertex in swapped order.
   */
  function EdgeBarycentricAsWritten(edge1: Vector, edge2: Vector, origin: Vector): (r: Vector)
    requires |edge1| == 2 && |edge2| == 2 && |origin| == 2
    ensures |r| == 3
  {
    var c := Cross([edge1[0], edge2[0], origin[0]], [edge1[1], edge2[1], origin[1]]);
    if c[2] == 0.0 then [-1.0, 1.0, 1.0]
    else [1.0 - (c[0] + c[1]) / c[2], c[1] / c[2], c[0] / c[2]]
  }

  /** The same function with the weights in vertex order. */
  function EdgeBarycentric(edge1: Vector, edge2: Vector, origin: Vector): (r: Vector)
    requires |edge1| == 2 && |edge2| == 2 && |origin| == 2
    ensures |r| == 3
  {
    var c := Cross([edge1[0], edge2[0], origin[0]], [edge1[1], edge2[1], origin[1]]);
    if c[2] == 0.0 then [-1.0, 1.0, 1.0]
    else [1.0 - (c[0] + c[1]) / c[2], c[0] / c[2], c[1] / c[2]]
  }

  /**
   * Given the edges from p0 and the offset of p0 from the target, the
   * corrected function is our_gl.cpp's GetBarycentric of the target.
   */
  lemma EdgeBarycentricIsGetBarycentric(target: Vector, p0: Vector, p1: Vector, p2: Vector)
    requires |target| == 2 && |p0| == 2 && |p1| == 2 && |p2| == 2
    ensures EdgeBarycentric(LinAlg.Sub(p1, p0), LinAlg.Sub(p2, p0), LinAlg.Sub(p0, target)) == GetBarycentric(target, p0, p1, p2)
  {
    var e1, e2, o := LinAlg.Sub(p1, p0), LinAlg.Sub(p2, p0), LinAlg.Sub(p0, target);
    assert [e1[0], e2[0], o[0]] == XRow(target, p0, p1, p2);
    assert [e1[1], e2[1], o[1]] == YRow(target, p0, p1, p2);
  }

  /**
   * As written, the last two weights are exchanged; the sentinel is
   * symmetric in them, so the coverage test is unaffected and only the
   * interpolated depth goes wrong.
   */
  lemma EdgeBarycentricSwapped(edge1: Vector, edge2: Vector, origin: Vector)
    requires |edge1| == 2 && |edge2| == 2 && |origin| == 2
    ensures var w, r := EdgeBarycentric(edge1, edge2, origin), EdgeBarycentricAsWritten(edge1, edge2, origin);
      r == [w[0], w[2], w[1]] && (Covered(r) <==> Covered(w))
  {
  }

  /** The loop body of the z-buffer DrawTriangle of drawing.cpp, as written. */
  function DrawingPixelAsWritten<C>(t: Triangle, color: C, x: int, y: int, stored: real): Option<(C, real)>
    requires t.Valid()
  {
    var edge1 := [t.p1[0] - t.p0[0], t.p1[1] - t.p0[1]];
    var edge2 := [t.p2[0] - t.p0[0], t.p2[1] - t.p0[1]];
    var b := EdgeBarycentricAsWritten(edge1, edge2, [t.p0[0] - x as real, t.p0[1] - y as real]);
    if !Covered(b) then None
    else
      var z := Rasterizer.Depth(t, b);
      if stored < z then Some((color, z)) else None
  }

  /** The same loop body with the corrected weights. */
  function DrawingPixel<C>(t: Triangle, color: C, x: int, y: int, stored: real): Option<(C, real)>
    requires t.Valid()
  {
    var edge1 := [t.p1[0] - t.p0[0], t.p1[1] - t.p0[1]];
    var edge2 := [t.p2[0] - t.p0[0], t.p2[1] - t.p0[1]];
    var b := EdgeBarycentric(edge1, edge2, [t.p0[0] - x as real, t.p0[1] - y as real]);
    if !Covered(b) then None
    else
      var z := Rasterizer.Depth(t, b);
      if stored < z then Some((color, z)) else None
  }

  /**
   * Corrected, the drawing.cpp loop body is the one of the flat our_gl.cpp
   * overload, so DrawFlatTriangle models both.
   */
  lemma DrawingPixelIsFlatPixel<C>(t: Triangle, color: C, x: int, y: int, stored: real)
    requires t.Valid()
    ensures FloatPixel(Flat(color), t, x, y, stored) == Ok(DrawingPixel(t, color, x, y, stored))
  {
    var target, q0, q1, q2 := [x as real, y as real], t.p0[..2], t.p1[..2], t.p2[..2];
    EdgeBarycentricIsGetBarycentric(target, q0, q1, q2);
    assert LinAlg.Sub(q1, q0) == [t.p1[0] - t.p0[0], t.p1[1] - t.p0[1]];
    assert LinAlg.Sub(q2, q0) == [t.p2[0] - t.p0[0], t.p2[1] - t.p0[1]];
    assert LinAlg.Sub(q0, target) == [t.p0[0] - x as real, t.p0[1] - y as real];
  }

  /**
   * At the second vertex of a triangle whose depth is 1 there and 0 at the
   * other two, the swapped weights interpolate 0, so a stored 0.5 blocks a
   * pixel that is in front of it.
   */
  lemma SwappedWeightsHideNearerPixel()
    ensures var t := Rasterizer.Triangle([0.0, 0.0, 0.0], [1.0, 0.0, 1.0], [0.0, 1.0, 0.0]);
      DrawingPixelAsWritten(t, 7, 1, 0, 0.5) == None && DrawingPixel(t, 7, 1, 0, 0.5) == Some((7, 1.0))
  {
    var t := Rasterizer.Triangle([0.0, 0.0, 0.0], [1.0, 0.0, 1.0], [0.0, 1.0, 0.0]);
    var c := Cross([1.0, 0.0, -1.0], [0.0, 1.0, 0.0]);
    assert c == [1.0, 0.0, 1.0];
    assert EdgeBarycentricAsWritten([1.0, 0.0], [0.0, 1.0], [-1.0, 0.0]) == [0.0, 0.0, 1.0];
    assert EdgeBarycentric([1.0, 0.0], [0.0, 1.0], [-1.0, 0.0]) == [0.0, 1.0, 0.0];
  }

  // ---------------------------------------------------------------------------
  // The shader overload, with a one-byte depth buffer
  // ---------------------------------------------------------------------------

  /** The three vertices the overload reads, each of the right dimensions. */
  predicate ValidVertices(vs: seq<Vertex>)
  {
    |vs| >= 3 && vs[0].Valid() && vs[1].Valid() && vs[2].Valid()
  }

  function VertexTriangle(vs: seq<Vertex>): (t: Triangle)
    requires ValidVertices(vs)
    ensures t.Valid()
  {
    Rasterizer.Triangle(vs[0].position, vs[1].position, vs[2].position)
  }

  /** The vertex the fragment shader sees: position, normal and st interpolated with the weights b. */
  function PixelVertex(vs: seq<Vertex>, b: Vector): (v: Vertex)
    requires ValidVertices(vs) && |b| == 3
    ensures v.Valid()
  {
    Vertex(Interpolate(vs[0].position, vs[1].position, vs[2].position, b),
           Interpolate(vs[0].normal, vs[1].normal, vs[2].normal, b),
           Interpolate(vs[0].texcoords, vs[1].texcoords, vs[2].texcoords, b))
  }

  /**
   * The byte the overload stores for the depth z: static_cast<int> truncates
   * it, and the grayscale TGAColor keeps the low byte.
   */
  function DepthByte(z: real): Byte
  {
    Trunc(z) % 256
  }

  /**
   * The loop body of the shader overload: skip a pixel with a negative
   * weight or whose stored byte is not below the interpolated z; otherwise
   * the fragment shader colours it and the buffer takes the byte of z.
   */
  function ShaderPixel<C>(vs: seq<Vertex>, fragment: Vertex -> C, x: int, y: int, stored: Byte): Option<(C, Byte)>
    requires ValidVertices(vs)
  {
    var t := VertexTriangle(vs);
    var b := Rasterizer.PixelBarycentric(t, x, y);
    if !Covered(b) then None
    else
      var z := Rasterizer.Depth(t, b);
      if stored as real < z then Some((fragment(PixelVertex(vs, b)), DepthByte(z))) else None
  }

  function ShaderRule<C>(vs: seq<Vertex>, fragment: Vertex -> C): Rule<C, Byte>
  {
    (x: int, y: int, stored: Byte) => Ok(if ValidVertices(vs) then ShaderPixel(vs, fragment, x, y, stored) else None)
  }

  /** The shader overload as a value; it cannot throw. */
  function ShaderSpec<C>(vs: seq<Vertex>, fragment: Vertex -> C, plots: seq<Plot<C>>, rows: seq<seq<Byte>>): (r: Result<(seq<Plot<C>>, seq<seq<Byte>>)>)
    requires ValidVertices(vs) && Grid(rows)
    ensures r.Ok? && SameShape(r.value.1, rows) && Grid(r.value.1)
  {
    var box := BufferBox(VertexTriangle(vs), rows);
    ShaderNeverThrows(vs, fragment, box, plots, rows);
    Sweep(ShaderRule(vs, fragment), box, plots, rows, box.minX, box.minY)
  }

  lemma ShaderNeverThrows<C>(vs: seq<Vertex>, fragment: Vertex -> C, box: Box, plots: seq<Plot<C>>, rows: seq<seq<Byte>>)
    requires Grid(rows) && BoxIn(box, rows)
    ensures Sweep(ShaderRule(vs, fragment), box, plots, rows, box.minX, box.minY).Ok?
  {
    var rule := ShaderRule(vs, fragment);
    forall px, py, stored
      ensures rule(px, py, stored).Ok?
    {
    }
    SweepWithoutErrors(rule, box, plots, rows, box.minX, box.minY);
  }

  /**
   * A pixel is written exactly when its weights are non-negative and its
   * stored byte lies below the interpolated z; it then takes the fragment
   * shader's colour for the interpolated vertex and the byte of z.
   */
  lemma ShaderPixelRule<C>(vs: seq<Vertex>, fragment: Vertex -> C, x: int, y: int, stored: Byte)
    requires ValidVertices(vs)
    ensures var t := VertexTriangle(vs);
      var b := Rasterizer.PixelBarycentric(t, x, y);
      var r := ShaderPixel(vs, fragment, x, y, stored);
      (r.Some? <==> Covered(b) && stored as real < Rasterizer.Depth(t, b)) &&
      (r.Some? ==> r.value == (fragment(PixelVertex(vs, b)), DepthByte(Rasterizer.Depth(t, b))))
  {
  }

  /** Below 256 the stored byte is z truncated, so it never falls under a byte that was below z. */
  lemma DepthByteAtLeast(stored: Byte, z: real)
    requires stored as real < z < 256.0
    ensures DepthByte(z) == Trunc(z) && stored <= DepthByte(z)
  {
    TruncOfInt(stored as int);
    TruncMonotone(stored as real, z);
  }

  /** A depth of 300 is stored as 44: above 255 the byte wraps around. */
  lemma DepthAbove255Wraps()
    ensures DepthByte(300.0) == 44
  {
    assert Trunc(300.0) == 300;
  }

  lemma MixBelow(b0: real, b1: real, b2: real, x0: real, x1: real, x2: real, hi: real)
    requires 0.0 <= b0 && 0.0 <= b1 && 0.0 <= b2 && b0 + b1 + b2 == 1.0
    requires x0 < hi && x1 < hi && x2 < hi
    ensures b0 * x0 + b1 * x1 + b2 * x2 < hi
  {
    Rasterizer.ConvexBetween(b0, b1, b2, x0, x1, x2);
  }

  /**
   * While every vertex depth is below 256, no entry of the byte buffer
   * decreases, and an entry that changed is at a covered pixel of the
   * clamped box and holds its interpolated z truncated.
   */
  lemma ShadedTriangleDepths<C>(vs: seq<Vertex>, fragment: Vertex -> C, plots: seq<Plot<C>>, rows: seq<seq<Byte>>, px: int, py: int)
    requires ValidVertices(vs) && Grid(rows)
    requires vs[0].position[2] < 256.0 && vs[1].position[2] < 256.0 && vs[2].position[2] < 256.0
    requires 0 <= py < |rows| && 0 <= px < |rows[0]|
    ensures var t := VertexTriangle(vs);
      var after := ShaderSpec(vs, fragment, plots, rows).value.1;
      rows[py][px] <= after[py][px] &&
      (after[py][px] != rows[py][px] ==>
        BufferBox(t, rows).Contains(px, py) && Covered(Rasterizer.PixelBarycentric(t, px, py)) &&
        after[py][px] == Trunc(Rasterizer.Depth(t, Rasterizer.PixelBarycentric(t, px, py))))
  {
    var t := VertexTriangle(vs);
    var box := BufferBox(t, rows);
    var rule := ShaderRule(vs, fragment);
    assert ShaderSpec(vs, fragment, plots, rows) == Sweep(rule, box, plots, rows, box.minX, box.minY);
    if box.Contains(px, py) {
      SweepWritesEachPixelOnce(rule, box, plots, rows, box.minX, box.minY, px, py);
      var w := ShaderPixel(vs, fragment, px, py, rows[py][px]);
      assert rule(px, py, rows[py][px]) == Ok(w);
      if w.Some? {
        ShaderPixelRule(vs, fragment, px, py, rows[py][px]);
        ShaderWriteGrows(vs, fragment, px, py, rows[py][px]);
      }
    } else {
      SweepKeepsOthers(rule, box, plots, rows, box.minX, box.minY, px, py);
    }
  }

  /** At one pixel, with every vertex depth below 256, a write stores z truncated, which is not below the old byte. */
  lemma ShaderWriteGrows<C>(vs: seq<Vertex>, fragment: Vertex -> C, x: int, y: int, stored: Byte)
    requires ValidVertices(vs)
    requires vs[0].position[2] < 256.0 && vs[1].position[2] < 256.0 && vs[2].position[2] < 256.0
    requires ShaderPixel(vs, fragment, x, y, stored).Some?
    ensures var t := VertexTriangle(vs);
      var w := ShaderPixel(vs, fragment, x, y, stored).value.1;
      w == Trunc(Rasterizer.Depth(t, Rasterizer.PixelBarycentric(t, x, y))) && stored <= w
  {
    var t := VertexTriangle(vs);
    var b := Rasterizer.PixelBarycentric(t, x, y);
    WeightsAreConvex(t, x, y);
    MixBelow(b[0], b[1], b[2], t.p0[2], t.p1[2], t.p2[2], 256.0);
    DepthByteAtLeast(stored, Rasterizer.Depth(t, b));
  }

  /**
   * The image is set only at covered pixels of the clamped box, each to the
   * fragment shader's colour for the vertex interpolated there.
   */
  lemma ShadedTrianglePlots<C>(vs: seq<Vertex>, fragment: Vertex -> C, plots: seq<Plot<C>>, rows: seq<seq<Byte>>, k: int)
    requires ValidVertices(vs) && Grid(rows)
    requires |plots| <= k < |ShaderSpec(vs, fragment, plots, rows).value.0|
    ensures var t := VertexTriangle(vs);
      var p := ShaderSpec(vs, fragment, plots, rows).value.0[k];
      BufferBox(t, rows).Contains(p.x, p.y) && Covered(Rasterizer.PixelBarycentric(t, p.x, p.y)) &&
      p.color == fragment(PixelVertex(vs, Rasterizer.PixelBarycentric(t, p.x, p.y)))
  {
    var t := VertexTriangle(vs);
    var box := BufferBox(t, rows);
    var rule := ShaderRule(vs, fragment);
    SweepPlotsFollowRule(rule, box, plots, rows, box.minX, box.minY, k);
    var p := Sweep(rule, box, plots, rows, box.minX, box.minY).value.0[k];
    ShaderPixelRule(vs, fragment, p.x, p.y, rows[p.y][p.x]);
  }

  /**
   * DrawTriangle(vertices, shader, image, z_buffer): the overload that
   * calls a shader for each fragment and keeps depths as bytes.
   */
  method DrawShadedTriangle<C>(vs: seq<Vertex>, fragment: Vertex -> C, image: Canvas<C>, zBuffer: DepthBuffer<Byte>)
    requires ValidVertices(vs) && zBuffer.Valid()
    modifies image, zBuffer
    ensures zBuffer.Valid()
    ensures var spec := old(ShaderSpec(vs, fragment, image.plots, zBuffer.rows));
      image.plots == spec.value.0 && zBuffer.rows == spec.value.1
  {
    var box := BufferBox(VertexTriangle(vs), zBuffer.rows);
    ShaderNeverThrows(vs, fragment, box, image.plots, zBuffer.rows);
    var r := DrawBox(ShaderRule(vs, fragment), box, image, zBuffer);
  }

  // ---------------------------------------------------------------------------
  // FirstShader
  // ---------------------------------------------------------------------------

  /**
   * FirstShader::ShadeVertex: the position through u_vpm_mat and then
   * g_viewport_mat in homogeneous coordinates, divided by w; ToNDC throws
   * when w is 0. The normal and the texture coordinates pass through.
   */
  function ShadeVertex(viewport: Matrix, vpm: Matrix, v: Vertex): (r: Result<Vertex>)
    requires IsMatrix(viewport, 4, 4) && IsMatrix(vpm, 4, 4) && v.Valid()
    ensures var clip := MatVec(MatMul(viewport, vpm, 4), Homogeneous(v.position));
      (r.Err? <==> clip[3] == 0.0) &&
      (r.Err? ==> r == Err(RuntimeError("Division by zero"))) &&
      (r.Ok? ==> r.value.Valid() && r.value.normal == v.normal && r.value.texcoords == v.texcoords &&
                 forall i :: 0 <= i < 3 ==> r.value.position[i] * clip[3] == clip[i])
  {
    var clip := MatVec(MatMul(viewport, vpm, 4), Homogeneous(v.position));
    if clip[3] == 0.0 then Err(RuntimeError("Division by zero"))
    else Ok(Vertex([clip[0] / clip[3], clip[1] / clip[3], clip[2] / clip[3]], v.normal, v.texcoords))
  }

  /** With both matrices the identity, a vertex comes back unchanged. */
  lemma ShadeVertexIdentity(v: Vertex)
    requires v.Valid()
    ensures ShadeVertex(Identity(4), Identity(4), v) == Ok(v)
  {
    var i4 := Identity(4);
    IdentityLeftUnit(i4, 4);
    var h := Homogeneous(v.position);
    assert h == [v.position[0], v.position[1], v.position[2], 1.0];
    var clip := MatVec(i4, h);
    forall k | 0 <= k < 4
      ensures clip[k] == h[k]
    {
      Dot4(i4[k], h);
    }
    assert [clip[0] / clip[3], clip[1] / clip[3], clip[2] / clip[3]] == v.position;
  }

  /** ShadeVertex on the matrix objects: two operator* calls and ToNDC. */
  method FirstShaderVertex(viewport: LegacyGeometry.Mat4x4, vpm: LegacyGeometry.Mat4x4, v: Vertex) returns (r: Result<Vertex>)
    requires viewport.Valid() && vpm.Valid() && v.Valid()
    ensures r == ShadeVertex(viewport.Contents(), vpm.Contents(), v)
  {
    var clip := ClipPosition(viewport, vpm, v.position);
    var ndc := clip.ToNdc();
    r := if ndc.Ok? then Ok(Vertex(ndc.value, v.normal, v.texcoords)) else Err(ndc.error);
  }

  /** g_viewport_mat * u_vpm_mat * Vec4f(x, y, z, 1). */
  method ClipPosition(viewport: LegacyGeometry.Mat4x4, vpm: LegacyGeometry.Mat4x4, position: Vector) returns (clip: LegacyGeometry.Vec4)
    requires viewport.Valid() && vpm.Valid() && |position| == 3
    ensures clip.Valid() && clip.raw[..] == MatVec(MatMul(viewport.Contents(), vpm.Contents(), 4), Homogeneous(position))
  {
    var m := viewport.Times(vpm);
    var h := new LegacyGeometry.Vec4.Of(position[0], position[1], position[2], 1.0);
    assert h.raw[..] == Homogeneous(position);
    clip := m.Apply(h);
  }

  /** FirstShader::ShadeFragment: opaque white whatever the vertex. */
  function FirstShaderFragment(v: Vertex): RgbaColor
  {
    White
  }

  /** With FirstShader every pixel the shader overload sets is white. */
  lemma FirstShaderDrawsWhite(vs: seq<Vertex>, plots: seq<Plot<RgbaColor>>, rows: seq<seq<Byte>>, k: int)
    requires ValidVertices(vs) && Grid(rows)
    requires |plots| <= k < |ShaderSpec(vs, FirstShaderFragment, plots, rows).value.0|
    ensures ShaderSpec(vs, FirstShaderFragment, plots, rows).value.0[k].color == White
  {
    ShadedTrianglePlots(vs, FirstShaderFragment, plots, rows, k);
  }
}

