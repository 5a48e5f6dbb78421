/**
 * The pure part of the cpps rasterizer (our_gl.h / our_gl.cpp): the wrapping
 * nearest-texel sampler, barycentric coordinates, the integer inside test,
 * the Phong colour and the tangent-colour conversion, plus the vertex record
 * a model face is made of.
 */
module OurGl {
  import opened Wrappers
  import opened RealMath
  import opened LinAlg
  import opened Images
  import opened GeometryVec
  import opened GeometryUtils

  /** A vertex of a model face: references to its position, normal and texture coordinates. */
  datatype Vertex = Vertex(position: Vector, normal: Vector, texcoords: Vector)
  {
    predicate Valid()
    {
      |position| == 3 && |normal| == 3 && |texcoords| == 2
    }
  }

  // ---------------------------------------------------------------------------
  // FindNearestTextureColor
  // ---------------------------------------------------------------------------

  /** fmod(s, 1) with one added to a negative remainder. */
  function Wrap(s: real): (r: real)
    ensures 0.0 <= r < 1.0
  {
    var f := FMod1(s);
    if f < 0.0 then f + 1.0 else f
  }

  /** The wrapped coordinate is the fractional part s - floor(s). */
  lemma WrapIsFraction(s: real)
    ensures Wrap(s) == s - s.Floor as real
  {
    var t := Trunc(s);
    if 0.0 <= s {
      assert t == s.Floor;
    } else if s == t as real {
      assert s.Floor == t;
    } else {
      assert s.Floor == t - 1;
    }
  }

  /** Shifting a coordinate by a whole period does not move the wrapped value. */
  lemma WrapPeriodic(s: real)
    ensures Wrap(s + 1.0) == Wrap(s)
  {
    WrapIsFraction(s);
    WrapIsFraction(s + 1.0);
    assert (s + 1.0).Floor == s.Floor + 1;
  }

  /** The texel index along an axis: min(int(wrapped * size), size - 1). */
  function TexelIndex(s: real, size: int): int
  {
    MinInt(Trunc(Wrap(s) * size as real), size - 1)
  }

  /** For size >= 1 the index lies in [0, size) and is floor(wrapped * size): the min never fires. */
  lemma TexelIndexIsFloor(s: real, size: int)
    requires 1 <= size
    ensures 0 <= TexelIndex(s, size) < size
    ensures TexelIndex(s, size) == (Wrap(s) * size as real).Floor
  {
    var f, n := Wrap(s), size as real;
    var p := f * n;
    NonNegativeProduct(f, n);
    FractionBelowWhole(f, n);
    assert 0.0 <= p < n;
    FloorInRange(p, size);
  }

  /** A non-negative value below n truncates to its floor, which lies in [0, n). */
  lemma FloorInRange(p: real, n: int)
    requires 0.0 <= p < n as real
    ensures Trunc(p) == p.Floor && 0 <= p.Floor < n
  {
  }

  lemma FractionBelowWhole(f: real, n: real)
    requires 0.0 <= f < 1.0 && 0.0 < n
    ensures f * n < n
  {
    assert n - f * n == (1.0 - f) * n;
  }

  /** An empty axis gives index -1, which at() rejects. */
  lemma TexelIndexInRange(s: real, size: int)
    requires 0 <= size
    ensures 0 <= TexelIndex(s, size) < size <==> 1 <= size
  {
    if 1 <= size {
      TexelIndexIsFloor(s, size);
    }
  }

  /**
   * FindNearestTextureColor(st, texture): both coordinates wrapped into
   * [0, 1), scaled to texel indices and read through the checked at().
   */
  function FindNearestTextureColor<C>(st: Vector, texture: Raster<C>): (r: Result<C>)
    requires |st| == 2 && texture.Valid()
    ensures r.Ok? <==> 1 <= texture.width && 1 <= texture.height
    ensures r.Err? ==> r.error.OutOfRange?
  {
    TexelIndexInRange(st[0], texture.width);
    TexelIndexInRange(st[1], texture.height);
    texture.At(TexelIndex(st[0], texture.width), TexelIndex(st[1], texture.height))
  }

  /**
   * On a non-empty texture the sampler reads the texel at the two texel
   * indices, which TexelIndexIsFloor shows are floor(s' * width) and
   * floor(t' * height) of the wrapped coordinates, always inside the texture.
   */
  lemma SampleTexel<C>(st: Vector, texture: Raster<C>)
    requires |st| == 2 && texture.Valid() && 1 <= texture.width && 1 <= texture.height
    ensures var x, y := TexelIndex(st[0], texture.width), TexelIndex(st[1], texture.height);
      0 <= x < texture.width && 0 <= y < texture.height && 0 <= Index(x, y, texture.width) < |texture.data| &&
      FindNearestTextureColor(st, texture) == Ok(texture.data[Index(x, y, texture.width)])
  {
    TexelIndexInRange(st[0], texture.width);
    TexelIndexInRange(st[1], texture.height);
    AtInRange(texture, TexelIndex(st[0], texture.width), TexelIndex(st[1], texture.height));
    SampleAt(st, texture);
  }

  lemma AtInRange<C>(texture: Raster<C>, x: int, y: int)
    requires texture.Valid() && 0 <= x < texture.width && 0 <= y < texture.height
    ensures 0 <= Index(x, y, texture.width) < |texture.data|
    ensures texture.At(x, y) == Ok(texture.data[Index(x, y, texture.width)])
  {
    IndexInRange(x, y, texture.width, texture.height);
    var r := texture.At(x, y);
    assert r.Ok? && r.value == texture.data[Index(x, y, texture.width)];
  }

  /** Sampling is periodic with period 1 in both coordinates. */
  lemma SamplePeriodic<C>(s: real, t: real, texture: Raster<C>)
    requires texture.Valid()
    ensures FindNearestTextureColor([s + 1.0, t], texture) == FindNearestTextureColor([s, t], texture)
    ensures FindNearestTextureColor([s, t + 1.0], texture) == FindNearestTextureColor([s, t], texture)
  {
    TexelIndexPeriodic(s, texture.width);
    TexelIndexPeriodic(t, texture.height);
    SampleAt([s + 1.0, t], texture);
    SampleAt([s, t + 1.0], texture);
    SampleAt([s, t], texture);
  }

  lemma TexelIndexPeriodic(s: real, size: int)
    ensures TexelIndex(s + 1.0, size) == TexelIndex(s, size)
  {
    WrapPeriodic(s);
    var a, b := Wrap(s + 1.0), Wrap(s);
    assert a == b;
    assert a * size as real == b * size as real;
  }

  lemma SampleAt<C>(st: Vector, texture: Raster<C>)
    requires |st| == 2 && texture.Valid()
    ensures FindNearestTextureColor(st, texture) == texture.At(TexelIndex(st[0], texture.width), TexelIndex(st[1], texture.height))
  {
  }

  // ---------------------------------------------------------------------------
  // GetBarycentric and IsPointInTriangle
  // ---------------------------------------------------------------------------

  /**
   * The z component of (e1x, e2x, ox) × (e1y, e2y, oy): twice the signed
   * area of the triangle, independent of the target point.
   */
  function Area2(p0: Vector, p1: Vector, p2: Vector): real
    requires |p0| >= 2 && |p1| >= 2 && |p2| >= 2
  {
    (p1[0] - p0[0]) * (p2[1] - p0[1]) - (p2[0] - p0[0]) * (p1[1] - p0[1])
  }

  /**
   * GetBarycentric(target, p0, p1, p2): the sentinel (-1, 1, 1) when the
   * triangle is degenerate, else (1 - u - v, u, v) from the cross product
   * of the x and y rows.
   */
  function GetBarycentric(target: Vector, p0: Vector, p1: Vector, p2: Vector): (r: Vector)
    requires |target| == 2 && |p0| == 2 && |p1| == 2 && |p2| == 2
    ensures |r| == 3
    ensures Area2(p0, p1, p2) == 0.0 <==> Cross(XRow(target, p0, p1, p2), YRow(target, p0, p1, p2))[2] == 0.0
    ensures Area2(p0, p1, p2) == 0.0 ==> r == [-1.0, 1.0, 1.0]
  {
    var c := Cross(XRow(target, p0, p1, p2), YRow(target, p0, p1, p2));
    if c[2] == 0.0 then [-1.0, 1.0, 1.0]
    else [1.0 - (c[0] + c[1]) / c[2], c[0] / c[2], c[1] / c[2]]
  }

  /** (edge1.x, edge2.x, origin_from_point.x) */
  function XRow(target: Vector, p0: Vector, p1: Vector, p2: Vector): Vector
    requires |target| == 2 && |p0| == 2 && |p1| == 2 && |p2| == 2
  {
    [p1[0] - p0[0], p2[0] - p0[0], p0[0] - target[0]]
  }

  /** (edge1.y, edge2.y, origin_from_point.y) */
  function YRow(target: Vector, p0: Vector, p1: Vector, p2: Vector): Vector
    requires |target| == 2 && |p0| == 2 && |p1| == 2 && |p2| == 2
  {
    [p1[1] - p0[1], p2[1] - p0[1], p0[1] - target[1]]
  }

  /** All three weights are non-negative: the test DrawTriangle applies to each pixel. */
  predicate Covered(b: Vector)
    requires |b| == 3
  {
    0.0 <= b[0] && 0.0 <= b[1] && 0.0 <= b[2]
  }

  /** A degenerate triangle covers no point: the sentinel fails the inside test. */
  lemma DegenerateCoversNothing(target: Vector, p0: Vector, p1: Vector, p2: Vector)
    requires |target| == 2 && |p0| == 2 && |p1| == 2 && |p2| == 2
    requires Area2(p0, p1, p2) == 0.0
    ensures !Covered(GetBarycentric(target, p0, p1, p2))
  {
  }

  /** For a proper triangle the weights sum to 1 and reproduce the target from the vertices. */
  lemma BarycentricReconstructs(target: Vector, p0: Vector, p1: Vector, p2: Vector)
    requires |target| == 2 && |p0| == 2 && |p1| == 2 && |p2| == 2
    requires Area2(p0, p1, p2) != 0.0
    ensures var b := GetBarycentric(target, p0, p1, p2);
      b[0] + b[1] + b[2] == 1.0 &&
      b[0] * p0[0] + b[1] * p1[0] + b[2] * p2[0] == target[0] &&
      b[0] * p0[1] + b[1] * p1[1] + b[2] * p2[1] == target[1]
  {
    var c := Cross(XRow(target, p0, p1, p2), YRow(target, p0, p1, p2));
    RowsOrthogonal(target, p0, p1, p2);
    assert GetBarycentric(target, p0, p1, p2) == [1.0 - (c[0] + c[1]) / c[2], c[0] / c[2], c[1] / c[2]];
    Reconstruct(c[0], c[1], c[2], p0[0], p1[0], p2[0], target[0]);
    Reconstruct(c[0], c[1], c[2], p0[1], p1[1], p2[1], target[1]);
  }

  /** Both rows are orthogonal to their cross product, written out coordinate by coordinate. */
  lemma RowsOrthogonal(target: Vector, p0: Vector, p1: Vector, p2: Vector)
    requires |target| == 2 && |p0| == 2 && |p1| == 2 && |p2| == 2
    ensures var c := Cross(XRow(target, p0, p1, p2), YRow(target, p0, p1, p2));
      (p1[0] - p0[0]) * c[0] + (p2[0] - p0[0]) * c[1] + (p0[0] - target[0]) * c[2] == 0.0 &&
      (p1[1] - p0[1]) * c[0] + (p2[1] - p0[1]) * c[1] + (p0[1] - target[1]) * c[2] == 0.0
  {
    var x, y := XRow(target, p0, p1, p2), YRow(target, p0, p1, p2);
    var c := Cross(x, y);
    CrossOrthogonal(x, y);
    Dot3(x, c);
    Dot3(y, c);
  }

  /** One coordinate of the reconstruction, from c0 e1 + c1 e2 + c2 o = 0. */
  lemma Reconstruct(c0: real, c1: real, c2: real, a0: real, a1: real, a2: real, t: real)
    requires c2 != 0.0
    requires (a1 - a0) * c0 + (a2 - a0) * c1 + (a0 - t) * c2 == 0.0
    ensures (1.0 - (c0 + c1) / c2) + c0 / c2 + c1 / c2 == 1.0
    ensures (1.0 - (c0 + c1) / c2) * a0 + (c0 / c2) * a1 + (c1 / c2) * a2 == t
  {
    var u, v := c0 / c2, c1 / c2;
    assert (c0 + c1) / c2 == u + v;
    assert u * (a1 - a0) + v * (a2 - a0) + (a0 - t) == ((a1 - a0) * c0 + (a2 - a0) * c1 + (a0 - t) * c2) / c2;
  }

  /** Each vertex of a proper triangle gets its unit weight. */
  lemma BarycentricOfVertices(p0: Vector, p1: Vector, p2: Vector)
    requires |p0| == 2 && |p1| == 2 && |p2| == 2
    requires Area2(p0, p1, p2) != 0.0
    ensures GetBarycentric(p0, p0, p1, p2) == [1.0, 0.0, 0.0]
    ensures GetBarycentric(p1, p0, p1, p2) == [0.0, 1.0, 0.0]
    ensures GetBarycentric(p2, p0, p1, p2) == [0.0, 0.0, 1.0]
  {
    var a := Area2(p0, p1, p2);
    var e1x, e1y, e2x, e2y := p1[0] - p0[0], p1[1] - p0[1], p2[0] - p0[0], p2[1] - p0[1];
    VertexCrosses(e1x, e1y, e2x, e2y);
    assert a == e1x * e2y - e2x * e1y;
    assert XRow(p0, p0, p1, p2) == [e1x, e2x, 0.0] && YRow(p0, p0, p1, p2) == [e1y, e2y, 0.0];
    BarycentricFromCross(p0, p0, p1, p2, 0.0, 0.0, a);
    assert XRow(p1, p0, p1, p2) == [e1x, e2x, -e1x] && YRow(p1, p0, p1, p2) == [e1y, e2y, -e1y];
    BarycentricFromCross(p1, p0, p1, p2, a, 0.0, a);
    assert XRow(p2, p0, p1, p2) == [e1x, e2x, -e2x] && YRow(p2, p0, p1, p2) == [e1y, e2y, -e2y];
    BarycentricFromCross(p2, p0, p1, p2, 0.0, a, a);
    DivideByItself(a);
  }

  lemma BarycentricFromCross(t: Vector, p0: Vector, p1: Vector, p2: Vector, c0: real, c1: real, c2: real)
    requires |t| == 2 && |p0| == 2 && |p1| == 2 && |p2| == 2
    requires c2 != 0.0
    requires Cross(XRow(t, p0, p1, p2), YRow(t, p0, p1, p2)) == [c0, c1, c2]
    ensures GetBarycentric(t, p0, p1, p2) == [1.0 - (c0 + c1) / c2, c0 / c2, c1 / c2]
  {
  }

  /** The cross products of the rows when the target is one of the vertices. */
  lemma VertexCrosses(e1x: real, e1y: real, e2x: real, e2y: real)
    ensures Cross([e1x, e2x, 0.0], [e1y, e2y, 0.0]) == [0.0, 0.0, e1x * e2y - e2x * e1y]
    ensures Cross([e1x, e2x, -e1x], [e1y, e2y, -e1y]) == [e1x * e2y - e2x * e1y, 0.0, e1x * e2y - e2x * e1y]
    ensures Cross([e1x, e2x, -e2x], [e1y, e2y, -e2y]) == [0.0, e1x * e2y - e2x * e1y, e1x * e2y - e2x * e1y]
  {
    var a := e1x * e2y - e2x * e1y;
    var c := Cross([e1x, e2x, 0.0], [e1y, e2y, 0.0]);
    assert c[0] == 0.0 && c[1] == 0.0 && c[2] == a;
    c := Cross([e1x, e2x, -e1x], [e1y, e2y, -e1y]);
    assert c[0] == a && c[1] == 0.0 && c[2] == a;
    c := Cross([e1x, e2x, -e2x], [e1y, e2y, -e2y]);
    assert c[0] == 0.0 && c[1] == a && c[2] == a;
  }

  /**
   * IsPointInTriangle(edge1, edge2, origin_from_point) on integer vectors:
   * false for collinear edges, else true iff both normalized coordinates
   * are non-negative and their sum is at most 1.
   */
  function IsPointInTriangle(edge1: seq<int>, edge2: seq<int>, origin: seq<int>): (r: bool)
    requires |edge1| == 2 && |edge2| == 2 && |origin| == 2
    ensures r ==> edge1[0] * edge2[1] - edge2[0] * edge1[1] != 0
  {
    var c0 := edge2[0] * origin[1] - origin[0] * edge2[1];
    var c1 := origin[0] * edge1[1] - edge1[0] * origin[1];
    var c2 := edge1[0] * edge2[1] - edge2[0] * edge1[1];
    if c2 == 0 then false
    else
      var nx := c0 as real / c2 as real;
      var ny := c1 as real / c2 as real;
      0.0 <= nx && 0.0 <= ny && nx + ny <= 1.0
  }

  function ToReal(p: seq<int>): (r: Vector)
    ensures |r| == |p| && forall i :: 0 <= i < |p| ==> r[i] == p[i] as real
  {
    seq(|p|, i requires 0 <= i < |p| => p[i] as real)
  }

  function IntSub(p: seq<int>, q: seq<int>): (r: seq<int>)
    requires |p| == |q|
    ensures |r| == |p| && forall i :: 0 <= i < |p| ==> r[i] == p[i] - q[i]
  {
    seq(|p|, i requires 0 <= i < |p| => p[i] - q[i])
  }

  /**
   * On integer points the integer inside test and the barycentric test of
   * DrawTriangle agree: IsPointInTriangle(p1 - p0, p2 - p0, p0 - t) holds
   * exactly when all weights of t are non-negative.
   */
  lemma InsideTestsAgree(t: seq<int>, p0: seq<int>, p1: seq<int>, p2: seq<int>)
    requires |t| == 2 && |p0| == 2 && |p1| == 2 && |p2| == 2
    ensures IsPointInTriangle(IntSub(p1, p0), IntSub(p2, p0), IntSub(p0, t))
        <==> Covered(GetBarycentric(ToReal(t), ToReal(p0), ToReal(p1), ToReal(p2)))
  {
    var e1, e2, o := IntSub(p1, p0), IntSub(p2, p0), IntSub(p0, t);
    var k0, k1, k2 := e2[0] * o[1] - o[0] * e2[1], o[0] * e1[1] - e1[0] * o[1], e1[0] * e2[1] - e2[0] * e1[1];
    IntRowsCross(t, p0, p1, p2);
    if k2 != 0 {
      BarycentricFromCross(ToReal(t), ToReal(p0), ToReal(p1), ToReal(p2), k0 as real, k1 as real, k2 as real);
      WeightsAgree(k0 as real, k1 as real, k2 as real);
    }
  }

  /** On integer points the cross product of the rows is the integer one, converted. */
  lemma IntRowsCross(t: seq<int>, p0: seq<int>, p1: seq<int>, p2: seq<int>)
    requires |t| == 2 && |p0| == 2 && |p1| == 2 && |p2| == 2
    ensures var e1, e2, o := IntSub(p1, p0), IntSub(p2, p0), IntSub(p0, t);
      Cross(XRow(ToReal(t), ToReal(p0), ToReal(p1), ToReal(p2)), YRow(ToReal(t), ToReal(p0), ToReal(p1), ToReal(p2)))
        == [(e2[0] * o[1] - o[0] * e2[1]) as real, (o[0] * e1[1] - e1[0] * o[1]) as real, (e1[0] * e2[1] - e2[0] * e1[1]) as real]
  {
    var e1, e2, o := IntSub(p1, p0), IntSub(p2, p0), IntSub(p0, t);
    var c := Cross(XRow(ToReal(t), ToReal(p0), ToReal(p1), ToReal(p2)), YRow(ToReal(t), ToReal(p0), ToReal(p1), ToReal(p2)));
    RealProduct(e2[0], o[1], o[0], e2[1]);
    RealProduct(o[0], e1[1], e1[0], o[1]);
    RealProduct(e1[0], e2[1], e2[0], e1[1]);
    assert c[0] == (e2[0] * o[1] - o[0] * e2[1]) as real;
    assert c[1] == (o[0] * e1[1] - e1[0] * o[1]) as real;
    assert c[2] == (e1[0] * e2[1] - e2[0] * e1[1]) as real;
  }

  /** The inside test's normalized coordinates and the three weights accept the same points. */
  lemma WeightsAgree(c0: real, c1: real, c2: real)
    requires c2 != 0.0
    ensures (0.0 <= c0 / c2 && 0.0 <= c1 / c2 && c0 / c2 + c1 / c2 <= 1.0)
        <==> (0.0 <= 1.0 - (c0 + c1) / c2 && 0.0 <= c0 / c2 && 0.0 <= c1 / c2)
  {
    assert (c0 + c1) / c2 == c0 / c2 + c1 / c2;
  }

  /** The integer 2×2 determinant converts to the real one. */
  lemma RealProduct(a: int, b: int, c: int, d: int)
    ensures (a * b - c * d) as real == a as real * b as real - c as real * d as real
  {
  }

  // ---------------------------------------------------------------------------
  // GetPhongColor and ConvertColorToVec
  // ---------------------------------------------------------------------------

  /** The default arguments of GetPhongColor. */
  const DefaultDiffuse := 1.0
  const DefaultSpecular := 0.5
  const DefaultShininess := 16.0

  const White := RgbaColor(255, 255, 255, 255)

  /** texture * (diffuse * max(0, n·l)): the diffuse term of the Phong colour. */
  function DiffuseTerm(normal: Vector, lightVec: Vector, texture: RgbaColor, diffuse: real): RgbaColor
    requires |normal| == 3 && |lightVec| == 3 && 0.0 <= diffuse
  {
    NonNegativeProduct(diffuse, MaxReal(0.0, Dot(normal, lightVec)));
    Images.Scale(texture, diffuse * MaxReal(0.0, Dot(normal, lightVec)))
  }

  /**
   * GetPhongColor: light_dir and view_vector are normalized (each throws on
   * zero length, light first), the light vector is the negated light
   * direction, and the result is the diffuse term plus white scaled by
   * specular * pow(max(0, reflection·view), alpha).
   */
  function GetPhongColor(lib: MathLib, normal: Vector, viewVector: Vector, lightDir: Vector,
                         texture: RgbaColor, diffuse: real, specular: real, alpha: real): (r: Result<RgbaColor>)
    requires ValidLib(lib)
    requires |normal| == 3 && |viewVector| == 3 && |lightDir| == 3
    requires 0.0 <= diffuse && 0.0 <= specular
    ensures r.Err? <==> lib.sqrt(SqLength(lightDir)) == 0.0 || lib.sqrt(SqLength(viewVector)) == 0.0
    ensures r.Err? ==> r == Err(DivisionByZero)
  {
    var light :- Normalized(lib, lightDir);
    var lightVec := LinAlg.Scale(light, -1.0);
    var reflection := Reflect(lightVec, normal);
    var view :- Normalized(lib, viewVector);
    var shine := lib.pow(MaxReal(0.0, Dot(reflection, view)), alpha);
    NonNegativeProduct(specular, shine);
    var specularColor := Images.Scale(White, specular * shine);
    Ok(Images.Add(DiffuseTerm(normal, lightVec, texture, diffuse), specularColor))
  }

  /**
   * The Phong colour keeps the texture's alpha and is at least as bright as
   * its diffuse term in every channel; with no specular weight it is exactly
   * the diffuse term.
   */
  lemma PhongColorBounds(lib: MathLib, normal: Vector, viewVector: Vector, lightDir: Vector,
                         texture: RgbaColor, diffuse: real, specular: real, alpha: real)
    requires ValidLib(lib)
    requires |normal| == 3 && |viewVector| == 3 && |lightDir| == 3
    requires 0.0 <= diffuse && 0.0 <= specular
    requires GetPhongColor(lib, normal, viewVector, lightDir, texture, diffuse, specular, alpha).Ok?
    ensures var c := GetPhongColor(lib, normal, viewVector, lightDir, texture, diffuse, specular, alpha).value;
      var d := DiffuseTerm(normal, LinAlg.Scale(Normalized(lib, lightDir).value, -1.0), texture, diffuse);
      c.a == texture.a && d.r <= c.r && d.g <= c.g && d.b <= c.b &&
      (specular == 0.0 ==> c == d)
  {
    var light := Normalized(lib, lightDir).value;
    var lightVec := LinAlg.Scale(light, -1.0);
    var view := Normalized(lib, viewVector).value;
    var shine := lib.pow(MaxReal(0.0, Dot(Reflect(lightVec, normal), view)), alpha);
    NonNegativeProduct(specular, shine);
    var d := DiffuseTerm(normal, lightVec, texture, diffuse);
    var s := Images.Scale(White, specular * shine);
    AddMonotoneAndSymmetric(d, s);
    if specular == 0.0 {
      assert s == RgbaColor(0, 0, 0, 255);
    }
  }

  /** ConvertColorToVec: each channel mapped to channel / 255 - 0.5. */
  function ConvertColorToVec(c: RgbaColor): (r: Vector)
    ensures |r| == 3
    ensures forall i :: 0 <= i < 3 ==> -0.5 <= r[i] <= 0.5
    ensures c.r == 0 ==> r[0] == -0.5
    ensures c.r == 255 ==> r[0] == 0.5
  {
    [c.r as real / 255.0 - 0.5, c.g as real / 255.0 - 0.5, c.b as real / 255.0 - 0.5]
  }
}
