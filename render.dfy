/**
 * render.cpp of the cpps tree: RenderModel, which sets up OurGL's uniforms
 * and runs the shadow pass, the ambient-occlusion pass and the main pass,
 * and GenerateSsaoImage, which draws the depth-only pass and turns every
 * pixel's 3x3 depth neighbourhood into an ambient-occlusion byte.
 */
module Render {
  import opened Wrappers
  import opened RealMath
  import opened LinAlg
  import opened Images
  import opened GeometryVec
  import opened GeometryUtils
  import opened OurGl
  import opened Shaders
  import opened Rasterizer

  // ---------------------------------------------------------------------------
  // The ambient-occlusion value of one pixel
  // ---------------------------------------------------------------------------

  /** geometry::kPi */
  const Pi: real := 3.14159265358979323846

  const HalfPi: real := Pi / 2.0

  /** (x + dx, y + dy) is inside the buffer and is not (x, y) itself. */
  predicate IsNeighbour(width: int, height: int, x: int, y: int, dx: int, dy: int)
  {
    0 <= x + dx < width && 0 <= y + dy < height && !(dx == 0 && dy == 0)
  }

  /**
   * What neighbour (dx, dy) adds to the total: pi/2 less the angle at which
   * the neighbour's depth rises above the centre's, the angle taken as 0
   * when it falls; nothing for the centre and for pixels off the buffer.
   */
  function NeighbourTerm(lib: MathLib, z: seq<GrayscaleColor>, width: int, height: int, x: int, y: int, dx: int, dy: int): (r: real)
    requires 0 <= x < width && 0 <= y < height && |z| == width * height
    ensures !IsNeighbour(width, height, x, y, dx, dy) ==> r == 0.0
    ensures r <= HalfPi
  {
    if !IsNeighbour(width, height, x, y, dx, dy) then 0.0
    else
      IndexInRange(x, y, width, height);
      IndexInRange(x + dx, y + dy, width, height);
      var distance := lib.sqrt((dx * dx + dy * dy) as real);
      var deltaZ := z[Index(x + dx, y + dy, width)].value - z[Index(x, y, width)].value;
      HalfPi - MaxReal(0.0, lib.atan2(deltaZ as real / 255.0, distance))
  }

  /** The term of every offset of the 3x3 block around (x, y). */
  type BlockTerm = (int, int) -> real

  function TermsAround(lib: MathLib, z: seq<GrayscaleColor>, width: int, height: int, x: int, y: int): BlockTerm
  {
    (dx, dy) => if 0 <= x < width && 0 <= y < height && |z| == width * height then NeighbourTerm(lib, z, width, height, x, y, dx, dy) else 0.0
  }

  /** The terms of column dx for dy = -1 up to dyEnd - 1, in the order the inner loop adds them. */
  function ColumnPrefix(term: BlockTerm, dx: int, dyEnd: int): real
  {
    (if 0 <= dyEnd then term(dx, -1) else 0.0) +
    (if 1 <= dyEnd then term(dx, 0) else 0.0) +
    (if 2 <= dyEnd then term(dx, 1) else 0.0)
  }

  /** The columns dx = -1 up to dxEnd - 1, in the order the outer loop adds them. */
  function Prefix(term: BlockTerm, dxEnd: int): real
  {
    (if 0 <= dxEnd then ColumnPrefix(term, -1, 2) else 0.0) +
    (if 1 <= dxEnd then ColumnPrefix(term, 0, 2) else 0.0) +
    (if 2 <= dxEnd then ColumnPrefix(term, 1, 2) else 0.0)
  }

  /** The total over the whole 3x3 neighbourhood, before it is normalised. */
  function Occlusion(lib: MathLib, z: seq<GrayscaleColor>, width: int, height: int, x: int, y: int): real
  {
    Prefix(TermsAround(lib, z, width, height, x, y), 2)
  }

  /** smoothstep(0.05, 0.95, pow(total / (8 pi/2), 100)) scaled to a byte. */
  function AoByte(lib: MathLib, total: real): (b: Byte)
  {
    var s := Smoothstep(0.05, 0.95, lib.pow(total / (HalfPi * 8.0), 100.0));
    TruncBetween(s * 255.0, 0, 255);
    Trunc(s * 255.0)
  }

  /**
   * The byte GenerateSsaoImage writes at (x, y): nothing (0) where the depth
   * pass left depth 0, else the ambient-occlusion byte of the neighbourhood.
   */
  function AoPixel(lib: MathLib, z: seq<GrayscaleColor>, width: int, height: int, x: int, y: int): (g: GrayscaleColor)
    requires 0 <= x < width && 0 <= y < height && |z| == width * height
    ensures 0 <= Index(x, y, width) < |z|
    ensures z[Index(x, y, width)].value == 0 ==> g == BlankGray
  {
    IndexInRange(x, y, width, height);
    var zValue := z[Index(x, y, width)].value;
    if zValue <= 0 then BlankGray
    else GrayscaleColor(AoByte(lib, Occlusion(lib, z, width, height, x, y)))
  }

  /** The whole image GenerateSsaoImage returns. */
  function AoImage(lib: MathLib, z: seq<GrayscaleColor>, width: int, height: int): (ao: seq<GrayscaleColor>)
    requires 0 <= width && 0 <= height && |z| == width * height
    ensures |ao| == width * height
  {
    seq(width * height, i requires 0 <= i < width * height =>
      PixelOfIndex(i, width, height);
      AoPixel(lib, z, width, height, i % width, i / width))
  }

  /** The image at pixel (x, y) is the pixel's own value. */
  lemma AoImageAt(lib: MathLib, z: seq<GrayscaleColor>, width: int, height: int, x: int, y: int)
    requires 0 <= width && 0 <= height && |z| == width * height
    requires 0 <= x < width && 0 <= y < height
    ensures 0 <= Index(x, y, width) < width * height
    ensures AoImage(lib, z, width, height)[Index(x, y, width)] == AoPixel(lib, z, width, height, x, y)
  {
    IndexInRange(x, y, width, height);
    DivModOfIndex(x, y, width);
  }

  // ---------------------------------------------------------------------------
  // Properties of the neighbourhood
  // ---------------------------------------------------------------------------

  /** 1 for a neighbour that is read, 0 otherwise. */
  function Counted(width: int, height: int, x: int, y: int, dx: int, dy: int): int
  {
    if IsNeighbour(width, height, x, y, dx, dy) then 1 else 0
  }

  /** How many neighbours the loops read: the in-buffer pixels of the 3x3 block other than the centre. */
  function NeighbourCount(width: int, height: int, x: int, y: int): int
  {
    Counted(width, height, x, y, -1, -1) + Counted(width, height, x, y, -1, 0) + Counted(width, height, x, y, -1, 1) +
    Counted(width, height, x, y, 0, -1) + Counted(width, height, x, y, 0, 0) + Counted(width, height, x, y, 0, 1) +
    Counted(width, height, x, y, 1, -1) + Counted(width, height, x, y, 1, 0) + Counted(width, height, x, y, 1, 1)
  }

  /** At most 8 neighbours are read: all 8 away from the border, at most 5 on it. */
  lemma NeighbourCountBounds(width: int, height: int, x: int, y: int)
    requires 0 <= x < width && 0 <= y < height
    ensures NeighbourCount(width, height, x, y) <= 8
    ensures 1 <= x < width - 1 && 1 <= y < height - 1 ==> NeighbourCount(width, height, x, y) == 8
    ensures x == 0 || y == 0 || x == width - 1 || y == height - 1 ==> NeighbourCount(width, height, x, y) <= 5
  {
    assert Counted(width, height, x, y, 0, 0) == 0;
    if x == 0 || x == width - 1 {
      var side := if x == 0 then -1 else 1;
      assert Counted(width, height, x, y, side, -1) + Counted(width, height, x, y, side, 0) + Counted(width, height, x, y, side, 1) == 0;
    } else if y == 0 || y == height - 1 {
      var side := if y == 0 then -1 else 1;
      assert Counted(width, height, x, y, -1, side) + Counted(width, height, x, y, 0, side) + Counted(width, height, x, y, 1, side) == 0;
    }
  }

  /** A block whose every term is at most another's sums to at most the other's total. */
  lemma PrefixMonotone(small: BlockTerm, large: BlockTerm)
    requires forall dx, dy :: small(dx, dy) <= large(dx, dy)
    ensures Prefix(small, 2) <= Prefix(large, 2)
  {
    assert ColumnPrefix(small, -1, 2) <= ColumnPrefix(large, -1, 2);
    assert ColumnPrefix(small, 0, 2) <= ColumnPrefix(large, 0, 2);
  }

  /** pi/2 for every neighbour read, 0 elsewhere. */
  function CeilingsAround(width: int, height: int, x: int, y: int): BlockTerm
  {
    (dx, dy) => HalfPi * Counted(width, height, x, y, dx, dy) as real
  }

  lemma CeilingsSum(width: int, height: int, x: int, y: int)
    ensures Prefix(CeilingsAround(width, height, x, y), 2) == HalfPi * NeighbourCount(width, height, x, y) as real
  {
  }

  /**
   * Every neighbour read adds at most pi/2 while the divisor stays 8 pi/2
   * wherever the pixel lies, so a border pixel's normalised total is at most 5/8.
   */
  lemma OcclusionBound(lib: MathLib, z: seq<GrayscaleColor>, width: int, height: int, x: int, y: int)
    requires 0 <= x < width && 0 <= y < height && |z| == width * height
    ensures Occlusion(lib, z, width, height, x, y) <= HalfPi * NeighbourCount(width, height, x, y) as real
  {
    var term := TermsAround(lib, z, width, height, x, y);
    var ceiling := CeilingsAround(width, height, x, y);
    forall dx, dy
      ensures term(dx, dy) <= ceiling(dx, dy)
    {
      if IsNeighbour(width, height, x, y, dx, dy) {
        assert Counted(width, height, x, y, dx, dy) == 1;
      }
    }
    PrefixMonotone(term, ceiling);
    CeilingsSum(width, height, x, y);
  }

  // ---------------------------------------------------------------------------
  // GenerateSsaoImage
  // ---------------------------------------------------------------------------

  /** The dx, dy loops: the neighbourhood total of pixel (x, y) whose own depth is zValue. */
  method NeighbourTotal(lib: MathLib, z: seq<GrayscaleColor>, width: int, height: int, x: int, y: int, zValue: int) returns (total: real)
    requires 0 <= x < width && 0 <= y < height && |z| == width * height
    requires 0 <= Index(x, y, width) < |z| && zValue == z[Index(x, y, width)].value
    ensures total == Occlusion(lib, z, width, height, x, y)
  {
    ghost var term := TermsAround(lib, z, width, height, x, y);
    total := 0.0;
    var dx := -1;
    while dx <= 1
      invariant -1 <= dx <= 2
      invariant total == Prefix(term, dx)
    {
      if x + dx < 0 || x + dx >= width {
        assert ColumnPrefix(term, dx, 2) == 0.0;
        dx := dx + 1;
        continue;
      }
      total := ColumnTotal(lib, z, width, height, x, y, zValue, dx, total);
      dx := dx + 1;
    }
  }

  /** The dy loop for column dx, adding to the running total. */
  method ColumnTotal(lib: MathLib, z: seq<GrayscaleColor>, width: int, height: int, x: int, y: int, zValue: int, dx: int, start: real)
    returns (total: real)
    requires 0 <= x < width && 0 <= y < height && |z| == width * height && 0 <= x + dx < width
    requires 0 <= Index(x, y, width) < |z| && zValue == z[Index(x, y, width)].value
    ensures total == start + ColumnPrefix(TermsAround(lib, z, width, height, x, y), dx, 2)
  {
    ghost var term := TermsAround(lib, z, width, height, x, y);
    total := start;
    var dy := -1;
    while dy <= 1
      invariant -1 <= dy <= 2
      invariant total == start + ColumnPrefix(term, dx, dy)
    {
      if y + dy < 0 || y + dy >= height {
        dy := dy + 1;
        continue;
      }
      if dx == 0 && dy == 0 {
        dy := dy + 1;
        continue;
      }
      var distance := lib.sqrt((dx * dx + dy * dy) as real);
      IndexInRange(x + dx, y + dy, width, height);
      var deltaZ := z[Index(x + dx, y + dy, width)].value - zValue;
      var exposedAngle := MaxReal(0.0, lib.atan2(deltaZ as real / 255.0, distance));
      total := total + (HalfPi - exposedAngle);
      dy := dy + 1;
    }
  }

  /** Every pixel before (x, y) in the loops' order holds its value, every other one is still 0. */
  ghost predicate AoDone(ao: seq<GrayscaleColor>, lib: MathLib, z: seq<GrayscaleColor>, width: int, height: int, x: int, y: int)
    requires |z| == width * height
  {
    |ao| == width * height &&
    forall px, py :: 0 <= px < width && 0 <= py < height ==>
      0 <= Index(px, py, width) < |ao| &&
      ao[Index(px, py, width)] == (if Before(px, py, x, y) then AoPixel(lib, z, width, height, px, py) else BlankGray)
  }

  lemma AoStart(ao: seq<GrayscaleColor>, lib: MathLib, z: seq<GrayscaleColor>, width: int, height: int)
    requires 0 <= width && 0 <= height && |z| == width * height
    requires |ao| == width * height && forall i :: 0 <= i < |ao| ==> ao[i] == BlankGray
    ensures AoDone(ao, lib, z, width, height, 0, 0)
  {
    forall px, py | 0 <= px < width && 0 <= py < height
      ensures 0 <= Index(px, py, width) < |ao|
    {
      IndexInRange(px, py, width, height);
    }
  }

  /** Writing pixel (x, y) its value moves the frontier one row down. */
  lemma AoStep(ao: seq<GrayscaleColor>, lib: MathLib, z: seq<GrayscaleColor>, width: int, height: int, x: int, y: int)
    requires 0 <= x < width && 0 <= y < height && |z| == width * height
    requires AoDone(ao, lib, z, width, height, x, y)
    ensures 0 <= Index(x, y, width) < |ao|
    ensures AoDone(ao[Index(x, y, width) := AoPixel(lib, z, width, height, x, y)], lib, z, width, height, x, y + 1)
  {
    IndexInRange(x, y, width, height);
    var i := Index(x, y, width);
    var next := ao[i := AoPixel(lib, z, width, height, x, y)];
    forall px, py | 0 <= px < width && 0 <= py < height
      ensures 0 <= Index(px, py, width) < |next|
      ensures next[Index(px, py, width)] == (if Before(px, py, x, y + 1) then AoPixel(lib, z, width, height, px, py) else BlankGray)
    {
      if Index(px, py, width) == i {
        IndexInjective(x, y, px, py, width, height);
      }
    }
  }

  /** The end of column x is the start of column x + 1. */
  lemma AoNextColumn(ao: seq<GrayscaleColor>, lib: MathLib, z: seq<GrayscaleColor>, width: int, height: int, x: int)
    requires |z| == width * height
    requires AoDone(ao, lib, z, width, height, x, height)
    ensures AoDone(ao, lib, z, width, height, x + 1, 0)
  {
    forall px, py | 0 <= px < width && 0 <= py < height
      ensures Before(px, py, x, height) == Before(px, py, x + 1, 0)
    {
    }
  }

  /** Once every column is done the buffer is the AO image. */
  lemma AoFinish(ao: seq<GrayscaleColor>, lib: MathLib, z: seq<GrayscaleColor>, width: int, height: int)
    requires 0 <= width && 0 <= height && |z| == width * height
    requires AoDone(ao, lib, z, width, height, width, 0)
    ensures ao == AoImage(lib, z, width, height)
  {
    var image := AoImage(lib, z, width, height);
    forall i | 0 <= i < |ao|
      ensures ao[i] == image[i]
    {
      PixelOfIndex(i, width, height);
      AoImageAt(lib, z, width, height, i % width, i / width);
    }
  }

  /** The y loop of GenerateSsaoImage for column x. */
  method AoColumn(lib: MathLib, z: seq<GrayscaleColor>, width: int, height: int, x: int, ssao: Image<GrayscaleColor>)
    requires 0 <= x < width && 0 <= height && |z| == width * height
    requires ssao.Valid() && ssao.width == width && ssao.height == height
    requires AoDone(ssao.data, lib, z, width, height, x, 0)
    modifies ssao
    ensures ssao.Valid() && ssao.width == width && ssao.height == height
    ensures AoDone(ssao.data, lib, z, width, height, x + 1, 0)
  {
    var y := 0;
    while y < height
      invariant 0 <= y <= height
      invariant ssao.Valid() && ssao.width == width && ssao.height == height
      invariant AoDone(ssao.data, lib, z, width, height, x, y)
    {
      IndexInRange(x, y, width, height);
      var zValue := z[Index(x, y, width)].value;
      AoStep(ssao.data, lib, z, width, height, x, y);
      if zValue <= 0 {
        assert ssao.data[Index(x, y, width) := AoPixel(lib, z, width, height, x, y)] == ssao.data;
        y := y + 1;
        continue;
      }
      var total := NeighbourTotal(lib, z, width, height, x, y, zValue);
      ssao.Set(x, y, GrayscaleColor(AoByte(lib, total)));
      y := y + 1;
    }
    AoNextColumn(ssao.data, lib, z, width, height, x);
  }
  /**
   * A pass drawn into a fresh blank colour image with a fresh shader of the
   * given kind, as a value: the depths it leaves in the buffer.
   */
  ghost function DepthPass(lib: MathLib, kind: ShaderKind, u: Uniforms, faces: seq<seq<Vertex>>, depths: seq<GrayscaleColor>,
                           width: int, height: int): (r: Result<seq<GrayscaleColor>>)
    requires 0 <= width && 0 <= height
    ensures r.Ok? ==> DepthsBelow(depths, r.value)
  {
    var start := Frame(InitialVaryings, seq(width * height, _ => BlankRgba), depths);
    var f :- ModelSpec(lib, kind, u, Raster(0, 0, []), faces, start, width, height);
    ModelDepthsNeverDecrease(lib, kind, u, Raster(0, 0, []), faces, start, width, height);
    Ok(f.depths)
  }

  /** The x loop of GenerateSsaoImage over a blank image. */
  method AoColumns(lib: MathLib, z: seq<GrayscaleColor>, width: int, height: int, ssao: Image<GrayscaleColor>)
    requires 0 <= width && 0 <= height && |z| == width * height
    requires ssao.Valid() && ssao.width == width && ssao.height == height
    requires forall i :: 0 <= i < |ssao.data| ==> ssao.data[i] == BlankGray
    modifies ssao
    ensures ssao.Valid() && ssao.width == width && ssao.height == height
    ensures ssao.data == AoImage(lib, z, width, height)
  {
    AoStart(ssao.data, lib, z, width, height);
    var x := 0;
    while x < width
      invariant 0 <= x <= width
      invariant ssao.Valid() && ssao.width == width && ssao.height == height
      invariant AoDone(ssao.data, lib, z, width, height, x, 0)
    {
      AoColumn(lib, z, width, height, x, ssao);
      x := x + 1;
    }
    AoFinish(ssao.data, lib, z, width, height);
  }

  /**
   * DrawModel with a fresh shader of a kind other than the main one into a
   * fresh blank colour image the size of the buffer, which only the depths
   * outlive: the shadow pass and the first half of GenerateSsaoImage.
   */
  method DrawDepthPass(lib: MathLib, model: Model, gl: OurGL, kind: ShaderKind, zBuffer: Image<GrayscaleColor>) returns (r: Outcome)
    requires gl.Valid() && ValidLib(lib) && model.Valid() && zBuffer.Valid() && !kind.MainShader?
    requires |model.faces| > 0 ==> 1 <= zBuffer.width && 1 <= zBuffer.height
    modifies zBuffer
    ensures zBuffer.Valid() && zBuffer.width == old(zBuffer.width) && zBuffer.height == old(zBuffer.height)
    ensures var pass := old(DepthPass(lib, kind, gl.Uniforms(), model.faces, zBuffer.data, zBuffer.width, zBuffer.height));
      (r.Pass? <==> pass.Ok?) && (r.Pass? ==> zBuffer.data == pass.value) && (r.Fail? ==> pass == Err(r.error))
  {
    var nullImage := new Image<RgbaColor>(zBuffer.width, zBuffer.height, BlankRgba);
    var shader := new Shader(kind);
    assert nullImage.data == seq(zBuffer.width * zBuffer.height, _ => BlankRgba);
    r := gl.DrawModel(lib, model, shader, nullImage, zBuffer);
  }

  /**
   * GenerateSsaoImage(model, gl, z_buffer): the depth-only pass into the
   * z-buffer, then the ambient-occlusion byte of every pixel.
   */
  method GenerateSsaoImage(lib: MathLib, model: Model, gl: OurGL, zBuffer: Image<GrayscaleColor>) returns (r: Result<Image<GrayscaleColor>>)
    requires gl.Valid() && ValidLib(lib) && model.Valid() && zBuffer.Valid()
    requires zBuffer.width == gl.width && zBuffer.height == gl.height
    requires |model.faces| > 0 ==> 1 <= gl.width && 1 <= gl.height
    modifies zBuffer
    ensures zBuffer.Valid() && zBuffer.width == old(zBuffer.width) && zBuffer.height == old(zBuffer.height)
    ensures var pass := old(DepthPass(lib, ZShader, gl.Uniforms(), model.faces, zBuffer.data, zBuffer.width, zBuffer.height));
      (r.Ok? <==> pass.Ok?) &&
      (r.Ok? ==> zBuffer.data == pass.value && fresh(r.value) && r.value.Valid() &&
                 r.value.Value() == Raster(zBuffer.width, zBuffer.height, AoImage(lib, zBuffer.data, zBuffer.width, zBuffer.height))) &&
      (r.Err? ==> pass == Err(r.error))
  {
    var w, h := gl.width, gl.height;
    var ssao := new Image<GrayscaleColor>(w, h, BlankGray);
    var drawn := DrawDepthPass(lib, model, gl, ZShader, zBuffer);
    if drawn.Fail? {
      return Err(drawn.error);
    }
    AoColumns(lib, zBuffer.data, w, h, ssao);
    r := Ok(ssao);
  }
  // ---------------------------------------------------------------------------
  // RenderModel
  // ---------------------------------------------------------------------------

  /** The four images RenderModel returns, by value. */
  datatype RenderResult = RenderResult(frame: Raster<RgbaColor>, zBuffer: Raster<GrayscaleColor>,
                                       shadowMap: Raster<GrayscaleColor>, ao: Raster<GrayscaleColor>)

  const WorldUp: Vector := [0.0, 1.0, 0.0]

  const FallbackUp: Vector := [0.0, 0.0, 1.0]

  /**
   * The up vector of a view along v: world up unless v is parallel to it,
   * then +z. What the choice guarantees is stated by UpForNeverParallel.
   */
  function UpFor(lib: MathLib, v: Vector): (up: Vector)
    requires |v| == 3
    ensures up == WorldUp || up == FallbackUp
    ensures up == WorldUp <==> !IsParallel(lib, v, WorldUp)
  {
    if !IsParallel(lib, v, WorldUp) then WorldUp else FallbackUp
  }

  /**
   * The uniforms RenderModel gives OurGL, or the runtime_error its set-up
   * throws when the light or the camera sits at the centre of the scene.
   */
  function RenderUniforms(lib: MathLib, texture: Raster<RgbaColor>, normalMap: Raster<RgbaColor>, width: int, height: int,
                          light: Vector, camera: Vector): (r: Result<Uniforms>)
    requires |light| == 3 && |camera| == 3 && texture.Valid() && normalMap.Valid()
    ensures r.Ok? ==> r.value.Valid() && r.value.width == width && r.value.height == height
    ensures r.Ok? ==> r.value.texture == texture && r.value.tangentNormalMap == normalMap && r.value.lightVpm == r.value.shadowVpm
    ensures r.Err? ==> r == Err(DivisionByZero)
  {
    var center := Zeros(3);
    var cameraUp := UpFor(lib, Sub(camera, center));
    var lightUp := UpFor(lib, Sub(light, center));
    var lightDirection :- Normalized(lib, Sub(center, light));
    var viewport := Viewport(0.0, 0.0, width as real, height as real, 1.0);
    var perspective := Perspective(3.0).value;
    var view :- ViewMatrix(lib, camera, center, cameraUp);
    var lightView :- ViewMatrix(lib, light, center, lightUp);
    var lightProjection := Orthographic(4.0, 4.0, 4.0).value;
    var lightVpm := MatMul(lightProjection, lightView, 4);
    Ok(Uniforms(viewport, width, height, MatMul(perspective, view, 4), lightVpm, lightVpm, lightDirection, Sub(camera, center),
                texture, normalMap))
  }

  /**
   * RenderModel as a value: the set-up, then the passes.
   */
  ghost function RenderSpec(lib: MathLib, model: Model, texture: Raster<RgbaColor>, normalMap: Raster<RgbaColor>,
                            width: int, height: int, light: Vector, camera: Vector): (r: Result<RenderResult>)
    requires |light| == 3 && |camera| == 3 && texture.Valid() && normalMap.Valid() && 0 <= width && 0 <= height
  {
    var u :- RenderUniforms(lib, texture, normalMap, width, height, light, camera);
    PassesSpec(lib, model.faces, u, width, height)
  }

  /**
   * The passes of RenderModel as a value: the shadow pass from the light
   * into its own buffer, the depth pass from the camera, the
   * ambient-occlusion image of those depths, then the main pass over the
   * same z-buffer, reading the shadow map.
   */
  ghost function PassesSpec(lib: MathLib, faces: seq<seq<Vertex>>, u: Uniforms, width: int, height: int): (r: Result<RenderResult>)
    requires 0 <= width && 0 <= height
  {
    var blank := seq(width * height, _ => BlankGray);
    var shadow :- DepthPass(lib, DepthShader, u, faces, blank, width, height);
    var z :- DepthPass(lib, ZShader, u, faces, blank, width, height);
    var main :- ModelSpec(lib, MainShader, u, Raster(width, height, shadow), faces,
                          Frame(InitialVaryings, seq(width * height, _ => BlankRgba), z), width, height);
    Ok(RenderResult(Raster(width, height, main.colors), Raster(width, height, main.depths), Raster(width, height, shadow),
                    Raster(width, height, AoImage(lib, z, width, height))))
  }

  /** A fresh OurGL holding the given uniforms and pointing at the shadow map. */
  method SetUpGl(u: Uniforms, shadowMap: Image<GrayscaleColor>) returns (gl: OurGL)
    requires u.Valid() && shadowMap.Valid()
    ensures fresh(gl) && gl.Valid() && gl.Uniforms() == u && gl.shadowDepthMap == shadowMap
  {
    gl := new OurGL();
    gl.viewport, gl.width, gl.height := u.viewport, u.width, u.height;
    gl.vpm, gl.lightVpm, gl.lightDir, gl.viewVector := u.vpm, u.lightVpm, u.lightDir, u.viewVector;
    gl.texture, gl.tangentNormalMap := u.texture, u.tangentNormalMap;
    gl.shadowDepthMap := shadowMap;
    gl.shadowVpm := u.shadowVpm;
  }

  /**
   * RenderModel(model, diffuse_texture, normal_map, width, height,
   * light_position, camera_position).
   */
  method RenderModel(lib: MathLib, model: Model, texture: Raster<RgbaColor>, normalMap: Raster<RgbaColor>,
                     width: int, height: int, light: Vector, camera: Vector) returns (r: Result<RenderResult>)
    requires ValidLib(lib) && model.Valid() && texture.Valid() && normalMap.Valid()
    requires 0 <= width && 0 <= height && |light| == 3 && |camera| == 3
    requires |model.faces| > 0 ==> 1 <= width && 1 <= height
    ensures r == RenderSpec(lib, model, texture, normalMap, width, height, light, camera)
  {
    var frame := new Image<RgbaColor>(width, height, BlankRgba);
    var zBuffer := new Image<GrayscaleColor>(width, height, BlankGray);
    var shadowMap := new Image<GrayscaleColor>(width, height, BlankGray);
    var shader := new Shader(MainShader);
    var u := RenderUniforms(lib, texture, normalMap, width, height, light, camera);
    if u.Err? {
      return Err(u.error);
    }
    var gl := SetUpGl(u.value, shadowMap);
    r := DrawPasses(lib, model, gl, shader, frame, zBuffer, shadowMap);
  }

  /** The second half of RenderModel: the three passes over fresh buffers. */
  method DrawPasses(lib: MathLib, model: Model, gl: OurGL, shader: Shader, frame: Image<RgbaColor>,
                    zBuffer: Image<GrayscaleColor>, shadowMap: Image<GrayscaleColor>) returns (r: Result<RenderResult>)
    requires ValidLib(lib) && model.Valid() && gl.Valid() && gl.shadowDepthMap == shadowMap && shader.Valid()
    requires shader.kind == MainShader && shader.varyings == InitialVaryings
    requires zBuffer != shadowMap
    requires frame.Valid() && zBuffer.Valid() && shadowMap.Valid()
    requires frame.width == zBuffer.width == shadowMap.width == gl.width
    requires frame.height == zBuffer.height == shadowMap.height == gl.height
    requires frame.data == seq(gl.width * gl.height, _ => BlankRgba)
    requires zBuffer.data == shadowMap.data == seq(gl.width * gl.height, _ => BlankGray)
    requires |model.faces| > 0 ==> 1 <= gl.width && 1 <= gl.height
    modifies shader, frame, zBuffer, shadowMap
    ensures r == old(PassesSpec(lib, model.faces, gl.Uniforms(), gl.width, gl.height))
  {
    var drawn := DrawDepthPass(lib, model, gl, DepthShader, shadowMap);
    if drawn.Fail? {
      return Err(drawn.error);
    }
    var ao := GenerateSsaoImage(lib, model, gl, zBuffer);
    if ao.Err? {
      return Err(ao.error);
    }
    drawn := gl.DrawModel(lib, model, shader, frame, zBuffer);
    if drawn.Fail? {
      return Err(drawn.error);
    }
    r := Ok(RenderResult(frame.Value(), zBuffer.Value(), shadowMap.Value(), ao.value.Value()));
  }
  // ---------------------------------------------------------------------------
  // Properties of RenderModel
  // ---------------------------------------------------------------------------

  /** The four images RenderModel returns are all width x height. */
  lemma RenderOutputsFit(lib: MathLib, model: Model, texture: Raster<RgbaColor>, normalMap: Raster<RgbaColor>,
                         width: int, height: int, light: Vector, camera: Vector)
    requires |light| == 3 && |camera| == 3 && texture.Valid() && normalMap.Valid() && 0 <= width && 0 <= height
    requires RenderSpec(lib, model, texture, normalMap, width, height, light, camera).Ok?
    ensures var out := RenderSpec(lib, model, texture, normalMap, width, height, light, camera).value;
      out.frame.Valid() && out.zBuffer.Valid() && out.shadowMap.Valid() && out.ao.Valid() &&
      out.frame.width == out.zBuffer.width == out.shadowMap.width == out.ao.width == width &&
      out.frame.height == out.zBuffer.height == out.shadowMap.height == out.ao.height == height
  {
    var u := RenderUniforms(lib, texture, normalMap, width, height, light, camera).value;
    PassesFit(lib, model.faces, u, width, height);
  }

  lemma PassesFit(lib: MathLib, faces: seq<seq<Vertex>>, u: Uniforms, width: int, height: int)
    requires 0 <= width && 0 <= height && PassesSpec(lib, faces, u, width, height).Ok?
    ensures var out := PassesSpec(lib, faces, u, width, height).value;
      out.frame.Valid() && out.zBuffer.Valid() && out.shadowMap.Valid() && out.ao.Valid() &&
      out.frame.width == out.zBuffer.width == out.shadowMap.width == out.ao.width == width &&
      out.frame.height == out.zBuffer.height == out.shadowMap.height == out.ao.height == height
  {
    var blank := seq(width * height, _ => BlankGray);
    var shadow := DepthPass(lib, DepthShader, u, faces, blank, width, height).value;
    var z := DepthPass(lib, ZShader, u, faces, blank, width, height).value;
    var start := Frame(InitialVaryings, seq(width * height, _ => BlankRgba), z);
    ModelKeepsColorCount(lib, MainShader, u, Raster(width, height, shadow), faces, start, width, height);
    ModelDepthsNeverDecrease(lib, MainShader, u, Raster(width, height, shadow), faces, start, width, height);
  }

  /**
   * The ambient-occlusion image is 0 wherever the returned z-buffer is 0:
   * it is only computed where the camera's depth pass drew, and the main
   * pass never lowers a depth.
   */
  lemma AoOnlyWhereDrawn(lib: MathLib, faces: seq<seq<Vertex>>, u: Uniforms, width: int, height: int)
    requires 0 <= width && 0 <= height && PassesSpec(lib, faces, u, width, height).Ok?
    ensures var out := PassesSpec(lib, faces, u, width, height).value;
      |out.ao.data| == |out.zBuffer.data| == width * height &&
      forall i :: 0 <= i < width * height && out.zBuffer.data[i].value == 0 ==> out.ao.data[i] == BlankGray
  {
    PassesFit(lib, faces, u, width, height);
    var out := PassesSpec(lib, faces, u, width, height).value;
    var blank := seq(width * height, _ => BlankGray);
    var shadow := DepthPass(lib, DepthShader, u, faces, blank, width, height).value;
    var z := DepthPass(lib, ZShader, u, faces, blank, width, height).value;
    var start := Frame(InitialVaryings, seq(width * height, _ => BlankRgba), z);
    ModelDepthsNeverDecrease(lib, MainShader, u, Raster(width, height, shadow), faces, start, width, height);
    assert out.zBuffer.data == ModelSpec(lib, MainShader, u, Raster(width, height, shadow), faces, start, width, height).value.depths;
    assert out.ao.data == AoImage(lib, z, width, height);
    forall i | 0 <= i < width * height && out.zBuffer.data[i].value == 0
      ensures out.ao.data[i] == BlankGray
    {
      PixelOfIndex(i, width, height);
      AoImageAt(lib, z, width, height, i % width, i / width);
    }
  }

  /** A light or a camera at the centre of the scene makes the set-up throw. */
  lemma SceneAtCentreFails(lib: MathLib, model: Model, texture: Raster<RgbaColor>, normalMap: Raster<RgbaColor>,
                           width: int, height: int, light: Vector, camera: Vector)
    requires ValidLib(lib) && |light| == 3 && |camera| == 3 && texture.Valid() && normalMap.Valid() && 0 <= width && 0 <= height
    requires light == Zeros(3) || camera == Zeros(3)
    ensures RenderSpec(lib, model, texture, normalMap, width, height, light, camera) == Err(DivisionByZero)
  {
    SetUpAtCentreFails(lib, texture, normalMap, width, height, light, camera);
  }

  lemma SetUpAtCentreFails(lib: MathLib, texture: Raster<RgbaColor>, normalMap: Raster<RgbaColor>,
                           width: int, height: int, light: Vector, camera: Vector)
    requires ValidLib(lib) && |light| == 3 && |camera| == 3 && texture.Valid() && normalMap.Valid()
    requires light == Zeros(3) || camera == Zeros(3)
    ensures RenderUniforms(lib, texture, normalMap, width, height, light, camera).Err?
  {
    var center := Zeros(3);
    if light == Zeros(3) {
      ZeroLengthFails(lib, Sub(center, light));
    } else {
      CentreOffset(camera);
      ViewMatrixFails(lib, camera, center, UpFor(lib, Sub(camera, center)));
    }
  }

  /** A point at the centre is no offset from it. */
  lemma CentreOffset(p: Vector)
    requires p == Zeros(3)
    ensures SqLength(Sub(p, Zeros(3))) == 0.0
  {
    var offset := Sub(p, Zeros(3));
    assert offset == [0.0, 0.0, 0.0];
    Dot3(offset, offset);
  }

  lemma ZeroLengthFails(lib: MathLib, v: Vector)
    requires ValidLib(lib) && v == Zeros(3)
    ensures Normalized(lib, v).Err?
  {
    Dot3(v, v);
    SqrtIsZero(lib, SqLength(v));
  }

  /**
   * The up vector RenderModel picks is never parallel to a view direction
   * that is not zero: the fallback +z is used exactly when the direction is
   * along world up, and then it is perpendicular to it.
   */
  lemma UpForNeverParallel(lib: MathLib, v: Vector)
    requires ValidLib(lib) && |v| == 3 && v != Zeros(3)
    ensures !IsParallel(lib, v, UpFor(lib, v))
  {
    if UpFor(lib, v) == FallbackUp {
      IsParallelIffZeroCross(lib, v, WorldUp);
      var c := Cross(v, WorldUp);
      Dot3(c, c);
      assert c == [-v[2], 0.0, v[0]];
      SquaresVanish(v[2], v[0]);
      assert v == [0.0, v[1], 0.0] && Zeros(3) == [0.0, 0.0, 0.0];
      var d := Cross(v, FallbackUp);
      assert d == [v[1], -v[0], 0.0];
      Dot3(d, d);
      SquareMonotone(0.0, if v[1] < 0.0 then -v[1] else v[1]);
      IsParallelIffZeroCross(lib, v, FallbackUp);
    }
  }

  lemma SquaresVanish(a: real, b: real)
    requires (-a) * (-a) + 0.0 * 0.0 + b * b == 0.0
    ensures a == 0.0 && b == 0.0
  {
    SquareMonotone(0.0, if a < 0.0 then -a else a);
    SquareMonotone(0.0, if b < 0.0 then -b else b);
  }
}
