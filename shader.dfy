/**
 * The three shaders of the cpps renderer (shader.h / shader.cpp) and the
 * uniform state of OurGL they read. MainShader keeps one column per
 * triangle vertex in its varying matrices; DepthShader and ZShader only
 * transform positions and return constant fragments.
 */
module Shaders {
  import opened Wrappers
  import opened RealMath
  import opened LinAlg
  import opened Images
  import opened GeometryVec
  import opened GeometryUtils
  import opened OurGl

  datatype ShaderKind = MainShader | DepthShader | ZShader

  /**
   * The uniforms of OurGL as one value: the viewport, the output size, the
   * three transforms, the light direction, the view vector and the two
   * images the main shader samples. The shadow depth map, which OurGL holds
   * through a pointer, is passed on its own.
   */
  datatype Uniforms = Uniforms(viewport: Matrix, width: int, height: int,
                               vpm: Matrix, lightVpm: Matrix, shadowVpm: Matrix,
                               lightDir: Vector, viewVector: Vector,
                               texture: Raster<RgbaColor>, tangentNormalMap: Raster<RgbaColor>)
  {
    predicate Valid()
    {
      IsMatrix(viewport, 4, 4) && IsMatrix(vpm, 4, 4) && IsMatrix(lightVpm, 4, 4) && IsMatrix(shadowVpm, 4, 4) &&
      |lightDir| == 3 && |viewVector| == 3 && texture.Valid() && tangentNormalMap.Valid()
    }
  }

  /** varying_positions (3×3), varying_texcoords (2×3) and varying_normals (3×3). */
  datatype Varyings = Varyings(positions: Matrix, texcoords: Matrix, normals: Matrix)
  {
    predicate Valid()
    {
      IsMatrix(positions, 3, 3) && IsMatrix(texcoords, 2, 3) && IsMatrix(normals, 3, 3)
    }
  }

  /** The varyings of a freshly constructed shader: default (all-zero) matrices. */
  const InitialVaryings := Varyings(ZeroMatrix(3, 3), ZeroMatrix(2, 3), ZeroMatrix(3, 3))

  // ---------------------------------------------------------------------------
  // Vertex stage
  // ---------------------------------------------------------------------------

  /** The model-to-clip transform: u_shadow_vpm_mat for DepthShader, u_vpm_mat for the other two. */
  function VertexTransform(kind: ShaderKind, u: Uniforms): (m: Matrix)
    requires u.Valid()
    ensures IsMatrix(m, 4, 4)
  {
    if kind.DepthShader? then u.shadowVpm else u.vpm
  }

  /**
   * The gl_Position ShadeVertex returns: GetNDC(viewport * transform * (p, 1)),
   * a runtime_error when that w is 0.
   */
  function ScreenPosition(kind: ShaderKind, u: Uniforms, v: Vertex): (r: Result<Vector>)
    requires u.Valid() && v.Valid()
    ensures var clip := MatVec(u.viewport, MatVec(VertexTransform(kind, u), Homogeneous(v.position)));
      (r.Err? <==> clip[3] == 0.0) &&
      (r.Ok? ==> |r.value| == 3 && forall i :: 0 <= i < 3 ==> r.value[i] * clip[3] == clip[i])
  {
    GetNdc(MatVec(u.viewport, MatVec(VertexTransform(kind, u), Homogeneous(v.position))))
  }

  /**
   * The varyings after ShadeVertex(vertex, k): MainShader stores the
   * position (the NDC of (p, 1)), the texture coordinates and the normal in
   * column k of its three matrices; the other shaders write nothing.
   */
  function VaryingsAfter(kind: ShaderKind, vary: Varyings, v: Vertex, k: nat): (r: Varyings)
    requires vary.Valid() && v.Valid() && k < 3
    ensures r.Valid()
    ensures kind.MainShader? ==>
      Column(r.positions, k) == v.position && Column(r.texcoords, k) == v.texcoords && Column(r.normals, k) == v.normal
    ensures kind.MainShader? ==> forall j :: 0 <= j < 3 && j != k ==>
      Column(r.positions, j) == Column(vary.positions, j) &&
      Column(r.texcoords, j) == Column(vary.texcoords, j) &&
      Column(r.normals, j) == Column(vary.normals, j)
    ensures !kind.MainShader? ==> r == vary
  {
    if kind.MainShader? then
      NdcOfPoint(v.position);
      var r := Varyings(WithColumn(vary.positions, k, GetNdc(Homogeneous(v.position)).value),
                        WithColumn(vary.texcoords, k, v.texcoords),
                        WithColumn(vary.normals, k, v.normal));
      ColumnsAfter(vary, r, v, k);
      r
    else vary
  }

  lemma ColumnsAfter(vary: Varyings, r: Varyings, v: Vertex, k: nat)
    requires vary.Valid() && v.Valid() && k < 3
    requires r == Varyings(WithColumn(vary.positions, k, v.position),
                           WithColumn(vary.texcoords, k, v.texcoords),
                           WithColumn(vary.normals, k, v.normal))
    ensures forall j :: 0 <= j < 3 ==>
      Column(r.positions, j) == (if j == k then v.position else Column(vary.positions, j)) &&
      Column(r.texcoords, j) == (if j == k then v.texcoords else Column(vary.texcoords, j)) &&
      Column(r.normals, j) == (if j == k then v.normal else Column(vary.normals, j))
  {
    forall j | 0 <= j < 3
      ensures Column(r.positions, j) == (if j == k then v.position else Column(vary.positions, j))
      ensures Column(r.texcoords, j) == (if j == k then v.texcoords else Column(vary.texcoords, j))
      ensures Column(r.normals, j) == (if j == k then v.normal else Column(vary.normals, j))
    {
      WithColumnThenColumn(vary.positions, k, v.position, j);
      WithColumnThenColumn(vary.texcoords, k, v.texcoords, j);
      WithColumnThenColumn(vary.normals, k, v.normal, j);
    }
  }

  // ---------------------------------------------------------------------------
  // Fragment stage
  // ---------------------------------------------------------------------------

  /** The three rows of the Darboux basis: the two position edges from vertex 0 and the normal. */
  function DarbouxBasis(vary: Varyings, normal: Vector): (m: Matrix)
    requires vary.Valid() && |normal| == 3
    ensures IsMatrix(m, 3, 3)
  {
    [Sub(Column(vary.positions, 1), Column(vary.positions, 0)),
     Sub(Column(vary.positions, 2), Column(vary.positions, 0)),
     normal]
  }

  /** (texcoords[row][1] - texcoords[row][0], texcoords[row][2] - texcoords[row][0], 0) */
  function TexcoordEdges(vary: Varyings, row: nat): (e: Vector)
    requires vary.Valid() && row < 2
    ensures |e| == 3
  {
    [vary.texcoords[row][1] - vary.texcoords[row][0], vary.texcoords[row][2] - vary.texcoords[row][0], 0.0]
  }

  /**
   * The normal the main shader lights with: the tangent-space normal read
   * from the normal map, expressed in the Darboux frame (i, j, n) and
   * normalized. Fails when the basis is singular or a vector has length 0;
   * otherwise, with an exact sqrt, it is a unit vector.
   */
  function ShadingNormal(lib: MathLib, vary: Varyings, u: Uniforms, normal: Vector, texcoords: Vector): (r: Result<Vector>)
    requires vary.Valid() && u.Valid() && |normal| == 3 && |texcoords| == 2
    ensures r.Ok? ==> |r.value| == 3
    ensures ValidLib(lib) && r.Ok? ==> SqLength(r.value) == 1.0
  {
    var inverse :- Inverse(DarbouxBasis(vary, normal));
    var darbouxI :- Normalized(lib, MatVec(inverse, TexcoordEdges(vary, 0)));
    var darbouxJ :- Normalized(lib, MatVec(inverse, TexcoordEdges(vary, 1)));
    var tangentColor :- FindNearestTextureColor(texcoords, u.tangentNormalMap);
    var t := ConvertColorToVec(tangentColor);
    var realNormal := LinAlg.Add(LinAlg.Add(LinAlg.Scale(darbouxI, t[0]), LinAlg.Scale(darbouxJ, t[1])), LinAlg.Scale(normal, t[2]));
    NormalizedIsUnitIfValid(lib, realNormal);
    Normalized(lib, realNormal)
  }

  /**
   * The lit colour of the main shader at the given weights: the
   * interpolated normal is normalized, the shading normal built, the
   * texture sampled and the Phong colour taken with the default weights.
   */
  function LitColor(lib: MathLib, vary: Varyings, u: Uniforms, bary: Vector): (r: Result<RgbaColor>)
    requires ValidLib(lib) && vary.Valid() && u.Valid() && |bary| == 3
  {
    var normal :- Normalized(lib, MatVec(vary.normals, bary));
    var texcoords := MatVec(vary.texcoords, bary);
    var realNormal :- ShadingNormal(lib, vary, u, normal, texcoords);
    var textureColor :- FindNearestTextureColor(texcoords, u.texture);
    GetPhongColor(lib, realNormal, u.viewVector, u.lightDir, textureColor, DefaultDiffuse, DefaultSpecular, DefaultShininess)
  }

  /** Viewport(0, 0, 1, 1, 255) * u_light_vpm_mat * (position, 1): the fragment as seen from the light. */
  function LightScreen(u: Uniforms, position: Vector): (s: Vector)
    requires u.Valid() && |position| == 3
    ensures |s| == 4
  {
    MatVec(MatMul(Viewport(0.0, 0.0, 1.0, 1.0, 255.0), u.lightVpm, 4), Homogeneous(position))
  }

  /** Raised when the light-space w is 0: the source divides by it in floating point. */
  const NonFiniteShadowCoordinate := RuntimeError("Shadow coordinate: division by zero")

  /** The shadow-map depth under the fragment, sampled at (x / w, y / w) of its light-space position. */
  function ShadowDepth(s: Vector, shadow: Raster<GrayscaleColor>): (r: Result<GrayscaleColor>)
    requires |s| == 4 && shadow.Valid()
    ensures r.Ok? <==> s[3] != 0.0 && 1 <= shadow.width && 1 <= shadow.height
  {
    if s[3] == 0.0 then Err(NonFiniteShadowCoordinate)
    else FindNearestTextureColor([s[0] / s[3], s[1] / s[3]], shadow)
  }

  /** The shadow test: the light-space depth plus a bias of 0.05 * 255 lies below the stored depth. */
  predicate Shadowed(z: real, stored: GrayscaleColor)
  {
    z + 0.05 * 255.0 < stored.value as real
  }

  /** MainShader::ShadeFragment: the lit colour, dimmed to a tenth where the shadow test holds. */
  function MainFragment(lib: MathLib, vary: Varyings, u: Uniforms, shadow: Raster<GrayscaleColor>, bary: Vector): (r: Result<RgbaColor>)
    requires ValidLib(lib) && vary.Valid() && u.Valid() && shadow.Valid() && |bary| == 3
  {
    var phong :- LitColor(lib, vary, u, bary);
    var s := LightScreen(u, MatVec(vary.positions, bary));
    var stored :- ShadowDepth(s, shadow);
    Ok(if Shadowed(s[2], stored) then Images.Scale(phong, 0.1) else phong)
  }

  /**
   * ShadeFragment of each kind: DepthShader is opaque white and ZShader
   * transparent black whatever its inputs; MainShader computes MainFragment.
   * The fragment stage reads shader state and never changes it.
   */
  function Fragment(lib: MathLib, kind: ShaderKind, vary: Varyings, u: Uniforms, shadow: Raster<GrayscaleColor>, bary: Vector): (r: Result<RgbaColor>)
    requires ValidLib(lib) && vary.Valid() && u.Valid() && shadow.Valid() && |bary| == 3
    ensures kind.DepthShader? ==> r == Ok(RgbaColor(255, 255, 255, 255))
    ensures kind.ZShader? ==> r == Ok(RgbaColor(0, 0, 0, 0))
    ensures kind.MainShader? ==> r == MainFragment(lib, vary, u, shadow, bary)
  {
    match kind
    case DepthShader => Ok(Rgb(255, 255, 255))
    case ZShader => Ok(RgbaColor(0, 0, 0, 0))
    case MainShader => MainFragment(lib, vary, u, shadow, bary)
  }

  /**
   * The shadow rule: a successful main fragment is the lit colour, or a
   * tenth of it exactly when the biased light-space depth lies below the
   * sampled shadow depth; either way it keeps the lit alpha and is never
   * brighter than the lit colour.
   */
  lemma ShadowRule(lib: MathLib, vary: Varyings, u: Uniforms, shadow: Raster<GrayscaleColor>, bary: Vector)
    requires ValidLib(lib) && vary.Valid() && u.Valid() && shadow.Valid() && |bary| == 3
    requires MainFragment(lib, vary, u, shadow, bary).Ok?
    ensures LitColor(lib, vary, u, bary).Ok?
    ensures var phong := LitColor(lib, vary, u, bary).value;
      var s := LightScreen(u, MatVec(vary.positions, bary));
      var c := MainFragment(lib, vary, u, shadow, bary).value;
      ShadowDepth(s, shadow).Ok? &&
      c == (if Shadowed(s[2], ShadowDepth(s, shadow).value) then Images.Scale(phong, 0.1) else phong) &&
      c.a == phong.a && c.r <= phong.r && c.g <= phong.g && c.b <= phong.b
  {
    var phong := LitColor(lib, vary, u, bary).value;
    ScaleByAtMostOne(phong, 0.1);
  }

  /**
   * A shadow map that is all zeros (the value a fresh depth image holds)
   * shadows no fragment whose light-space depth is at least -12.75: the
   * test compares with the stored depth, not with its absence.
   */
  lemma ZeroShadowMapShadowsNothing(s: Vector, shadow: Raster<GrayscaleColor>)
    requires |s| == 4 && shadow.Valid()
    requires forall i :: 0 <= i < |shadow.data| ==> shadow.data[i] == BlankGray
    requires ShadowDepth(s, shadow).Ok? && -0.05 * 255.0 <= s[2]
    ensures !Shadowed(s[2], ShadowDepth(s, shadow).value)
  {
    var st := [s[0] / s[3], s[1] / s[3]];
    SampleAt(st, shadow);
    AtInRange(shadow, TexelIndex(st[0], shadow.width), TexelIndex(st[1], shadow.height));
  }

  /**
   * The texture, normal-map and shadow-map lookups cannot fail once the
   * three images are non-empty: an error of the main fragment is then never
   * out_of_range.
   */
  lemma LookupsStayInRange(lib: MathLib, vary: Varyings, u: Uniforms, shadow: Raster<GrayscaleColor>, bary: Vector)
    requires ValidLib(lib) && vary.Valid() && u.Valid() && shadow.Valid() && |bary| == 3
    requires 1 <= u.texture.width && 1 <= u.texture.height
    requires 1 <= u.tangentNormalMap.width && 1 <= u.tangentNormalMap.height
    requires 1 <= shadow.width && 1 <= shadow.height
    ensures MainFragment(lib, vary, u, shadow, bary).Err? ==> !MainFragment(lib, vary, u, shadow, bary).error.OutOfRange?
  {
  }

  /**
   * After ShadeVertex ran for vertices 0, 1 and 2 of a face, the position
   * the fragment stage interpolates is the barycentric combination of the
   * three model positions, and the weights (1, 0, 0) give vertex 0 back.
   */
  lemma InterpolatesVertices(vary: Varyings, v0: Vertex, v1: Vertex, v2: Vertex, bary: Vector)
    requires vary.Valid() && v0.Valid() && v1.Valid() && v2.Valid() && |bary| == 3
    ensures var r := VaryingsAfter(MainShader, VaryingsAfter(MainShader, VaryingsAfter(MainShader, vary, v0, 0), v1, 1), v2, 2);
      var p := MatVec(r.positions, bary);
      forall i :: 0 <= i < 3 ==> p[i] == bary[0] * v0.position[i] + bary[1] * v1.position[i] + bary[2] * v2.position[i]
  {
    var r0 := VaryingsAfter(MainShader, vary, v0, 0);
    var r1 := VaryingsAfter(MainShader, r0, v1, 1);
    var r := VaryingsAfter(MainShader, r1, v2, 2);
    forall i | 0 <= i < 3
      ensures MatVec(r.positions, bary)[i] == bary[0] * v0.position[i] + bary[1] * v1.position[i] + bary[2] * v2.position[i]
    {
      assert Column(r.positions, 0)[i] == v0.position[i];
      assert Column(r.positions, 1)[i] == v1.position[i];
      assert Column(r.positions, 2)[i] == v2.position[i];
      Dot3(r.positions[i], bary);
    }
  }

  /**
   * A shader object. C++ has one class per kind; here the kind is a tag.
   * ShadeVertex may change the varyings; ShadeFragment is a function of the
   * state and cannot.
   */
  class Shader {
    const kind: ShaderKind
    var varyings: Varyings

    ghost predicate Valid()
      reads this
    {
      varyings.Valid()
    }

    constructor (kind: ShaderKind)
      ensures Valid() && this.kind == kind && varyings == InitialVaryings
    {
      this.kind := kind;
      varyings := InitialVaryings;
    }

    /**
     * ShadeVertex(gl, vertex, k): the clip position is computed first, the
     * varyings are written, and only then is the NDC division of the screen
     * position done, so the varyings change even when that division throws.
     */
    method ShadeVertex(u: Uniforms, v: Vertex, k: nat) returns (r: Result<Vector>)
      requires Valid() && u.Valid() && v.Valid() && k < 3
      modifies this
      ensures Valid()
      ensures varyings == VaryingsAfter(kind, old(varyings), v, k)
      ensures r == ScreenPosition(kind, u, v)
    {
      var pos4 := Homogeneous(v.position);
      var newPosition := MatVec(VertexTransform(kind, u), pos4);
      if kind.MainShader? {
        NdcOfPoint(v.position);
        var ndc := GetNdc(pos4).value;
        varyings := Varyings(WithColumn(varyings.positions, k, ndc),
                             WithColumn(varyings.texcoords, k, v.texcoords),
                             WithColumn(varyings.normals, k, v.normal));
      }
      r := GetNdc(MatVec(u.viewport, newPosition));
    }

    /** ShadeFragment(gl, gl_FragCoord, barycentric); gl_FragCoord is not used by any of the shaders. */
    function ShadeFragment(lib: MathLib, u: Uniforms, shadow: Raster<GrayscaleColor>, fragCoord: Vector, bary: Vector): (r: Result<RgbaColor>)
      reads this
      requires Valid() && ValidLib(lib) && u.Valid() && shadow.Valid() && |bary| == 3
    {
      Fragment(lib, kind, varyings, u, shadow, bary)
    }
  }
}
