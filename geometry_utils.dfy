/**
 * The free functions of cpps/TinyRenderer/include/geometry/utils.h: the
 * perspective divide, reflection, the parallel test, the transform builders
 * (view, perspective, orthographic, viewport), the 3×3 adjugate inverse and
 * smoothstep. They only compute values, so they are functions on LinAlg
 * vectors and matrices.
 */
module GeometryUtils {
  import opened Wrappers
  import opened RealMath
  import opened LinAlg
  import opened GeometryVec

  /** GetNDC(v): runtime_error when w is 0, else (x/w, y/w, z/w). */
  function GetNdc(v: Vector): (r: Result<Vector>)
    requires |v| == 4
    ensures r.Err? <==> v[3] == 0.0
    ensures r.Err? ==> r == Err(RuntimeError("GetNDC: Division by zero"))
    ensures r.Ok? ==> |r.value| == 3 && forall i :: 0 <= i < 3 ==> r.value[i] * v[3] == v[i]
  {
    if v[3] == 0.0 then Err(RuntimeError("GetNDC: Division by zero"))
    else Ok([v[0] / v[3], v[1] / v[3], v[2] / v[3]])
  }

  /** The divide undoes the homogeneous extension of a point. */
  lemma NdcOfPoint(p: Vector)
    requires |p| == 3
    ensures GetNdc(Homogeneous(p)) == Ok(p)
  {
    var h := Homogeneous(p);
    assert h[0] == p[0] && h[1] == p[1] && h[2] == p[2] && h[3] == 1.0;
    assert p == [p[0], p[1], p[2]];
  }

  /** Scaling the homogeneous vector by a non-zero factor gives the same point. */
  lemma NdcScaleInvariant(v: Vector, c: real)
    requires |v| == 4 && c != 0.0
    ensures GetNdc(Scale(v, c)) == GetNdc(v)
  {
    if v[3] != 0.0 {
      var w := Scale(v, c);
      QuotientOfScaled(v[0], v[3], c, w[0], w[3]);
      QuotientOfScaled(v[1], v[3], c, w[1], w[3]);
      QuotientOfScaled(v[2], v[3], c, w[2], w[3]);
    }
  }

  /** xs / ws == x / w when xs and ws are x and w scaled by the same non-zero c. */
  lemma QuotientOfScaled(x: real, w: real, c: real, xs: real, ws: real)
    requires w != 0.0 && c != 0.0 && xs == x * c && ws == w * c
    ensures ws != 0.0 && xs / ws == x / w
  {
    var q := x / w;
    assert q * w == x;
    assert (q * w) * c == q * (w * c);
    assert w * c != 0.0;
  }

  /** Reflect(i, n) = -(i - 2 (i·n) n). */
  function Reflect(incident: Vector, normal: Vector): (r: Vector)
    requires |incident| == 3 && |normal| == 3
    ensures |r| == 3
    ensures forall k :: 0 <= k < 3 ==> r[k] == 2.0 * Dot(incident, normal) * normal[k] - incident[k]
  {
    Scale(Sub(incident, Scale(Scale(normal, 2.0), Dot(incident, normal))), -1.0)
  }

  /** Reflecting about a unit normal keeps the length of the incident vector. */
  lemma ReflectPreservesLength(incident: Vector, normal: Vector)
    requires |incident| == 3 && |normal| == 3 && SqLength(normal) == 1.0
    ensures SqLength(Reflect(incident, normal)) == SqLength(incident)
  {
    var d := Dot(incident, normal);
    var r := Reflect(incident, normal);
    Dot3(r, r);
    Dot3(incident, incident);
    Dot3(incident, normal);
    Dot3(normal, normal);
    var k := 2.0 * d;
    assert r[0] == k * normal[0] - incident[0];
    assert r[1] == k * normal[1] - incident[1];
    assert r[2] == k * normal[2] - incident[2];
    ReflectExpand(incident[0], incident[1], incident[2], normal[0], normal[1], normal[2], k);
    MulOne(k * k, SqLength(normal));
  }

  lemma ReflectExpand(a0: real, a1: real, a2: real, n0: real, n1: real, n2: real, k: real)
    ensures (k * n0 - a0) * (k * n0 - a0) + (k * n1 - a1) * (k * n1 - a1) + (k * n2 - a2) * (k * n2 - a2)
         == (a0 * a0 + a1 * a1 + a2 * a2) - 2.0 * k * (a0 * n0 + a1 * n1 + a2 * n2)
            + (k * k) * (n0 * n0 + n1 * n1 + n2 * n2)
  {
  }

  lemma MulOne(x: real, one: real)
    requires one == 1.0
    ensures x * one == x
  {
  }

  /**
   * IsParallel(a, b): the cross product has length 0. With an exact sqrt
   * that is the same as its squared length being 0.
   */
  function IsParallel(lib: MathLib, a: Vector, b: Vector): (r: bool)
    requires |a| == 3 && |b| == 3
    ensures ValidLib(lib) ==> (r <==> SqLength(Cross(a, b)) == 0.0)
  {
    var c := Cross(a, b);
    SqLengthNonNegative(c);
    SqrtIsZeroIfValid(lib, SqLength(c));
    lib.sqrt(SqLength(c)) == 0.0
  }

  /**
   * With an exact sqrt, the test holds exactly when the cross product has
   * squared length 0, and in particular when it is the zero vector.
   */
  lemma IsParallelIffZeroCross(lib: MathLib, a: Vector, b: Vector)
    requires |a| == 3 && |b| == 3 && ValidLib(lib)
    ensures IsParallel(lib, a, b) <==> SqLength(Cross(a, b)) == 0.0
    ensures Cross(a, b) == Zeros(3) ==> IsParallel(lib, a, b)
  {
    var c := Cross(a, b);
    SqLengthNonNegative(c);
    SqrtIsZero(lib, SqLength(c));
    Dot3(c, c);
  }

  /**
   * ViewMatrix(eye, center, up): z = normalize(eye - center), x =
   * normalize(up ^ z), y = normalize(z ^ x), each of which throws on a
   * zero vector; rows 0-2 hold x, y and z with the translation
   * -(axis · (eye - center)) in column 3, and row 3 is (0, 0, 0, 1).
   */
  function ViewMatrix(lib: MathLib, eye: Vector, center: Vector, up: Vector): (r: Result<Matrix>)
    requires |eye| == 3 && |center| == 3 && |up| == 3
    ensures r.Ok? ==> IsMatrix(r.value, 4, 4)
    ensures r.Err? ==> r == Err(DivisionByZero)
  {
    var offset := Sub(eye, center);
    var z :- Normalized(lib, offset);
    var x :- Normalized(lib, Cross(up, z));
    var y :- Normalized(lib, Cross(z, x));
    Ok([x + [-Dot(x, offset)], y + [-Dot(y, offset)], z + [-Dot(z, offset)], [0.0, 0.0, 0.0, 1.0]])
  }

  /**
   * With an exact sqrt the view transform fails exactly when eye is center
   * or up is parallel to eye - center. The third normalization never fails:
   * z and x are orthogonal unit vectors, so z ^ x has length 1.
   */
  lemma ViewMatrixFails(lib: MathLib, eye: Vector, center: Vector, up: Vector)
    requires |eye| == 3 && |center| == 3 && |up| == 3 && ValidLib(lib)
    ensures ViewMatrix(lib, eye, center, up).Err? <==>
      SqLength(Sub(eye, center)) == 0.0 || SqLength(Cross(up, Sub(eye, center))) == 0.0
  {
    var offset := Sub(eye, center);
    SqLengthNonNegative(offset);
    SqrtIsZero(lib, SqLength(offset));
    if SqLength(offset) != 0.0 {
      var z := Normalized(lib, offset).value;
      var k := NormalizedScales(lib, offset);
      var c := Cross(up, offset);
      CrossScaledRight(up, offset, k);
      SqLengthScaled(c, k);
      SqLengthNonNegative(c);
      NonZeroFactor(k, lib.sqrt(SqLength(offset)), SqLength(c));
      SqLengthNonNegative(Cross(up, z));
      SqrtIsZero(lib, SqLength(Cross(up, z)));
      if SqLength(c) != 0.0 {
        var x := Normalized(lib, Cross(up, z)).value;
        var k2 := NormalizedScales(lib, Cross(up, z));
        NormalizedIsUnit(lib, offset);
        NormalizedIsUnit(lib, Cross(up, z));
        CrossOrthogonal(up, z);
        DotScaled(z, Cross(up, z), k2);
        CrossOfOrthonormal(z, x);
        SqrtIsZero(lib, SqLength(Cross(z, x)));
      }
    }
  }

  /** A successful Normalized is u scaled by the reciprocal k of its length. */
  lemma NormalizedScales(lib: MathLib, u: Vector) returns (k: real)
    requires Normalized(lib, u).Ok?
    ensures k * lib.sqrt(SqLength(u)) == 1.0
    ensures Normalized(lib, u).value == Scale(u, k)
  {
    var len := lib.sqrt(SqLength(u));
    k := 1.0 / len;
    forall i | 0 <= i < |u|
      ensures Quotient(u, len)[i] == Scale(u, k)[i]
    {
      assert u[i] / len == u[i] * (1.0 / len);
    }
  }

  /** Scaling the right operand scales the cross product. */
  lemma CrossScaledRight(u: Vector, v: Vector, k: real)
    requires |u| == 3 && |v| == 3
    ensures Cross(u, Scale(v, k)) == Scale(Cross(u, v), k)
  {
    var w, c := Scale(v, k), Cross(u, v);
    ScaleOfThree(v, k);
    ScaleOfThree(c, k);
    var a := Cross(u, w);
    assert a[0] == u[1] * w[2] - u[2] * w[1];
    assert a[1] == u[2] * w[0] - u[0] * w[2];
    assert a[2] == u[0] * w[1] - u[1] * w[0];
    DiffScaled(u[1], u[2], v[2], v[1], k, w[2], w[1]);
    DiffScaled(u[2], u[0], v[0], v[2], k, w[0], w[2]);
    DiffScaled(u[0], u[1], v[1], v[0], k, w[1], w[0]);
    assert c[0] == u[1] * v[2] - u[2] * v[1];
    assert c[1] == u[2] * v[0] - u[0] * v[2];
    assert c[2] == u[0] * v[1] - u[1] * v[0];
    assert a[0] == c[0] * k && a[1] == c[1] * k && a[2] == c[2] * k;
    assert a == [c[0] * k, c[1] * k, c[2] * k];
  }

  lemma ScaleOfThree(v: Vector, k: real)
    requires |v| == 3
    ensures Scale(v, k) == [v[0] * k, v[1] * k, v[2] * k]
  {
    var s := Scale(v, k);
    assert s[0] == v[0] * k && s[1] == v[1] * k && s[2] == v[2] * k;
  }

  lemma DiffScaled(p: real, q: real, r: real, t: real, k: real, rk: real, tk: real)
    requires rk == r * k && tk == t * k
    ensures p * rk - q * tk == (p * r - q * t) * k
  {
  }

  /** Scaling the right operand scales the dot product. */
  lemma DotScaled(u: Vector, v: Vector, k: real)
    requires |u| == 3 && |v| == 3
    ensures Dot(u, Scale(v, k)) == Dot(u, v) * k
  {
    var w := Scale(v, k);
    Dot3(u, w);
    Dot3(u, v);
    assert u[0] * w[0] + u[1] * w[1] + u[2] * w[2] == (u[0] * v[0] + u[1] * v[1] + u[2] * v[2]) * k;
  }

  /** A factor k with an inverse len does not turn a non-zero s into 0. */
  lemma NonZeroFactor(k: real, len: real, s: real)
    requires k * len == 1.0
    ensures k * k * s == 0.0 <==> s == 0.0
  {
    if k * k * s == 0.0 {
      assert s == (k * len) * (k * len) * s;
      assert (k * len) * (k * len) * s == (len * len) * (k * k * s);
    }
  }

  /** The cross product of two orthogonal unit vectors is a unit vector (Lagrange's identity). */
  lemma CrossOfOrthonormal(z: Vector, x: Vector)
    requires |z| == 3 && |x| == 3
    requires SqLength(z) == 1.0 && SqLength(x) == 1.0 && Dot(z, x) == 0.0
    ensures SqLength(Cross(z, x)) == 1.0
  {
    var c := Cross(z, x);
    Dot3(c, c);
    Dot3(z, z);
    Dot3(x, x);
    Dot3(z, x);
    Lagrange(z[0], z[1], z[2], x[0], x[1], x[2], SqLength(z), SqLength(x), Dot(z, x), SqLength(c));
  }

  lemma Lagrange(a0: real, a1: real, a2: real, b0: real, b1: real, b2: real, sa: real, sb: real, d: real, sc: real)
    requires sa == a0 * a0 + a1 * a1 + a2 * a2 && sb == b0 * b0 + b1 * b1 + b2 * b2
    requires d == a0 * b0 + a1 * b1 + a2 * b2
    requires sc == (a1 * b2 - a2 * b1) * (a1 * b2 - a2 * b1) + (a2 * b0 - a0 * b2) * (a2 * b0 - a0 * b2)
                 + (a0 * b1 - a1 * b0) * (a0 * b1 - a1 * b0)
    ensures sc == sa * sb - d * d
  {
  }

  /** The view transform sends the point eye - center to the origin. */
  lemma ViewMatrixOrigin(lib: MathLib, eye: Vector, center: Vector, up: Vector)
    requires |eye| == 3 && |center| == 3 && |up| == 3
    requires ViewMatrix(lib, eye, center, up).Ok?
    ensures MatVec(ViewMatrix(lib, eye, center, up).value, Homogeneous(Sub(eye, center))) == [0.0, 0.0, 0.0, 1.0]
  {
    var offset := Sub(eye, center);
    var a := ViewMatrix(lib, eye, center, up).value;
    var p := Homogeneous(offset);
    forall i | 0 <= i < 3
      ensures Dot(a[i], p) == 0.0
    {
      var axis := a[i][..3];
      assert a[i] == axis + [-Dot(axis, offset)];
      Dot4(a[i], p);
      Dot3(axis, offset);
    }
    Dot4(a[3], p);
  }

  /** Perspective(d): runtime_error for d == 0, else the identity with [2][2] = 1/d and [3][2] = -1/d. */
  function Perspective(distance: real): (r: Result<Matrix>)
    ensures r.Err? <==> distance == 0.0
    ensures r.Err? ==> r == Err(RuntimeError("Distance cannot be zero"))
    ensures r.Ok? ==> IsMatrix(r.value, 4, 4)
  {
    if distance == 0.0 then Err(RuntimeError("Distance cannot be zero"))
    else
      var identity := Identity(4);
      Ok(identity[2 := identity[2][2 := 1.0 / distance]][3 := identity[3][2 := -1.0 / distance]])
  }

  /** Perspective(d) takes (x, y, z, 1) to (x, y, z/d, 1 - z/d), the identity elsewhere. */
  lemma PerspectiveApply(distance: real, p: Vector)
    requires distance != 0.0 && |p| == 3
    ensures MatVec(Perspective(distance).value, Homogeneous(p))
         == [p[0], p[1], p[2] / distance, 1.0 - p[2] / distance]
  {
    var a := Perspective(distance).value;
    var h := Homogeneous(p);
    assert a[0] == [1.0, 0.0, 0.0, 0.0];
    assert a[1] == [0.0, 1.0, 0.0, 0.0];
    assert a[2] == [0.0, 0.0, 1.0 / distance, 0.0];
    assert a[3] == [0.0, 0.0, -1.0 / distance, 1.0];
    assert h == [p[0], p[1], p[2], 1.0];
    Dot4(a[0], h);
    Dot4(a[1], h);
    Dot4(a[2], h);
    Dot4(a[3], h);
    MatVec4(a, h, [p[0], p[1], p[2] / distance, 1.0 - p[2] / distance]);
  }

  /**
   * Orthographic(w, h, d): runtime_error for a zero width, then height,
   * then distance; otherwise the identity with diagonal 2/w, 2/h, 2/d and
   * [2][3] = 1.
   */
  function Orthographic(width: real, height: real, distance: real): (r: Result<Matrix>)
    ensures r.Err? <==> width == 0.0 || height == 0.0 || distance == 0.0
    ensures width == 0.0 ==> r == Err(RuntimeError("Width cannot be zero"))
    ensures width != 0.0 && height == 0.0 ==> r == Err(RuntimeError("Height cannot be zero"))
    ensures width != 0.0 && height != 0.0 && distance == 0.0 ==> r == Err(RuntimeError("Distance cannot be zero"))
    ensures r.Ok? ==> IsMatrix(r.value, 4, 4)
  {
    if width == 0.0 then Err(RuntimeError("Width cannot be zero"))
    else if height == 0.0 then Err(RuntimeError("Height cannot be zero"))
    else if distance == 0.0 then Err(RuntimeError("Distance cannot be zero"))
    else
      var identity := Identity(4);
      Ok(identity[0 := identity[0][0 := 2.0 / width]]
                 [1 := identity[1][1 := 2.0 / height]]
                 [2 := identity[2][2 := 2.0 / distance][3 := 1.0]])
  }

  /** Orthographic(w, h, d) takes (x, y, z, 1) to (2x/w, 2y/h, 2z/d + 1, 1). */
  lemma OrthographicApply(width: real, height: real, distance: real, p: Vector)
    requires width != 0.0 && height != 0.0 && distance != 0.0 && |p| == 3
    ensures MatVec(Orthographic(width, height, distance).value, Homogeneous(p))
         == [2.0 / width * p[0], 2.0 / height * p[1], 2.0 / distance * p[2] + 1.0, 1.0]
  {
    var a := Orthographic(width, height, distance).value;
    var h := Homogeneous(p);
    assert a[0] == [2.0 / width, 0.0, 0.0, 0.0];
    assert a[1] == [0.0, 2.0 / height, 0.0, 0.0];
    assert a[2] == [0.0, 0.0, 2.0 / distance, 1.0];
    assert a[3] == [0.0, 0.0, 0.0, 1.0];
    assert h == [p[0], p[1], p[2], 1.0];
    Dot4(a[0], h);
    Dot4(a[1], h);
    Dot4(a[2], h);
    Dot4(a[3], h);
    MatVec4(a, h, [2.0 / width * p[0], 2.0 / height * p[1], 2.0 / distance * p[2] + 1.0, 1.0]);
  }

  /** Viewport(x, y, w, h, d): scale by half the extent, then shift by the origin plus half the extent. */
  function Viewport(x: real, y: real, width: real, height: real, depth: real): (r: Matrix)
    ensures IsMatrix(r, 4, 4)
  {
    [[width / 2.0, 0.0, 0.0, x + width / 2.0],
     [0.0, height / 2.0, 0.0, y + height / 2.0],
     [0.0, 0.0, depth / 2.0, depth / 2.0],
     [0.0, 0.0, 0.0, 1.0]]
  }

  /** The viewport maps NDC u in [-1, 1] to x + w (u + 1) / 2, likewise for y, and z to d (z + 1) / 2. */
  lemma ViewportApply(x: real, y: real, width: real, height: real, depth: real, p: Vector)
    requires |p| == 3
    ensures MatVec(Viewport(x, y, width, height, depth), Homogeneous(p))
         == [x + width * (p[0] + 1.0) / 2.0, y + height * (p[1] + 1.0) / 2.0, depth * (p[2] + 1.0) / 2.0, 1.0]
  {
    var a := Viewport(x, y, width, height, depth);
    var h := Homogeneous(p);
    assert h == [p[0], p[1], p[2], 1.0];
    Dot4(a[0], h);
    Dot4(a[1], h);
    Dot4(a[2], h);
    Dot4(a[3], h);
    MatVec4(a, h, [x + width * (p[0] + 1.0) / 2.0, y + height * (p[1] + 1.0) / 2.0, depth * (p[2] + 1.0) / 2.0, 1.0]);
  }

  /** A 4×4 matrix applied to a 4-vector is the four row products. */
  lemma MatVec4(a: Matrix, v: Vector, r: Vector)
    requires IsMatrix(a, 4, 4) && |v| == 4 && |r| == 4
    requires Dot(a[0], v) == r[0] && Dot(a[1], v) == r[1] && Dot(a[2], v) == r[2] && Dot(a[3], v) == r[3]
    ensures MatVec(a, v) == r
  {
  }

  /** The NDC corners -1 and +1 land on the viewport's edges, z on 0 and depth. */
  lemma ViewportCorners(x: real, y: real, width: real, height: real, depth: real)
    ensures MatVec(Viewport(x, y, width, height, depth), Homogeneous([-1.0, -1.0, -1.0])) == [x, y, 0.0, 1.0]
    ensures MatVec(Viewport(x, y, width, height, depth), Homogeneous([1.0, 1.0, 1.0])) == [x + width, y + height, depth, 1.0]
  {
    ViewportApply(x, y, width, height, depth, [-1.0, -1.0, -1.0]);
    ViewportApply(x, y, width, height, depth, [1.0, 1.0, 1.0]);
  }

  /** The determinant by the rule of Sarrus, in the order the source sums it. */
  function Det3(a: Matrix): real
    requires IsMatrix(a, 3, 3)
  {
    Sarrus(a[0][0], a[0][1], a[0][2], a[1][0], a[1][1], a[1][2], a[2][0], a[2][1], a[2][2])
  }

  function Sarrus(a00: real, a01: real, a02: real, a10: real, a11: real, a12: real, a20: real, a21: real, a22: real): real
  {
    a00 * a11 * a22 + a01 * a12 * a20 + a02 * a10 * a21 - a02 * a11 * a20 - a01 * a10 * a22 - a00 * a12 * a21
  }

  /** The numerators of Inverse: the transposed cofactors, as the source writes them. */
  function Adjugate(a: Matrix): (r: Matrix)
    requires IsMatrix(a, 3, 3)
    ensures IsMatrix(r, 3, 3)
  {
    [[a[1][1] * a[2][2] - a[1][2] * a[2][1],
      a[0][2] * a[2][1] - a[0][1] * a[2][2],
      a[0][1] * a[1][2] - a[0][2] * a[1][1]],
     [a[1][2] * a[2][0] - a[1][0] * a[2][2],
      a[0][0] * a[2][2] - a[0][2] * a[2][0],
      a[0][2] * a[1][0] - a[0][0] * a[1][2]],
     [a[1][0] * a[2][1] - a[1][1] * a[2][0],
      a[0][1] * a[2][0] - a[0][0] * a[2][1],
      a[0][0] * a[1][1] - a[0][1] * a[1][0]]]
  }

  /** Inverse(a): runtime_error when the determinant is 0, else the adjugate divided by it. */
  function Inverse(a: Matrix): (r: Result<Matrix>)
    requires IsMatrix(a, 3, 3)
    ensures r.Err? <==> Det3(a) == 0.0
    ensures r.Err? ==> r == Err(RuntimeError("Determinant is zero"))
    ensures r.Ok? ==> IsMatrix(r.value, 3, 3)
  {
    var det := Det3(a);
    if det == 0.0 then Err(RuntimeError("Determinant is zero"))
    else
      var adj := Adjugate(a);
      Ok(seq(3, i requires 0 <= i < 3 => seq(3, j requires 0 <= j < 3 => adj[i][j] / det)))
  }

  /** A matrix times its inverse is the identity. */
  lemma InverseIsRightInverse(a: Matrix)
    requires IsMatrix(a, 3, 3) && Det3(a) != 0.0
    ensures MatMul(a, Inverse(a).value, 3) == Identity(3)
  {
    var c := MatMul(a, Inverse(a).value, 3);
    forall i, j | 0 <= i < 3 && 0 <= j < 3
      ensures c[i][j] == Identity(3)[i][j]
    {
      InverseEntry(a, i, j);
    }
    forall i | 0 <= i < 3
      ensures c[i] == Identity(3)[i]
    {
    }
  }

  /** Row i of a against column j of the inverse: 1 on the diagonal, 0 off it. */
  lemma InverseEntry(a: Matrix, i: nat, j: nat)
    requires IsMatrix(a, 3, 3) && Det3(a) != 0.0 && i < 3 && j < 3
    ensures SumTo(a[i], Column(Inverse(a).value, j), 3) == if i == j then 1.0 else 0.0
  {
    var adj := Adjugate(a);
    var det := Det3(a);
    assert Column(Inverse(a).value, j) == Quotient(Column(adj, j), det);
    SumToQuotient(a[i], Column(adj, j), det, 3);
    AdjugateProduct(a, i, j);
    DivideByItself(det);
  }

  /** Dividing every entry of v by d divides the sum of products by d. */
  lemma {:induction false} SumToQuotient(u: Vector, v: Vector, d: real, k: nat)
    requires d != 0.0 && |u| == |v| && k <= |u|
    ensures SumTo(u, Quotient(v, d), k) == SumTo(u, v, k) / d
  {
    if k > 0 {
      SumToQuotient(u, v, d, k - 1);
      AddQuotient(SumTo(u, v, k - 1), u[k - 1], v[k - 1], d);
    }
  }

  lemma AddQuotient(s: real, x: real, y: real, d: real)
    requires d != 0.0
    ensures s / d + x * (y / d) == (s + x * y) / d
  {
  }

  /** Row i of a against column j of the adjugate is the determinant on the diagonal and 0 elsewhere. */
  lemma AdjugateProduct(a: Matrix, i: nat, j: nat)
    requires IsMatrix(a, 3, 3) && i < 3 && j < 3
    ensures Dot(a[i], Column(Adjugate(a), j)) == if i == j then Det3(a) else 0.0
  {
    AdjugateColumn(a, j);
    var a0, a1, a2 := a[0], a[1], a[2];
    if i == 0 {
      assert a[0] == [a0[0], a0[1], a0[2]];
      Row0Cofactors(a0[0], a0[1], a0[2], a1[0], a1[1], a1[2], a2[0], a2[1], a2[2], j);
    } else if i == 1 {
      assert a[1] == [a1[0], a1[1], a1[2]];
      Row1Cofactors(a0[0], a0[1], a0[2], a1[0], a1[1], a1[2], a2[0], a2[1], a2[2], j);
    } else {
      assert a[2] == [a2[0], a2[1], a2[2]];
      Row2Cofactors(a0[0], a0[1], a0[2], a1[0], a1[1], a1[2], a2[0], a2[1], a2[2], j);
    }
  }

  /** Column j of the adjugate in terms of the nine entries. */
  function CofactorColumn(a00: real, a01: real, a02: real, a10: real, a11: real, a12: real, a20: real, a21: real, a22: real, j: nat): Vector
    requires j < 3
  {
    if j == 0 then [a11 * a22 - a12 * a21, a12 * a20 - a10 * a22, a10 * a21 - a11 * a20]
    else if j == 1 then [a02 * a21 - a01 * a22, a00 * a22 - a02 * a20, a01 * a20 - a00 * a21]
    else [a01 * a12 - a02 * a11, a02 * a10 - a00 * a12, a00 * a11 - a01 * a10]
  }

  lemma AdjugateColumn(a: Matrix, j: nat)
    requires IsMatrix(a, 3, 3) && j < 3
    ensures Column(Adjugate(a), j) == CofactorColumn(a[0][0], a[0][1], a[0][2], a[1][0], a[1][1], a[1][2], a[2][0], a[2][1], a[2][2], j)
  {
  }

  lemma Row0Cofactors(a00: real, a01: real, a02: real, a10: real, a11: real, a12: real, a20: real, a21: real, a22: real, j: nat)
    requires j < 3
    ensures Dot([a00, a01, a02], CofactorColumn(a00, a01, a02, a10, a11, a12, a20, a21, a22, j)) == if j == 0 then Sarrus(a00, a01, a02, a10, a11, a12, a20, a21, a22) else 0.0
  {
    if j == 0 {
      Cofactor00(a00, a01, a02, a10, a11, a12, a20, a21, a22);
    } else if j == 1 {
      Cofactor01(a00, a01, a02, a10, a11, a12, a20, a21, a22);
    } else {
      Cofactor02(a00, a01, a02, a10, a11, a12, a20, a21, a22);
    }
  }

  lemma Row1Cofactors(a00: real, a01: real, a02: real, a10: real, a11: real, a12: real, a20: real, a21: real, a22: real, j: nat)
    requires j < 3
    ensures Dot([a10, a11, a12], CofactorColumn(a00, a01, a02, a10, a11, a12, a20, a21, a22, j)) == if j == 1 then Sarrus(a00, a01, a02, a10, a11, a12, a20, a21, a22) else 0.0
  {
    if j == 0 {
      Cofactor10(a00, a01, a02, a10, a11, a12, a20, a21, a22);
    } else if j == 1 {
      Cofactor11(a00, a01, a02, a10, a11, a12, a20, a21, a22);
    } else {
      Cofactor12(a00, a01, a02, a10, a11, a12, a20, a21, a22);
    }
  }

  lemma Row2Cofactors(a00: real, a01: real, a02: real, a10: real, a11: real, a12: real, a20: real, a21: real, a22: real, j: nat)
    requires j < 3
    ensures Dot([a20, a21, a22], CofactorColumn(a00, a01, a02, a10, a11, a12, a20, a21, a22, j)) == if j == 2 then Sarrus(a00, a01, a02, a10, a11, a12, a20, a21, a22) else 0.0
  {
    if j == 0 {
      Cofactor20(a00, a01, a02, a10, a11, a12, a20, a21, a22);
    } else if j == 1 {
      Cofactor21(a00, a01, a02, a10, a11, a12, a20, a21, a22);
    } else {
      Cofactor22(a00, a01, a02, a10, a11, a12, a20, a21, a22);
    }
  }

  // Each product of a row with a column of cofactors, expanded separately so that each is a small polynomial identity.

  lemma Cofactor00(a00: real, a01: real, a02: real, a10: real, a11: real, a12: real, a20: real, a21: real, a22: real)
    ensures Dot([a00, a01, a02], [a11 * a22 - a12 * a21, a12 * a20 - a10 * a22, a10 * a21 - a11 * a20]) == Sarrus(a00, a01, a02, a10, a11, a12, a20, a21, a22)
  {
    Dot3Of(a00, a01, a02, a11 * a22 - a12 * a21, a12 * a20 - a10 * a22, a10 * a21 - a11 * a20);
  }

  lemma Cofactor01(a00: real, a01: real, a02: real, a10: real, a11: real, a12: real, a20: real, a21: real, a22: real)
    ensures Dot([a00, a01, a02], [a02 * a21 - a01 * a22, a00 * a22 - a02 * a20, a01 * a20 - a00 * a21]) == 0.0
  {
    Dot3Of(a00, a01, a02, a02 * a21 - a01 * a22, a00 * a22 - a02 * a20, a01 * a20 - a00 * a21);
  }

  lemma Cofactor02(a00: real, a01: real, a02: real, a10: real, a11: real, a12: real, a20: real, a21: real, a22: real)
    ensures Dot([a00, a01, a02], [a01 * a12 - a02 * a11, a02 * a10 - a00 * a12, a00 * a11 - a01 * a10]) == 0.0
  {
    Dot3Of(a00, a01, a02, a01 * a12 - a02 * a11, a02 * a10 - a00 * a12, a00 * a11 - a01 * a10);
  }

  lemma Cofactor10(a00: real, a01: real, a02: real, a10: real, a11: real, a12: real, a20: real, a21: real, a22: real)
    ensures Dot([a10, a11, a12], [a11 * a22 - a12 * a21, a12 * a20 - a10 * a22, a10 * a21 - a11 * a20]) == 0.0
  {
    Dot3Of(a10, a11, a12, a11 * a22 - a12 * a21, a12 * a20 - a10 * a22, a10 * a21 - a11 * a20);
  }

  lemma Cofactor11(a00: real, a01: real, a02: real, a10: real, a11: real, a12: real, a20: real, a21: real, a22: real)
    ensures Dot([a10, a11, a12], [a02 * a21 - a01 * a22, a00 * a22 - a02 * a20, a01 * a20 - a00 * a21]) == Sarrus(a00, a01, a02, a10, a11, a12, a20, a21, a22)
  {
    Dot3Of(a10, a11, a12, a02 * a21 - a01 * a22, a00 * a22 - a02 * a20, a01 * a20 - a00 * a21);
  }

  lemma Cofactor12(a00: real, a01: real, a02: real, a10: real, a11: real, a12: real, a20: real, a21: real, a22: real)
    ensures Dot([a10, a11, a12], [a01 * a12 - a02 * a11, a02 * a10 - a00 * a12, a00 * a11 - a01 * a10]) == 0.0
  {
    Dot3Of(a10, a11, a12, a01 * a12 - a02 * a11, a02 * a10 - a00 * a12, a00 * a11 - a01 * a10);
  }

  lemma Cofactor20(a00: real, a01: real, a02: real, a10: real, a11: real, a12: real, a20: real, a21: real, a22: real)
    ensures Dot([a20, a21, a22], [a11 * a22 - a12 * a21, a12 * a20 - a10 * a22, a10 * a21 - a11 * a20]) == 0.0
  {
    Dot3Of(a20, a21, a22, a11 * a22 - a12 * a21, a12 * a20 - a10 * a22, a10 * a21 - a11 * a20);
  }

  lemma Cofactor21(a00: real, a01: real, a02: real, a10: real, a11: real, a12: real, a20: real, a21: real, a22: real)
    ensures Dot([a20, a21, a22], [a02 * a21 - a01 * a22, a00 * a22 - a02 * a20, a01 * a20 - a00 * a21]) == 0.0
  {
    Dot3Of(a20, a21, a22, a02 * a21 - a01 * a22, a00 * a22 - a02 * a20, a01 * a20 - a00 * a21);
  }

  lemma Cofactor22(a00: real, a01: real, a02: real, a10: real, a11: real, a12: real, a20: real, a21: real, a22: real)
    ensures Dot([a20, a21, a22], [a01 * a12 - a02 * a11, a02 * a10 - a00 * a12, a00 * a11 - a01 * a10]) == Sarrus(a00, a01, a02, a10, a11, a12, a20, a21, a22)
  {
    Dot3Of(a20, a21, a22, a01 * a12 - a02 * a11, a02 * a10 - a00 * a12, a00 * a11 - a01 * a10);
  }

  lemma Dot3Of(x0: real, x1: real, x2: real, y0: real, y1: real, y2: real)
    ensures Dot([x0, x1, x2], [y0, y1, y2]) == x0 * y0 + x1 * y1 + x2 * y2
  {
    Dot3([x0, x1, x2], [y0, y1, y2]);
  }

  /** smoothstep: x clamped to [0, 1] on the edges' scale, then t² (3 - 2t). */
  function Smoothstep(edge0: real, edge1: real, x: real): (r: real)
    requires edge0 != edge1
    ensures 0.0 <= r <= 1.0
  {
    var t := ClampReal((x - edge0) / (edge1 - edge0), 0.0, 1.0);
    SmoothPolynomialRange(t);
    t * t * (3.0 - 2.0 * t)
  }

  lemma SmoothPolynomialRange(t: real)
    requires 0.0 <= t <= 1.0
    ensures 0.0 <= t * t * (3.0 - 2.0 * t) <= 1.0
  {
    NonNegativeProduct(t, t);
    NonNegativeProduct(1.0 - t, 1.0 - t);
    NonNegativeProduct(t * t, 3.0 - 2.0 * t);
    NonNegativeProduct((1.0 - t) * (1.0 - t), 1.0 + 2.0 * t);
    assert 1.0 - t * t * (3.0 - 2.0 * t) == (1.0 - t) * (1.0 - t) * (1.0 + 2.0 * t);
  }

  lemma NonNegativeProduct(a: real, b: real)
    requires 0.0 <= a && 0.0 <= b
    ensures 0.0 <= a * b
  {
  }

  /** For edge0 < edge1: 0 at or below edge0, 1 at or above edge1. */
  lemma SmoothstepEdges(edge0: real, edge1: real, x: real)
    requires edge0 < edge1
    ensures x <= edge0 ==> Smoothstep(edge0, edge1, x) == 0.0
    ensures edge1 <= x ==> Smoothstep(edge0, edge1, x) == 1.0
  {
    var d := edge1 - edge0;
    var q := (x - edge0) / d;
    assert q * d == x - edge0;
    if edge1 <= x {
      if q < 1.0 {
        assert q * d < d;
      }
      assert ClampReal(q, 0.0, 1.0) == 1.0;
    }
  }
}
