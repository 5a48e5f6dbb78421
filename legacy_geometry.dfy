/**
 * The first geometry header of the renderer (TinyRenderer/include/geometry.h).
 * Vec3 is a value type whose operators are LinAlg's Add, Sub, Scale, Dot
 * and Cross; Vec2 uses only its Add, Sub and Scale. Vec4 and Mat4x4 keep
 * their components in fixed arrays that their compound operators update
 * in place.
 */
module LegacyGeometry {
  import opened Wrappers
  import opened RealMath
  import opened LinAlg
  import GeometryUtils
  import opened GeometryVec

  /** norm(): the square root of the sum of squares. */
  function Norm(lib: MathLib, v: Vector): real
  {
    lib.sqrt(SqLength(v))
  }

  /**
   * normalize(l): the vector times l / norm(). The division is not guarded,
   * so a vector of norm 0 is outside what the function is defined for.
   */
  function Rescaled(lib: MathLib, v: Vector, l: real): (r: Vector)
    requires Norm(lib, v) != 0.0
    ensures |r| == |v|
  {
    Scale(v, l / Norm(lib, v))
  }

  /** Over exact reals the rescaled vector has length |l|. */
  lemma RescaledLength(lib: MathLib, v: Vector, l: real)
    requires ValidLib(lib) && Norm(lib, v) != 0.0
    ensures SqLength(Rescaled(lib, v, l)) == l * l
  {
    var n := Norm(lib, v);
    var k := l / n;
    SqLengthNonNegative(v);
    SqLengthScaled(v, k);
    assert k * k * (n * n) == (k * n) * (k * n);
  }

  /** Vec4<t>: the union of x, y, z, w with raw[4]. */
  class Vec4 {
    const raw: array<real>

    ghost predicate Valid()
      reads this
    {
      raw.Length == 4
    }

    /** Vec4(): every component 0. */
    constructor ()
      ensures Valid() && fresh(raw) && raw[..] == Zeros(4)
    {
      raw := new real[4](_ => 0.0);
    }

    constructor Of(x: real, y: real, z: real, w: real)
      ensures Valid() && fresh(raw) && raw[..] == [x, y, z, w]
    {
      raw := new real[4];
      new;
      raw[0], raw[1], raw[2], raw[3] := x, y, z, w;
    }

    /** operator+=: component-wise; v may be this vector itself. */
    method AddAssign(v: Vec4)
      requires Valid() && v.Valid()
      modifies raw
      ensures raw[..] == Add(old(raw[..]), old(v.raw[..]))
    {
      raw[0] := raw[0] + v.raw[0];
      raw[1] := raw[1] + v.raw[1];
      raw[2] := raw[2] + v.raw[2];
      raw[3] := raw[3] + v.raw[3];
    }

    /** operator-=: component-wise. */
    method SubAssign(v: Vec4)
      requires Valid() && v.Valid()
      modifies raw
      ensures raw[..] == Sub(old(raw[..]), old(v.raw[..]))
    {
      raw[0] := raw[0] - v.raw[0];
      raw[1] := raw[1] - v.raw[1];
      raw[2] := raw[2] - v.raw[2];
      raw[3] := raw[3] - v.raw[3];
    }

    /** operator*=(v): the component-wise product (not the dot product of operator*(v)). */
    method MulAssign(v: Vec4)
      requires Valid() && v.Valid()
      modifies raw
      ensures raw[..] == ComponentProduct(old(raw[..]), old(v.raw[..]))
    {
      ghost var a, b := raw[..], v.raw[..];
      raw[0] := raw[0] * v.raw[0];
      raw[1] := raw[1] * v.raw[1];
      raw[2] := raw[2] * v.raw[2];
      raw[3] := raw[3] * v.raw[3];
      assert raw[0] == a[0] * b[0];
      assert raw[1] == a[1] * b[1];
      assert raw[2] == a[2] * b[2];
      assert raw[3] == a[3] * b[3];
      assert raw[..] == [a[0] * b[0], a[1] * b[1], a[2] * b[2], a[3] * b[3]];
      ComponentProduct4(a, b);
    }

    /** ToNDC(): runtime_error when w is 0, else (x/w, y/w, z/w). */
    function ToNdc(): (r: Result<Vector>)
      reads this, raw
      requires Valid()
      ensures r.Err? <==> raw[3] == 0.0
      ensures r.Err? ==> r == Err(RuntimeError("Division by zero"))
      ensures r.Ok? ==> |r.value| == 3 && forall i :: 0 <= i < 3 ==> r.value[i] * raw[3] == raw[i]
    {
      if raw[3] == 0.0 then Err(RuntimeError("Division by zero"))
      else Ok([raw[0] / raw[3], raw[1] / raw[3], raw[2] / raw[3]])
    }

    /** normalize(l): *this becomes *this * (l / norm()); the norm must not be 0. */
    method Normalize(lib: MathLib, l: real)
      requires Valid() && Norm(lib, raw[..]) != 0.0
      modifies raw
      ensures raw[..] == Rescaled(lib, old(raw[..]), l)
    {
      ghost var a := raw[..];
      var k := l / lib.sqrt(SqLength(raw[..]));
      raw[0], raw[1], raw[2], raw[3] := raw[0] * k, raw[1] * k, raw[2] * k, raw[3] * k;
      assert raw[0] == a[0] * k && raw[1] == a[1] * k && raw[2] == a[2] * k && raw[3] == a[3] * k;
      assert raw[..] == [a[0] * k, a[1] * k, a[2] * k, a[3] * k];
      Scale4(a, k);
    }
  }

  /** Mat4x4<t>: the row-major array m[4][4]. */
  class Mat4x4 {
    var m: array2<real>

    ghost predicate Valid()
      reads this
    {
      m.Length0 == 4 && m.Length1 == 4
    }

    /** The entries as a matrix of rows. */
    function Contents(): (r: Matrix)
      reads this, m
      requires Valid()
      ensures IsMatrix(r, 4, 4)
      ensures forall i, j :: 0 <= i < 4 && 0 <= j < 4 ==> r[i][j] == m[i, j]
    {
      var a := m;
      seq(4, i requires 0 <= i < 4 reads a => seq(4, j requires 0 <= j < 4 reads a => a[i, j]))
    }

    /** Mat4x4(): every entry 0. */
    constructor ()
      ensures Valid() && fresh(m) && Contents() == ZeroMatrix(4, 4)
    {
      m := new real[4, 4]((i, j) => 0.0);
      new;
      ContentsAre(ZeroMatrix(4, 4));
    }

    /** The sixteen-entry constructor, with the entries given row by row. */
    constructor FromRows(a: Matrix)
      requires IsMatrix(a, 4, 4)
      ensures Valid() && fresh(m) && Contents() == a
    {
      m := new real[4, 4]((i, j) requires 0 <= i < 4 && 0 <= j < 4 => a[i][j]);
      new;
      ContentsAre(a);
    }

    /** Two matrices with the same entries are equal. */
    lemma ContentsAre(c: Matrix)
      requires Valid() && IsMatrix(c, 4, 4)
      requires forall i, j :: 0 <= i < 4 && 0 <= j < 4 ==> m[i, j] == c[i][j]
      ensures Contents() == c
    {
      assert forall i :: 0 <= i < 4 ==> Contents()[i] == c[i];
    }

    /**
     * operator*=(m2): the product is computed into a separate result, which
     * then replaces this matrix's array (*this = result), so m2 may be this
     * matrix itself.
     */
    method MulAssign(m2: Mat4x4)
      requires Valid() && m2.Valid()
      modifies this
      ensures Valid() && Contents() == MatMul(old(Contents()), old(m2.Contents()), 4)
    {
      ghost var c := MatMul(Contents(), m2.Contents(), 4);
      var result := ProductOf(m2);
      m := result;
      ContentsAre(c);
    }

    /** The loops of operator*=, computing the product into a new array. */
    method ProductOf(m2: Mat4x4) returns (result: array2<real>)
      requires Valid() && m2.Valid()
      ensures fresh(result) && result.Length0 == 4 && result.Length1 == 4
      ensures forall p, q :: 0 <= p < 4 && 0 <= q < 4 ==> result[p, q] == MatMul(Contents(), m2.Contents(), 4)[p][q]
    {
      result := new real[4, 4]((i, j) => 0.0);
      for i := 0 to 4
        modifies result
        invariant forall p, q :: 0 <= p < i && 0 <= q < 4 ==> result[p, q] == ArrayEntry(m, m2.m, p, q)
      {
        for j := 0 to 4
          modifies result
          invariant forall p, q :: 0 <= p < i && 0 <= q < 4 ==> result[p, q] == ArrayEntry(m, m2.m, p, q)
          invariant forall q :: 0 <= q < j ==> result[i, q] == ArrayEntry(m, m2.m, i, q)
        {
          result[i, j] := m[i, 0] * m2.m[0, j] + m[i, 1] * m2.m[1, j] +
                          m[i, 2] * m2.m[2, j] + m[i, 3] * m2.m[3, j];
        }
      }
      forall p, q | 0 <= p < 4 && 0 <= q < 4
        ensures result[p, q] == MatMul(Contents(), m2.Contents(), 4)[p][q]
      {
        EntryOfArrays(m2, p, q);
      }
    }

    /** Entry (p, q) of the product, read straight from the two arrays. */
    function ArrayEntry(x: array2<real>, y: array2<real>, p: nat, q: nat): real
      reads x, y
      requires x.Length0 == 4 && x.Length1 == 4 && y.Length0 == 4 && y.Length1 == 4 && p < 4 && q < 4
    {
      x[p, 0] * y[0, q] + x[p, 1] * y[1, q] + x[p, 2] * y[2, q] + x[p, 3] * y[3, q]
    }

    lemma EntryOfArrays(m2: Mat4x4, p: nat, q: nat)
      requires Valid() && m2.Valid() && p < 4 && q < 4
      ensures ArrayEntry(m, m2.m, p, q) == MatMul(Contents(), m2.Contents(), 4)[p][q]
    {
      var a, b := Contents(), m2.Contents();
      assert ArrayEntry(m, m2.m, p, q) == ProductEntry(a, b, p, q);
      RowTimesColumn(a, b, p, q);
    }

    /** operator*(m2): a copy of this matrix, then *=. */
    method Times(m2: Mat4x4) returns (r: Mat4x4)
      requires Valid() && m2.Valid()
      ensures fresh(r) && r.Valid() && r.Contents() == MatMul(Contents(), m2.Contents(), 4)
    {
      r := new Mat4x4.FromRows(Contents());
      r.MulAssign(m2);
    }

    /** operator*(v): result[i] = the sum of v[k] * m[i][k]. */
    method Apply(v: Vec4) returns (r: Vec4)
      requires Valid() && v.Valid()
      ensures fresh(r.raw) && r.Valid() && r.raw[..] == MatVec(Contents(), v.raw[..])
    {
      r := new Vec4();
      for i := 0 to 4
        invariant forall p :: 0 <= p < i ==> r.raw[p] == Dot(Contents()[p], v.raw[..])
      {
        r.raw[i] := v.raw[0] * m[i, 0] + v.raw[1] * m[i, 1] + v.raw[2] * m[i, 2] + v.raw[3] * m[i, 3];
        Dot4(Contents()[i], v.raw[..]);
      }
    }
  }

  /** Row i of a times column j of b, as the four-term sum the source writes out. */
  function ProductEntry(a: Matrix, b: Matrix, i: nat, j: nat): real
    requires IsMatrix(a, 4, 4) && IsMatrix(b, 4, 4) && i < 4 && j < 4
  {
    a[i][0] * b[0][j] + a[i][1] * b[1][j] + a[i][2] * b[2][j] + a[i][3] * b[3][j]
  }

  /** The written-out sum is entry (i, j) of the matrix product. */
  lemma RowTimesColumn(a: Matrix, b: Matrix, i: nat, j: nat)
    requires IsMatrix(a, 4, 4) && IsMatrix(b, 4, 4) && i < 4 && j < 4
    ensures MatMul(a, b, 4)[i][j] == ProductEntry(a, b, i, j)
  {
    Dot4(a[i], Column(b, j));
  }

  /** The identity with m[3][2] = -1/d: the projection both perspective builders share. */
  function ProjectionMatrix(distance: real): (r: Matrix)
    requires distance != 0.0
    ensures IsMatrix(r, 4, 4)
  {
    var identity := Identity(4);
    identity[3 := identity[3][2 := -1.0 / distance]]
  }

  /** The projection keeps x, y and z and sets w to 1 - z/d. */
  lemma ProjectionApply(distance: real, p: Vector)
    requires distance != 0.0 && |p| == 3
    ensures MatVec(ProjectionMatrix(distance), Homogeneous(p)) == [p[0], p[1], p[2], 1.0 - p[2] / distance]
  {
    var a := ProjectionMatrix(distance);
    var h := Homogeneous(p);
    assert a[0] == [1.0, 0.0, 0.0, 0.0];
    assert a[1] == [0.0, 1.0, 0.0, 0.0];
    assert a[2] == [0.0, 0.0, 1.0, 0.0];
    assert a[3] == [0.0, 0.0, -1.0 / distance, 1.0];
    assert h == [p[0], p[1], p[2], 1.0];
    Dot4(a[0], h);
    Dot4(a[1], h);
    Dot4(a[2], h);
    Dot4(a[3], h);
    assert p[2] * (-1.0 / distance) + 1.0 == 1.0 - p[2] / distance;
    GeometryUtils.MatVec4(a, h, [p[0], p[1], p[2], 1.0 - p[2] / distance]);
  }

  /** Mat4x4::Perspective(d): runtime_error for d == 0, else the identity except m[3][2] = -1/d. */
  function Perspective(distance: real): (r: Result<Matrix>)
    ensures r.Err? <==> distance == 0.0
    ensures r.Err? ==> r == Err(RuntimeError("Division by zero"))
    ensures r.Ok? ==> IsMatrix(r.value, 4, 4) && r.value[3][2] * distance == -1.0
    ensures r.Ok? ==> forall i, j :: 0 <= i < 4 && 0 <= j < 4 && (i, j) != (3, 2) ==>
      r.value[i][j] == if i == j then 1.0 else 0.0
  {
    if distance == 0.0 then Err(RuntimeError("Division by zero")) else Ok(ProjectionMatrix(distance))
  }

  /** Mat4x4::Viewport(x, y, w, h, d) with integer arguments, halved in floating point. */
  function IntViewport(x: int, y: int, width: int, height: int, depth: int): (r: Matrix)
    ensures IsMatrix(r, 4, 4)
  {
    [[width as real / 2.0, 0.0, 0.0, x as real + width as real / 2.0],
     [0.0, height as real / 2.0, 0.0, y as real + height as real / 2.0],
     [0.0, 0.0, depth as real / 2.0, depth as real / 2.0],
     [0.0, 0.0, 0.0, 1.0]]
  }

  /** The integer viewport maps NDC -1 to (x, y, 0) and +1 to (x + width, y + height, depth). */
  lemma IntViewportCorners(x: int, y: int, width: int, height: int, depth: int)
    ensures MatVec(IntViewport(x, y, width, height, depth), Homogeneous([-1.0, -1.0, -1.0]))
         == [x as real, y as real, 0.0, 1.0]
    ensures MatVec(IntViewport(x, y, width, height, depth), Homogeneous([1.0, 1.0, 1.0]))
         == [(x + width) as real, (y + height) as real, depth as real, 1.0]
  {
    assert IntViewport(x, y, width, height, depth)
        == GeometryUtils.Viewport(x as real, y as real, width as real, height as real, depth as real);
    GeometryUtils.ViewportCorners(x as real, y as real, width as real, height as real, depth as real);
  }
}
