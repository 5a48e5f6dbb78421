/**
 * The geometry_new library of the first renderer
 * (TinyRenderer/include/geometry_new/): Vec<n, t> and Mat<n, m, t> have the
 * same indexing, constructors and scalar operators as geometry::Vec and the
 * common Mat (GeometryVec.Vec, GeometryMat.Mat), with two differences
 * modelled here: operator* and operator*= / operator/= between two vectors
 * are component-wise, and the free functions of utils.h are built from
 * them.
 */
module GeometryNew {
  import opened Wrappers
  import opened RealMath
  import opened LinAlg
  import opened GeometryVec
  import GeometryUtils
  import LegacyGeometry

  /** The component-wise operators of geometry_new::Vec. */
  class Vec {
    const n: nat
    var data: seq<real>

    ghost predicate Valid()
      reads this
    {
      |data| == n
    }

    /** Vec(): every component 0. */
    constructor (n: nat)
      ensures Valid() && this.n == n && data == Zeros(n)
    {
      this.n := n;
      data := Zeros(n);
    }

    /** operator*=(v): component-wise product; v may be this vector itself. */
    method MulAssign(v: Vec)
      requires Valid() && v.Valid() && v.n == n
      modifies this
      ensures Valid() && data == ComponentProduct(old(data), old(v.data))
    {
      var i := 0;
      while i < n
        invariant 0 <= i <= n && |data| == n && |v.data| == n
        invariant forall k :: 0 <= k < i ==> data[k] == old(data)[k] * old(v.data)[k]
        invariant forall k :: i <= k < n ==> data[k] == old(data)[k] && v.data[k] == old(v.data)[k]
      {
        data := data[i := data[i] * v.data[i]];
        i := i + 1;
      }
      forall k | 0 <= k < n
        ensures data[k] == ComponentProduct(old(data), old(v.data))[k]
      {
      }
    }

    /**
     * operator/=(v): component-wise quotient. The zero test is made per
     * component inside the loop, so at the first zero divisor the components
     * before it have already been divided when runtime_error is thrown.
     */
    method DivAssign(v: Vec) returns (o: Outcome)
      requires Valid() && v.Valid() && v.n == n
      modifies this
      ensures Valid()
      ensures o.Fail? <==> FirstZero(old(v.data)) < n
      ensures o.Fail? ==> o == Fail(DivisionByZero)
      ensures data == PartialQuotient(old(data), old(v.data), FirstZero(old(v.data)))
    {
      ghost var k := FirstZero(v.data);
      var i := 0;
      while i < n
        invariant 0 <= i <= k && |data| == n && |v.data| == n
        invariant forall p :: 0 <= p < i ==> data[p] == old(data)[p] / old(v.data)[p]
        invariant forall p :: i <= p < n ==> data[p] == old(data)[p] && v.data[p] == old(v.data)[p]
      {
        if v.data[i] == 0.0 {
          assert data == PartialQuotient(old(data), old(v.data), k);
          return Fail(DivisionByZero);
        }
        data := data[i := data[i] / v.data[i]];
        i := i + 1;
      }
      o := Pass;
      assert data == PartialQuotient(old(data), old(v.data), k);
    }

    /** operator*(v): a copy of this vector, then *=. */
    method Times(v: Vec) returns (r: Vec)
      requires Valid() && v.Valid() && v.n == n
      ensures fresh(r) && r.Valid() && r.n == n && r.data == ComponentProduct(data, v.data)
    {
      r := new Vec(n);
      r.data := data;
      r.MulAssign(v);
    }
  }

  /** The index of the first zero component, or |v| when there is none. */
  function FirstZero(v: Vector): (k: nat)
    ensures k <= |v|
    ensures forall i :: 0 <= i < k ==> v[i] != 0.0
    ensures k < |v| ==> v[k] == 0.0
  {
    if |v| == 0 then 0
    else if v[0] == 0.0 then 0
    else 1 + FirstZero(v[1..])
  }

  /** The first k components divided component-wise, the rest as they were. */
  function PartialQuotient(u: Vector, v: Vector, k: nat): (r: Vector)
    requires |u| == |v| && k <= |v| && forall i :: 0 <= i < k ==> v[i] != 0.0
    ensures |r| == |u|
  {
    seq(|u|, i requires 0 <= i < |u| => if i < k then u[i] / v[i] else u[i])
  }

  /** With no zero divisor the partial quotient is the whole one, which multiplying back undoes. */
  lemma DivisionWithoutZeroIsComplete(u: Vector, v: Vector)
    requires |u| == |v| && FirstZero(v) == |v|
    ensures PartialQuotient(u, v, |v|) == ComponentQuotient(u, v)
    ensures ComponentProduct(PartialQuotient(u, v, |v|), v) == u
  {
    assert PartialQuotient(u, v, |v|) == ComponentQuotient(u, v);
    ComponentProductUndoesQuotient(u, v);
  }

  /** A zero divisor leaves the components from it on undivided. */
  lemma ZeroDivisorStopsTheUpdate(u: Vector, v: Vector, i: nat)
    requires |u| == |v| && FirstZero(v) <= i < |v|
    ensures PartialQuotient(u, v, FirstZero(v))[i] == u[i]
  {
  }

  // ---------------------------------------------------------------------------
  // GetNDC: the template in vec.h and the overload in utils.h
  // ---------------------------------------------------------------------------

  /**
   * What the template GetNDC of vec.h yields: the error its guard throws,
   * the quotient, or a division by a zero w that the guard let through
   * (an infinity or NaN in floating point).
   */
  datatype NdcOutcome = Thrown(error: Error) | Divided(point: Vector) | ZeroDivisor

  /** The template GetNDC as written: the guard tests component 2, the divisions use component 3. */
  function GetNdcAsWritten(v: Vector): (r: NdcOutcome)
    requires |v| == 4
    ensures r.Thrown? ==> r.error == DivisionByZero
    ensures r.Divided? ==> |r.point| == 3 && forall i :: 0 <= i < 3 ==> r.point[i] * v[3] == v[i]
  {
    if v[2] == 0.0 then Thrown(DivisionByZero)
    else if v[3] == 0.0 then ZeroDivisor
    else Divided([v[0] / v[3], v[1] / v[3], v[2] / v[3]])
  }

  /** The guard lets a zero w through to the division when z is not zero. */
  lemma GuardMissesZeroW()
    ensures GetNdcAsWritten([1.0, 1.0, 1.0, 0.0]) == ZeroDivisor
    ensures GetNdc([1.0, 1.0, 1.0, 0.0]).Err?
  {
  }

  /** The guard throws for a point on the plane z = 0 that has a perfectly good w. */
  lemma GuardRejectsPlaneZ()
    ensures GetNdcAsWritten([1.0, 1.0, 0.0, 1.0]).Thrown?
    ensures GetNdc([1.0, 1.0, 0.0, 1.0]) == Ok([1.0, 1.0, 0.0])
  {
  }

  /** The overload in utils.h: runtime_error exactly when w is 0, else (x/w, y/w, z/w). */
  function GetNdc(v: Vector): (r: Result<Vector>)
    requires |v| == 4
    ensures r.Err? <==> v[3] == 0.0
    ensures r.Err? ==> r == Err(DivisionByZero)
    ensures r.Ok? ==> |r.value| == 3 && forall i :: 0 <= i < 3 ==> r.value[i] * v[3] == v[i]
  {
    if v[3] == 0.0 then Err(DivisionByZero)
    else Ok([v[0] / v[3], v[1] / v[3], v[2] / v[3]])
  }

  /** Where both guards pass, the two GetNDCs compute the same point. */
  lemma GetNdcAgreesWhereBothPass(v: Vector)
    requires |v| == 4 && v[2] != 0.0 && v[3] != 0.0
    ensures GetNdcAsWritten(v) == Divided(GetNdc(v).value)
  {
  }

  /** The divide undoes the homogeneous extension of a point. */
  lemma NdcOfPoint(p: Vector)
    requires |p| == 3
    ensures GetNdc(Homogeneous(p)) == Ok(p)
  {
    var h := Homogeneous(p);
    assert h[0] == p[0] && h[1] == p[1] && h[2] == p[2] && h[3] == 1.0;
    assert p == [p[0], p[1], p[2]];
  }

  // ---------------------------------------------------------------------------
  // Reflect
  // ---------------------------------------------------------------------------

  /**
   * Reflect as written in utils.h: operator* between two geometry_new
   * vectors is component-wise, so both products in the expression are
   * component-wise: -(i - (2n) ⊙ (i ⊙ n)).
   */
  function ReflectAsWritten(incident: Vector, normal: Vector): (r: Vector)
    requires |incident| == 3 && |normal| == 3
    ensures |r| == 3
    ensures forall k :: 0 <= k < 3 ==> r[k] == 2.0 * normal[k] * (incident[k] * normal[k]) - incident[k]
  {
    var r := Scale(Sub(incident, ComponentProduct(Scale(normal, 2.0), ComponentProduct(incident, normal))), -1.0);
    assert forall k :: 0 <= k < 3 ==> r[k] == -(incident[k] - normal[k] * 2.0 * (incident[k] * normal[k]));
    r
  }

  /**
   * With the unit normal (0.6, 0.8, 0) the component-wise form shrinks the
   * incident (1, 0, 0) to (-0.28, 0, 0), while the reflection about that
   * normal, which keeps the length, gives (-0.28, 0.96, 0).
   */
  lemma ReflectAsWrittenShrinks()
    ensures SqLength([0.6, 0.8, 0.0]) == 1.0
    ensures ReflectAsWritten([1.0, 0.0, 0.0], [0.6, 0.8, 0.0]) == [-0.28, 0.0, 0.0]
    ensures GeometryUtils.Reflect([1.0, 0.0, 0.0], [0.6, 0.8, 0.0]) == [-0.28, 0.96, 0.0]
    ensures SqLength(ReflectAsWritten([1.0, 0.0, 0.0], [0.6, 0.8, 0.0])) != SqLength([1.0, 0.0, 0.0])
  {
    Dot3([0.6, 0.8, 0.0], [0.6, 0.8, 0.0]);
    Dot3([1.0, 0.0, 0.0], [0.6, 0.8, 0.0]);
    Dot3([1.0, 0.0, 0.0], [1.0, 0.0, 0.0]);
    Dot3([-0.28, 0.0, 0.0], [-0.28, 0.0, 0.0]);
    var r := ReflectAsWritten([1.0, 0.0, 0.0], [0.6, 0.8, 0.0]);
    assert r[0] == -0.28 && r[1] == 0.0 && r[2] == 0.0;
    var g := GeometryUtils.Reflect([1.0, 0.0, 0.0], [0.6, 0.8, 0.0]);
    assert g[0] == -0.28 && g[1] == 0.96 && g[2] == 0.0;
  }

  // ---------------------------------------------------------------------------
  // The transform builders of utils.h
  // ---------------------------------------------------------------------------

  /** Minv of ViewMatrix: the identity with the axes x, y, z in rows 0-2, columns 0-2. */
  function AxesMatrix(x: Vector, y: Vector, z: Vector): (r: Matrix)
    requires |x| == 3 && |y| == 3 && |z| == 3
    ensures IsMatrix(r, 4, 4)
  {
    [x + [0.0], y + [0.0], z + [0.0], [0.0, 0.0, 0.0, 1.0]]
  }

  /** Tr of ViewMatrix: the identity with -center in column 3. */
  function TranslationMatrix(center: Vector): (r: Matrix)
    requires |center| == 3
    ensures IsMatrix(r, 4, 4)
  {
    [[1.0, 0.0, 0.0, -center[0]],
     [0.0, 1.0, 0.0, -center[1]],
     [0.0, 0.0, 1.0, -center[2]],
     [0.0, 0.0, 0.0, 1.0]]
  }

  /**
   * ViewMatrix(eye, center, up): z = (eye - center).Normalize(),
   * x = (up ^ z).Normalize(), y = (z ^ x).Normalize(), each of which throws
   * on a zero vector; the result is Minv * Tr.
   */
  function ViewMatrix(lib: MathLib, eye: Vector, center: Vector, up: Vector): (r: Result<Matrix>)
    requires |eye| == 3 && |center| == 3 && |up| == 3
    ensures r.Ok? ==> IsMatrix(r.value, 4, 4)
    ensures r.Err? ==> r == Err(DivisionByZero)
  {
    var z :- Normalized(lib, Sub(eye, center));
    var x :- Normalized(lib, Cross(up, z));
    var y :- Normalized(lib, Cross(z, x));
    Ok(MatMul(AxesMatrix(x, y, z), TranslationMatrix(center), 4))
  }

  /** Minv * Tr has the axes in rows 0-2 and -(axis · center) as their translations. */
  lemma AxesTimesTranslation(x: Vector, y: Vector, z: Vector, center: Vector)
    requires |x| == 3 && |y| == 3 && |z| == 3 && |center| == 3
    ensures MatMul(AxesMatrix(x, y, z), TranslationMatrix(center), 4)
         == [x + [-Dot(x, center)], y + [-Dot(y, center)], z + [-Dot(z, center)], [0.0, 0.0, 0.0, 1.0]]
  {
    var a, t := AxesMatrix(x, y, z), TranslationMatrix(center);
    var c := MatMul(a, t, 4);
    AxisRow(a, t, x, center, 0);
    AxisRow(a, t, y, center, 1);
    AxisRow(a, t, z, center, 2);
    LegacyGeometry.RowTimesColumn(a, t, 3, 0);
    LegacyGeometry.RowTimesColumn(a, t, 3, 1);
    LegacyGeometry.RowTimesColumn(a, t, 3, 2);
    LegacyGeometry.RowTimesColumn(a, t, 3, 3);
    assert c[3] == [0.0, 0.0, 0.0, 1.0];
  }

  /** Row i of a * Tr when row i of a is the axis u extended by 0. */
  lemma AxisRow(a: Matrix, t: Matrix, u: Vector, center: Vector, i: nat)
    requires |u| == 3 && |center| == 3 && i < 4
    requires IsMatrix(a, 4, 4) && a[i] == u + [0.0] && t == TranslationMatrix(center)
    ensures MatMul(a, t, 4)[i] == u + [-Dot(u, center)]
  {
    var row := MatMul(a, t, 4)[i];
    LegacyGeometry.RowTimesColumn(a, t, i, 0);
    LegacyGeometry.RowTimesColumn(a, t, i, 1);
    LegacyGeometry.RowTimesColumn(a, t, i, 2);
    LegacyGeometry.RowTimesColumn(a, t, i, 3);
    Dot3(u, center);
    assert row[0] == u[0] && row[1] == u[1] && row[2] == u[2];
    assert row[3] == u[0] * -center[0] + u[1] * -center[1] + u[2] * -center[2] + 0.0 * 1.0;
    assert u[0] * -center[0] + u[1] * -center[1] + u[2] * -center[2] == -(u[0] * center[0] + u[1] * center[1] + u[2] * center[2]);
    assert row == u + [-Dot(u, center)];
  }

  /** The view transform sends the centre of the view to the origin. */
  lemma ViewMatrixCentresView(lib: MathLib, eye: Vector, center: Vector, up: Vector)
    requires |eye| == 3 && |center| == 3 && |up| == 3
    requires ViewMatrix(lib, eye, center, up).Ok?
    ensures MatVec(ViewMatrix(lib, eye, center, up).value, Homogeneous(center)) == [0.0, 0.0, 0.0, 1.0]
  {
    var z := Normalized(lib, Sub(eye, center)).value;
    var x := Normalized(lib, Cross(up, z)).value;
    var y := Normalized(lib, Cross(z, x)).value;
    AxesTimesTranslation(x, y, z, center);
    var a := ViewMatrix(lib, eye, center, up).value;
    var h := Homogeneous(center);
    forall i | 0 <= i < 3
      ensures Dot(a[i], h) == 0.0
    {
      var axis := a[i][..3];
      assert a[i] == axis + [-Dot(axis, center)];
      TranslatedRowAtCentre(axis, center);
    }
    Dot4(a[3], h);
  }

  /** A row (axis, -axis . c) of the view matrix gives 0 at the point c. */
  lemma TranslatedRowAtCentre(axis: Vector, center: Vector)
    requires |axis| == 3 && |center| == 3
    ensures Dot(axis + [-Dot(axis, center)], Homogeneous(center)) == 0.0
  {
    var row, h := axis + [-Dot(axis, center)], Homogeneous(center);
    Dot4(row, h);
    Dot3(axis, center);
    assert row[0] == axis[0] && row[1] == axis[1] && row[2] == axis[2] && row[3] == -Dot(axis, center);
    assert h[0] == center[0] && h[1] == center[1] && h[2] == center[2] && h[3] == 1.0;
  }

  /** Perspective(d): runtime_error for d == 0, else the identity except [3][2] = -1/d. */
  function Perspective(distance: real): (r: Result<Matrix>)
    ensures r.Err? <==> distance == 0.0
    ensures r.Err? ==> r == Err(RuntimeError("Distance cannot be zero"))
    ensures r.Ok? ==> r == LegacyGeometry.Perspective(distance)
  {
    if distance == 0.0 then Err(RuntimeError("Distance cannot be zero"))
    else Ok(LegacyGeometry.ProjectionMatrix(distance))
  }
}
