/**
 * Vectors and matrices as sequences of reals: the specification functions
 * that the vector and matrix classes of the geometry headers are proved
 * against, and that the transform builders, shaders and rasterizer use.
 * A matrix is a sequence of rows.
 */
module LinAlg {

  type Vector = seq<real>
  type Matrix = seq<seq<real>>

  predicate IsMatrix(a: Matrix, n: nat, m: nat)
  {
    |a| == n && forall i :: 0 <= i < n ==> |a[i]| == m
  }

  function Zeros(n: nat): Vector
  {
    seq(n, _ => 0.0)
  }

  function ZeroMatrix(n: nat, m: nat): (a: Matrix)
    ensures IsMatrix(a, n, m)
  {
    seq(n, _ => Zeros(m))
  }

  function Add(u: Vector, v: Vector): Vector
    requires |u| == |v|
  {
    seq(|u|, i requires 0 <= i < |u| => u[i] + v[i])
  }

  function Sub(u: Vector, v: Vector): Vector
    requires |u| == |v|
  {
    seq(|u|, i requires 0 <= i < |u| => u[i] - v[i])
  }

  function Scale(u: Vector, f: real): Vector
  {
    seq(|u|, i requires 0 <= i < |u| => u[i] * f)
  }

  /** Sum of u[t] * v[t] for t < k, accumulated left to right. */
  function SumTo(u: Vector, v: Vector, k: nat): real
    requires k <= |u| && k <= |v|
  {
    if k == 0 then 0.0 else SumTo(u, v, k - 1) + u[k - 1] * v[k - 1]
  }

  function Dot(u: Vector, v: Vector): real
    requires |u| == |v|
  {
    SumTo(u, v, |u|)
  }

  function SqLength(u: Vector): real
  {
    Dot(u, u)
  }

  function Cross(u: Vector, v: Vector): (w: Vector)
    requires |u| == 3 && |v| == 3
    ensures |w| == 3
  {
    [u[1] * v[2] - u[2] * v[1], u[2] * v[0] - u[0] * v[2], u[0] * v[1] - u[1] * v[0]]
  }

  /** (v, 1): the homogeneous point of a 3-vector. */
  function Homogeneous(v: Vector): Vector
  {
    v + [1.0]
  }

  function Column(a: Matrix, j: nat): Vector
    requires forall i :: 0 <= i < |a| ==> j < |a[i]|
  {
    seq(|a|, i requires 0 <= i < |a| => a[i][j])
  }

  /** Column j of a replaced by v. */
  function WithColumn(a: Matrix, j: nat, v: Vector): (r: Matrix)
    requires forall i :: 0 <= i < |a| ==> j < |a[i]|
    requires |v| == |a|
    ensures |r| == |a| && forall i :: 0 <= i < |a| ==> |r[i]| == |a[i]|
  {
    seq(|a|, i requires 0 <= i < |a| => a[i][j := v[i]])
  }

  function MatSub(a: Matrix, b: Matrix): Matrix
    requires |a| == |b| && forall i :: 0 <= i < |a| ==> |a[i]| == |b[i]|
  {
    seq(|a|, i requires 0 <= i < |a| => Sub(a[i], b[i]))
  }

  /** The n×m product of an n×k and a k×m matrix. */
  function MatMul(a: Matrix, b: Matrix, m: nat): (c: Matrix)
    requires IsMatrix(a, |a|, |b|) && IsMatrix(b, |b|, m)
    ensures IsMatrix(c, |a|, m)
  {
    seq(|a|, i requires 0 <= i < |a| =>
      seq(m, j requires 0 <= j < m => SumTo(a[i], Column(b, j), |b|)))
  }

  function MatVec(a: Matrix, v: Vector): (w: Vector)
    requires IsMatrix(a, |a|, |v|)
    ensures |w| == |a|
  {
    seq(|a|, i requires 0 <= i < |a| => Dot(a[i], v))
  }

  function Identity(n: nat): (r: Matrix)
    ensures IsMatrix(r, n, n)
  {
    seq(n, i => seq(n, j => if i == j then 1.0 else 0.0))
  }

  lemma Dot2(u: Vector, v: Vector)
    requires |u| == 2 && |v| == 2
    ensures Dot(u, v) == u[0] * v[0] + u[1] * v[1]
  {
    assert SumTo(u, v, 1) == u[0] * v[0];
  }

  lemma Dot3(u: Vector, v: Vector)
    requires |u| == 3 && |v| == 3
    ensures Dot(u, v) == u[0] * v[0] + u[1] * v[1] + u[2] * v[2]
  {
    assert SumTo(u, v, 1) == u[0] * v[0];
    assert SumTo(u, v, 2) == u[0] * v[0] + u[1] * v[1];
  }

  lemma Dot4(u: Vector, v: Vector)
    requires |u| == 4 && |v| == 4
    ensures Dot(u, v) == u[0] * v[0] + u[1] * v[1] + u[2] * v[2] + u[3] * v[3]
  {
    assert SumTo(u, v, 1) == u[0] * v[0];
    assert SumTo(u, v, 2) == u[0] * v[0] + u[1] * v[1];
    assert SumTo(u, v, 3) == u[0] * v[0] + u[1] * v[1] + u[2] * v[2];
  }

  lemma {:induction false} SumToSymmetric(u: Vector, v: Vector, k: nat)
    requires k <= |u| && k <= |v|
    ensures SumTo(u, v, k) == SumTo(v, u, k)
  {
    if k > 0 {
      SumToSymmetric(u, v, k - 1);
    }
  }

  /** Summing against a unit vector picks one entry. */
  lemma {:induction false} SumToUnit(e: Vector, v: Vector, p: nat, k: nat)
    requires k <= |e| && k <= |v|
    requires forall t :: 0 <= t < k ==> e[t] == if t == p then 1.0 else 0.0
    ensures SumTo(e, v, k) == if p < k then v[p] else 0.0
  {
    if k > 0 {
      SumToUnit(e, v, p, k - 1);
    }
  }

  /** The cross product is orthogonal to both of its operands. */
  lemma CrossOrthogonal(u: Vector, v: Vector)
    requires |u| == 3 && |v| == 3
    ensures Dot(u, Cross(u, v)) == 0.0 && Dot(v, Cross(u, v)) == 0.0
  {
    Dot3(u, Cross(u, v));
    Dot3(v, Cross(u, v));
  }

  /** The identity is a left unit of the product. */
  lemma IdentityLeftUnit(a: Matrix, m: nat)
    requires IsMatrix(a, |a|, m)
    ensures MatMul(Identity(|a|), a, m) == a
  {
    var n := |a|;
    var c := MatMul(Identity(n), a, m);
    forall i, j | 0 <= i < n && 0 <= j < m
      ensures c[i][j] == a[i][j]
    {
      SumToUnit(Identity(n)[i], Column(a, j), i, n);
    }
    forall i | 0 <= i < n
      ensures c[i] == a[i]
    {
    }
  }

  /** The identity is a right unit of the product. */
  lemma IdentityRightUnit(a: Matrix, m: nat)
    requires IsMatrix(a, |a|, m)
    ensures MatMul(a, Identity(m), m) == a
  {
    var n := |a|;
    var c := MatMul(a, Identity(m), m);
    forall i, j | 0 <= i < n && 0 <= j < m
      ensures c[i][j] == a[i][j]
    {
      var col := Column(Identity(m), j);
      SumToSymmetric(a[i], col, m);
      SumToUnit(col, a[i], j, m);
    }
    forall i | 0 <= i < n
      ensures c[i] == a[i]
    {
    }
  }

  /** Replacing a column and reading it back gives the new column; other columns keep their values. */
  lemma WithColumnThenColumn(a: Matrix, j: nat, v: Vector, k: nat)
    requires forall i :: 0 <= i < |a| ==> j < |a[i]| && k < |a[i]|
    requires |v| == |a|
    ensures Column(WithColumn(a, j, v), k) == if k == j then v else Column(a, k)
  {
  }

  /** Scaling a vector by f scales its squared length by f * f. */
  lemma SqLengthScaled(u: Vector, f: real)
    ensures SqLength(Scale(u, f)) == f * f * SqLength(u)
  {
    SumToScaled(u, f, |u|);
  }

  lemma {:induction false} SumToScaled(u: Vector, f: real, k: nat)
    requires k <= |u|
    ensures SumTo(Scale(u, f), Scale(u, f), k) == f * f * SumTo(u, u, k)
  {
    if k > 0 {
      SumToScaled(u, f, k - 1);
      var a := u[k - 1];
      assert Scale(u, f)[k - 1] == a * f;
      assert (a * f) * (a * f) == f * f * (a * a);
    }
  }

  /** The component-wise product of two vectors of one size. */
  function ComponentProduct(u: Vector, v: Vector): (r: Vector)
    requires |u| == |v|
    ensures |r| == |u|
  {
    seq(|u|, i requires 0 <= i < |u| => u[i] * v[i])
  }

  lemma ComponentProduct4(a: Vector, b: Vector)
    requires |a| == 4 && |b| == 4
    ensures ComponentProduct(a, b) == [a[0] * b[0], a[1] * b[1], a[2] * b[2], a[3] * b[3]]
  {
    var r := ComponentProduct(a, b);
    assert r[0] == a[0] * b[0] && r[1] == a[1] * b[1] && r[2] == a[2] * b[2] && r[3] == a[3] * b[3];
  }

  lemma Scale4(a: Vector, k: real)
    requires |a| == 4
    ensures Scale(a, k) == [a[0] * k, a[1] * k, a[2] * k, a[3] * k]
  {
    var r := Scale(a, k);
    assert r[0] == a[0] * k && r[1] == a[1] * k && r[2] == a[2] * k && r[3] == a[3] * k;
  }

  /** The component-wise quotient; every divisor must be non-zero. */
  function ComponentQuotient(u: Vector, v: Vector): (r: Vector)
    requires |u| == |v| && forall i :: 0 <= i < |v| ==> v[i] != 0.0
    ensures |r| == |u|
  {
    seq(|u|, i requires 0 <= i < |u| => u[i] / v[i])
  }

  /** Dividing component-wise and multiplying back gives the vector again. */
  lemma ComponentProductUndoesQuotient(u: Vector, v: Vector)
    requires |u| == |v| && forall i :: 0 <= i < |v| ==> v[i] != 0.0
    ensures ComponentProduct(ComponentQuotient(u, v), v) == u
  {
    var q := ComponentQuotient(u, v);
    forall i | 0 <= i < |u|
      ensures ComponentProduct(q, v)[i] == u[i]
    {
      assert q[i] * v[i] == u[i];
    }
  }
}
