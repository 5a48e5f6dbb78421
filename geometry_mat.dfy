/**
 * Mat<n, m, t> of cpps/common/geometry/mat.h: an n×m matrix stored row by
 * row in a fixed-size array, with a checked row access, in-place -=,
 * SetColumn and SetRow, and products accumulated in loops. Entries are reals;
 * every method is proved against the LinAlg function it computes.
 */
module GeometryMat {
  import opened Wrappers
  import opened LinAlg
  import opened GeometryVec

  const IndexError := OutOfRange("Index out of range")

  class Mat {
    const n: nat
    const m: nat
    var data: Matrix

    ghost predicate Valid()
      reads this
    {
      IsMatrix(data, n, m)
    }

    /** Mat(): every entry 0. */
    constructor (n: nat, m: nat)
      ensures Valid() && this.n == n && this.m == m && data == ZeroMatrix(n, m)
    {
      this.n := n;
      this.m := m;
      data := ZeroMatrix(n, m);
    }

    constructor FromRows(n: nat, m: nat, rows: Matrix)
      requires IsMatrix(rows, n, m)
      ensures Valid() && this.n == n && this.m == m && data == rows
    {
      this.n := n;
      this.m := m;
      data := rows;
    }

    /** The const operator[]: row i, or out_of_range unless 0 <= i < n. */
    function Row(i: int): (r: Result<Vector>)
      reads this
      requires Valid()
      ensures r.Ok? <==> 0 <= i < n
      ensures r.Ok? ==> r.value == data[i] && |r.value| == m
      ensures r.Err? ==> r == Err(IndexError)
    {
      if i < 0 || i >= n then Err(IndexError) else Ok(data[i])
    }

    /**
     * mat[i][j] = x through the non-const operator[]: the row index is
     * checked, the column index goes to std::array unchecked, so the
     * caller must keep it below m.
     */
    method SetEntry(i: int, j: nat, x: real) returns (o: Outcome)
      requires Valid() && j < m
      modifies this
      ensures Valid()
      ensures o.Pass? <==> 0 <= i < n
      ensures o.Pass? ==> data == old(data)[i := old(data)[i][j := x]]
      ensures o.Fail? ==> data == old(data) && o == Fail(IndexError)
    {
      if i < 0 || i >= n {
        return Fail(IndexError);
      }
      data := data[i := data[i][j := x]];
      o := Pass;
    }

    /** operator-=: entry-wise; b may be this matrix itself. */
    method SubAssign(b: Mat)
      requires Valid() && b.Valid() && b.n == n && b.m == m
      modifies this
      ensures Valid() && data == MatSub(old(data), old(b.data))
    {
      var i := 0;
      while i < n
        invariant 0 <= i <= n && IsMatrix(data, n, m) && IsMatrix(b.data, n, m)
        invariant forall k :: 0 <= k < i ==> data[k] == Sub(old(data)[k], old(b.data)[k])
        invariant forall k :: i <= k < n ==> data[k] == old(data)[k] && b.data[k] == old(b.data)[k]
      {
        var row := data[i];
        var other := b.data[i];
        var j := 0;
        while j < m
          invariant 0 <= j <= m && |row| == m
          invariant forall t :: 0 <= t < j ==> row[t] == data[i][t] - other[t]
          invariant forall t :: j <= t < m ==> row[t] == data[i][t]
        {
          row := row[j := row[j] - other[j]];
          j := j + 1;
        }
        assert row == Sub(data[i], other);
        data := data[i := row];
        i := i + 1;
      }
    }

    /** operator-: a copy of this matrix, then -=. */
    method Minus(b: Mat) returns (r: Mat)
      requires Valid() && b.Valid() && b.n == n && b.m == m
      ensures fresh(r) && r.Valid() && r.n == n && r.m == m && r.data == MatSub(data, b.data)
    {
      r := new Mat.FromRows(n, m, data);
      r.SubAssign(b);
    }

    /** operator*(Mat<m, l>): result[i][j] accumulates data[i][k] * b[k][j] for k = 0 .. m-1. */
    method Times(b: Mat) returns (r: Mat)
      requires Valid() && b.Valid() && b.n == m
      ensures fresh(r) && r.Valid() && r.n == n && r.m == b.m
      ensures r.data == MatMul(data, b.data, b.m)
    {
      var l := b.m;
      var result := ZeroMatrix(n, l);
      var i := 0;
      while i < n
        invariant 0 <= i <= n && IsMatrix(result, n, l)
        invariant forall p :: 0 <= p < i ==> result[p] == MatMul(data, b.data, l)[p]
        invariant forall p :: i <= p < n ==> result[p] == Zeros(l)
      {
        var j := 0;
        while j < l
          invariant 0 <= j <= l && IsMatrix(result, n, l)
          invariant forall p :: 0 <= p < i ==> result[p] == MatMul(data, b.data, l)[p]
          invariant forall p :: i < p < n ==> result[p] == Zeros(l)
          invariant forall q :: 0 <= q < j ==> result[i][q] == SumTo(data[i], Column(b.data, q), m)
          invariant forall q :: j <= q < l ==> result[i][q] == 0.0
        {
          var k := 0;
          while k < m
            invariant 0 <= k <= m && IsMatrix(result, n, l)
            invariant forall p :: 0 <= p < i ==> result[p] == MatMul(data, b.data, l)[p]
            invariant forall p :: i < p < n ==> result[p] == Zeros(l)
            invariant forall q :: 0 <= q < j ==> result[i][q] == SumTo(data[i], Column(b.data, q), m)
            invariant forall q :: j < q < l ==> result[i][q] == 0.0
            invariant result[i][j] == SumTo(data[i], Column(b.data, j), k)
          {
            result := result[i := result[i][j := result[i][j] + data[i][k] * b.data[k][j]]];
            k := k + 1;
          }
          j := j + 1;
        }
        assert result[i] == MatMul(data, b.data, l)[i];
        i := i + 1;
      }
      r := new Mat.FromRows(n, l, result);
    }

    /** operator*(Vec<m>): result[i] accumulates data[i][j] * v[j] for j = 0 .. m-1. */
    method Apply(v: Vec) returns (r: Vec)
      requires Valid() && v.Valid() && v.n == m
      ensures fresh(r) && r.Valid() && r.n == n && r.data == MatVec(data, v.data)
    {
      var result := Zeros(n);
      var i := 0;
      while i < n
        invariant 0 <= i <= n && |result| == n
        invariant forall p :: 0 <= p < i ==> result[p] == Dot(data[p], v.data)
        invariant forall p :: i <= p < n ==> result[p] == 0.0
      {
        var j := 0;
        while j < m
          invariant 0 <= j <= m && |result| == n
          invariant forall p :: 0 <= p < i ==> result[p] == Dot(data[p], v.data)
          invariant forall p :: i < p < n ==> result[p] == 0.0
          invariant result[i] == SumTo(data[i], v.data, j)
        {
          result := result[i := result[i] + data[i][j] * v.data[j]];
          j := j + 1;
        }
        i := i + 1;
      }
      r := new Vec.FromSeq(n, result);
    }

    /** GetColumn(j): column j as an array, or out_of_range unless 0 <= j < m. */
    method GetColumn(j: int) returns (r: Result<Vector>)
      requires Valid()
      ensures r.Ok? <==> 0 <= j < m
      ensures r.Ok? ==> r.value == Column(data, j)
      ensures r.Err? ==> r == Err(IndexError)
    {
      if j < 0 || j >= m {
        return Err(IndexError);
      }
      var column := Zeros(n);
      var i := 0;
      while i < n
        invariant 0 <= i <= n && |column| == n
        invariant forall p :: 0 <= p < i ==> column[p] == data[p][j]
      {
        column := column[i := data[i][j]];
        i := i + 1;
      }
      r := Ok(column);
    }

    /** GetColumnVector(j): column j as a fresh Vec<n>, or out_of_range unless 0 <= j < m. */
    method GetColumnVector(j: int) returns (r: Result<Vec>)
      requires Valid()
      ensures r.Ok? <==> 0 <= j < m
      ensures r.Ok? ==> fresh(r.value) && r.value.Valid() && r.value.n == n && r.value.data == Column(data, j)
      ensures r.Err? ==> r == Err(IndexError)
    {
      if j < 0 || j >= m {
        return Err(IndexError);
      }
      var column := new Vec(n);
      var i := 0;
      while i < n
        invariant 0 <= i <= n && column.Valid() && column.n == n
        invariant forall p :: 0 <= p < i ==> column.data[p] == data[p][j]
      {
        column.data := column.data[i := data[i][j]];
        i := i + 1;
      }
      r := Ok(column);
    }

    /**
     * SetColumn(j, v): entry i of column j becomes v[i]. j is not checked,
     * so the caller must keep it below m.
     */
    method SetColumn(j: nat, v: Vec)
      requires Valid() && v.Valid() && v.n == n && j < m
      modifies this
      ensures Valid() && data == WithColumn(old(data), j, v.data)
    {
      var i := 0;
      while i < n
        invariant 0 <= i <= n && IsMatrix(data, n, m)
        invariant forall p :: 0 <= p < i ==> data[p] == old(data)[p][j := v.data[p]]
        invariant forall p :: i <= p < n ==> data[p] == old(data)[p]
      {
        data := data[i := data[i][j := v.data[i]]];
        i := i + 1;
      }
    }

    /** GetRow(i): row i, or out_of_range unless 0 <= i < n. */
    function GetRow(i: int): (r: Result<Vector>)
      reads this
      requires Valid()
      ensures r.Ok? <==> 0 <= i < n
      ensures r.Ok? ==> r.value == data[i] && forall j :: 0 <= j < m ==> r.value[j] == Column(data, j)[i]
      ensures r.Err? ==> r == Err(IndexError)
    {
      Row(i)
    }

    /** SetRow(i, v): out_of_range unless 0 <= i < n; otherwise row i becomes v. */
    method SetRow(i: int, v: Vec) returns (o: Outcome)
      requires Valid() && v.Valid() && v.n == m
      modifies this
      ensures Valid()
      ensures o.Pass? <==> 0 <= i < n
      ensures o.Pass? ==> data == old(data)[i := v.data]
      ensures o.Fail? ==> data == old(data) && o == Fail(IndexError)
    {
      if i < 0 || i >= n {
        return Fail(IndexError);
      }
      var j := 0;
      while j < m
        invariant 0 <= j <= m && IsMatrix(data, n, m)
        invariant forall t :: 0 <= t < j ==> data[i][t] == v.data[t]
        invariant forall t :: j <= t < m ==> data[i][t] == old(data)[i][t]
        invariant forall p :: 0 <= p < n && p != i ==> data[p] == old(data)[p]
      {
        data := data[i := data[i][j := v.data[j]]];
        j := j + 1;
      }
      assert data[i] == v.data;
      o := Pass;
    }
  }

  /**
   * Mat(list): invalid_argument when the list does not have n rows or a row
   * does not have m entries, the rows being checked in order; otherwise the
   * entries are the list's.
   */
  method FromList(n: nat, m: nat, list: seq<seq<real>>) returns (r: Result<Mat>)
    ensures r.Ok? <==> IsMatrix(list, n, m)
    ensures r.Ok? ==> fresh(r.value) && r.value.Valid() && r.value.n == n && r.value.m == m && r.value.data == list
    ensures r.Err? ==> r == Err(InvalidArgument("Invalid initializer list size"))
  {
    if |list| != n {
      return Err(InvalidArgument("Invalid initializer list size"));
    }
    var i := 0;
    while i < n
      invariant 0 <= i <= n
      invariant forall p :: 0 <= p < i ==> |list[p]| == m
    {
      if |list[i]| != m {
        return Err(InvalidArgument("Invalid initializer list size"));
      }
      i := i + 1;
    }
    var a := new Mat.FromRows(n, m, list);
    r := Ok(a);
  }

  /** Applying the identity changes nothing. */
  lemma IdentityApply(v: Vector)
    ensures MatVec(Identity(|v|), v) == v
  {
    var n := |v|;
    forall i | 0 <= i < n
      ensures MatVec(Identity(n), v)[i] == v[i]
    {
      SumToUnit(Identity(n)[i], v, i, n);
    }
  }

  /** a - b + b == a, row by row. */
  lemma MatSubThenAdd(a: Matrix, b: Matrix)
    requires |a| == |b| && forall i :: 0 <= i < |a| ==> |a[i]| == |b[i]|
    ensures forall i :: 0 <= i < |a| ==> Add(MatSub(a, b)[i], b[i]) == a[i]
  {
  }
}
