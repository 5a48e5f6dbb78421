/**
 * geometry::Vec<n, t> of TinyRenderer/include/geometry/vec.h: a fixed-size
 * array of n components updated in place by its compound operators. The
 * component values are reals; LinAlg gives the functions each operation is
 * proved against.
 */
module GeometryVec {
  import opened Wrappers
  import opened RealMath
  import opened LinAlg

  const DivisionByZero := RuntimeError("Division by zero")

  class Vec {
    const n: nat
    var data: seq<real>

    ghost predicate Valid()
      reads this
    {
      |data| == n
    }

    /** Vec(): every component 0. */
    constructor (n: nat)
      ensures Valid() && this.n == n && data == Zeros(n)
    {
      this.n := n;
      data := Zeros(n);
    }

    /** A copy of the array, for the copy the binary operators start from. */
    constructor Copy(v: Vec)
      requires v.Valid()
      ensures Valid() && n == v.n && data == v.data
    {
      n := v.n;
      data := v.data;
    }

    constructor FromSeq(n: nat, list: seq<real>)
      requires |list| == n
      ensures Valid() && this.n == n && data == list
    {
      this.n := n;
      data := list;
    }

    /** The const operator[]: out_of_range unless 0 <= i < n. */
    function At(i: int): (r: Result<real>)
      reads this
      requires Valid()
      ensures r.Ok? <==> 0 <= i < n
      ensures r.Ok? ==> r.value == data[i]
      ensures r.Err? ==> r == Err(OutOfRange("Index out of range"))
    {
      if i < 0 || i >= n then Err(OutOfRange("Index out of range")) else Ok(data[i])
    }

    /** A write through the non-const operator[]: out_of_range, with nothing changed, unless 0 <= i < n. */
    method SetAt(i: int, x: real) returns (o: Outcome)
      requires Valid()
      modifies this
      ensures Valid()
      ensures o.Pass? <==> 0 <= i < n
      ensures o.Pass? ==> data == old(data)[i := x]
      ensures o.Fail? ==> data == old(data) && o == Fail(OutOfRange("Index out of range"))
    {
      if i < 0 || i >= n {
        return Fail(OutOfRange("Index out of range"));
      }
      data := data[i := x];
      o := Pass;
    }

    /** operator+=: component-wise; v may be this vector itself. */
    method AddAssign(v: Vec)
      requires Valid() && v.Valid() && v.n == n
      modifies this
      ensures Valid() && data == Add(old(data), old(v.data))
    {
      var i := 0;
      while i < n
        invariant 0 <= i <= n && |data| == n && |v.data| == n
        invariant forall k :: 0 <= k < i ==> data[k] == old(data)[k] + old(v.data)[k]
        invariant forall k :: i <= k < n ==> data[k] == old(data)[k] && v.data[k] == old(v.data)[k]
      {
        data := data[i := data[i] + v.data[i]];
        i := i + 1;
      }
    }

    /** operator-=: component-wise; v may be this vector itself. */
    method SubAssign(v: Vec)
      requires Valid() && v.Valid() && v.n == n
      modifies this
      ensures Valid() && data == Sub(old(data), old(v.data))
    {
      var i := 0;
      while i < n
        invariant 0 <= i <= n && |data| == n && |v.data| == n
        invariant forall k :: 0 <= k < i ==> data[k] == old(data)[k] - old(v.data)[k]
        invariant forall k :: i <= k < n ==> data[k] == old(data)[k] && v.data[k] == old(v.data)[k]
      {
        data := data[i := data[i] - v.data[i]];
        i := i + 1;
      }
    }

    /** operator*=(f) */
    method ScaleAssign(f: real)
      requires Valid()
      modifies this
      ensures Valid() && data == Scale(old(data), f)
    {
      var i := 0;
      while i < n
        invariant 0 <= i <= n && |data| == n
        invariant forall k :: 0 <= k < i ==> data[k] == old(data)[k] * f
        invariant forall k :: i <= k < n ==> data[k] == old(data)[k]
      {
        data := data[i := data[i] * f];
        i := i + 1;
      }
      assert forall k :: 0 <= k < n ==> data[k] == Scale(old(data), f)[k];
    }

    /** operator/=(f): runtime_error before any change when f is 0. */
    method DivAssign(f: real) returns (o: Outcome)
      requires Valid()
      modifies this
      ensures Valid()
      ensures o.Fail? <==> f == 0.0
      ensures o.Fail? ==> data == old(data) && o == Fail(DivisionByZero)
      ensures o.Pass? ==> data == Quotient(old(data), f)
    {
      if f == 0.0 {
        return Fail(DivisionByZero);
      }
      var i := 0;
      while i < n
        invariant 0 <= i <= n && |data| == n
        invariant forall k :: 0 <= k < i ==> data[k] == old(data)[k] / f
        invariant forall k :: i <= k < n ==> data[k] == old(data)[k]
      {
        data := data[i := data[i] / f];
        i := i + 1;
      }
      o := Pass;
    }

    /** operator+: a copy of this vector, then +=. */
    method Plus(v: Vec) returns (r: Vec)
      requires Valid() && v.Valid() && v.n == n
      ensures fresh(r) && r.Valid() && r.n == n && r.data == Add(data, v.data)
    {
      r := new Vec.Copy(this);
      r.AddAssign(v);
    }

    /** operator- */
    method Minus(v: Vec) returns (r: Vec)
      requires Valid() && v.Valid() && v.n == n
      ensures fresh(r) && r.Valid() && r.n == n && r.data == Sub(data, v.data)
    {
      r := new Vec.Copy(this);
      r.SubAssign(v);
    }

    /** operator*(f) */
    method Times(f: real) returns (r: Vec)
      requires Valid()
      ensures fresh(r) && r.Valid() && r.n == n && r.data == Scale(data, f)
    {
      r := new Vec.Copy(this);
      r.ScaleAssign(f);
    }

    /** operator/(f): the error of /= when f is 0. */
    method DividedBy(f: real) returns (r: Result<Vec>)
      requires Valid()
      ensures r.Err? <==> f == 0.0
      ensures r.Err? ==> r == Err(DivisionByZero)
      ensures r.Ok? ==> fresh(r.value) && r.value.Valid() && r.value.n == n && r.value.data == Quotient(data, f)
    {
      var result := new Vec.Copy(this);
      var o := result.DivAssign(f);
      if o.Fail? {
        return Err(o.error);
      }
      r := Ok(result);
    }

    /** operator*(v): the dot product, summed from component 0 up. */
    method DotWith(v: Vec) returns (r: real)
      requires Valid() && v.Valid() && v.n == n
      ensures r == Dot(data, v.data)
    {
      r := 0.0;
      var i := 0;
      while i < n
        invariant 0 <= i <= n
        invariant r == SumTo(data, v.data, i)
      {
        r := r + data[i] * v.data[i];
        i := i + 1;
      }
    }

    /** operator^: the cross product, for n == 3 only. */
    method CrossWith(v: Vec) returns (r: Vec)
      requires Valid() && v.Valid() && n == 3 && v.n == 3
      ensures fresh(r) && r.Valid() && r.n == 3 && r.data == Cross(data, v.data)
    {
      var w := [data[1] * v.data[2] - data[2] * v.data[1],
                data[2] * v.data[0] - data[0] * v.data[2],
                data[0] * v.data[1] - data[1] * v.data[0]];
      assert w == Cross(data, v.data);
      r := new Vec.FromSeq(3, w);
    }

    /** operator^=: this vector becomes the cross product. */
    method CrossAssign(v: Vec)
      requires Valid() && v.Valid() && n == 3 && v.n == 3
      modifies this
      ensures Valid() && data == Cross(old(data), old(v.data))
    {
      data := [data[1] * v.data[2] - data[2] * v.data[1],
               data[2] * v.data[0] - data[0] * v.data[2],
               data[0] * v.data[1] - data[1] * v.data[0]];
    }

    /** length(): sqrt of the sum of squares. */
    method Length(lib: MathLib) returns (r: real)
      requires Valid()
      ensures r == lib.sqrt(SqLength(data))
    {
      var sum := 0.0;
      var i := 0;
      while i < n
        invariant 0 <= i <= n
        invariant sum == SumTo(data, data, i)
      {
        sum := sum + data[i] * data[i];
        i := i + 1;
      }
      r := lib.sqrt(sum);
    }

    /** Normalize(): runtime_error on zero length, else every component divided by the length. */
    method Normalize(lib: MathLib) returns (o: Outcome)
      requires Valid()
      modifies this
      ensures Valid()
      ensures o.Fail? <==> lib.sqrt(SqLength(old(data))) == 0.0
      ensures o.Fail? ==> data == old(data) && o == Fail(DivisionByZero)
      ensures o.Pass? ==> data == Quotient(old(data), lib.sqrt(SqLength(old(data))))
      ensures ValidLib(lib) ==> (o.Fail? <==> SqLength(old(data)) == 0.0)
      ensures o.Pass? ==> Normalized(lib, old(data)) == Ok(data)
    {
      var len := Length(lib);
      if len == 0.0 {
        SqLengthNonNegative(data);
        if ValidLib(lib) {
          SqrtIsZero(lib, SqLength(data));
        }
        return Fail(DivisionByZero);
      }
      ghost var before := data;
      var i := 0;
      while i < n
        invariant 0 <= i <= n && |data| == n
        invariant forall k :: 0 <= k < i ==> data[k] == before[k] / len
        invariant forall k :: i <= k < n ==> data[k] == before[k]
      {
        data := data[i := data[i] / len];
        i := i + 1;
      }
      o := Pass;
      SqLengthNonNegative(before);
      if ValidLib(lib) {
        SqrtIsZero(lib, SqLength(before));
      }
    }
  }

  /**
   * Vec(list): invalid_argument unless the list holds exactly n values;
   * otherwise the components are the list's, in order.
   */
  method FromList(n: nat, list: seq<real>) returns (r: Result<Vec>)
    ensures r.Ok? <==> |list| == n
    ensures r.Ok? ==> fresh(r.value) && r.value.Valid() && r.value.n == n && r.value.data == list
    ensures r.Err? ==> r == Err(InvalidArgument("Invalid initializer list size"))
  {
    if |list| != n {
      return Err(InvalidArgument("Invalid initializer list size"));
    }
    var v := new Vec.FromSeq(n, list);
    r := Ok(v);
  }

  /**
   * The value Normalize() leaves behind, for the callers that normalize a
   * temporary: runtime_error on zero length, else u divided by its length.
   */
  function Normalized(lib: MathLib, u: Vector): (r: Result<Vector>)
    ensures r.Err? <==> lib.sqrt(SqLength(u)) == 0.0
    ensures r.Err? ==> r == Err(DivisionByZero)
    ensures r.Ok? ==> |r.value| == |u| && forall i :: 0 <= i < |u| ==> r.value[i] * lib.sqrt(SqLength(u)) == u[i]
  {
    var len := lib.sqrt(SqLength(u));
    if len == 0.0 then Err(DivisionByZero) else Ok(Quotient(u, len))
  }

  /** Over exact reals a normalized vector has length 1. */
  /** NormalizedIsUnit for any library, stated under ValidLib. */
  lemma NormalizedIsUnitIfValid(lib: MathLib, u: Vector)
    ensures ValidLib(lib) && Normalized(lib, u).Ok? ==> SqLength(Normalized(lib, u).value) == 1.0
  {
    if ValidLib(lib) && Normalized(lib, u).Ok? {
      NormalizedIsUnit(lib, u);
    }
  }

  lemma NormalizedIsUnit(lib: MathLib, u: Vector)
    requires ValidLib(lib) && Normalized(lib, u).Ok?
    ensures SqLength(Normalized(lib, u).value) == 1.0
  {
    var len := lib.sqrt(SqLength(u));
    var k := 1.0 / len;
    SqLengthNonNegative(u);
    assert len * len == SqLength(u);
    forall i | 0 <= i < |u|
      ensures Quotient(u, len)[i] == Scale(u, k)[i]
    {
      assert u[i] / len == u[i] * (1.0 / len);
    }
    assert Quotient(u, len) == Scale(u, k);
    SqLengthScaled(u, k);
    assert k * k * (len * len) == (k * len) * (k * len);
  }

  /** Every component divided by f. */
  function Quotient(u: Vector, f: real): (r: Vector)
    requires f != 0.0
    ensures |r| == |u|
  {
    seq(|u|, i requires 0 <= i < |u| => u[i] / f)
  }

  /** The sum of squares is never negative. */
  lemma SqLengthNonNegative(u: Vector)
    ensures 0.0 <= SqLength(u)
  {
    SumToSquaresNonNegative(u, |u|);
  }

  lemma {:induction false} SumToSquaresNonNegative(u: Vector, k: nat)
    requires k <= |u|
    ensures 0.0 <= SumTo(u, u, k)
  {
    if k > 0 {
      SumToSquaresNonNegative(u, k - 1);
      assert 0.0 <= u[k - 1] * u[k - 1];
    }
  }
}
