/**
 * Arithmetic shared by the whole model: C++'s truncating float-to-int
 * conversion, std::min / std::max / std::clamp, the fractional part that
 * fmod(s, 1) plus the "add one when negative" fix-up computes, and the C
 * library functions sqrt, pow and atan2, which the model receives as the
 * fields of a MathLib value.
 */
module RealMath {

  /** static_cast<int>(x): rounds toward zero. */
  function Trunc(x: real): (r: int)
    ensures 0.0 <= x ==> r as real <= x < r as real + 1.0
    ensures x < 0.0 ==> r as real - 1.0 < x <= r as real
  {
    if 0.0 <= x then x.Floor else -((-x).Floor)
  }

  function MinInt(a: int, b: int): int { if a <= b then a else b }
  function MaxInt(a: int, b: int): int { if a >= b then a else b }
  function MinReal(a: real, b: real): real { if a <= b then a else b }
  function MaxReal(a: real, b: real): real { if a >= b then a else b }

  /** std::clamp(v, lo, hi); the C++ function requires lo <= hi. */
  function ClampInt(v: int, lo: int, hi: int): (r: int)
    requires lo <= hi
    ensures lo <= r <= hi
    ensures lo <= v <= hi ==> r == v
  {
    if v < lo then lo else if hi < v then hi else v
  }

  function ClampReal(v: real, lo: real, hi: real): (r: real)
    requires lo <= hi
    ensures lo <= r <= hi
    ensures lo <= v <= hi ==> r == v
  {
    if v < lo then lo else if hi < v then hi else v
  }

  /** fmod(s, 1.0): the remainder carries the sign of s. */
  function FMod1(s: real): (r: real)
    ensures -1.0 < r < 1.0
    ensures 0.0 <= s ==> 0.0 <= r
    ensures s < 0.0 ==> r <= 0.0
  {
    s - Trunc(s) as real
  }

  lemma DivideByItself(d: real)
    requires d != 0.0
    ensures d / d == 1.0 && 0.0 / d == 0.0
  {
  }

  lemma TruncOfInt(n: int)
    ensures Trunc(n as real) == n
  {
  }

  /** Truncation is monotone. */
  lemma TruncMonotone(x: real, y: real)
    requires x <= y
    ensures Trunc(x) <= Trunc(y)
  {
  }

  /** A real between two integers truncates to an integer between them. */
  lemma TruncBetween(x: real, lo: int, hi: int)
    requires lo as real <= x <= hi as real
    ensures lo <= Trunc(x) <= hi
  {
    TruncMonotone(lo as real, x);
    TruncMonotone(x, hi as real);
    TruncOfInt(lo);
    TruncOfInt(hi);
  }

  /**
   * The C library functions the renderer calls. sqrt must be the exact
   * non-negative square root (ValidLib); pow only has to keep a
   * non-negative base non-negative; atan2 is unconstrained.
   */
  datatype MathLib = MathLib(sqrt: real -> real, pow: (real, real) -> real, atan2: (real, real) -> real)

  ghost predicate ValidLib(lib: MathLib)
  {
    (forall x :: 0.0 <= x ==> 0.0 <= lib.sqrt(x) && lib.sqrt(x) * lib.sqrt(x) == x) &&
    (forall x, y :: 0.0 <= x ==> 0.0 <= lib.pow(x, y))
  }

  /** 0 <= a <= b implies a * a <= b * b, and strictly for a < b. */
  lemma SquareMonotone(a: real, b: real)
    requires 0.0 <= a
    ensures a <= b ==> a * a <= b * b
    ensures a < b ==> a * a < b * b
  {
    if a <= b {
      assert a * a <= a * b;
      assert a * b <= b * b;
    }
    if a < b {
      assert 0.0 < (b - a) * (b + a) by {
        assert 0.0 < b - a && 0.0 < b + a;
      }
      assert b * b - a * a == (b - a) * (b + a);
    }
  }

  lemma SqrtIsZero(lib: MathLib, x: real)
    requires ValidLib(lib) && 0.0 <= x
    ensures lib.sqrt(x) == 0.0 <==> x == 0.0
  {
    var s := lib.sqrt(x);
    assert 0.0 <= s && s * s == x;
    SquareMonotone(0.0, s);
  }

  /** SqrtIsZero for any library, stated under ValidLib. */
  lemma SqrtIsZeroIfValid(lib: MathLib, x: real)
    requires 0.0 <= x
    ensures ValidLib(lib) ==> (lib.sqrt(x) == 0.0 <==> x == 0.0)
  {
    if ValidLib(lib) {
      SqrtIsZero(lib, x);
    }
  }

  lemma SqrtLess(lib: MathLib, x: real, r: real)
    requires ValidLib(lib) && 0.0 <= x && 0.0 <= r
    ensures lib.sqrt(x) < r <==> x < r * r
  {
    var s := lib.sqrt(x);
    assert 0.0 <= s && s * s == x;
    SquareMonotone(s, r);
    SquareMonotone(r, s);
  }

  lemma SqrtAtMost(lib: MathLib, x: real, r: real)
    requires ValidLib(lib) && 0.0 <= x && 0.0 <= r
    ensures lib.sqrt(x) <= r <==> x <= r * r
  {
    var s := lib.sqrt(x);
    assert 0.0 <= s && s * s == x;
    SquareMonotone(s, r);
    SquareMonotone(r, s);
  }
}
