/** Java's fixed-width integers: `long` and `int` wrap around modulo 2^64 and
    2^32, and `/` truncates toward zero (section 15.17.2 of the Java Language
    Specification). Dafny's integers are unbounded and its `/` is Euclidean,
    so both are written out here. */
module JavaInt {

  const LONG_MIN: int := -0x8000_0000_0000_0000
  const LONG_MAX: int := 0x7fff_ffff_ffff_ffff
  const INT_MIN: int := -0x8000_0000
  const INT_MAX: int := 0x7fff_ffff

  const TWO_TO_64: int := 0x1_0000_0000_0000_0000
  const TWO_TO_32: int := 0x1_0000_0000

  type Int64 = x: int | LONG_MIN <= x <= LONG_MAX
  type Int32 = x: int | INT_MIN <= x <= INT_MAX

  predicate InLong(x: int) { LONG_MIN <= x <= LONG_MAX }

  predicate InInt(x: int) { INT_MIN <= x <= INT_MAX }

  function Abs(x: int): nat { if x < 0 then -x else x }

  function Min(a: int, b: int): (r: int)
    ensures r <= a && r <= b && (r == a || r == b)
  {
    if a <= b then a else b
  }

  function Max(a: int, b: int): (r: int)
    ensures r >= a && r >= b && (r == a || r == b)
  {
    if a >= b then a else b
  }

  /** The `long` that Java's 64-bit arithmetic yields for the exact value x. */
  function WrapLong(x: int): (r: Int64)
    ensures InLong(x) ==> r == x
    ensures (x - r) % TWO_TO_64 == 0
  {
    (x - LONG_MIN) % TWO_TO_64 + LONG_MIN
  }

  /** The `int` that Java's 32-bit arithmetic yields for the exact value x. */
  function WrapInt(x: int): (r: Int32)
    ensures InInt(x) ==> r == x
    ensures (x - r) % TWO_TO_32 == 0
  {
    (x - INT_MIN) % TWO_TO_32 + INT_MIN
  }

  /** Java's integer division before narrowing: the quotient rounded toward
      zero, so the remainder a - q * b is smaller than b in magnitude and is
      zero or has the sign of a. */
  function JavaDiv(a: int, b: int): (q: int)
    requires b != 0
    ensures Abs(a - q * b) < Abs(b)
    ensures a - q * b == 0 || (a - q * b < 0 <==> a < 0)
  {
    var m := Abs(a) / Abs(b);
    DivModFacts(Abs(a), Abs(b));
    if (a < 0) == (b < 0) then m else -m
  }

  lemma DivModFacts(x: nat, y: nat)
    requires y > 0
    ensures 0 <= x - (x / y) * y < y
  {
  }

  /** A truncated quotient by a positive divisor is never below the
      Euclidean one, hence at least m whenever a >= b * m. */
  lemma {:induction false} JavaDivLowerBound(a: int, b: int, m: int)
    requires b > 0 && a >= b * m
    ensures JavaDiv(a, b) >= m
  {
    var q := JavaDiv(a, b);
    assert a - q * b < b;
    assert b * q > b * (m - 1);
    MulCancel(b, q, m - 1);
  }

  lemma MulCancel(b: int, x: int, y: int)
    requires b > 0 && b * x > b * y
    ensures x > y
  {
  }

  /** A quotient by a positive divisor is no larger in magnitude than the
      dividend, so dividing a `long` by a positive `int` never wraps. */
  lemma {:induction false} JavaDivPositiveInRange(a: int, b: int)
    requires b > 0 && InLong(a)
    ensures Abs(JavaDiv(a, b)) <= Abs(a)
    ensures InLong(JavaDiv(a, b))
  {
    var q := JavaDiv(a, b);
    assert Abs(q) * b <= Abs(a) + b - 1 by {
      assert Abs(a - q * b) < b;
    }
    MulAtLeast(Abs(q), b);
  }

  lemma MulAtLeast(x: nat, b: int)
    requires b > 0
    ensures x * b >= x
    ensures x * b >= x + (b - 1) * (if x > 0 then 1 else 0)
  {
    if x > 0 {
      var p: nat := x - 1;
      var c: nat := b - 1;
      assert p * c >= 0;
      assert x * b == p * c + x + b - 1;
    }
  }
}
