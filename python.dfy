/** The pieces of Python's value semantics the program relies on: `None`,
    list indexing with negative positions, and `int()` truncating toward
    zero on quotients and on reals. */
module Python {

  datatype Option<T> = None | Some(value: T)

  /** List indexing: `xs[i]` accepts `-n <= i < n`, a negative index counting
      from the end; anything else raises IndexError. */
  function ListIndex(i: int, n: nat): (r: Option<nat>)
    ensures r.Some? <==> -(n as int) <= i < n
    ensures r.Some? ==> r.value < n && (r.value == i || r.value == i + n)
    ensures 0 <= i < n ==> r == Some(i)
  {
    if 0 <= i < n then Some(i) else if -(n as int) <= i < 0 then Some(i + n) else None
  }

  /** The product of two non-negative reals is non-negative. */
  lemma MulNonNegative(a: real, b: real)
    requires a >= 0.0 && b >= 0.0
    ensures a * b >= 0.0
  {
  }

  /** `int(x)` on a float: truncation toward zero. */
  function Trunc(x: real): (r: int)
    ensures x >= 0.0 ==> r as real <= x < r as real + 1.0
    ensures x < 0.0 ==> r as real - 1.0 < x <= r as real
  {
    if x >= 0.0 then x.Floor else -((-x).Floor)
  }

  /** `int(a / b)` computed on integers: the quotient of the magnitudes,
      negated when the signs differ. */
  function TruncDiv(a: int, b: int): (r: int)
    requires b != 0
    ensures a >= 0 && b > 0 ==> r == a / b
  {
    var q := (if a < 0 then -a else a) / (if b < 0 then -b else b);
    if (a < 0) != (b < 0) then -q else q
  }

  /** The floor of an exact non-negative quotient is the integer quotient. */
  lemma FloorOfQuotient(a: nat, b: int)
    requires b > 0
    ensures (a as real / b as real).Floor == a / b
  {
    var q, r := a / b, a % b;
    var f := r as real / b as real;
    assert f * b as real == r as real;
    if f < 0.0 {
      MulPositive(-f, b as real);
    }
    if f >= 1.0 {
      MulNonNegative(f - 1.0, b as real);
    }
    assert a as real / b as real == q as real + f;
  }

  /** The product of two positive reals is positive. */
  lemma MulPositive(a: real, b: real)
    requires a > 0.0 && b > 0.0
    ensures a * b > 0.0
  {
  }

  /** A part of a positive whole is a fraction between 0 and 1. */
  lemma FractionBounds(part: real, whole: real)
    requires 0.0 <= part <= whole && whole > 0.0
    ensures 0.0 <= part / whole <= 1.0
  {
    var x := part / whole;
    assert x * whole == part;
    if x < 0.0 {
      MulPositive(-x, whole);
    }
    if x > 1.0 {
      MulPositive(x - 1.0, whole);
    }
  }

  /** The integer truncation agrees with truncating the exact quotient, for
      every sign of numerator and divisor. */
  lemma TruncDivIsTrunc(a: int, b: int)
    requires b != 0
    ensures TruncDiv(a, b) == Trunc(a as real / b as real)
  {
    var m, d := if a < 0 then -a else a, if b < 0 then -b else b;
    FloorOfQuotient(m, d);
    var y := m as real / d as real;
    assert y >= 0.0 by { assert y * d as real == m as real; }
    if a < 0 {
      NegateNumerator(a as real, b as real);
    }
    if b < 0 {
      NegateDivisor(m as real, b as real);
    }
  }

  lemma NegateNumerator(x: real, y: real)
    requires y != 0.0
    ensures x / y == -((-x) / y)
  {
  }

  lemma NegateDivisor(x: real, y: real)
    requires y != 0.0
    ensures x / y == -(x / (-y))
  {
  }
}
