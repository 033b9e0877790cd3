/**
 Fixed-point money on the cent grid.

 Amounts are exact `real`s. The only rounding the payroll code performs is
 `Decimal.quantize(Decimal("0.01"))` without an explicit rounding mode, so the
 default decimal context applies: round to the nearest cent, ties to the even
 cent. `Quantize2` models that operation; every lemma below is about it.
 */
module Money {

  /** True when `x` is a whole number of cents. */
  predicate IsCents(x: real) {
    (x * 100.0).Floor as real == x * 100.0
  }

  /** The number of cents in `x`, meaningful when `IsCents(x)`. */
  function Cents(x: real): int {
    (x * 100.0).Floor
  }

  /** True when `x` is an even number of cents (the tie-break target). */
  predicate IsEvenCents(x: real) {
    Cents(x) % 2 == 0
  }

  /** Rounds `y` to the nearest integer, resolving an exact half towards the even neighbour. */
  function RoundHalfEven(y: real): (n: int)
    ensures -0.5 <= n as real - y <= 0.5
    ensures (n as real - y == 0.5 || n as real - y == -0.5) ==> n % 2 == 0
  {
    var f := y.Floor;
    var d := y - f as real;
    if d < 0.5 then f
    else if d > 0.5 then f + 1
    else if f % 2 == 0 then f
    else f + 1
  }

  /** `Decimal.quantize(Decimal("0.01"))` in the default (round-half-even) context.
      The contract pins the result down completely: it is a cent value, it lies
      within half a cent of `x`, and when it lies exactly half a cent away it is
      the even cent (see `QuantizeUnique`). */
  function Quantize2(x: real): (r: real)
    ensures IsCents(r)
    ensures -0.005 <= r - x <= 0.005
    ensures (r - x == 0.005 || r - x == -0.005) ==> IsEvenCents(r)
  {
    var n := RoundHalfEven(x * 100.0);
    CentsOfIntIsCents(n);
    n as real / 100.0
  }

  lemma CentsOfIntIsCents(n: int)
    ensures IsCents(n as real / 100.0)
    ensures Cents(n as real / 100.0) == n
  {
    assert (n as real / 100.0) * 100.0 == n as real;
  }

  /** Integer-level uniqueness: the nearest integer (ties to even) is the only
      integer with the rounding contract. */
  lemma {:induction false} RoundHalfEvenUnique(y: real, m: int)
    requires -0.5 <= m as real - y <= 0.5
    requires (m as real - y == 0.5 || m as real - y == -0.5) ==> m % 2 == 0
    ensures RoundHalfEven(y) == m
  {
    var n := RoundHalfEven(y);
    assert -1.0 <= (n - m) as real <= 1.0;
  }

  /** `Quantize2` is the one rounding that meets its contract: any cent value
      within half a cent of `x`, even when it sits exactly on the half, is `Quantize2(x)`. */
  lemma QuantizeUnique(x: real, c: real)
    requires IsCents(c)
    requires -0.005 <= c - x <= 0.005
    requires (c - x == 0.005 || c - x == -0.005) ==> IsEvenCents(c)
    ensures Quantize2(x) == c
  {
    var m := Cents(c);
    assert m as real == c * 100.0;
    assert m as real - x * 100.0 == (c - x) * 100.0;
    RoundHalfEvenUnique(x * 100.0, m);
  }

  /** Values already on the cent grid are left unchanged. */
  lemma QuantizeIdentity(x: real)
    requires IsCents(x)
    ensures Quantize2(x) == x
  {
    QuantizeUnique(x, x);
  }

  /** Quantizing twice is the same as quantizing once. */
  lemma QuantizeIdempotent(x: real)
    ensures Quantize2(Quantize2(x)) == Quantize2(x)
  {
    QuantizeIdentity(Quantize2(x));
  }

  lemma {:induction false} RoundHalfEvenMonotone(y1: real, y2: real)
    requires y1 <= y2
    ensures RoundHalfEven(y1) <= RoundHalfEven(y2)
  {
    if y1 < y2 {
      var n1, n2 := RoundHalfEven(y1), RoundHalfEven(y2);
      assert n1 as real - n2 as real < 1.0;
    }
  }

  /** Rounding preserves order. */
  lemma QuantizeMonotone(x1: real, x2: real)
    requires x1 <= x2
    ensures Quantize2(x1) <= Quantize2(x2)
  {
    RoundHalfEvenMonotone(x1 * 100.0, x2 * 100.0);
  }

  /** Round-half-even is symmetric about zero. */
  lemma QuantizeOdd(x: real)
    ensures Quantize2(-x) == -Quantize2(x)
  {
    var n := RoundHalfEven(x * 100.0);
    RoundHalfEvenUnique(-x * 100.0, -n);
  }

  /** Equal amounts round equally (stated for the solver's benefit on product terms). */
  lemma QuantizeCongruent(x: real, y: real)
    requires x == y
    ensures Quantize2(x) == Quantize2(y)
  {
  }

  /** Rounding a non-negative amount gives a non-negative amount. */
  lemma QuantizeNonNegative(x: real)
    requires x >= 0.0
    ensures Quantize2(x) >= 0.0
  {
    QuantizeMonotone(0.0, x);
    QuantizeIdentity(0.0);
  }

  /** Sums and differences of cent values are cent values. */
  lemma CentsAddSub(a: real, b: real)
    requires IsCents(a) && IsCents(b)
    ensures IsCents(a + b) && IsCents(a - b) && IsCents(-a)
  {
    var ka, kb := Cents(a), Cents(b);
    CentsOfIntIsCents(ka + kb);
    CentsOfIntIsCents(ka - kb);
    CentsOfIntIsCents(-ka);
    assert a + b == (ka + kb) as real / 100.0;
    assert a - b == (ka - kb) as real / 100.0;
    assert -a == (-ka) as real / 100.0;
  }

  /** A cent value times a whole number of days is a cent value. */
  lemma CentsTimesInt(a: real, n: int)
    requires IsCents(a)
    ensures IsCents(a * n as real)
  {
    var ka := Cents(a);
    CentsOfIntIsCents(ka * n);
    assert a == ka as real / 100.0;
    assert a * n as real == (ka * n) as real / 100.0;
  }
}
