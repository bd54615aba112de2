/** Rounding of an exact fraction n/d to a whole number of units, as Decimal.quantize does it. */
module Rounding {

  /** ROUND_HALF_UP: to the nearest, ties away from zero. */
  function RoundHalfUp(n: int, d: int): int
    requires d > 0
  {
    if n >= 0 then (2 * n + d) / (2 * d) else -((-2 * n + d) / (2 * d))
  }

  /** ROUND_HALF_EVEN, the context default: to the nearest, ties to the even neighbour. */
  function RoundHalfEven(n: int, d: int): int
    requires d > 0
  {
    var q, r := n / d, n % d;
    if 2 * r < d || (2 * r == d && q % 2 == 0) then q else q + 1
  }

  /** The half-up result is nearest, and a tie goes away from zero. */
  lemma HalfUpIsNearest(n: int, d: int)
    requires d > 0
    ensures n >= 0 ==> 2 * n - d < 2 * d * RoundHalfUp(n, d) <= 2 * n + d
    ensures n < 0 ==> 2 * n - d <= 2 * d * RoundHalfUp(n, d) < 2 * n + d
  {
    var m := if n >= 0 then 2 * n + d else -2 * n + d;
    assert m == (2 * d) * (m / (2 * d)) + m % (2 * d);
  }

  lemma ScaledGap(d: int, a: int, b: int)
    requires d > 0 && a < b
    ensures 2 * d * a + 2 * d <= 2 * d * b
  {
    MulNonNegative(d, b - a - 1);
    assert 2 * d * b == 2 * d * a + 2 * d + 2 * (d * (b - a - 1));
  }

  lemma MulNonNegative(x: int, y: int)
    requires x >= 0 && y >= 0
    ensures x * y >= 0
  {
  }

  /** Two multiples of 2d less than 2d apart come from the same, or from ordered, whole numbers. */
  lemma NoGap(d: int, a: int, b: int)
    requires d > 0 && 2 * d * a < 2 * d * b + 2 * d
    ensures a <= b
  {
    if b < a {
      ScaledGap(d, b, a);
    }
  }

  /** Any whole number that close to n/d is the half-up result. */
  lemma HalfUpUnique(n: int, d: int, r: int)
    requires d > 0
    requires if n >= 0 then 2 * n - d < 2 * d * r <= 2 * n + d else 2 * n - d <= 2 * d * r < 2 * n + d
    ensures RoundHalfUp(n, d) == r
  {
    HalfUpIsNearest(n, d);
    NoGap(d, RoundHalfUp(n, d), r);
    NoGap(d, r, RoundHalfUp(n, d));
  }

  /** The half-even result is nearest too. */
  lemma HalfEvenIsNearest(n: int, d: int)
    requires d > 0
    ensures 2 * n - d <= 2 * d * RoundHalfEven(n, d) <= 2 * n + d
  {
    assert n == d * (n / d) + n % d;
  }

  /** A tie of the half-even rounding goes to the even neighbour. */
  lemma HalfEvenTies(n: int, d: int)
    requires d > 0
    ensures var r := RoundHalfEven(n, d);
            2 * d * r == 2 * n + d || 2 * d * r == 2 * n - d ==> r % 2 == 0
  {
    var q, m := n / d, n % d;
    assert n == d * q + m;
    assert 2 * d * (q + 1) == 2 * d * q + 2 * d;
  }

  lemma HalfUpMonotone(m: int, n: int, d: int)
    requires d > 0 && m <= n
    ensures RoundHalfUp(m, d) <= RoundHalfUp(n, d)
  {
    HalfUpIsNearest(m, d);
    HalfUpIsNearest(n, d);
    NoGap(d, RoundHalfUp(m, d), RoundHalfUp(n, d));
  }

  lemma HalfUpOfWhole(k: int, d: int)
    requires d > 0
    ensures RoundHalfUp(k * d, d) == k
  {
    HalfUpUnique(k * d, d, k);
  }

  // ----- Fractions of a unit -----

  datatype Quotient = Quotient(n: int, d: int)

  /** An exact amount of any number of decimals. */
  type Fraction = q: Quotient | q.d > 0 witness Quotient(0, 1)

  function Whole(n: int): Fraction {
    Quotient(n, 1)
  }

  predicate AtMost(x: Fraction, y: Fraction) {
    x.n * y.d <= y.n * x.d
  }

  function Greater(x: Fraction, y: Fraction): Fraction {
    if AtMost(y, x) then x else y
  }

  function Smaller(x: Fraction, y: Fraction): Fraction {
    if AtMost(x, y) then x else y
  }

  function Cents(x: Fraction): int {
    RoundHalfUp(x.n, x.d)
  }

  lemma TimesPositive(x: int, y: int, k: int)
    requires k > 0
    ensures x <= y <==> x * k <= y * k
    ensures x < y <==> x * k < y * k
  {
    if x < y {
      MulNonNegative(y - x - 1, k);
      assert y * k == x * k + k + (y - x - 1) * k;
    } else {
      MulNonNegative(x - y, k);
      assert x * k == y * k + (x - y) * k;
    }
  }

  /** Rounding does not see common factors. */
  lemma HalfUpScale(n: int, d: int, k: int)
    requires d > 0 && k > 0
    ensures d * k > 0 && RoundHalfUp(n * k, d * k) == RoundHalfUp(n, d)
  {
    var r := RoundHalfUp(n, d);
    TimesPositive(0, d, k);
    TimesPositive(0, n, k);
    TimesPositive(n, 0, k);
    HalfUpIsNearest(n, d);
    TimesPositive(2 * n - d, 2 * d * r, k);
    TimesPositive(2 * d * r, 2 * n + d, k);
    assert (2 * n - d) * k == 2 * (n * k) - d * k;
    assert (2 * n + d) * k == 2 * (n * k) + d * k;
    assert (2 * d * r) * k == 2 * (d * k) * r;
    HalfUpUnique(n * k, d * k, r);
  }

  /** Rounding keeps the order of fractions. */
  lemma CentsMonotone(x: Fraction, y: Fraction)
    requires AtMost(x, y)
    ensures Cents(x) <= Cents(y)
  {
    HalfUpScale(x.n, x.d, y.d);
    HalfUpScale(y.n, y.d, x.d);
    assert x.d * y.d == y.d * x.d;
    HalfUpMonotone(x.n * y.d, y.n * x.d, x.d * y.d);
  }

  /** Rounding commutes with the greater and the smaller of two fractions. */
  lemma CentsOfExtremes(x: Fraction, y: Fraction)
    ensures Cents(Greater(x, y)) == if Cents(x) >= Cents(y) then Cents(x) else Cents(y)
    ensures Cents(Smaller(x, y)) == if Cents(x) <= Cents(y) then Cents(x) else Cents(y)
  {
    if AtMost(x, y) {
      CentsMonotone(x, y);
    }
    if AtMost(y, x) {
      CentsMonotone(y, x);
    }
  }

  lemma WholeCents(n: int)
    ensures Cents(Whole(n)) == n
  {
    HalfUpOfWhole(n, 1);
  }
}
