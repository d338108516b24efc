/** Products and quotients of reals, one step at a time. */
module RealArithmetic {

  function Abs(x: real): real {
    if x < 0.0 then -x else x
  }

  lemma QuotientTimes(a: real, d: real)
    requires d != 0.0
    ensures a / d * d == a
  {
  }

  lemma Positive(a: real, d: real)
    requires a > 0.0 && d > 0.0
    ensures a * d > 0.0
  {
  }

  lemma Subtract(x: real, y: real, d: real)
    ensures (y - x) * d == y * d - x * d
  {
  }

  lemma Opposite(a: real, d: real, e: real)
    requires e == -d
    ensures a * e == -(a * d)
  {
  }

  lemma ScaleMonotone(x: real, y: real, d: real)
    requires d > 0.0
    ensures x <= y ==> x * d <= y * d
    ensures x < y ==> x * d < y * d
  {
    if x < y {
      Positive(y - x, d);
      Subtract(x, y, d);
    }
  }

  lemma ScaleReverses(x: real, y: real, d: real)
    requires d < 0.0
    ensures x <= y ==> y * d <= x * d
    ensures x < y ==> y * d < x * d
  {
    var e := -d;
    ScaleMonotone(x, y, e);
    Opposite(x, d, e);
    Opposite(y, d, e);
  }

  lemma CancelFactor(p: real, q: real, d: real)
    requires d != 0.0
    ensures p * d == q * d ==> p == q
    ensures (if d > 0.0 then p * d <= q * d else q * d <= p * d) ==> p <= q
  {
    if d > 0.0 {
      ScaleMonotone(q, p, d);
      ScaleMonotone(p, q, d);
    } else {
      ScaleReverses(q, p, d);
      ScaleReverses(p, q, d);
    }
  }

  /** A quotient is what gives the dividend back. */
  lemma QuotientIs(x: real, f: real, d: real)
    requires d != 0.0 && x == f * d
    ensures x / d == f
  {
    QuotientTimes(x, d);
    CancelFactor(x / d, f, d);
  }

  lemma Units(d: real)
    ensures 1.0 * d == d && 0.0 * d == 0.0
  {
  }

  lemma DivideSelf(d: real)
    requires d != 0.0
    ensures d / d == 1.0 && 0.0 / d == 0.0
  {
    Units(d);
    QuotientIs(d, 1.0, d);
    QuotientIs(0.0, 0.0, d);
  }

  lemma Reorder(q: real, d: real, n: real)
    ensures q * n * d == q * d * n
  {
  }

  lemma DivideFirst(a: real, n: real, d: real)
    requires d != 0.0
    ensures a * n / d == a / d * n
  {
    QuotientTimes(a, d);
    Reorder(a / d, d, n);
    QuotientIs(a * n, a / d * n, d);
  }

  /** Dividing keeps the order, or turns it round for a negative divisor. */
  lemma DivideMonotone(a: real, b: real, d: real)
    requires d != 0.0 && (if d > 0.0 then a <= b else a >= b)
    ensures a / d <= b / d
  {
    QuotientTimes(a, d);
    QuotientTimes(b, d);
    CancelFactor(a / d, b / d, d);
  }

  /** A part of a range is within it. */
  lemma Portion(f: real, d: real)
    requires 0.0 <= f <= 1.0
    ensures d > 0.0 ==> 0.0 <= f * d <= d
    ensures d < 0.0 ==> d <= f * d <= 0.0
  {
    Units(d);
    if d > 0.0 {
      ScaleMonotone(0.0, f, d);
      ScaleMonotone(f, 1.0, d);
    } else if d < 0.0 {
      ScaleReverses(0.0, f, d);
      ScaleReverses(f, 1.0, d);
    }
  }

  /** A difference `e` of two parts of a range, and the same difference `w` counted in `n` levels. */
  lemma Distribute(v: real, n: real, p: real, d: real, e: real, w: real)
    requires e == v * d - p * d && w == v * n - p * n
    ensures n * e == w * d
  {
    assert n * (v * d) == v * n * d && n * (p * d) == p * n * d;
    Subtract(p * n, v * n, d);
  }

  /** A bound on a product either way bounds it without its sign. */
  lemma AbsProduct(n: real, e: real, bound: real)
    requires -bound <= n * e <= bound
    ensures 2.0 * n * Abs(e) <= 2.0 * bound
  {
    var a := Abs(e);
    Doubled(n, a);
    if e < 0.0 {
      Opposite(n, e, a);
    }
  }

  lemma Doubled(n: real, e: real)
    ensures 2.0 * n * e == 2.0 * (n * e)
  {
  }
}
