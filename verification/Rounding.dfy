/** Rounding a fraction to the nearest integer, ties to even: the posting rule. */
module Rounding {

  /** The nearest integer to n/d; of two equally near ones the even one. */
  function HalfEven(n: int, d: int): int
    requires d > 0
  {
    var q, r := n / d, n % d;
    if 2 * r < d || (2 * r == d && q % 2 == 0) then q else q + 1
  }

  /** n/d lies exactly half way between two integers. */
  predicate Tie(n: int, d: int)
    requires d > 0
  {
    2 * (n % d) == d
  }

  // ----- multiplication and division -----

  lemma MulMonotone(a: int, b: int, d: int)
    requires a <= b && 0 <= d
    ensures a * d <= b * d
  {
    assert (b - a) * d >= 0;
  }

  /** Multiplication by a positive number can be cancelled. */
  lemma MulCancel(a: int, b: int, d: int)
    requires 0 < d && a * d <= b * d
    ensures a <= b
  {
    assert (b + 1) * d == b * d + d;
    if b + 1 <= a {
      MulMonotone(b + 1, a, d);
    }
  }

  /** Quotient and remainder are the only numbers that fit. */
  lemma DivMod(n: int, d: int, q: int, r: int)
    requires d > 0 && n == q * d + r && 0 <= r < d
    ensures n / d == q && n % d == r
  {
    var p, s := n / d, n % d;
    assert n == p * d + s;
    assert (p + 1) * d == p * d + d && (q + 1) * d == q * d + d;
    if q + 1 <= p {
      MulMonotone(q + 1, p, d);
    } else if p + 1 <= q {
      MulMonotone(p + 1, q, d);
    }
  }

  /** HalfEven by quotient and remainder. */
  lemma HalfEvenBy(n: int, d: int, q: int, r: int)
    requires d > 0 && n == q * d + r && 0 <= r < d
    ensures HalfEven(n, d) == if 2 * r < d || (2 * r == d && q % 2 == 0) then q else q + 1
    ensures Tie(n, d) <==> 2 * r == d
  {
    DivMod(n, d, q, r);
  }

  lemma Divide(n: int, d: int) returns (q: int, r: int)
    requires d > 0
    ensures n == q * d + r && 0 <= r < d && q == n / d
  {
    q, r := n / d, n % d;
  }

  // ----- what rounding to nearest, ties to even means -----

  /** v is a nearest integer to n/d, and even when there are two. */
  predicate Nearest(n: int, d: int, v: int)
  {
    var e := 2 * (n - v * d);
    -d <= e <= d && ((e == d || e == -d) ==> v % 2 == 0)
  }

  /** The rounded value is the nearest even one, and no other number is. */
  lemma HalfEvenNearest(n: int, d: int, v: int)
    requires d > 0
    ensures v == HalfEven(n, d) <==> Nearest(n, d, v)
  {
    hide HalfEven;
    var q, r := Divide(n, d);
    HalfEvenBy(n, d, q, r);
    var k := v - q;
    assert v * d == q * d + k * d;
    if k >= 2 {
      MulMonotone(2, k, d);
    } else if k <= -1 {
      MulMonotone(k, -1, d);
    }
  }

  lemma HalfEvenWhole(k: int, d: int)
    requires d > 0
    ensures HalfEven(k * d, d) == k && !Tie(k * d, d)
  {
    hide HalfEven, Tie;
    HalfEvenBy(k * d, d, k, 0);
  }

  /** A fraction written with another denominator rounds the same. */
  lemma HalfEvenScaled(n: int, d: int, m: int, e: int)
    requires d > 0 && e > 0 && n * e == m * d
    ensures HalfEven(n, d) == HalfEven(m, e)
  {
    hide HalfEven, Nearest;
    var v := HalfEven(n, d);
    HalfEvenNearest(n, d, v);
    NearestScaled(n, d, m, e, v);
    HalfEvenNearest(m, e, v);
  }

  lemma NearestScaled(n: int, d: int, m: int, e: int, v: int)
    requires d > 0 && e > 0 && n * e == m * d && Nearest(n, d, v)
    ensures Nearest(m, e, v)
  {
    var x, y := 2 * (n - v * d), 2 * (m - v * e);
    assert x * e == y * d by {
      assert x * e == 2 * (n * e) - 2 * (v * d * e);
      assert y * d == 2 * (m * d) - 2 * (v * e * d);
      assert v * d * e == v * e * d;
    }
    MulMonotone(x, d, e);
    MulMonotone(-d, x, e);
    assert d * e == e * d && (-d) * e == (-e) * d;
    MulCancel(y, e, d);
    MulCancel(-e, y, d);
    if y == e {
      MulCancel(x, d, e);
      MulCancel(d, x, e);
    } else if y == -e {
      MulCancel(x, -d, e);
      MulCancel(-d, x, e);
    }
  }

  /** Rounding is odd: it treats both signs alike. */
  lemma HalfEvenOdd(n: int, d: int)
    requires d > 0
    ensures HalfEven(-n, d) == -HalfEven(n, d)
  {
    hide HalfEven;
    var v := HalfEven(n, d);
    HalfEvenNearest(n, d, v);
    HalfEvenNearest(-n, d, -v);
    assert (-v) * d == -(v * d);
  }

  /** Two parts of a whole number of units round to that whole, except that a tie
      with an odd whole is off by one. */
  lemma HalfEvenParts(n: int, d: int, whole: int)
    requires d > 0
    ensures var sum := HalfEven(n, d) + HalfEven(whole * d - n, d);
            if Tie(n, d) && whole % 2 == 1 then sum == whole - 1 || sum == whole + 1
            else sum == whole
  {
    hide HalfEven, Tie;
    var q, r := Divide(n, d);
    HalfEvenBy(n, d, q, r);
    if r == 0 {
      assert whole * d - n == (whole - q) * d + 0;
      HalfEvenBy(whole * d - n, d, whole - q, 0);
    } else {
      assert whole * d - n == (whole - q - 1) * d + (d - r);
      HalfEvenBy(whole * d - n, d, whole - q - 1, d - r);
    }
  }
}
