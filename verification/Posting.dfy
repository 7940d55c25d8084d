/** The ledger's whole numbers of units and the server's decimal text say the same: a
    proportion posted on text is the proportion posted in units. */
module Posting {
  import opened Numerals
  import opened Decimals
  import opened DecimalRounding
  import Rounding
  import LedgerFacts

  /** The decimal is worth that many units, `cent` of them to the cent. */
  predicate InUnits(d: Decimal, cent: nat, units: int)
  {
    d.coefficient * (100 * cent) == units * Pow10(d.scale)
  }

  lemma InUnitsSame(a: Decimal, b: Decimal, cent: nat, units: int)
    requires InUnits(a, cent, units) && SameValue(a, b)
    ensures InUnits(b, cent, units)
  {
    hide Pow10;
    var p, q, w := Pow10(a.scale), Pow10(b.scale), 100 * cent;
    assert (b.coefficient * w) * p == (a.coefficient * w) * q by {
      Swap(b.coefficient, w, p);
      Swap(a.coefficient, w, q);
    }
    Swap(units, p, q);
    SameFactor(b.coefficient * w, units * q, p);
  }

  lemma Swap(a: int, b: int, c: int)
    ensures (a * b) * c == (a * c) * b
  {
  }

  lemma Hundred()
    ensures Pow10(2) == 100
  {
    assert Pow10(1) == 10;
  }

  /** The product of two amounts over a third, both as ratio of decimals and in units. */
  lemma CrossProducts(a: int, p: int, b: int, q: int, e: int, s: int, w: int, v: int, n: int, d: int)
    requires a * w == v * p && b * w == n * q && e * w == d * s
    ensures (a * b * s) * (d * w) == (v * n) * (p * q * e)
  {
    assert (v * n) * (p * q) == (v * p) * (n * q);
    assert (v * p) * (n * q) == (a * w) * (b * w);
    assert (v * n) * (p * q * e) == ((a * w) * (b * w)) * e;
    assert ((a * w) * (b * w)) * e == (a * b) * w * (e * w);
    assert (a * b) * w * (e * w) == (a * b) * w * (d * s);
    assert (a * b * s) * (d * w) == (a * b) * w * (d * s);
  }

  /** Posting a proportion on decimal text is posting it in units. */
  lemma ProportionPosted(value: string, numerator: string, denominator: string, cent: nat, v: int, n: int, d: int)
    requires cent > 0 && d != 0
    requires Parse(value).Some? && InUnits(Parse(value).value, cent, v)
    requires Parse(numerator).Some? && InUnits(Parse(numerator).value, cent, n)
    requires Parse(denominator).Some? && InUnits(Parse(denominator).value, cent, d)
    ensures ProportionalText(value, numerator, denominator).Some?
    ensures var text := ProportionalText(value, numerator, denominator).value;
            Parse(text).Some? && InUnits(Parse(text).value, cent, LedgerFacts.Proportional(cent, v, n, d))
  {
    hide Parse, Format, Pow10, RoundDecimal, InUnits, LedgerFacts.Proportional, Multiply, Divide;
    var x, y, z := Parse(value).value, Parse(numerator).value, Parse(denominator).value;
    var r := ProportionRatio(x, y, z, cent, v, n, d);
    ProportionRounds(r, cent, v * n, d);
    ProportionalIs(cent, v, n, d);
    RatioProper(AsRatio(x), AsRatio(y), AsRatio(z));
    RoundDecimalTwice(r, 2, ToEven);
    ParseFormat(RoundDecimal(r, 2, ToEven));
  }

  lemma ProportionalIs(cent: nat, v: int, n: int, d: int)
    requires cent > 0 && d != 0
    ensures (if d > 0 then d * cent > 0 else -d * cent > 0)
    ensures LedgerFacts.Proportional(cent, v, n, d) ==
            if d > 0 then cent * Rounding.HalfEven(v * n, d * cent) else cent * Rounding.HalfEven(-(v * n), -d * cent)
  {
  }

  lemma ProportionRatio(x: Decimal, y: Decimal, z: Decimal, cent: nat, v: int, n: int, d: int) returns (r: Ratio)
    requires cent > 0 && d != 0 && InUnits(x, cent, v) && InUnits(y, cent, n) && InUnits(z, cent, d)
    ensures Divide(Multiply(AsRatio(x), AsRatio(y)), AsRatio(z)) == Some(r) && Proper(r)
    ensures r.numerator * (if d > 0 then d * (100 * cent) else -d * (100 * cent)) == (if d > 0 then v * n else -(v * n)) * r.denominator
  {
    hide Pow10;
    var p, q, s, w := Pow10(x.scale), Pow10(y.scale), Pow10(z.scale), 100 * cent;
    var a, b, e := x.coefficient, y.coefficient, z.coefficient;
    SameSign(e, w, d, s);
    Rounding.MulMonotone(1, p, q);
    assert Multiply(AsRatio(x), AsRatio(y)) == Ratio(a * b, p * q);
    ProductSign(p * q, e);
    SignOf(p * q, e);
    CrossProducts(a, p, b, q, e, s, w, v, n, d);
    r := if e < 0 then Ratio(-(a * b * s), -(p * q * e)) else Ratio(a * b * s, p * q * e);
    Signs(a * b * s, d * w, v * n, p * q * e);
    assert -d * w == -(d * w);
  }

  lemma SameSign(e: int, w: int, d: int, s: int)
    requires w > 0 && s > 0 && e * w == d * s && d != 0
    ensures e != 0 && (e > 0 <==> d > 0)
  {
    SignOf(w, e);
    SignOf(s, d);
    assert e * w == w * e && d * s == s * d;
  }

  lemma SignOf(p: int, e: int)
    requires p > 0
    ensures (p * e > 0 <==> e > 0) && (p * e < 0 <==> e < 0)
  {
  }

  lemma Signs(a: int, b: int, c: int, d: int)
    requires a * b == c * d
    ensures (-a) * (-b) == (-c) * (-d)
  {
  }

  /** A ratio equal to n / (d * cent) hundredths rounds to the units the ledger posts. */
  lemma ProportionRounds(r: Ratio, cent: nat, n: int, d: int)
    requires cent > 0 && d != 0 && Proper(r)
    requires r.numerator * (if d > 0 then d * (100 * cent) else -d * (100 * cent)) == (if d > 0 then n else -n) * r.denominator
    ensures InUnits(RoundDecimal(r, 2, ToEven), cent,
                    if d > 0 then cent * Rounding.HalfEven(n, d * cent) else cent * Rounding.HalfEven(-n, -d * cent))
  {
    hide Pow10, Rounding.HalfEven, Rounded, Normalized, InUnits;
    var m, c := if d > 0 then n else -n, if d > 0 then d else -d;
    Rounding.MulMonotone(1, c, cent);
    var scaled := r.numerator * 100;
    assert scaled * (c * cent) == r.numerator * (c * (100 * cent));
    Hundred();
    RoundedToEven(scaled, r.denominator);
    Rounding.HalfEvenScaled(scaled, r.denominator, m, c * cent);
    var h := Rounding.HalfEven(m, c * cent);
    NormalizedValue(Decimal(h, 2));
    ValuesSame(Decimal(h, 2), Normalized(Decimal(h, 2)));
    WholeCents(h, cent);
    InUnitsSame(Decimal(h, 2), Normalized(Decimal(h, 2)), cent, cent * h);
  }

  lemma WholeCents(h: int, cent: nat)
    ensures InUnits(Decimal(h, 2), cent, cent * h)
  {
    hide Pow10;
    Hundred();
    assert h * (100 * cent) == (cent * h) * 100;
  }
}
