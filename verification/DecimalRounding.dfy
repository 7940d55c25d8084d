/** Fractions and their rounding to a decimal, in the three rounding modes. */
module DecimalRounding {
  import opened Numerals
  import opened Decimals
  import opened Rounding

  datatype RoundingMode = HalfAwayFromZero | ToEven | TowardZero

  datatype Ratio = Ratio(numerator: int, denominator: int)

  predicate Proper(r: Ratio) { r.denominator > 0 }

  function NormalizedRatio(r: Ratio): Ratio
  {
    if r.denominator < 0 then Ratio(-r.numerator, -r.denominator) else r
  }

  function AsRatio(d: Decimal): Ratio { NormalizedRatio(Ratio(d.coefficient, Pow10(d.scale))) }

  function Multiply(a: Ratio, b: Ratio): Ratio
  {
    NormalizedRatio(Ratio(a.numerator * b.numerator, a.denominator * b.denominator))
  }

  function Divide(a: Ratio, b: Ratio): Option<Ratio>
  {
    if b.numerator == 0 then None
    else Some(NormalizedRatio(Ratio(a.numerator * b.denominator, a.denominator * b.numerator)))
  }

  /** Division as Rust does it: toward zero. */
  function Quotient(n: int, d: int): int
    requires d > 0
  {
    if n < 0 then -(-n / d) else n / d
  }

  /** A truncated quotient of n/d moved away from zero when the mode asks for it. */
  function Adjusted(n: int, d: int, quotient: int, mode: RoundingMode): int
  {
    var twice := 2 * Abs(n - quotient * d);
    var increment :=
      match mode
      case TowardZero => false
      case HalfAwayFromZero => twice >= d
      case ToEven => twice > d || (twice == d && quotient % 2 != 0);
    if !increment then quotient else if n < 0 then quotient - 1 else quotient + 1
  }

  function Rounded(n: int, d: int, mode: RoundingMode): int
    requires d > 0
  {
    Adjusted(n, d, Quotient(n, d), mode)
  }

  function RoundDecimal(r: Ratio, scale: nat, mode: RoundingMode): Decimal
    requires Proper(r)
  {
    Normalized(Decimal(Rounded(r.numerator * Pow10(scale), r.denominator, mode), scale))
  }

  // ----- what the modes mean -----

  /** v is the integer that n/d rounds to. */
  predicate Rounds(n: int, d: int, v: int, mode: RoundingMode)
  {
    match mode
    case TowardZero => if n < 0 then (v - 1) * d < n <= v * d <= 0 else 0 <= v * d <= n < (v + 1) * d
    case HalfAwayFromZero =>
      var e := 2 * (n - v * d);
      -d <= e <= d && (e == d ==> n < 0) && (e == -d ==> n > 0)
    case ToEven => Nearest(n, d, v)
  }

  /** The rounded quotient meets the meaning of its mode, and nothing else does. */
  lemma RoundedMeans(n: int, d: int, v: int, mode: RoundingMode)
    requires d > 0
    ensures v == Rounded(n, d, mode) <==> Rounds(n, d, v, mode)
  {
    RoundedMeets(n, d, mode);
    if Rounds(n, d, v, mode) {
      RoundsOnce(n, d, v, Rounded(n, d, mode), mode);
    }
  }

  lemma RoundedMeets(n: int, d: int, mode: RoundingMode)
    requires d > 0
    ensures Rounds(n, d, Rounded(n, d, mode), mode)
  {
    hide Rounds, Rounded;
    if n >= 0 {
      MagnitudeMeets(n, d, mode);
    } else {
      MagnitudeMeets(-n, d, mode);
      RoundedSign(-n, d, mode);
      RoundsSign(-n, d, Rounded(-n, d, mode), mode);
    }
  }

  lemma MagnitudeMeets(n: nat, d: int, mode: RoundingMode)
    requires d > 0
    ensures Rounds(n, d, Rounded(n, d, mode), mode)
  {
    var q, r := Rounding.Divide(n, d);
    assert Quotient(n, d) == q;
    assert (q + 1) * d == q * d + d && (q + 2) * d == q * d + 2 * d;
    assert q * d >= 0;
  }

  lemma RoundedSign(n: int, d: int, mode: RoundingMode)
    requires d > 0 && n >= 0
    ensures Rounded(-n, d, mode) == -Rounded(n, d, mode)
  {
    if n == 0 {
      DivMod(0, d, 0, 0);
    } else {
      AdjustedSign(n, d, Quotient(n, d), mode);
    }
  }

  lemma AdjustedSign(n: int, d: int, q: int, mode: RoundingMode)
    requires n > 0
    ensures Adjusted(-n, d, -q, mode) == -Adjusted(n, d, q, mode)
  {
    assert (-q) * d == -(q * d);
  }

  lemma RoundsSign(n: int, d: int, v: int, mode: RoundingMode)
    requires d > 0 && Rounds(n, d, v, mode)
    ensures Rounds(-n, d, -v, mode)
  {
    assert (-v) * d == -(v * d) && (-v - 1) * d == -((v + 1) * d) && (-v + 1) * d == -((v - 1) * d);
    if n == 0 && mode.TowardZero? {
      Between(v, 0, d);
    }
  }

  lemma RoundsOnce(n: int, d: int, v: int, w: int, mode: RoundingMode)
    requires d > 0 && Rounds(n, d, v, mode) && Rounds(n, d, w, mode)
    ensures v == w
  {
    match mode
    case TowardZero =>
      Between(v, w, d);
    case HalfAwayFromZero =>
      Between(v, w, d);
    case ToEven =>
      hide Nearest, HalfEven;
      HalfEvenNearest(n, d, v);
      HalfEvenNearest(n, d, w);
  }

  /** Different integers are at least one unit apart. */
  lemma Between(v: int, w: int, d: int)
    requires d > 0
    ensures v < w ==> v * d + d <= w * d
    ensures w < v ==> w * d + d <= v * d
    ensures (v + 1) * d == v * d + d && (v - 1) * d == v * d - d
    ensures (w + 1) * d == w * d + d && (w - 1) * d == w * d - d
  {
    if v < w {
      MulMonotone(v + 1, w, d);
    } else if w < v {
      MulMonotone(w + 1, v, d);
    }
  }

  /** To-even rounding of the truncated quotient is rounding to the nearest even. */
  lemma RoundedToEven(n: int, d: int)
    requires d > 0
    ensures Rounded(n, d, ToEven) == HalfEven(n, d)
  {
    hide HalfEven, Rounded, Nearest;
    var v := HalfEven(n, d);
    HalfEvenNearest(n, d, v);
    RoundedMeans(n, d, v, ToEven);
  }

  // ----- laws of every mode -----

  lemma RoundedOdd(n: int, d: int, mode: RoundingMode)
    requires d > 0
    ensures Rounded(-n, d, mode) == -Rounded(n, d, mode)
  {
    hide Rounded, Rounds;
    var v := Rounded(n, d, mode);
    RoundedMeans(n, d, v, mode);
    RoundsSign(n, d, v, mode);
    RoundedMeans(-n, d, -v, mode);
  }

  lemma RoundedWhole(k: int, d: int, mode: RoundingMode)
    requires d > 0
    ensures Rounded(k * d, d, mode) == k
  {
    hide Rounded;
    Between(k, 0, d);
    assert 0 * d == 0;
    RoundedMeans(k * d, d, k, mode);
  }

  lemma RoundedMonotone(n: int, m: int, d: int, mode: RoundingMode)
    requires d > 0 && n <= m
    ensures Rounded(n, d, mode) <= Rounded(m, d, mode)
  {
    hide Rounded;
    var v, w := Rounded(n, d, mode), Rounded(m, d, mode);
    RoundedMeans(n, d, v, mode);
    RoundedMeans(m, d, w, mode);
    Between(v, w, d);
    if w < v && mode.ToEven? {
      assert 2 * (n - v * d) == -d && 2 * (m - w * d) == d;
      RoundedMeans(m, d, v, mode);
    }
  }

  /** A fraction written with a multiple of its denominator rounds the same. */
  lemma RoundedScaled(n: int, d: int, k: int, mode: RoundingMode)
    requires d > 0 && k > 0
    ensures d * k > 0 && Rounded(n * k, d * k, mode) == Rounded(n, d, mode)
  {
    hide Rounded, Rounds;
    var v := Rounded(n, d, mode);
    RoundedMeans(n, d, v, mode);
    MulMonotone(1, d, k);
    RoundsScaled(n, d, v, k, mode);
    RoundedMeans(n * k, d * k, v, mode);
  }

  lemma RoundsScaled(n: int, d: int, v: int, k: int, mode: RoundingMode)
    requires d > 0 && k > 0 && d * k > 0 && Rounds(n, d, v, mode)
    ensures Rounds(n * k, d * k, v, mode)
  {
    hide Nearest;
    match mode {
      case TowardZero =>
        TowardZeroScaled(n, d, v, k);
      case HalfAwayFromZero =>
        HalfAwayScaled(n, d, v, k);
      case ToEven =>
        TimesInto(n, d, k);
        assert n * (d * k) == (n * k) * d;
        NearestScaled(n, d, n * k, d * k, v);
    }
  }

  lemma TowardZeroScaled(n: int, d: int, v: int, k: int)
    requires d > 0 && k > 0 && Rounds(n, d, v, TowardZero)
    ensures Rounds(n * k, d * k, v, TowardZero)
  {
    TimesInto(v - 1, d, k);
    TimesInto(v, d, k);
    TimesInto(v + 1, d, k);
    TimesOrder(n, 0, k);
    if n < 0 {
      TimesOrder((v - 1) * d, n, k);
      TimesOrder(n, v * d, k);
      TimesOrder(v * d, 0, k);
    } else {
      TimesOrder(0, v * d, k);
      TimesOrder(v * d, n, k);
      TimesOrder(n, (v + 1) * d, k);
    }
  }

  lemma TimesInto(v: int, d: int, k: int)
    ensures v * (d * k) == (v * d) * k
  {
  }

  lemma HalfAwayScaled(n: int, d: int, v: int, k: int)
    requires d > 0 && k > 0 && Rounds(n, d, v, HalfAwayFromZero)
    ensures Rounds(n * k, d * k, v, HalfAwayFromZero)
  {
    var e := 2 * (n - v * d);
    TimesInto(v, d, k);
    assert 2 * (n * k - v * (d * k)) == e * k;
    TimesOrder(e, d, k);
    TimesOrder(-d, e, k);
    TimesOrder(d, e, k);
    TimesOrder(n, 0, k);
  }

  lemma TimesOrder(a: int, b: int, k: int)
    requires k > 0
    ensures a <= b <==> a * k <= b * k
    ensures a < b <==> a * k < b * k
    ensures a == b <==> a * k == b * k
    ensures (-a) * k == -(a * k) && 0 * k == 0
  {
    if a < b {
      MulMonotone(a + 1, b, k);
      assert (a + 1) * k == a * k + k;
    } else if b < a {
      MulMonotone(b + 1, a, k);
      assert (b + 1) * k == b * k + k;
    }
  }

  // ----- rounding to decimals -----

  ghost function RatioValue(r: Ratio): real
    requires Proper(r)
  {
    r.numerator as real / r.denominator as real
  }

  lemma AsRatioValue(d: Decimal)
    ensures Proper(AsRatio(d)) && RatioValue(AsRatio(d)) == Value(d)
  {
  }

  /** Larger amounts never round to smaller ones. */
  lemma RoundDecimalMonotone(a: Ratio, b: Ratio, scale: nat, mode: RoundingMode)
    requires Proper(a) && Proper(b) && RatioValue(a) <= RatioValue(b)
    ensures Value(RoundDecimal(a, scale, mode)) <= Value(RoundDecimal(b, scale, mode))
  {
    hide Rounded, Normalized, Value, Pow10;
    var p := Pow10(scale);
    Fractions(a.numerator, a.denominator, b.numerator, b.denominator);
    var x, y := a.numerator * p * b.denominator, b.numerator * p * a.denominator;
    assert x == (a.numerator * b.denominator) * p && y == (b.numerator * a.denominator) * p;
    MulMonotone(a.numerator * b.denominator, b.numerator * a.denominator, p);
    var d := a.denominator * b.denominator;
    assert d == b.denominator * a.denominator;
    RoundedScaled(a.numerator * p, a.denominator, b.denominator, mode);
    RoundedScaled(b.numerator * p, b.denominator, a.denominator, mode);
    RoundedMonotone(x, y, d, mode);
    var v, w := Rounded(a.numerator * p, a.denominator, mode), Rounded(b.numerator * p, b.denominator, mode);
    NormalizedValue(Decimal(v, scale));
    NormalizedValue(Decimal(w, scale));
    ValueMonotone(v, w, scale);
  }

  lemma ValueMonotone(v: int, w: int, scale: nat)
    requires v <= w
    ensures Value(Decimal(v, scale)) <= Value(Decimal(w, scale))
  {
    hide Pow10;
    MulMonotone(v, w, Pow10(scale));
    Fractions(v, Pow10(scale), w, Pow10(scale));
  }

  /** Rounding treats both signs alike. */
  lemma RoundDecimalOdd(r: Ratio, scale: nat, mode: RoundingMode)
    requires Proper(r)
    ensures Value(RoundDecimal(Ratio(-r.numerator, r.denominator), scale, mode)) == -Value(RoundDecimal(r, scale, mode))
  {
    hide Rounded, Normalized, Value, Pow10;
    var n := r.numerator * Pow10(scale);
    assert (-r.numerator) * Pow10(scale) == -n;
    RoundedOdd(n, r.denominator, mode);
    var d := Decimal(Rounded(n, r.denominator, mode), scale);
    NormalizedValue(d);
    NormalizedValue(Negated(d));
    NegatedValue(d);
  }

  /** An amount that needs no more digits than asked for is kept as it is. */
  lemma RoundDecimalKeeps(d: Decimal, scale: nat, mode: RoundingMode)
    requires Normal(d) && d.scale <= scale
    ensures RoundDecimal(AsRatio(d), scale, mode) == d
  {
    hide Rounded, Normalized, Value, Pow10, Normal;
    var k := scale - d.scale;
    PowAdd(d.scale, k);
    var p, q := Pow10(d.scale), Pow10(k);
    assert d.coefficient * (p * q) == (d.coefficient * q) * p;
    RoundedWhole(d.coefficient * q, p, mode);
    Rescaled(d, k);
    NormalizedValue(Decimal(d.coefficient * q, scale));
    NormalUnique(d, Normalized(Decimal(d.coefficient * q, scale)));
  }

  /** Rounding a rounded amount again changes nothing. */
  lemma RoundDecimalTwice(r: Ratio, scale: nat, mode: RoundingMode)
    requires Proper(r)
    ensures Normal(RoundDecimal(r, scale, mode)) && RoundDecimal(r, scale, mode).scale <= scale
    ensures RoundDecimal(AsRatio(RoundDecimal(r, scale, mode)), scale, mode) == RoundDecimal(r, scale, mode)
  {
    hide Rounded;
    RoundDecimalKeeps(RoundDecimal(r, scale, mode), scale, mode);
  }

  /** Half-way modes stay within half a unit of the last digit, truncation within one. */
  lemma RoundDecimalClose(r: Ratio, scale: nat, mode: RoundingMode)
    requires Proper(r)
    ensures var error := Value(RoundDecimal(r, scale, mode)) - RatioValue(r);
            var unit := Value(Decimal(1, scale));
            if mode.TowardZero? then -unit < error < unit else -unit <= 2.0 * error <= unit
  {
    hide Rounded, Normalized, Pow10, Rounds;
    var n, d, p := r.numerator, r.denominator, Pow10(scale);
    var v := Rounded(n * p, d, mode);
    NormalizedValue(Decimal(v, scale));
    RoundedMeans(n * p, d, v, mode);
    var gap := v * d - n * p;
    assert if mode.TowardZero? then -d < gap < d else -d <= 2 * gap <= d by {
      RoundsGap(n * p, d, v, mode);
    }
    CloseReals(v, n, d, p, mode.TowardZero?);
  }

  lemma CloseReals(v: int, n: int, d: int, p: int, whole: bool)
    requires d > 0 && p > 0
    requires if whole then -d < v * d - n * p < d else -d <= 2 * (v * d - n * p) <= d
    ensures var error, unit := v as real / p as real - n as real / d as real, 1 as real / p as real;
            if whole then -unit < error < unit else -unit <= 2.0 * error <= unit
  {
    GapOver(v, n, d, p);
    var scaled, error, unit := p as real * d as real, v as real / p as real - n as real / d as real, 1 as real / p as real;
    ScaledBounds(error, unit, scaled, (v * d - n * p) as real, d as real, whole);
  }

  lemma ScaledBounds(error: real, unit: real, scaled: real, gap: real, d: real, whole: bool)
    requires scaled > 0.0 && error * scaled == gap && unit * scaled == d
    requires if whole then -d < gap < d else -d <= 2.0 * gap <= d
    ensures if whole then -unit < error < unit else -unit <= 2.0 * error <= unit
  {
    if whole {
      RealLess(error, unit, scaled);
      RealLess(-error, unit, scaled);
    } else {
      RealAtMost(2.0 * error, unit, scaled);
      RealAtMost(-2.0 * error, unit, scaled);
    }
  }

  lemma RoundsGap(n: int, d: int, v: int, mode: RoundingMode)
    requires d > 0 && Rounds(n, d, v, mode)
    ensures if mode.TowardZero? then -d < v * d - n < d else -d <= 2 * (v * d - n) <= d
  {
    Between(v, v, d);
  }

  lemma GapOver(v: int, n: int, d: int, p: int)
    requires d > 0 && p > 0
    ensures (v as real / p as real - n as real / d as real) * (p as real * d as real) == (v * d - n * p) as real
    ensures (1 as real / p as real) * (p as real * d as real) == d as real
    ensures p as real * d as real > 0.0
  {
    var x, y, z := v as real / p as real, n as real / d as real, 1 as real / p as real;
    assert x * p as real == v as real && y * d as real == n as real && z * p as real == 1.0;
    assert (x - y) * (p as real * d as real) == (x * p as real) * d as real - (y * d as real) * p as real;
    assert z * (p as real * d as real) == (z * p as real) * d as real;
  }

  lemma RealLess(a: real, b: real, k: real)
    requires k > 0.0 && a * k < b * k
    ensures a < b
  {
    assert (a - b) * k == a * k - b * k;
  }

  lemma RealAtMost(a: real, b: real, k: real)
    requires k > 0.0 && a * k <= b * k
    ensures a <= b
  {
    assert (a - b) * k == a * k - b * k;
  }

  // ----- amounts as posted -----

  function RoundPosted(value: string, scale: nat): Option<string>
  {
    match Parse(value)
    case None => None
    case Some(d) =>
      AsRatioValue(d);
      Some(Format(RoundDecimal(AsRatio(d), scale, ToEven)))
  }

  /** A posted amount is read back and posted again without change. */
  lemma PostedTwice(value: string, scale: nat)
    requires scale <= MAX_SCALE && RoundPosted(value, scale).Some?
    ensures RoundPosted(RoundPosted(value, scale).value, scale) == RoundPosted(value, scale)
  {
    hide Format, RoundDecimal, Parse;
    var d := Parse(value).value;
    AsRatioValue(d);
    RoundDecimalTwice(AsRatio(d), scale, ToEven);
    ParseFormat(RoundDecimal(AsRatio(d), scale, ToEven));
  }

  /** value * numerator / denominator, posted to the cent. */
  function ProportionalText(value: string, numerator: string, denominator: string): Option<string>
  {
    var v, n, d := Parse(value), Parse(numerator), Parse(denominator);
    if v.None? || n.None? || d.None? then None
    else
      var r := Divide(Multiply(AsRatio(v.value), AsRatio(n.value)), AsRatio(d.value));
      if r.None? then None
      else
        RatioProper(AsRatio(v.value), AsRatio(n.value), AsRatio(d.value));
        Some(Format(RoundDecimal(r.value, 2, ToEven)))
  }

  lemma RatioProper(a: Ratio, b: Ratio, c: Ratio)
    requires Proper(a) && Proper(b) && Proper(c)
    ensures Proper(Multiply(a, b))
    ensures c.numerator != 0 ==> Proper(Divide(a, c).value) && Proper(Divide(Multiply(a, b), c).value)
  {
    MulMonotone(1, a.denominator, b.denominator);
    var x := Multiply(a, b);
    ProductSign(a.denominator, c.numerator);
    ProductSign(x.denominator, c.numerator);
  }

  lemma ProductSign(a: int, b: int)
    requires a > 0
    ensures b == 0 <==> a * b == 0
  {
  }
}
