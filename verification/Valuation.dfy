/** What a transaction is worth on both its sides, computed twice: by the server and by
    the independent formula check. */
module Valuation {
  import opened Numerals
  import opened Decimals
  import opened DecimalRounding
  import opened ExactDecimals
  import opened BusinessDays
  import Rounding

  /** The quote is in units of the currency for one EUR. */
  datatype RateObservation = RateObservation(currency: string, date: string, quote: string)

  datatype SelectedRate = SelectedRate(quote: string, staleBusinessDays: nat)

  datatype Amounts = Amounts(fromNative: string, fromEur: string, toNative: string, toEur: string)

  datatype TransactionValuation = TransactionValuation(amounts: Amounts, stale: bool)

  const SOURCE_FX_ADJUSTMENT := "1.02"

  // ----- currencies and dates as text -----

  function UpperChar(c: char): char { if 'a' <= c <= 'z' then c - 32 as char else c }

  function ToUpper(s: string): (r: string)
    ensures |r| == |s| && forall i :: 0 <= i < |s| ==> r[i] == UpperChar(s[i])
  {
    seq(|s|, i requires 0 <= i < |s| => UpperChar(s[i]))
  }

  /** Each small letter becomes the capital at its place in the alphabet, all else stays. */
  lemma UpperIs(c: char)
    ensures if 'a' <= c <= 'z' then 'A' <= UpperChar(c) <= 'Z' && UpperChar(c) as int - 'A' as int == c as int - 'a' as int
            else UpperChar(c) == c
  {
  }

  predicate Upper(s: string) { forall i :: 0 <= i < |s| ==> !('a' <= s[i] <= 'z') }

  lemma UpperStays(s: string)
    requires Upper(s)
    ensures ToUpper(s) == s
  {
  }

  /** Text order. */
  predicate AtMost(a: string, b: string)
  {
    a == "" || (b != "" && (a[0] < b[0] || (a[0] == b[0] && AtMost(a[1..], b[1..]))))
  }

  // ----- the rate in force -----

  /** The latest observation of a currency on or before a day, the last of several. */
  function Latest(observations: seq<RateObservation>, currency: string, asOf: string, foldCase: bool): Option<RateObservation>
  {
    if observations == [] then None
    else
      var before := Latest(observations[..|observations| - 1], currency, asOf, foldCase);
      var last := observations[|observations| - 1];
      var same := if foldCase then ToUpper(last.currency) == ToUpper(currency) else last.currency == currency;
      if !same || !AtMost(last.date, asOf) then before
      else if before.Some? && !AtMost(before.value.date, last.date) then before
      else Some(last)
  }

  /** a comes before b as text: it is a prefix, or smaller where they first differ. */
  ghost predicate InTextOrder(a: string, b: string)
  {
    a <= b || exists k :: 0 <= k < |a| && k < |b| && a[..k] == b[..k] && a[k] < b[k]
  }

  lemma {:induction false} AtMostIs(a: string, b: string)
    ensures AtMost(a, b) <==> InTextOrder(a, b)
  {
    if a != "" && b != "" && a[0] == b[0] {
      AtMostIs(a[1..], b[1..]);
      if k :| 0 <= k < |a[1..]| && k < |b[1..]| && a[1..][..k] == b[1..][..k] && a[1..][k] < b[1..][k] {
        assert a[..k + 1] == [a[0]] + a[1..][..k] && b[..k + 1] == [b[0]] + b[1..][..k];
        assert a[k + 1] < b[k + 1];
      }
      if k :| 0 <= k < |a| && k < |b| && a[..k] == b[..k] && a[k] < b[k] {
        assert a[1..][..k - 1] == a[..k][1..] && b[1..][..k - 1] == b[..k][1..];
        assert a[1..][k - 1] < b[1..][k - 1];
      }
      assert a == [a[0]] + a[1..] && b == [b[0]] + b[1..];
    } else if a != "" && b != "" {
      assert a[..0] == b[..0];
    }
  }

  /** Any two texts are in order one way, and in both only when they are equal. */
  lemma {:induction false} TextOrderTotal(a: string, b: string)
    ensures AtMost(a, b) || AtMost(b, a)
    ensures AtMost(a, b) && AtMost(b, a) ==> a == b
  {
    if a != "" && b != "" && a[0] == b[0] {
      TextOrderTotal(a[1..], b[1..]);
      assert a == [a[0]] + a[1..] && b == [b[0]] + b[1..];
    }
  }

  lemma {:induction false} TextOrderThen(a: string, b: string, c: string)
    requires AtMost(a, b) && AtMost(b, c)
    ensures AtMost(a, c)
  {
    if a != "" && a[0] == b[0] == c[0] {
      TextOrderThen(a[1..], b[1..], c[1..]);
    }
  }

  ghost predicate Eligible(o: RateObservation, currency: string, asOf: string, foldCase: bool)
  {
    && (if foldCase then ToUpper(o.currency) == ToUpper(currency) else o.currency == currency)
    && InTextOrder(o.date, asOf)
  }

  /** Observation i is in force: it is of the currency and not after the day, no such
      observation is of a later date, and of those of its date it is the last. */
  ghost predicate Prevails(observations: seq<RateObservation>, currency: string, asOf: string, foldCase: bool, i: int)
  {
    && 0 <= i < |observations| && Eligible(observations[i], currency, asOf, foldCase)
    && forall j :: 0 <= j < |observations| && Eligible(observations[j], currency, asOf, foldCase) ==>
         InTextOrder(observations[j].date, observations[i].date) && (observations[j].date == observations[i].date ==> j <= i)
  }

  /** The observation selected is the one in force; there is one exactly when any is eligible. */
  lemma {:induction false} LatestIs(observations: seq<RateObservation>, currency: string, asOf: string, foldCase: bool) returns (i: int)
    ensures var latest := Latest(observations, currency, asOf, foldCase);
            && (latest.Some? <==> exists j :: 0 <= j < |observations| && Eligible(observations[j], currency, asOf, foldCase))
            && (latest.Some? ==> Prevails(observations, currency, asOf, foldCase, i) && latest.value == observations[i])
  {
    hide AtMost, InTextOrder, ToUpper;
    i := 0;
    if observations != [] {
      var front, n := observations[..|observations| - 1], |observations| - 1;
      var last := observations[n];
      assert observations == front + [last];
      i := LatestIs(front, currency, asOf, foldCase);
      AtMostIs(last.date, asOf);
      assert forall j :: 0 <= j < n ==> observations[j] == front[j];
      if Eligible(last, currency, asOf, foldCase) {
        if Latest(front, currency, asOf, foldCase).Some? {
          LatestOfTwo(front, last, currency, asOf, foldCase, i);
          if AtMost(front[i].date, last.date) {
            i := n;
          }
        } else {
          LatestAlone(last.date);
          i := n;
        }
      } else if Latest(front, currency, asOf, foldCase).Some? {
        assert Eligible(observations[i], currency, asOf, foldCase);
      } else {
        assert forall j :: 0 <= j < |observations| && Eligible(observations[j], currency, asOf, foldCase) ==> j < n && Eligible(front[j], currency, asOf, foldCase);
      }
    }
  }

  lemma LatestAlone(date: string)
    ensures InTextOrder(date, date)
  {
    assert date <= date;
  }

  lemma LatestOfTwo(front: seq<RateObservation>, last: RateObservation, currency: string, asOf: string, foldCase: bool, i: int)
    requires Prevails(front, currency, asOf, foldCase, i) && Eligible(last, currency, asOf, foldCase)
    ensures Prevails(front + [last], currency, asOf, foldCase, if AtMost(front[i].date, last.date) then |front| else i)
  {
    hide AtMost, InTextOrder, ToUpper;
    var all := front + [last];
    LatestAlone(last.date);
    TextOrderTotal(front[i].date, last.date);
    AtMostIs(front[i].date, last.date);
    AtMostIs(last.date, front[i].date);
    forall j | 0 <= j < |front| && Eligible(front[j], currency, asOf, foldCase) && AtMost(front[i].date, last.date)
      ensures InTextOrder(all[j].date, last.date)
    {
      AtMostIs(front[j].date, front[i].date);
      AtMostIs(front[j].date, last.date);
      TextOrderThen(front[j].date, front[i].date, last.date);
    }
  }

  /** There is one observation in force at most. */
  lemma OnePrevails(observations: seq<RateObservation>, currency: string, asOf: string, foldCase: bool, i: int, j: int)
    requires Prevails(observations, currency, asOf, foldCase, i) && Prevails(observations, currency, asOf, foldCase, j)
    ensures i == j
  {
    hide AtMost, InTextOrder, ToUpper;
    AtMostIs(observations[i].date, observations[j].date);
    AtMostIs(observations[j].date, observations[i].date);
    TextOrderTotal(observations[i].date, observations[j].date);
  }

  function SelectPriorRate(currency: string, asOf: string, observations: seq<RateObservation>): Option<SelectedRate>
  {
    if currency == "EUR" then Some(SelectedRate("1", 0))
    else
      match Latest(observations, currency, asOf, false)
      case None => None
      case Some(selected) =>
        var quote, stale := Parse(selected.quote), TargetBusinessDays(selected.date, asOf);
        if quote.None? || quote.value.coefficient <= 0 || stale.None? then None
        else Some(SelectedRate(selected.quote, stale.value))
  }

  // ----- the server's valuation -----

  function Rounds2(a: Ratio, rate: Ratio, mode: RoundingMode): string
    requires Proper(a) && Proper(rate)
  {
    RatioProper(a, rate, rate);
    Format(RoundDecimal(Multiply(a, rate), 2, mode))
  }

  const ONE := Ratio(1, 1)

  function Adjustment(inputCurrency: string): Option<Decimal>
  {
    if inputCurrency == "EUR" then Parse("1") else Parse(SOURCE_FX_ADJUSTMENT)
  }

  /** Rates to EUR and to the account currency, then the amounts they give. */
  function Valued(amount: Ratio, received: Ratio, adjustment: Ratio, input: Ratio, from: Ratio, to: Ratio,
                  sameCurrency: bool, mode: RoundingMode): Option<Amounts>
    requires Proper(amount) && Proper(received) && Proper(adjustment) && Proper(input) && Proper(from) && Proper(to)
  {
    RatioProper(adjustment, from, input);
    RatioProper(adjustment, ONE, input);
    RatioProper(ONE, ONE, to);
    var fromEurRate := Divide(adjustment, input);
    var fromNativeRate := if sameCurrency then Some(ONE) else Divide(Multiply(adjustment, from), input);
    var toEurRate := Divide(ONE, to);
    if fromEurRate.None? || fromNativeRate.None? || toEurRate.None? then None
    else Some(Amounts(Rounds2(amount, fromNativeRate.value, mode), Rounds2(amount, fromEurRate.value, mode),
                      Rounds2(received, ONE, mode), Rounds2(received, toEurRate.value, mode)))
  }

  function CalculateValuation(amount: string, inputCurrency: string, fromCurrency: string, toAmount: string, toCurrency: string,
                              asOf: string, observations: seq<RateObservation>, mode: RoundingMode): Option<TransactionValuation>
  {
    var value, received := Parse(amount), Parse(toAmount);
    var input := SelectPriorRate(inputCurrency, asOf, observations);
    var from := SelectPriorRate(fromCurrency, asOf, observations);
    var to := SelectPriorRate(toCurrency, asOf, observations);
    var adjustment := Adjustment(inputCurrency);
    if value.None? || received.None? || input.None? || from.None? || to.None? || adjustment.None? then None
    else
      var i, f, t := Parse(input.value.quote), Parse(from.value.quote), Parse(to.value.quote);
      if i.None? || f.None? || t.None? then None
      else
        var amounts := Valued(AsRatio(value.value), AsRatio(received.value), AsRatio(adjustment.value),
                              AsRatio(i.value), AsRatio(f.value), AsRatio(t.value), inputCurrency == fromCurrency, mode);
        if amounts.None? then None
        else
          var stale := input.value.staleBusinessDays > 3 || from.value.staleBusinessDays > 3 || to.value.staleBusinessDays > 3;
          Some(TransactionValuation(amounts.value, stale))
  }

  // ----- what the amounts are worth -----

  lemma RealProduct(a: int, p: int, b: int, q: int)
    requires p > 0 && q > 0
    ensures p * q > 0 && (a * b) as real / (p * q) as real == (a as real / p as real) * (b as real / q as real)
  {
    Rounding.MulMonotone(1, p, q);
    var x, y, z := a as real / p as real, b as real / q as real, (a * b) as real / (p * q) as real;
    assert x * p as real == a as real && y * q as real == b as real && z * (p * q) as real == (a * b) as real;
    assert (p * q) as real == p as real * q as real && (a * b) as real == a as real * b as real;
    assert (x * y) * (p as real * q as real) == (x * p as real) * (y * q as real);
    assert (z - x * y) * (p as real * q as real) == z * (p as real * q as real) - (x * y) * (p as real * q as real);
    ZeroFactor(z - x * y, p as real * q as real);
  }

  lemma MultiplyValue(a: Ratio, b: Ratio)
    requires Proper(a) && Proper(b)
    ensures Proper(Multiply(a, b)) && RatioValue(Multiply(a, b)) == RatioValue(a) * RatioValue(b)
  {
    RealProduct(a.numerator, a.denominator, b.numerator, b.denominator);
  }

  lemma DivideValue(a: Ratio, b: Ratio)
    requires Proper(a) && Proper(b) && b.numerator > 0
    ensures Divide(a, b).Some? && Proper(Divide(a, b).value) && RatioValue(b) > 0.0
    ensures RatioValue(Divide(a, b).value) * RatioValue(b) == RatioValue(a)
  {
    var c := Ratio(a.numerator * b.denominator, a.denominator * b.numerator);
    RealProduct(a.numerator, a.denominator, b.denominator, b.numerator);
    var x, y, z := RatioValue(a), b.denominator as real / b.numerator as real, b.numerator as real / b.denominator as real;
    Reciprocal(b.denominator as real, b.numerator as real);
    assert Divide(a, b) == Some(c) && RatioValue(c) == x * y;
    assert (x * y) * z == x * (y * z);
  }

  lemma Reciprocal(p: real, q: real)
    requires p > 0.0 && q > 0.0
    ensures (p / q) * (q / p) == 1.0 && q / p > 0.0
  {
    var x, y := p / q, q / p;
    assert x * q == p && y * p == q;
    assert (x * y) * (p * q) == (x * q) * (y * p);
    assert (x * y - 1.0) * (p * q) == (x * y) * (p * q) - p * q;
    ZeroFactor(x * y - 1.0, p * q);
  }

  /** The text reads as an amount within half a cent of x. */
  ghost predicate Near(text: string, x: real)
  {
    Parse(text).Some? && -0.005 <= Value(Parse(text).value) - x <= 0.005
  }

  lemma Rounds2Near(a: Ratio, rate: Ratio, mode: RoundingMode)
    requires Proper(a) && Proper(rate) && !mode.TowardZero?
    ensures Near(Rounds2(a, rate, mode), RatioValue(a) * RatioValue(rate))
  {
    hide Format, RoundDecimal, Multiply, Parse, Value, Pow10;
    MultiplyValue(a, rate);
    var r := Multiply(a, rate);
    RoundDecimalTwice(r, 2, mode);
    ParseFormat(RoundDecimal(r, 2, mode));
    RoundDecimalClose(r, 2, mode);
    OneCent();
  }

  lemma OneCent()
    ensures Value(Decimal(1, 2)) == 0.01
  {
    Hundred();
  }

  /** What a valuation is worth: the source side carries the surcharge and goes through the
      EUR quotes, the receiving side is taken as it is, each posted to the nearest cent. */
  lemma ValuedNear(amount: Ratio, received: Ratio, adjustment: Ratio, input: Ratio, from: Ratio, to: Ratio,
                   sameCurrency: bool, mode: RoundingMode)
    returns (eur: real, native: real, toEur: real)
    requires Proper(amount) && Proper(received) && Proper(adjustment) && Proper(input) && Proper(from) && Proper(to)
    requires input.numerator > 0 && to.numerator > 0 && !mode.TowardZero?
    ensures eur * RatioValue(input) == RatioValue(amount) * RatioValue(adjustment)
    ensures if sameCurrency then native == RatioValue(amount)
            else native * RatioValue(input) == RatioValue(amount) * RatioValue(adjustment) * RatioValue(from)
    ensures toEur * RatioValue(to) == RatioValue(received)
    ensures var amounts := Valued(amount, received, adjustment, input, from, to, sameCurrency, mode);
            && amounts.Some?
            && Near(amounts.value.fromEur, eur) && Near(amounts.value.fromNative, native)
            && Near(amounts.value.toEur, toEur) && Near(amounts.value.toNative, RatioValue(received))
  {
    hide Rounds2, Multiply, Divide, Near, RatioValue;
    OneValue();
    MultiplyValue(adjustment, from);
    DivideValue(adjustment, input);
    DivideValue(Multiply(adjustment, from), input);
    DivideValue(ONE, to);
    var x, y := Divide(adjustment, input).value, Divide(ONE, to).value;
    var z := if sameCurrency then ONE else Divide(Multiply(adjustment, from), input).value;
    eur := RatioValue(amount) * RatioValue(x);
    native := RatioValue(amount) * RatioValue(z);
    toEur := RatioValue(received) * RatioValue(y);
    Rounds2Near(amount, x, mode);
    Rounds2Near(amount, z, mode);
    Rounds2Near(received, ONE, mode);
    Rounds2Near(received, y, mode);
    Associates(RatioValue(amount), RatioValue(x), RatioValue(input));
    Associates(RatioValue(amount), RatioValue(z), RatioValue(input));
    Associates(RatioValue(received), RatioValue(y), RatioValue(to));
    Associates(RatioValue(amount), RatioValue(adjustment), RatioValue(from));
  }

  lemma Associates(a: real, b: real, c: real)
    ensures (a * b) * c == a * (b * c)
  {
  }

  lemma OneValue()
    ensures Proper(ONE) && RatioValue(ONE) == 1.0
  {
  }

  /** The quote in force, in units of the currency for one EUR: 1 for EUR itself. */
  ghost predicate InForce(currency: string, asOf: string, observations: seq<RateObservation>, quote: real, staleDays: int)
  {
    if currency == "EUR" then quote == 1.0 && staleDays == 0
    else
      exists i :: Prevails(observations, currency, asOf, false, i)
                  && Parse(observations[i].quote).Some? && quote == Value(Parse(observations[i].quote).value) && quote > 0.0
                  && Elapsed(observations[i].date, asOf, staleDays)
  }

  lemma SelectedIs(currency: string, asOf: string, observations: seq<RateObservation>)
    ensures var rate := SelectPriorRate(currency, asOf, observations);
            && (rate.Some? ==> Parse(rate.value.quote).Some? && Parse(rate.value.quote).value.coefficient > 0
                               && InForce(currency, asOf, observations, Value(Parse(rate.value.quote).value), rate.value.staleBusinessDays))
            && (rate.Some? <==> exists quote, days :: InForce(currency, asOf, observations, quote, days))
  {
    hide Parse, Latest, TargetBusinessDays, Elapsed, Value, Eligible, InTextOrder;
    ParseOne();
    OneIsOne();
    var rate := SelectPriorRate(currency, asOf, observations);
    if currency == "EUR" {
      assert InForce(currency, asOf, observations, 1.0, 0);
    } else {
      var i := LatestIs(observations, currency, asOf, false);
      if quote, days :| InForce(currency, asOf, observations, quote, days) {
        var j :| 0 <= j < |observations| && Prevails(observations, currency, asOf, false, j)
                 && Parse(observations[j].quote).Some? && quote == Value(Parse(observations[j].quote).value) && quote > 0.0
                 && Elapsed(observations[j].date, asOf, days);
        ElapsedIs(observations[j].date, asOf, days);
        OnePrevails(observations, currency, asOf, false, i, j);
        ValueSign(Parse(observations[j].quote).value);
      }
      if rate.Some? {
        ValueSign(Parse(rate.value.quote).value);
        ElapsedIs(observations[i].date, asOf, rate.value.staleBusinessDays);
        assert InForce(currency, asOf, observations, Value(Parse(rate.value.quote).value), rate.value.staleBusinessDays);
      }
    }
  }

  lemma OneIsOne()
    ensures Value(Decimal(1, 0)) == 1.0
  {
  }

  lemma ValueSign(d: Decimal)
    ensures d.coefficient > 0 <==> Value(d) > 0.0
  {
    hide Value;
    AsRatioValue(d);
    if d.coefficient > 0 {
      AsRatioSign(d);
    } else {
      AsRatioNotPositive(d);
    }
  }

  /** A valuation by the server, over exact numbers: the surcharge of two percent on the
      source side unless it is in EUR, and the quotes in force on the day. */
  lemma ValuationMeans(amount: string, inputCurrency: string, fromCurrency: string, toAmount: string, toCurrency: string,
                       asOf: string, observations: seq<RateObservation>, mode: RoundingMode)
    returns (eur: real, native: real, toEur: real, input: real, from: real, to: real, days: (int, int, int))
    requires CalculateValuation(amount, inputCurrency, fromCurrency, toAmount, toCurrency, asOf, observations, mode).Some?
    requires !mode.TowardZero?
    ensures Parse(amount).Some? && Parse(toAmount).Some?
    ensures InForce(inputCurrency, asOf, observations, input, days.0) && InForce(fromCurrency, asOf, observations, from, days.1)
            && InForce(toCurrency, asOf, observations, to, days.2)
    ensures var paid := Value(Parse(amount).value) * if inputCurrency == "EUR" then 1.0 else 1.02;
            && eur * input == paid
            && (if inputCurrency == fromCurrency then native == Value(Parse(amount).value) else native * input == paid * from)
            && toEur * to == Value(Parse(toAmount).value)
    ensures var valuation := CalculateValuation(amount, inputCurrency, fromCurrency, toAmount, toCurrency, asOf, observations, mode).value;
            && Near(valuation.amounts.fromEur, eur) && Near(valuation.amounts.fromNative, native)
            && Near(valuation.amounts.toEur, toEur) && Near(valuation.amounts.toNative, Value(Parse(toAmount).value))
            && (valuation.stale <==> days.0 > 3 || days.1 > 3 || days.2 > 3)
  {
    hide Parse, Value, Near, Valued, Latest, TargetBusinessDays, Adjustment, AsRatio, RatioValue, InForce;
    SelectedIs(inputCurrency, asOf, observations);
    SelectedIs(fromCurrency, asOf, observations);
    SelectedIs(toCurrency, asOf, observations);
    var i', f', t' := SelectPriorRate(inputCurrency, asOf, observations).value, SelectPriorRate(fromCurrency, asOf, observations).value,
                      SelectPriorRate(toCurrency, asOf, observations).value;
    var i, f, t := Parse(i'.quote).value, Parse(f'.quote).value, Parse(t'.quote).value;
    input, from, to, days := Value(i), Value(f), Value(t), (i'.staleBusinessDays, f'.staleBusinessDays, t'.staleBusinessDays);
    var value, received, adjustment := Parse(amount).value, Parse(toAmount).value, Adjustment(inputCurrency).value;
    AsRatioValue(value);
    AsRatioValue(received);
    AsRatioValue(adjustment);
    AsRatioValue(i);
    AsRatioValue(f);
    AsRatioValue(t);
    AsRatioSign(i);
    AsRatioSign(t);
    SurchargeIs(inputCurrency);
    eur, native, toEur := ValuedNear(AsRatio(value), AsRatio(received), AsRatio(adjustment), AsRatio(i), AsRatio(f), AsRatio(t),
                                     inputCurrency == fromCurrency, mode);
  }

  /** The surcharge text reads as 1.02. */
  lemma SurchargeIs(inputCurrency: string)
    ensures Adjustment(inputCurrency).Some? && Value(Adjustment(inputCurrency).value) == if inputCurrency == "EUR" then 1.0 else 1.02
  {
    hide Parse;
    ParseOne();
    ParseSurcharge();
    OneIsOne();
    SurchargeValue();
  }

  lemma SurchargeValue()
    ensures Value(Decimal(102, 2)) == 1.02
  {
    Hundred();
  }

  lemma ParseSurcharge()
    ensures Parse("1.02") == Some(Decimal(102, 2))
  {
    assert Numeral(102) == "102";
    assert Format(Decimal(102, 2)) == "1.02";
    ParseFormat(Decimal(102, 2));
  }

  lemma AsRatioNotPositive(d: Decimal)
    requires d.coefficient <= 0
    ensures AsRatio(d).numerator <= 0 && RatioValue(AsRatio(d)) <= 0.0
  {
  }

  /** A transaction is valued exactly when its amounts are readable and each of its three
      currencies has a positive quote in force whose age can be counted. */
  lemma ValuedWhen(amount: string, inputCurrency: string, fromCurrency: string, toAmount: string, toCurrency: string,
                   asOf: string, observations: seq<RateObservation>, mode: RoundingMode)
    ensures CalculateValuation(amount, inputCurrency, fromCurrency, toAmount, toCurrency, asOf, observations, mode).Some? <==>
            && Parse(amount).Some? && Parse(toAmount).Some?
            && (exists quote, days :: InForce(inputCurrency, asOf, observations, quote, days))
            && (exists quote, days :: InForce(fromCurrency, asOf, observations, quote, days))
            && (exists quote, days :: InForce(toCurrency, asOf, observations, quote, days))
  {
    hide Parse, Value, Latest, TargetBusinessDays, Adjustment, AsRatio, InForce, Rounds2;
    SelectedIs(inputCurrency, asOf, observations);
    SelectedIs(fromCurrency, asOf, observations);
    SelectedIs(toCurrency, asOf, observations);
    SurchargeIs(inputCurrency);
    var i, f, t := SelectPriorRate(inputCurrency, asOf, observations), SelectPriorRate(fromCurrency, asOf, observations), SelectPriorRate(toCurrency, asOf, observations);
    if i.Some? && f.Some? && t.Some? {
      var i', t' := Parse(i.value.quote).value, Parse(t.value.quote).value;
      AsRatioSign(i');
      AsRatioSign(t');
    }
  }

  lemma AsRatioSign(d: Decimal)
    requires d.coefficient > 0
    ensures AsRatio(d).numerator > 0
  {
  }

  // ----- fractions of one value -----

  predicate SameRatio(a: Ratio, b: Ratio)
  {
    Proper(a) && Proper(b) && a.numerator * b.denominator == b.numerator * a.denominator
  }

  lemma MultiplySame(a: Ratio, b: Ratio, c: Ratio, d: Ratio)
    requires SameRatio(a, b) && SameRatio(c, d)
    ensures SameRatio(Multiply(a, c), Multiply(b, d))
  {
    RatioProper(a, c, c);
    RatioProper(b, d, d);
    Regroup(a.numerator, c.numerator, b.denominator, d.denominator);
    Regroup(b.numerator, d.numerator, a.denominator, c.denominator);
  }

  lemma Regroup(a: int, b: int, c: int, d: int)
    ensures (a * b) * (c * d) == (a * c) * (b * d)
  {
    assert (a * b) * (c * d) == a * (b * (c * d));
    assert b * (c * d) == c * (b * d);
    assert (a * c) * (b * d) == a * (c * (b * d));
  }

  lemma DivideSame(a: Ratio, b: Ratio, c: Ratio, d: Ratio)
    requires SameRatio(a, b) && SameRatio(c, d) && c.numerator > 0 && d.numerator > 0
    ensures Divide(a, c).Some? && Divide(b, d).Some? && SameRatio(Divide(a, c).value, Divide(b, d).value)
  {
    RatioProper(a, a, c);
    RatioProper(b, b, d);
    Rounding.MulMonotone(1, a.denominator, c.numerator);
    Rounding.MulMonotone(1, b.denominator, d.numerator);
    Regroup(a.numerator, c.denominator, b.denominator, d.numerator);
    Regroup(b.numerator, d.denominator, a.denominator, c.numerator);
  }

  /** Equal fractions round to the same text. */
  lemma RoundSame(a: Ratio, b: Ratio)
    requires SameRatio(a, b)
    ensures RoundDecimal(a, 2, ToEven) == RoundDecimal(b, 2, ToEven)
  {
    hide Rounded, Rounding.HalfEven, Normalized;
    Hundred();
    var n, m := a.numerator * Pow10(2), b.numerator * Pow10(2);
    RoundedToEven(n, a.denominator);
    RoundedToEven(m, b.denominator);
    assert n * b.denominator == 100 * (a.numerator * b.denominator);
    assert m * a.denominator == 100 * (b.numerator * a.denominator);
    Rounding.HalfEvenScaled(n, a.denominator, m, b.denominator);
  }

  // ----- the independent check -----

  function NewRatio(numerator: int, denominator: int): Option<Ratio>
  {
    if denominator == 0 then None
    else if denominator < 0 then Some(Ratio(-numerator, -denominator))
    else Some(Ratio(numerator, denominator))
  }

  method FromDecimal(value: string) returns (r: Option<Ratio>)
    ensures r.Some? <==> Parse(value).Some?
    ensures r.Some? ==> SameRatio(r.value, AsRatio(Parse(value).value))
    ensures r.Some? ==> (r.value.numerator > 0 <==> Parse(value).value.coefficient > 0)
  {
    hide Parse, Format, Pow10;
    var x := ParseExactDecimal(value);
    if x.None? {
      return None;
    }
    var n: int := ValueOf(x.value.digits);
    if x.value.negative {
      n := -n;
    }
    r := NewRatio(n, Pow10(x.value.scale));
    ExactRatio(Stands(x.value));
  }

  lemma ExactRatio(d: Decimal)
    ensures SameRatio(Ratio(d.coefficient, Pow10(d.scale)), AsRatio(Normalized(d)))
    ensures d.coefficient > 0 <==> Normalized(d).coefficient > 0
  {
    hide Pow10, Normalized;
    NormalizedValue(d);
    ValuesSame(d, Normalized(d));
    var e := Normalized(d);
    Rounding.MulCancel(0, 0, 1);
    SignOfProduct(d.coefficient, Pow10(e.scale));
    SignOfProduct(e.coefficient, Pow10(d.scale));
  }

  lemma SignOfProduct(a: int, p: int)
    requires p > 0
    ensures a > 0 <==> a * p > 0
  {
  }

  /** Rounds the magnitude and puts the sign back. */
  method RoundHalfEven2(r: Ratio) returns (text: string)
    requires Proper(r)
    ensures text == Format(RoundDecimal(r, 2, ToEven))
  {
    hide Format, Normalized, Rounded, ValueOf, Pow10, Abs;
    var scaled := r.numerator * 100;
    var negative := scaled < 0;
    var magnitude := if negative then -scaled else scaled;
    var quotient, remainder := magnitude / r.denominator, magnitude % r.denominator;
    var roundUp := 2 * remainder > r.denominator || (2 * remainder == r.denominator && quotient % 2 != 0);
    if roundUp {
      quotient := quotient + 1;
    }
    var rounded := if negative then -quotient else quotient;
    RoundedMagnitude(scaled, r.denominator, quotient);
    Hundred();
    var digits := Numeral(Abs(rounded));
    NumeralValue(Abs(rounded));
    assert Signed(rounded < 0, Abs(rounded)) == rounded by { SignedAbs(rounded); }
    text := FormatExactDecimal(ExactDecimal(rounded < 0, digits, 2));
  }

  lemma RoundedMagnitude(scaled: int, d: int, quotient: int)
    requires d > 0 && quotient == Rounding.HalfEven(if scaled < 0 then -scaled else scaled, d)
    ensures Rounded(scaled, d, ToEven) == if scaled < 0 then -quotient else quotient
  {
    hide Rounded, Rounding.HalfEven;
    Rounding.HalfEvenOdd(scaled, d);
    RoundedToEven(scaled, d);
  }

  lemma Hundred()
    ensures Pow10(2) == 100
  {
    assert Pow10(1) == 10;
  }

  lemma SignedAbs(n: int)
    ensures Signed(n < 0, Abs(n)) == n
  {
  }

  method FormulaReferenceQuote(currency: string, asOf: string, observations: seq<RateObservation>) returns (r: Option<Ratio>)
    ensures r.Some? ==> Proper(r.value) && r.value.numerator > 0
    ensures ToUpper(currency) == "EUR" ==> r == Some(ONE)
    ensures ToUpper(currency) != "EUR" ==>
              var selected := Latest(observations, currency, asOf, true);
              && (r.Some? <==> selected.Some? && Parse(selected.value.quote).Some? && Parse(selected.value.quote).value.coefficient > 0)
              && (r.Some? ==> SameRatio(r.value, AsRatio(Parse(selected.value.quote).value)))
    ensures ToUpper(currency) != "EUR" && r.Some? ==>
              exists i :: Prevails(observations, currency, asOf, true, i) && Parse(observations[i].quote).Some?
                          && SameRatio(r.value, AsRatio(Parse(observations[i].quote).value))
  {
    ghost var i := LatestIs(observations, currency, asOf, true);
    if ToUpper(currency) == ToUpper("EUR") {
      UpperStays("EUR");
      return Some(ONE);
    }
    UpperStays("EUR");
    var selected := Latest(observations, currency, asOf, true);
    if selected.None? {
      return None;
    }
    r := FromDecimal(selected.value.quote);
    if r.Some? && r.value.numerator <= 0 {
      r := None;
    }
  }

  /** Products and quotients as the check forms them, refusing a zero denominator. */
  function MultiplyExact(a: Ratio, b: Ratio): Option<Ratio>
  {
    NewRatio(a.numerator * b.numerator, a.denominator * b.denominator)
  }

  function DivideExact(a: Ratio, b: Ratio): Option<Ratio>
  {
    NewRatio(a.numerator * b.denominator, a.denominator * b.numerator)
  }

  lemma ExactOperations(a: Ratio, b: Ratio)
    requires Proper(a) && Proper(b)
    ensures MultiplyExact(a, b) == Some(Multiply(a, b)) && Proper(Multiply(a, b))
    ensures DivideExact(a, b) == Divide(a, b)
    ensures b.numerator != 0 ==> Proper(Divide(a, b).value)
  {
    RatioProper(a, b, b);
    Rounding.MulMonotone(1, a.denominator, b.denominator);
    ProductSign(a.denominator, b.numerator);
  }

  /** The check's amounts from its own fractions. */
  method FormulaAmounts(amount: Ratio, received: Ratio, adjustment: Ratio, input: Ratio, from: Ratio, to: Ratio, sameCurrency: bool)
    returns (r: Option<Amounts>)
    requires Proper(amount) && Proper(received) && Proper(adjustment) && Proper(input) && Proper(from) && Proper(to)
    requires input.numerator > 0 && to.numerator > 0
    ensures r == Valued(amount, received, adjustment, input, from, to, sameCurrency, ToEven)
  {
    hide Format, RoundDecimal, Multiply, Divide, MultiplyExact, DivideExact;
    ExactOperations(adjustment, input);
    ExactOperations(adjustment, from);
    ExactOperations(Multiply(adjustment, from), input);
    ExactOperations(ONE, to);
    var fromEurRate := DivideExact(adjustment, input);
    var fromNativeRate := Some(ONE);
    if !sameCurrency {
      var cross := MultiplyExact(adjustment, from);
      fromNativeRate := DivideExact(cross.value, input);
    }
    var toEurRate := DivideExact(ONE, to);
    DividesBy(adjustment, input);
    DividesBy(Multiply(adjustment, from), input);
    DividesBy(ONE, to);
    var fromNative := RoundProduct(amount, fromNativeRate.value);
    var fromEur := RoundProduct(amount, fromEurRate.value);
    var toNative := RoundProduct(received, ONE);
    var toEur := RoundProduct(received, toEurRate.value);
    r := Some(Amounts(fromNative, fromEur, toNative, toEur));
  }

  lemma DividesBy(a: Ratio, b: Ratio)
    requires b.numerator > 0
    ensures Divide(a, b).Some?
  {
  }

  method RoundProduct(a: Ratio, rate: Ratio) returns (text: string)
    requires Proper(a) && Proper(rate)
    ensures text == Rounds2(a, rate, ToEven)
  {
    hide Format, RoundDecimal, Multiply, MultiplyExact;
    ExactOperations(a, rate);
    var product := MultiplyExact(a, rate);
    text := RoundHalfEven2(product.value);
  }

  lemma Rounds2Same(a: Ratio, b: Ratio, x: Ratio, y: Ratio)
    requires SameRatio(a, b) && SameRatio(x, y)
    ensures Rounds2(a, x, ToEven) == Rounds2(b, y, ToEven)
  {
    hide Format, RoundDecimal, Multiply;
    MultiplySame(a, b, x, y);
    RoundSame(Multiply(a, x), Multiply(b, y));
  }

  /** Equal fractions are valued the same, however they are written. */
  lemma ValuedSame(amount: Ratio, received: Ratio, adjustment: Ratio, input: Ratio, from: Ratio, to: Ratio,
                   amount': Ratio, received': Ratio, adjustment': Ratio, input': Ratio, from': Ratio, to': Ratio, sameCurrency: bool)
    requires SameRatio(amount, amount') && SameRatio(received, received') && SameRatio(adjustment, adjustment')
    requires SameRatio(input, input') && SameRatio(from, from') && SameRatio(to, to')
    requires input.numerator > 0 && to.numerator > 0 && input'.numerator > 0 && to'.numerator > 0
    ensures Valued(amount, received, adjustment, input, from, to, sameCurrency, ToEven) ==
            Valued(amount', received', adjustment', input', from', to', sameCurrency, ToEven)
  {
    hide Rounds2, Multiply, Divide;
    MultiplySame(adjustment, adjustment', from, from');
    DivideSame(Multiply(adjustment, from), Multiply(adjustment', from'), input, input');
    DivideSame(adjustment, adjustment', input, input');
    DivideSame(ONE, ONE, to, to');
    Rounds2Same(amount, amount', Divide(adjustment, input).value, Divide(adjustment', input').value);
    if sameCurrency {
      Rounds2Same(amount, amount', ONE, ONE);
    } else {
      Rounds2Same(amount, amount', Divide(Multiply(adjustment, from), input).value, Divide(Multiply(adjustment', from'), input').value);
    }
    Rounds2Same(received, received', ONE, ONE);
    Rounds2Same(received, received', Divide(ONE, to).value, Divide(ONE, to').value);
  }

  // ----- the two agree -----

  ghost predicate UpperCurrencies(observations: seq<RateObservation>)
  {
    forall i :: 0 <= i < |observations| ==> Upper(observations[i].currency)
  }

  lemma {:induction false} LatestSame(observations: seq<RateObservation>, currency: string, asOf: string)
    requires UpperCurrencies(observations) && Upper(currency)
    ensures Latest(observations, currency, asOf, true) == Latest(observations, currency, asOf, false)
  {
    if observations != [] {
      LatestSame(observations[..|observations| - 1], currency, asOf);
      UpperStays(currency);
      UpperStays(observations[|observations| - 1].currency);
    }
  }

  /** A rate the server selects is the quote the check uses. */
  lemma QuoteSame(currency: string, asOf: string, observations: seq<RateObservation>)
    requires UpperCurrencies(observations) && Upper(currency) && SelectPriorRate(currency, asOf, observations).Some?
    ensures var rate := SelectPriorRate(currency, asOf, observations).value;
            && Parse(rate.quote).Some? && Parse(rate.quote).value.coefficient > 0
            && (currency == "EUR" ==> AsRatio(Parse(rate.quote).value) == ONE)
            && (currency != "EUR" ==>
                  && Latest(observations, currency, asOf, true).Some?
                  && Latest(observations, currency, asOf, true).value.quote == rate.quote)
  {
    hide Parse, Latest;
    LatestSame(observations, currency, asOf);
    ParseOne();
  }

  lemma ParseOne()
    ensures Parse("1") == Some(Decimal(1, 0)) && AsRatio(Decimal(1, 0)) == ONE
  {
    assert Numeral(1) == "1";
    assert Format(Decimal(1, 0)) == "1";
    ParseFormat(Decimal(1, 0));
  }

  /** The independent check. Whenever the server values a transaction with half-even
      rounding, the check does too, and all four amounts have the same text. */
  method FormulaReferenceValuation(amount: string, inputCurrency: string, fromCurrency: string, toAmount: string, toCurrency: string,
                                   asOf: string, observations: seq<RateObservation>) returns (r: Option<Amounts>)
    ensures UpperCurrencies(observations) && Upper(inputCurrency) && Upper(fromCurrency) && Upper(toCurrency) ==>
              var valuation := CalculateValuation(amount, inputCurrency, fromCurrency, toAmount, toCurrency, asOf, observations, ToEven);
              valuation.Some? ==> r == Some(valuation.value.amounts)
  {
    hide Parse, Latest, Valued, TargetBusinessDays;
    var value := FromDecimal(amount);
    var received := FromDecimal(toAmount);
    var inputUpper, fromUpper, toUpper := ToUpper(inputCurrency), ToUpper(fromCurrency), ToUpper(toCurrency);
    var input := FormulaReferenceQuote(inputUpper, asOf, observations);
    var from := FormulaReferenceQuote(fromUpper, asOf, observations);
    var to := FormulaReferenceQuote(toUpper, asOf, observations);
    var adjustment := Some(ONE);
    if inputUpper != "EUR" {
      adjustment := FromDecimal(SOURCE_FX_ADJUSTMENT);
    }
    if value.None? || received.None? || input.None? || from.None? || to.None? || adjustment.None? {
      r := None;
    } else {
      r := FormulaAmounts(value.value, received.value, adjustment.value, input.value, from.value, to.value, inputUpper == fromUpper);
    }
    if UpperCurrencies(observations) && Upper(inputCurrency) && Upper(fromCurrency) && Upper(toCurrency)
       && CalculateValuation(amount, inputCurrency, fromCurrency, toAmount, toCurrency, asOf, observations, ToEven).Some? {
      UpperStays(inputCurrency);
      UpperStays(fromCurrency);
      UpperStays(toCurrency);
      QuoteSame(inputCurrency, asOf, observations);
      QuoteSame(fromCurrency, asOf, observations);
      QuoteSame(toCurrency, asOf, observations);
      ParseOne();
      var i := AsRatio(Parse(SelectPriorRate(inputCurrency, asOf, observations).value.quote).value);
      var f := AsRatio(Parse(SelectPriorRate(fromCurrency, asOf, observations).value.quote).value);
      var t := AsRatio(Parse(SelectPriorRate(toCurrency, asOf, observations).value.quote).value);
      ValuedSame(value.value, received.value, adjustment.value, input.value, from.value, to.value,
                 AsRatio(Parse(amount).value), AsRatio(Parse(toAmount).value), AsRatio(Adjustment(inputCurrency).value), i, f, t,
                 inputCurrency == fromCurrency);
    }
  }
}
