/** A second implementation of decimal addition, on strings of digits, and its
    agreement with the first. */
module ExactDecimals {
  import opened Numerals
  import opened Decimals
  import opened Rounding

  /** A sign, digits without leading zeros, and how many of them follow the point. */
  datatype ExactDecimal = ExactDecimal(negative: bool, digits: string, scale: nat)

  ghost predicate Valid(x: ExactDecimal)
  {
    AllDigits(x.digits) && x.digits != ""
  }

  /** The decimal an exact decimal stands for, zeros at the end kept. */
  function Stands(x: ExactDecimal): Decimal
    requires AllDigits(x.digits)
  {
    Decimal(Signed(x.negative, ValueOf(x.digits)), x.scale)
  }

  // ----- digit strings -----

  method TrimLeadingZeros(value: string) returns (r: string)
    requires AllDigits(value)
    ensures AllDigits(r) && r != "" && ValueOf(r) == ValueOf(value)
    ensures r == Numeral(ValueOf(value))
  {
    var i := 0;
    while i < |value| && value[i] == '0'
      invariant i <= |value| && value[..i] == Zeros(i)
    {
      i := i + 1;
    }
    r := value[i..];
    assert value == Zeros(i) + r;
    ValueLeadingZeros(i, r);
    if r == "" {
      r := "0";
      NumeralValue(0);
    }
    NumeralOfValue(r);
    NumeralValue(ValueOf(value));
  }

  method CompareMagnitudes(a: string, b: string) returns (order: int)
    requires AllDigits(a) && AllDigits(b)
    ensures order < 0 <==> ValueOf(a) < ValueOf(b)
    ensures order == 0 <==> ValueOf(a) == ValueOf(b)
  {
    var left := TrimLeadingZeros(a);
    var right := TrimLeadingZeros(b);
    if |left| != |right| {
      LongerIsLarger(ValueOf(a), ValueOf(b));
      return if |left| < |right| then -1 else 1;
    }
    var i := 0;
    while i < |left| && left[i] == right[i]
      invariant i <= |left| && left[..i] == right[..i]
    {
      i := i + 1;
    }
    if i == |left| {
      assert left == right;
      order := 0;
    } else {
      FirstDifference(left, right, i);
      order := if left[i] < right[i] then -1 else 1;
    }
  }

  lemma LongerIsLarger(m: nat, n: nat)
    requires |Numeral(m)| != |Numeral(n)|
    ensures m < n <==> |Numeral(m)| < |Numeral(n)|
    ensures m != n
  {
    hide Numeral, ValueOf, Pow10;
    if |Numeral(m)| < |Numeral(n)| {
      ShorterIsSmaller(m, n);
    } else {
      ShorterIsSmaller(n, m);
    }
  }

  lemma ShorterIsSmaller(m: nat, n: nat)
    requires |Numeral(m)| < |Numeral(n)|
    ensures m < n
  {
    NumeralValue(m);
    NumeralValue(n);
    hide Numeral, ValueOf, Pow10;
    ValueBound(Numeral(m));
    if n > 0 {
      ValueBound(Numeral(n));
      PowMonotone(|Numeral(m)|, |Numeral(n)| - 1);
    }
  }

  lemma {:induction false} PowMonotone(a: nat, b: nat)
    requires a <= b
    ensures Pow10(a) <= Pow10(b)
  {
    if a < b {
      PowMonotone(a, b - 1);
    }
  }

  /** Of two strings of one length the one with the larger first difference is larger. */
  lemma FirstDifference(a: string, b: string, i: nat)
    requires AllDigits(a) && AllDigits(b) && |a| == |b| && i < |a| && a[..i] == b[..i] && a[i] != b[i]
    ensures ValueOf(a) < ValueOf(b) <==> a[i] < b[i]
    ensures ValueOf(a) != ValueOf(b)
  {
    hide ValueOf, Pow10;
    SplitAt(a, i);
    SplitAt(b, i);
    var k := Pow10(|a| - i - 1);
    ValueBound(a[i + 1..]);
    ValueBound(b[i + 1..]);
    var u, v := DigitOf(a[i]), DigitOf(b[i]);
    Apart(u, v, k);
  }

  lemma ValuePrepended(c: char, s: string)
    requires Digit(c) && AllDigits(s)
    ensures AllDigits([c] + s) && ValueOf([c] + s) == DigitOf(c) * Pow10(|s|) + ValueOf(s)
  {
    assert ValueOf([c]) == DigitOf(c) by {
      assert [c][..0] == "";
    }
    hide ValueOf, Pow10;
    ValueConcat([c], s);
  }

  lemma SplitAt(s: string, i: nat)
    requires AllDigits(s) && i < |s|
    ensures ValueOf(s) == ValueOf(s[..i]) * Pow10(|s| - i) + DigitOf(s[i]) * Pow10(|s| - i - 1) + ValueOf(s[i + 1..])
  {
    hide ValueOf, Pow10;
    assert s == s[..i] + s[i..];
    ValueConcat(s[..i], s[i..]);
    assert s[i..] == [s[i]] + s[i + 1..];
    ValuePrepended(s[i], s[i + 1..]);
  }

  lemma Apart(u: int, v: int, k: int)
    requires k > 0
    ensures u < v ==> u * k + k <= v * k
    ensures v < u ==> v * k + k <= u * k
  {
    if u < v {
      MulMonotone(u + 1, v, k);
    } else if v < u {
      MulMonotone(v + 1, u, k);
    }
    assert (u + 1) * k == u * k + k && (v + 1) * k == v * k + k;
  }

  // ----- carry and borrow -----

  /** The digit k places from the right, 0 beyond the left end. */
  function DigitAt(s: string, k: nat): nat
    requires AllDigits(s)
  {
    if k < |s| then DigitOf(s[|s| - 1 - k]) else 0
  }

  lemma DigitSmall(s: string, k: nat)
    requires AllDigits(s)
    ensures DigitAt(s, k) < 10 && (k >= |s| ==> DigitAt(s, k) == 0)
    ensures forall d: nat :: d < 10 ==> Digit(CharOf(d)) && DigitOf(CharOf(d)) == d
  {
  }

  lemma PowStep(k: nat)
    ensures Pow10(k + 1) == 10 * Pow10(k) && Pow10(0) == 1
  {
  }

  /** What the last k digits are worth. */
  function Tail(s: string, k: nat): nat
    requires AllDigits(s)
  {
    if k == 0 then 0 else Tail(s, k - 1) + DigitAt(s, k - 1) * Pow10(k - 1)
  }

  /** The last k characters, or all if there are fewer. */
  function Suffix(s: string, k: nat): string
  {
    if k < |s| then s[|s| - k..] else s
  }

  lemma {:induction false} TailIs(s: string, k: nat)
    requires AllDigits(s)
    ensures AllDigits(Suffix(s, k)) && Tail(s, k) == ValueOf(Suffix(s, k))
  {
    hide ValueOf, Pow10, DigitOf;
    if k == 0 {
      EmptyValue(Suffix(s, 0));
    } else {
      TailIs(s, k - 1);
      if k <= |s| {
        SuffixNext(s, k);
        ValuePrepended(s[|s| - k], Suffix(s, k - 1));
      } else {
        assert DigitAt(s, k - 1) == 0;
      }
    }
  }

  lemma SuffixNext(s: string, k: nat)
    requires 0 < k <= |s|
    ensures Suffix(s, k) == [s[|s| - k]] + Suffix(s, k - 1) && |Suffix(s, k - 1)| == k - 1
  {
  }

  lemma EmptyValue(s: string)
    requires s == ""
    ensures ValueOf(s) == 0
  {
  }

  function Reversed(s: string): (r: string)
    ensures |r| == |s| && forall i :: 0 <= i < |s| ==> r[i] == s[|s| - 1 - i]
  {
    seq(|s|, i requires 0 <= i < |s| => s[|s| - 1 - i])
  }

  /** One digit more at the left end. */
  lemma Prepended(s: string, c: char)
    requires AllDigits(s) && Digit(c)
    ensures AllDigits(Reversed(s + [c])) && AllDigits(Reversed(s))
    ensures ValueOf(Reversed(s + [c])) == DigitOf(c) * Pow10(|s|) + ValueOf(Reversed(s))
  {
    hide ValueOf, Pow10, DigitOf, Reversed;
    assert Reversed(s + [c]) == [c] + Reversed(s);
    ValuePrepended(c, Reversed(s));
  }

  /** Column addition with carry. */
  method AddMagnitudes(left: string, right: string) returns (sum: string)
    requires AllDigits(left) && AllDigits(right)
    ensures AllDigits(sum) && ValueOf(sum) == ValueOf(left) + ValueOf(right)
  {
    hide ValueOf, DigitAt, CharOf, Reversed, Pow10;
    var k, carry, result := 0, 0, "";
    EmptyValue(Reversed(result));
    PowStep(k);
    while k < |left| || k < |right| || carry != 0
      invariant 0 <= carry <= 1 && |result| == k && AllDigits(result) && AllDigits(Reversed(result))
      invariant k > |left| && k > |right| ==> carry == 0
      invariant ValueOf(Reversed(result)) + carry * Pow10(k) == Tail(left, k) + Tail(right, k)
      decreases |left| + |right| + 1 - k
    {
      DigitSmall(left, k);
      DigitSmall(right, k);
      PowStep(k);
      var total := DigitAt(left, k) + DigitAt(right, k) + carry;
      var c := CharOf(total % 10);
      Prepended(result, c);
      Carried(DigitAt(left, k), DigitAt(right, k), carry, Pow10(k));
      result := result + [c];
      carry := total / 10;
      k := k + 1;
    }
    TailIs(left, k);
    TailIs(right, k);
    sum := Reversed(result);
  }

  lemma Carried(a: int, b: int, carry: int, p: int)
    ensures var t := a + b + carry; (t % 10) * p + (t / 10) * (10 * p) == a * p + b * p + carry * p
  {
    var t := a + b + carry;
    assert t == 10 * (t / 10) + t % 10;
    assert (t / 10) * (10 * p) == (10 * (t / 10)) * p;
  }

  /** Column subtraction with borrow; zeros at the left end are dropped. */
  method SubtractMagnitudes(larger: string, smaller: string) returns (difference: string)
    requires AllDigits(larger) && AllDigits(smaller) && larger != ""
    requires ValueOf(smaller) <= ValueOf(larger)
    ensures AllDigits(difference) && ValueOf(difference) == ValueOf(larger) - ValueOf(smaller)
  {
    hide ValueOf, DigitAt, CharOf, Reversed, Pow10;
    var borrow, result := 0, "";
    EmptyValue(Reversed(result));
    for k := 0 to |larger|
      invariant 0 <= borrow <= 1 && |result| == k && AllDigits(result) && AllDigits(Reversed(result))
      invariant ValueOf(Reversed(result)) + Tail(smaller, k) == Tail(larger, k) + borrow * Pow10(k)
    {
      DigitSmall(larger, k);
      DigitSmall(smaller, k);
      PowStep(k);
      var a, b := DigitAt(larger, k), DigitAt(smaller, k);
      var d := a - borrow - b;
      Borrowed(a, b, borrow, Pow10(k));
      if d < 0 {
        d, borrow := d + 10, 1;
      } else {
        borrow := 0;
      }
      Prepended(result, CharOf(d));
      result := result + [CharOf(d)];
    }
    TailIs(larger, |larger|);
    TailCovers(smaller, larger);
    ValueBound(Reversed(result));
    assert borrow == 0;
    while |result| > 1 && result[|result| - 1] == '0'
      invariant |result| > 0 && AllDigits(result) && AllDigits(Reversed(result))
      invariant ValueOf(Reversed(result)) == ValueOf(larger) - ValueOf(smaller)
    {
      var shorter := result[..|result| - 1];
      assert result == shorter + ['0'];
      Prepended(shorter, '0');
      result := shorter;
    }
    difference := Reversed(result);
  }

  /** Digits of the smaller number beyond the length of the larger are zeros. */
  lemma TailCovers(smaller: string, larger: string)
    requires AllDigits(smaller) && AllDigits(larger) && ValueOf(smaller) <= ValueOf(larger)
    ensures Tail(smaller, |larger|) == ValueOf(smaller)
  {
    hide ValueOf, Pow10, Tail;
    var k := |larger|;
    TailIs(smaller, k);
    if k < |smaller| {
      var high, low := smaller[..|smaller| - k], smaller[|smaller| - k..];
      assert smaller == high + low;
      ValueConcat(high, low);
      ValueBound(larger);
      Apart(0, ValueOf(high), Pow10(k));
    }
  }

  lemma Borrowed(a: int, b: int, borrow: int, p: int)
    ensures (a - borrow - b) * p == a * p - borrow * p - b * p
    ensures (a - borrow - b + 10) * p == a * p - borrow * p - b * p + 10 * p
  {
  }

  // ----- reading -----

  function Mantissa(value: string): string
  {
    var unsigned := Unsigned(Trim(value));
    unsigned[..Find(unsigned, "eE")]
  }

  /** One point at most, a digit at least, nothing else, and an exponent that can be read. */
  method ValidDecimalText(value: string) returns (ok: bool)
    ensures ok <==> && Trim(value) != "" && Exponent(Unsigned(Trim(value))).Some?
                    && AllDigits(MantissaDigits(Mantissa(value))) && MantissaDigits(Mantissa(value)) != ""
  {
    hide Trim, Find, Exponent;
    if Trim(value) == "" {
      return false;
    }
    var exponent := ReadExponent(Unsigned(Trim(value)));
    if exponent.None? {
      return false;
    }
    ok := ValidMantissa(Mantissa(value));
  }

  method ValidMantissa(mantissa: string) returns (ok: bool)
    ensures ok <==> AllDigits(MantissaDigits(mantissa)) && MantissaDigits(mantissa) != ""
  {
    hide Find;
    ghost var p := Find(mantissa, ".");
    var dots, digits := 0, 0;
    for i := 0 to |mantissa|
      invariant 0 <= dots && digits + dots == i
      invariant forall k :: 0 <= k < i ==> Digit(mantissa[k]) || mantissa[k] == '.'
      invariant dots == 0 <==> i <= p
      invariant dots <= 1 <==> forall k :: p < k < i ==> mantissa[k] != '.'
    {
      if mantissa[i] == '.' {
        dots := dots + 1;
      } else if Digit(mantissa[i]) {
        digits := digits + 1;
      } else {
        assert !Digit(MantissaDigits(mantissa)[if i < p then i else i - 1]);
        return false;
      }
    }
    ok := digits > 0 && dots <= 1;
    if dots > 1 {
      ghost var k :| p < k < |mantissa| && mantissa[k] == '.';
      assert !Digit(MantissaDigits(mantissa)[k - 1]);
    }
  }

  function Without(s: string, c: char): string
  {
    if s == "" then "" else Without(s[..|s| - 1], c) + if s[|s| - 1] == c then "" else [s[|s| - 1]]
  }

  lemma {:induction false} WithoutNothing(s: string, c: char)
    requires forall k :: 0 <= k < |s| ==> s[k] != c
    ensures Without(s, c) == s
  {
    if s != "" {
      WithoutNothing(s[..|s| - 1], c);
      assert s == s[..|s| - 1] + [s[|s| - 1]];
    }
  }

  lemma {:induction false} WithoutConcat(a: string, b: string, c: char)
    ensures Without(a + b, c) == Without(a, c) + Without(b, c)
  {
    if b == "" {
      assert a + b == a;
    } else {
      assert (a + b)[..|a + b| - 1] == a + b[..|b| - 1];
      WithoutConcat(a, b[..|b| - 1], c);
    }
  }

  lemma PointRemoved(mantissa: string)
    requires AllDigits(MantissaDigits(mantissa))
    ensures Without(mantissa, '.') == MantissaDigits(mantissa)
  {
    hide Find;
    var p, digits := Find(mantissa, "."), MantissaDigits(mantissa);
    WithoutNothing(digits, '.');
    if p == |mantissa| {
      assert mantissa == digits;
    } else {
      var a, b := mantissa[..p], mantissa[p + 1..];
      assert mantissa == a + (['.'] + b);
      WithoutConcat(a, ['.'] + b, '.');
      WithoutConcat(['.'], b, '.');
      WithoutConcat(a, b, '.');
      assert ['.'][..0] == "";
      assert Without(['.'], '.') == "";
      assert "" + Without(b, '.') == Without(b, '.');
    }
  }

  method ParseExactDecimal(value: string) returns (r: Option<ExactDecimal>)
    ensures r.Some? <==> Parse(value).Some?
    ensures r.Some? ==> Valid(r.value) && r.value.scale <= MAX_SCALE && Parse(value) == Some(Normalized(Stands(r.value)))
  {
    hide Trim, Find, Exponent, MantissaDigits, Without, Normalized, ValueOf, Pow10;
    var ok := ValidDecimalText(value);
    if !ok {
      return None;
    }
    var text := Trim(value);
    var negative := text[0] == '-';
    var mantissa := Mantissa(value);
    var exponent := ReadExponent(Unsigned(text));
    if Abs(exponent.value) > 10_000 {
      return None;
    }
    PointRemoved(mantissa);
    var position := Find(mantissa, ".");
    var fractional := if position == |mantissa| then 0 else |mantissa| - position - 1;
    r := AssembleExact(negative, Without(mantissa, '.'), fractional - exponent.value);
  }

  method AssembleExact(negative: bool, written: string, places: int) returns (r: Option<ExactDecimal>)
    requires AllDigits(written) && written != ""
    ensures r.Some? <==> places <= MAX_SCALE
    ensures r.Some? ==> Valid(r.value) && r.value.scale <= MAX_SCALE && Stands(r.value) == Meaning(Literal(negative, written, places))
  {
    var digits, scale := written, places;
    if scale < 0 {
      ValueExtended(digits, -scale);
      SignedTimes(negative, ValueOf(digits), Pow10(-scale));
      digits := digits + Zeros(-scale);
      scale := 0;
    }
    if scale > MAX_SCALE {
      return None;
    }
    digits := TrimLeadingZeros(digits);
    r := Some(ExactDecimal(negative, digits, scale));
  }

  // ----- writing -----

  /** Writes the shortest form: a point is inserted and zeros after it are dropped. */
  method FormatExactDecimal(x: ExactDecimal) returns (text: string)
    requires AllDigits(x.digits)
    ensures text == Format(Normalized(Stands(x)))
  {
    hide Padded, Normalized, Numeral;
    var digits := TrimLeadingZeros(x.digits);
    var n := ValueOf(x.digits);
    NumeralValue(n);
    if digits == "0" {
      ZeroNormalized(x.scale);
      ZeroText();
      assert Stands(x) == Decimal(0, x.scale);
      return "0";
    }
    if x.scale > 0 {
      if |digits| <= x.scale {
        digits := Zeros(x.scale + 1 - |digits|) + digits;
      }
      assert digits == Padded(n, x.scale + 1) by { PaddedNumeral(n, x.scale + 1); }
      digits := digits[..|digits| - x.scale] + "." + digits[|digits| - x.scale..];
      digits := DropZeros(digits, n, x.scale);
    }
    NormalizedSign(x.negative, n, x.scale);
    var d := Normalized(Decimal(n, x.scale));
    if x.scale == 0 {
      NormalizedStep(Decimal(n, 0));
    }
    FormatSign(x.negative, d.coefficient, d.scale);
    text := if x.negative then "-" + digits else digits;
  }

  lemma FormatSign(negative: bool, n: nat, scale: nat)
    requires n > 0
    ensures Format(Decimal(Signed(negative, n), scale)) == (if negative then "-" else "") + Format(Decimal(n, scale))
    ensures Format(Decimal(n, 0)) == Numeral(n)
  {
    hide Numeral, Dotted;
    assert "" + Numeral(n) == Numeral(n) && "" + Dotted(n, scale) == Dotted(n, scale);
  }

  /** One step of the shortening, or its end. */
  lemma NormalizedStep(d: Decimal)
    ensures Normalized(d) == if d.scale > 0 && d.coefficient % 10 == 0 then Normalized(Decimal(d.coefficient / 10, d.scale - 1)) else d
  {
  }

  lemma PaddedNumeral(n: nat, k: nat)
    ensures Padded(n, k) == if |Numeral(n)| < k then Zeros(k - |Numeral(n)|) + Numeral(n) else Numeral(n)
  {
  }

  lemma {:induction false} ZeroNormalized(scale: nat)
    ensures Normalized(Decimal(0, scale)) == Decimal(0, 0)
  {
    if scale > 0 {
      ZeroNormalized(scale - 1);
    }
  }

  lemma {:induction false} NormalizedSign(negative: bool, n: nat, scale: nat)
    requires n > 0
    ensures var d := Normalized(Decimal(n, scale));
            d.coefficient > 0 && Normalized(Decimal(Signed(negative, n), scale)) == Decimal(Signed(negative, d.coefficient), d.scale)
  {
    hide Normalized;
    TenthSign(n);
    NormalizedStep(Decimal(n, scale));
    NormalizedStep(Decimal(Signed(negative, n), scale));
    if scale > 0 && n % 10 == 0 {
      NormalizedSign(negative, n / 10, scale - 1);
    }
  }

  lemma TenthSign(n: int)
    ensures (-n) % 10 == 0 <==> n % 10 == 0
    ensures n % 10 == 0 ==> (-n) / 10 == -(n / 10)
  {
  }

  /** Drops the zeros at the end and then a point left there. */
  method DropZeros(dotted: string, n: nat, scale: nat) returns (text: string)
    requires scale > 0 && n > 0 && dotted == Dotted(n, scale)
    ensures text == Format(Normalized(Decimal(n, scale)))
  {
    hide Normalized, Dotted, Format;
    text := dotted;
    ghost var c, k := n, scale;
    DottedLast(c, k);
    while text[|text| - 1] == '0'
      invariant c > 0 && text == Dotted(c, k) && text != ""
      invariant text[|text| - 1] == if k == 0 then '.' else CharOf(c % 10)
      invariant Normalized(Decimal(c, k)) == Normalized(Decimal(n, scale))
      decreases k
    {
      NormalizedStep(Decimal(c, k));
      DottedTen(c / 10, k - 1);
      text := text[..|text| - 1];
      c, k := c / 10, k - 1;
      DottedLast(c, k);
    }
    NormalizedStep(Decimal(c, k));
    DottedFormat(c, k);
    DottedLast(c, k);
    if text[|text| - 1] == '.' {
      text := text[..|text| - 1];
    }
  }

  lemma DottedFormat(n: nat, scale: nat)
    ensures Format(Decimal(n, scale)) == if scale == 0 then Numeral(n) else Dotted(n, scale)
  {
    hide Numeral, Dotted;
    assert "" + Numeral(n) == Numeral(n) && "" + Dotted(n, scale) == Dotted(n, scale);
  }

  /** The last character is the point when nothing follows it, and the last digit otherwise. */
  lemma DottedLast(n: nat, scale: nat)
    ensures var s := Dotted(n, scale);
            && s != ""
            && s[|s| - 1] == (if scale == 0 then '.' else CharOf(n % 10))
            && (scale == 0 ==> s[..|s| - 1] == Numeral(n))
  {
    hide Padded, Numeral;
    PaddedNumeral(n, scale + 1);
    PaddedLast(n, scale + 1);
  }

  lemma DottedTen(n: nat, scale: nat)
    ensures Dotted(10 * n, scale + 1) == Dotted(n, scale) + "0"
  {
    hide Padded;
    PaddedTimesTen(n, scale + 1);
    var s, t := Padded(n, scale + 1), Padded(10 * n, scale + 2);
    assert t[..|t| - scale - 1] == s[..|s| - scale];
    assert t[|t| - scale - 1..] == s[|s| - scale..] + "0";
  }

  // ----- addition -----

  /** Adds two decimal texts digit by digit; the text is that of the exact sum. */
  method AddExactDecimals(left: string, right: string) returns (sum: Option<string>)
    ensures sum == AddText(left, right)
  {
    hide Format, Normalized, Parse, Add, ValueOf, Pow10, Stands;
    var a := ParseExactDecimal(left);
    var b := ParseExactDecimal(right);
    if a.None? || b.None? {
      return None;
    }
    var x := AddExact(a.value, b.value);
    var text := FormatExactDecimal(x);
    SumNormalized(Stands(a.value), Stands(b.value), Stands(x));
    sum := Some(text);
  }

  method AddExact(a: ExactDecimal, b: ExactDecimal) returns (x: ExactDecimal)
    requires Valid(a) && Valid(b)
    ensures Valid(x) && Value(Stands(x)) == Value(Stands(a)) + Value(Stands(b))
  {
    hide Value, ValueOf, Pow10;
    var scale := if a.scale < b.scale then b.scale else a.scale;
    var left, right := a.digits + Zeros(scale - a.scale), b.digits + Zeros(scale - b.scale);
    Extended(a, scale - a.scale);
    Extended(b, scale - b.scale);
    var negative, digits;
    if a.negative == b.negative {
      negative := a.negative;
      digits := AddMagnitudes(left, right);
    } else {
      var order := CompareMagnitudes(left, right);
      if order > 0 {
        negative := a.negative;
        digits := SubtractMagnitudes(left, right);
      } else if order < 0 {
        negative := b.negative;
        digits := SubtractMagnitudes(right, left);
      } else {
        negative, digits := false, "0";
        NumeralValue(0);
      }
    }
    digits := TrimLeadingZeros(digits);
    x := ExactDecimal(negative, digits, scale);
    SumOver(Signed(a.negative, ValueOf(left)), Signed(b.negative, ValueOf(right)), scale);
  }

  lemma Extended(a: ExactDecimal, k: nat)
    requires Valid(a)
    ensures AllDigits(a.digits + Zeros(k))
    ensures Value(Decimal(Signed(a.negative, ValueOf(a.digits + Zeros(k))), a.scale + k)) == Value(Stands(a))
  {
    hide Value, ValueOf, Pow10;
    ValueExtended(a.digits, k);
    SignedTimes(a.negative, ValueOf(a.digits), Pow10(k));
    Rescaled(Stands(a), k);
  }

  lemma SumNormalized(a: Decimal, b: Decimal, sum: Decimal)
    requires Value(sum) == Value(a) + Value(b)
    ensures Normalized(sum) == Add(Normalized(a), Normalized(b))
  {
    hide Value, Normalized, Add;
    NormalizedValue(a);
    NormalizedValue(b);
    NormalizedValue(sum);
    AddValue(Normalized(a), Normalized(b));
    NormalUnique(Normalized(sum), Add(Normalized(a), Normalized(b)));
  }
}
