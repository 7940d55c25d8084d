/** Exact decimals: reading them from text, adding them, and writing them back. */
module Decimals {
  import opened Numerals

  datatype Option<+T> = None | Some(value: T)

  /** coefficient / 10^scale */
  datatype Decimal = Decimal(coefficient: int, scale: nat)

  const MAX_SCALE := 10_000
  const I32 := 0x8000_0000

  function Abs(x: int): nat { if x < 0 then -x else x }

  function Signed(negative: bool, n: int): int { if negative then -n else n }

  /** The number a decimal stands for. */
  ghost function Value(d: Decimal): real
  {
    d.coefficient as real / Pow10(d.scale) as real
  }

  /** Equality of values without division. */
  predicate SameValue(a: Decimal, b: Decimal)
  {
    a.coefficient * Pow10(b.scale) == b.coefficient * Pow10(a.scale)
  }

  // ----- the shortest form -----

  predicate Normal(d: Decimal)
  {
    d.scale > 0 ==> d.coefficient % 10 != 0
  }

  function Normalized(d: Decimal): (r: Decimal)
    ensures Normal(r) && r.scale <= d.scale
    decreases d.scale
  {
    if d.scale > 0 && d.coefficient % 10 == 0 then Normalized(Decimal(d.coefficient / 10, d.scale - 1)) else d
  }

  method Normalize(d: Decimal) returns (r: Decimal)
    ensures r == Normalized(d)
  {
    r := d;
    while r.scale > 0 && r.coefficient % 10 == 0
      invariant Normalized(r) == Normalized(d)
      decreases r.scale
    {
      r := Decimal(r.coefficient / 10, r.scale - 1);
    }
  }

  // ----- reading -----

  /** The characters Unicode calls white space. */
  predicate Blank(c: char)
  {
    || 0x9 <= c as int <= 0xD || c == ' ' || c as int in {0x85, 0xA0, 0x1680}
    || 0x2000 <= c as int <= 0x200A || c as int in {0x2028, 0x2029, 0x202F, 0x205F, 0x3000}
  }

  function TrimStart(s: string): string
  {
    if s != "" && Blank(s[0]) then TrimStart(s[1..]) else s
  }

  function TrimEnd(s: string): string
  {
    if s != "" && Blank(s[|s| - 1]) then TrimEnd(s[..|s| - 1]) else s
  }

  function Trim(s: string): string { TrimEnd(TrimStart(s)) }

  /** Where one of cs occurs first; the end if none does. */
  function Find(s: string, cs: string): (i: nat)
    ensures i <= |s| && (i < |s| ==> s[i] in cs) && forall k :: 0 <= k < i ==> s[k] !in cs
  {
    if s == "" || s[0] in cs then 0 else 1 + Find(s[1..], cs)
  }

  function Unsigned(s: string): string
  {
    if s != "" && (s[0] == '-' || s[0] == '+') then s[1..] else s
  }

  /** A whole number at least -limit and below limit, as fixed-width integers are read. */
  function ParseInteger(s: string, limit: int): Option<int>
  {
    var digits := Unsigned(s);
    if digits == "" || !AllDigits(digits) then None
    else
      var n := Signed(s[0] == '-', ValueOf(digits));
      if -limit <= n < limit then Some(n) else None
  }

  /** A number as written: its sign, its digits, and how many of them follow the
      point once the exponent has moved it. */
  datatype Literal = Literal(negative: bool, digits: string, scale: int)

  /** The digits of a mantissa: those before its first point and those after it. */
  function MantissaDigits(mantissa: string): string
  {
    var p := Find(mantissa, ".");
    mantissa[..p] + if p == |mantissa| then "" else mantissa[p + 1..]
  }

  function MantissaScale(mantissa: string): nat
  {
    var p := Find(mantissa, ".");
    if p == |mantissa| then 0 else |mantissa| - p - 1
  }

  function Exponent(unsigned: string): Option<int>
  {
    var e := Find(unsigned, "eE");
    if e == |unsigned| then Some(0) else ParseInteger(unsigned[e + 1..], I32)
  }

  function Read(value: string): (r: Option<Literal>)
    ensures r.Some? ==> AllDigits(r.value.digits) && r.value.digits != "" && r.value.scale <= MAX_SCALE
  {
    var text := Trim(value);
    var unsigned := Unsigned(text);
    var mantissa := unsigned[..Find(unsigned, "eE")];
    var digits, exponent := MantissaDigits(mantissa), Exponent(unsigned);
    if text == "" || exponent.None? || Abs(exponent.value) > 10_000 || digits == "" || !AllDigits(digits)
       || MantissaScale(mantissa) - exponent.value > MAX_SCALE
    then None
    else Some(Literal(text[0] == '-', digits, MantissaScale(mantissa) - exponent.value))
  }

  /** The decimal a literal stands for. */
  function Meaning(l: Literal): Decimal
    requires AllDigits(l.digits)
  {
    var n := Signed(l.negative, ValueOf(l.digits));
    if l.scale < 0 then Decimal(n * Pow10(-l.scale), 0) else Decimal(n, l.scale)
  }

  function Parse(value: string): (r: Option<Decimal>)
    ensures r.Some? ==> Normal(r.value) && r.value.scale <= MAX_SCALE
  {
    match Read(value)
    case None => None
    case Some(l) => Some(Normalized(Meaning(l)))
  }

  lemma FindFirst(s: string, cs: string, i: nat)
    requires i <= |s| && (i < |s| ==> s[i] in cs) && forall k :: 0 <= k < i ==> s[k] !in cs
    ensures Find(s, cs) == i
  {
    var j := Find(s, cs);
  }

  /** Reads a mantissa one character at a time. */
  method ReadMantissa(mantissa: string) returns (ok: bool, digits: string, fractional: nat)
    ensures ok <==> AllDigits(MantissaDigits(mantissa))
    ensures ok ==> digits == MantissaDigits(mantissa) && fractional == MantissaScale(mantissa)
  {
    hide Find;
    ghost var p := Find(mantissa, ".");
    var dot := false;
    ok, digits, fractional := true, "", 0;
    for i := 0 to |mantissa|
      invariant ok
      invariant dot <==> p < i
      invariant digits == if dot then mantissa[..p] + mantissa[p + 1..i] else mantissa[..i]
      invariant fractional == if dot then i - p - 1 else 0
      invariant AllDigits(digits)
    {
      var c := mantissa[i];
      if c == '.' && !dot {
        dot := true;
      } else if Digit(c) {
        digits := digits + [c];
        if dot {
          fractional := fractional + 1;
        }
      } else {
        assert !Digit(MantissaDigits(mantissa)[if dot then i - 1 else i]);
        return false, "", 0;
      }
    }
    assert digits == MantissaDigits(mantissa);
  }

  method ReadExponent(unsigned: string) returns (r: Option<int>)
    ensures r == Exponent(unsigned)
  {
    var e := Find(unsigned, "eE");
    if e == |unsigned| {
      return Some(0);
    }
    var rest := unsigned[e + 1..];
    var second := Find(rest, "eE");
    r := ParseInteger(rest[..second], I32);
    if second < |rest| {
      SecondExponent(rest, second);
      r := None;
    } else {
      assert rest[..second] == rest;
    }
  }

  /** Moves the point by the exponent: zeros are appended where digits are missing. */
  method Assemble(negative: bool, written: string, places: int) returns (r: Option<Decimal>)
    requires AllDigits(written)
    ensures r == if places > MAX_SCALE then None else Some(Normalized(Meaning(Literal(negative, written, places))))
  {
    var digits, scale := written, places;
    if scale < 0 {
      ValueExtended(digits, -scale);
      SignedTimes(negative, ValueOf(digits), Pow10(-scale));
      digits := digits + Zeros(-scale);
      scale := 0;
    }
    if scale > MAX_SCALE {
      return None;
    }
    var d := Normalize(Decimal(Signed(negative, ValueOf(digits)), scale));
    r := Some(d);
  }

  method ParseDecimal(value: string) returns (r: Option<Decimal>)
    ensures r == Parse(value)
  {
    hide Meaning, Normalized, Exponent, MantissaDigits, MantissaScale, Trim, Find;
    var text := Trim(value);
    if text == "" {
      return None;
    }
    var unsigned := Unsigned(text);
    var exponent := ReadExponent(unsigned);
    if exponent.None? || Abs(exponent.value) > 10_000 {
      return None;
    }
    var ok, digits, fractional := ReadMantissa(unsigned[..Find(unsigned, "eE")]);
    if !ok || digits == "" {
      return None;
    }
    r := Assemble(text[0] == '-', digits, fractional - exponent.value);
  }

  lemma SignedTimes(negative: bool, n: nat, p: nat)
    ensures n * p >= 0 && Signed(negative, n * p) == Signed(negative, n) * p
  {
  }

  lemma SecondExponent(s: string, i: nat)
    requires i < |s| && s[i] in "eE"
    ensures ParseInteger(s, I32).None?
  {
    var digits := Unsigned(s);
    if s == digits {
      assert !Digit(digits[i]);
    } else {
      assert !Digit(digits[i - 1]);
    }
  }

  // ----- writing -----

  /** The digits of n with a point before the last `scale` of them. */
  function Dotted(n: nat, scale: nat): string
  {
    var s := Padded(n, scale + 1);
    s[..|s| - scale] + "." + s[|s| - scale..]
  }

  function Format(d: Decimal): string
  {
    var n := Abs(d.coefficient);
    (if d.coefficient < 0 then "-" else "") + if d.scale == 0 then Numeral(n) else Dotted(n, d.scale)
  }

  // ----- arithmetic -----

  function Add(a: Decimal, b: Decimal): Decimal
  {
    var scale := if a.scale < b.scale then b.scale else a.scale;
    Normalized(Decimal(a.coefficient * Pow10(scale - a.scale) + b.coefficient * Pow10(scale - b.scale), scale))
  }

  function Negated(d: Decimal): Decimal { Decimal(-d.coefficient, d.scale) }

  function AddText(left: string, right: string): Option<string>
  {
    var a, b := Parse(left), Parse(right);
    if a.Some? && b.Some? then Some(Format(Add(a.value, b.value))) else None
  }

  function SubtractText(left: string, right: string): Option<string>
  {
    var a, b := Parse(left), Parse(right);
    if a.Some? && b.Some? then Some(Format(Add(a.value, Negated(b.value)))) else None
  }

  // ----- values -----

  lemma Fractions(a: int, b: int, c: int, d: int)
    requires b > 0 && d > 0
    ensures a as real / b as real == c as real / d as real <==> a * d == c * b
    ensures a as real / b as real <= c as real / d as real <==> a * d <= c * b
  {
    var x, y := a as real / b as real, c as real / d as real;
    var p := b as real * d as real;
    assert x * p == (a * d) as real by {
      assert x * b as real == a as real;
      assert x * p == (x * b as real) * d as real;
    }
    assert y * p == (c * b) as real by {
      assert y * d as real == c as real;
      assert y * p == (y * d as real) * b as real;
    }
    assert p > 0.0;
    if x <= y {
      assert (y - x) * p >= 0.0;
    } else {
      assert (x - y) * p > 0.0;
    }
  }

  lemma ValuesSame(a: Decimal, b: Decimal)
    ensures Value(a) == Value(b) <==> SameValue(a, b)
  {
    Fractions(a.coefficient, Pow10(a.scale), b.coefficient, Pow10(b.scale));
  }

  /** The value does not depend on how many zeros are written. */
  lemma Rescaled(d: Decimal, k: nat)
    ensures Value(Decimal(d.coefficient * Pow10(k), d.scale + k)) == Value(d)
  {
    hide Pow10;
    var c, p, q := d.coefficient, Pow10(d.scale), Pow10(k);
    PowAdd(d.scale, k);
    assert (c * q) * p == c * (p * q);
    Fractions(c * q, p * q, c, p);
  }

  lemma {:induction false} NormalizedValue(d: Decimal)
    ensures Value(Normalized(d)) == Value(d)
    decreases d.scale
  {
    if d.scale > 0 && d.coefficient % 10 == 0 {
      var e := Decimal(d.coefficient / 10, d.scale - 1);
      NormalizedValue(e);
      assert Pow10(1) == 10 * Pow10(0);
      Rescaled(e, 1);
    }
  }

  /** Two shortest forms of one value are the same. */
  lemma NormalUnique(a: Decimal, b: Decimal)
    requires Normal(a) && Normal(b)
    ensures Value(a) == Value(b) <==> a == b
  {
    if Value(a) == Value(b) {
      if a.scale <= b.scale {
        NormalOrdered(a, b);
      } else {
        NormalOrdered(b, a);
      }
    }
  }

  lemma NormalOrdered(a: Decimal, b: Decimal)
    requires Normal(b) && Value(a) == Value(b) && a.scale <= b.scale
    ensures a == b
  {
    hide Value;
    var k := b.scale - a.scale;
    if k == 0 {
      ValuesSame(a, b);
      SameFactor(a.coefficient, b.coefficient, Pow10(b.scale));
    } else {
      Rescaled(a, k);
      var c := a.coefficient * Pow10(k);
      ValuesSame(Decimal(c, b.scale), b);
      SameFactor(c, b.coefficient, Pow10(b.scale));
      TenTimes(a.coefficient, Pow10(k - 1));
    }
  }

  lemma TenTimes(a: int, p: int)
    ensures (a * (10 * p)) % 10 == 0
  {
    assert a * (10 * p) == 10 * (a * p);
  }

  lemma SameFactor(a: int, b: int, p: int)
    requires p > 0 && a * p == b * p
    ensures a == b
  {
    assert (a - b) * p == 0;
  }

  /** Addition is exact. */
  lemma AddValue(a: Decimal, b: Decimal)
    ensures Value(Add(a, b)) == Value(a) + Value(b)
    ensures Normal(Add(a, b)) && Add(a, b).scale <= if a.scale < b.scale then b.scale else a.scale
  {
    hide Value, Normalized, Pow10;
    var scale := if a.scale < b.scale then b.scale else a.scale;
    var x, y := a.coefficient * Pow10(scale - a.scale), b.coefficient * Pow10(scale - b.scale);
    Rescaled(a, scale - a.scale);
    Rescaled(b, scale - b.scale);
    NormalizedValue(Decimal(x + y, scale));
    SumOver(x, y, scale);
  }

  lemma SumOver(x: int, y: int, scale: nat)
    ensures Value(Decimal(x + y, scale)) == Value(Decimal(x, scale)) + Value(Decimal(y, scale))
  {
    hide Pow10;
    DivideSum(x as real, y as real, Pow10(scale) as real);
  }

  lemma DivideSum(x: real, y: real, p: real)
    requires p > 0.0
    ensures (x + y) / p == x / p + y / p
  {
    var u, v, w := x / p, y / p, (x + y) / p;
    assert u * p == x && v * p == y && w * p == x + y;
    assert (w - (u + v)) * p == w * p - (u * p + v * p);
    ZeroFactor(w - (u + v), p);
  }

  lemma ZeroFactor(x: real, p: real)
    requires p > 0.0 && x * p == 0.0
    ensures x == 0.0
  {
  }

  lemma NegatedValue(d: Decimal)
    ensures Value(Negated(d)) == -Value(d)
    ensures Normal(d) ==> Normal(Negated(d))
  {
    hide Pow10;
    SumOver(d.coefficient, -d.coefficient, d.scale);
    assert Value(Decimal(0, d.scale)) == 0.0;
  }

  // ----- text -----

  lemma TrimNothing(s: string)
    requires s != "" && !Blank(s[0]) && !Blank(s[|s| - 1])
    ensures Trim(s) == s
  {
  }

  /** Writing a number and reading it gives its sign, its digits and its scale back. */
  lemma ReadFormat(d: Decimal)
    requires d.scale <= MAX_SCALE
    ensures Read(Format(d)).Some?
    ensures var l := Read(Format(d)).value;
            l.negative == (d.coefficient < 0) && l.scale == d.scale && ValueOf(l.digits) == Abs(d.coefficient)
  {
    hide Numeral, Padded, Dotted, MantissaDigits, MantissaScale, Trim, ValueOf, Find;
    var text, n := Format(d), Abs(d.coefficient);
    var mantissa := if d.scale == 0 then Numeral(n) else Dotted(n, d.scale);
    MantissaFormat(n, d.scale);
    assert Digit(mantissa[0]) && Digit(mantissa[|mantissa| - 1]);
    TrimNothing(text);
    assert Unsigned(text) == mantissa;
    FindFirst(mantissa, "eE", |mantissa|);
    assert mantissa[..|mantissa|] == mantissa;
  }

  lemma MantissaFormat(n: nat, scale: nat)
    ensures var mantissa := if scale == 0 then Numeral(n) else Dotted(n, scale);
            && mantissa != "" && Digit(mantissa[0]) && Digit(mantissa[|mantissa| - 1])
            && (forall i :: 0 <= i < |mantissa| ==> mantissa[i] !in "eE")
            && AllDigits(MantissaDigits(mantissa)) && MantissaDigits(mantissa) != ""
            && ValueOf(MantissaDigits(mantissa)) == n && MantissaScale(mantissa) == scale
  {
    hide Numeral, Padded, ValueOf, Find;
    if scale == 0 {
      FindFirst(Numeral(n), ".", |Numeral(n)|);
      assert MantissaDigits(Numeral(n)) == Numeral(n);
      NumeralValue(n);
    } else {
      var s, mantissa := Padded(n, scale + 1), Dotted(n, scale);
      var p := |s| - scale;
      FindFirst(mantissa, ".", p);
      assert mantissa[..p] + mantissa[p + 1..] == s;
      PaddedValue(n, scale + 1);
    }
  }

  /** Reading inverts writing on shortest forms. */
  lemma ParseFormat(d: Decimal)
    requires Normal(d) && d.scale <= MAX_SCALE
    ensures Parse(Format(d)) == Some(d)
  {
    ReadFormat(d);
    assert Meaning(Read(Format(d)).value) == d;
  }

  /** Equal values have equal text, and only they. */
  lemma FormatEqual(a: Decimal, b: Decimal)
    requires Normal(a) && Normal(b) && a.scale <= MAX_SCALE && b.scale <= MAX_SCALE
    ensures Format(a) == Format(b) <==> Value(a) == Value(b)
  {
    NormalUnique(a, b);
    ParseFormat(a);
    ParseFormat(b);
  }

  /** A sum of two readable amounts is readable and exact. */
  lemma SumsReparse(left: string, right: string)
    requires Parse(left).Some? && Parse(right).Some?
    ensures AddText(left, right).Some? && Parse(AddText(left, right).value).Some?
    ensures Value(Parse(AddText(left, right).value).value) == Value(Parse(left).value) + Value(Parse(right).value)
  {
    var a, b := Parse(left).value, Parse(right).value;
    AddValue(a, b);
    ParseFormat(Add(a, b));
  }

  lemma ZeroText()
    ensures Format(Decimal(0, 0)) == "0" && Value(Decimal(0, 0)) == 0.0 && Normal(Decimal(0, 0))
  {
    NumeralValue(0);
  }

  lemma ZeroOnly(d: Decimal)
    requires Normal(d) && d.scale <= MAX_SCALE
    ensures Format(d) == "0" <==> Value(d) == 0.0
  {
    ZeroText();
    hide Format, Value;
    FormatEqual(d, Decimal(0, 0));
  }

  /** The text "0" is the difference of equal amounts, and of no others. */
  lemma ZeroDelta(left: string, right: string)
    requires Parse(left).Some? && Parse(right).Some?
    ensures SubtractText(left, right) == Some("0") <==> Value(Parse(left).value) == Value(Parse(right).value)
  {
    hide Format, Value, Add, Parse, Normal, Negated;
    var a, b := Parse(left).value, Parse(right).value;
    NegatedValue(b);
    AddValue(a, Negated(b));
    assert Negated(b).scale == b.scale by { NegatedScale(b); }
    ZeroOnly(Add(a, Negated(b)));
  }

  lemma NegatedScale(d: Decimal)
    ensures Negated(d).scale == d.scale
  {
  }

  /** Reading and writing any text twice changes nothing more. */
  lemma Canonical(value: string)
    requires Parse(value).Some?
    ensures Parse(Format(Parse(value).value)) == Parse(value)
  {
    ParseFormat(Parse(value).value);
  }
}
