/** Which texts are decimal numbers, and of what value. */
module DecimalForms {
  import opened Numerals
  import opened Decimals

  /** A number as it may be written: blanks, a sign, digits around at most one point, and
      perhaps an exponent of ten with a sign of its own. */
  datatype Notation = Notation(lead: string, sign: string, whole: string, point: string, fraction: string,
                               mark: string, power: string, exponent: string, trail: string)

  predicate Blanks(s: string) { forall i :: 0 <= i < |s| ==> Blank(s[i]) }

  /** The white space of Unicode. */
  lemma BlankIs(c: char)
    ensures Blank(c) <==>
            || c as int in {9, 10, 11, 12, 13, 32, 133, 160, 5_760, 8_232, 8_233, 8_239, 8_287, 12_288}
            || 8_192 <= c as int <= 8_202
  {
  }

  /** The exponent as a number; none written is zero. */
  function Shift(n: Notation): int
    requires AllDigits(n.exponent)
  {
    if n.power == "-" then 0 - ValueOf(n.exponent) else ValueOf(n.exponent)
  }

  /** A digit before or after the point is needed; the exponent is at most 10000 either way,
      and at most 10000 digits follow the point once it has moved it. */
  predicate Proper(n: Notation)
  {
    && Blanks(n.lead) && Blanks(n.trail)
    && n.sign in ["", "+", "-"] && AllDigits(n.whole) && AllDigits(n.fraction) && n.whole + n.fraction != ""
    && n.point in ["", "."] && (n.point == "" ==> n.fraction == "")
    && n.mark in ["", "e", "E"] && n.power in ["", "+", "-"] && AllDigits(n.exponent)
    && (if n.mark == "" then n.power == "" && n.exponent == "" else n.exponent != "")
    && -10_000 <= Shift(n) <= 10_000 && |n.fraction| - Shift(n) <= 10_000
  }

  function Mantissa(n: Notation): string { n.whole + n.point + n.fraction }

  function Tail(n: Notation): string { n.mark + n.power + n.exponent }

  function Text(n: Notation): string { n.lead + (n.sign + (Mantissa(n) + Tail(n))) + n.trail }

  /** The digits as one number, with its sign. */
  function Coefficient(n: Notation): int
    requires AllDigits(n.whole + n.fraction)
  {
    if n.sign == "-" then 0 - ValueOf(n.whole + n.fraction) else ValueOf(n.whole + n.fraction)
  }

  // ----- every notation is read -----

  lemma {:induction false} StartTrimmed(lead: string, s: string)
    requires Blanks(lead) && s != "" && !Blank(s[0])
    ensures TrimStart(lead + s) == s
  {
    if lead != "" {
      assert (lead + s)[1..] == lead[1..] + s;
      StartTrimmed(lead[1..], s);
    } else {
      assert lead + s == s;
    }
  }

  lemma {:induction false} EndTrimmed(s: string, trail: string)
    requires Blanks(trail) && s != "" && !Blank(s[|s| - 1])
    ensures TrimEnd(s + trail) == s
  {
    if trail != "" {
      assert (s + trail)[..|s + trail| - 1] == s + trail[..|trail| - 1];
      EndTrimmed(s, trail[..|trail| - 1]);
    } else {
      assert s + trail == s;
    }
  }

  lemma DigitsJoined(a: string, b: string)
    requires AllDigits(a) && AllDigits(b)
    ensures AllDigits(a + b)
  {
  }

  /** A signed run of digits is read as the number it shows. */
  lemma IntegerRead(power: string, digits: string)
    requires power in ["", "+", "-"] && AllDigits(digits) && digits != "" && ValueOf(digits) <= 10_000
    ensures ParseInteger(power + digits, I32) == Some(if power == "-" then 0 - ValueOf(digits) else ValueOf(digits))
  {
    hide ValueOf;
    var s := power + digits;
    assert Digit(digits[0]);
    if power == "" {
      assert s == digits;
    } else {
      assert s[1..] == digits;
    }
  }

  lemma MantissaRead(n: Notation)
    requires Proper(n)
    ensures MantissaDigits(Mantissa(n)) == n.whole + n.fraction && MantissaScale(Mantissa(n)) == |n.fraction|
  {
    hide Find, ValueOf;
    var m := Mantissa(n);
    assert m == n.whole + n.point + n.fraction;
    FindFirst(m, ".", |n.whole|);
    assert m[..|n.whole|] == n.whole;
    if n.point == "." {
      assert m[|n.whole| + 1..] == n.fraction;
    }
  }

  lemma ExponentRead(n: Notation)
    requires Proper(n)
    ensures var unsigned := Mantissa(n) + Tail(n);
            unsigned[..Find(unsigned, "eE")] == Mantissa(n) && Exponent(unsigned) == Some(Shift(n))
  {
    hide Find, ValueOf, ParseInteger, Blanks;
    var m, unsigned := Mantissa(n), Mantissa(n) + Tail(n);
    assert forall i :: 0 <= i < |m| ==> Digit(m[i]) || m[i] == '.';
    if n.mark == "" {
      assert Tail(n) == "" && unsigned == m;
      FindFirst(unsigned, "eE", |m|);
      NothingShown();
    } else {
      assert unsigned[|m|] == n.mark[0];
      FindFirst(unsigned, "eE", |m|);
      assert unsigned[|m| + 1..] == n.power + n.exponent;
      IntegerRead(n.power, n.exponent);
    }
  }

  lemma NothingShown()
    ensures ValueOf("") == 0
  {
  }

  /** It begins and ends with something that is neither trimmed nor taken for a sign. */
  lemma UnsignedEnds(n: Notation)
    requires Proper(n)
    ensures var unsigned := Mantissa(n) + Tail(n);
            unsigned != "" && (Digit(unsigned[0]) || unsigned[0] == '.') && (Digit(unsigned[|unsigned| - 1]) || unsigned[|unsigned| - 1] == '.')
  {
    var m, t := Mantissa(n), Tail(n);
    assert m == n.whole + n.point + n.fraction && t == n.mark + n.power + n.exponent;
    if n.mark != "" {
      assert (m + t)[|m + t| - 1] == n.exponent[|n.exponent| - 1];
    } else {
      assert m + t == m;
      if n.fraction != "" {
        assert m[|m| - 1] == n.fraction[|n.fraction| - 1];
      }
    }
  }

  /** The sign and the blanks around it come off. */
  lemma SignStripped(lead: string, sign: string, unsigned: string, trail: string)
    requires Blanks(lead) && Blanks(trail) && sign in ["", "+", "-"] && unsigned != ""
    requires !Blank(unsigned[0]) && unsigned[0] !in "+-" && !Blank(unsigned[|unsigned| - 1])
    ensures var text := Trim(lead + (sign + unsigned) + trail);
            text == sign + unsigned && Unsigned(text) == unsigned && (text[0] == '-' <==> sign == "-")
  {
    hide TrimStart, TrimEnd, Blanks;
    var core := sign + unsigned;
    assert core[|core| - 1] == unsigned[|unsigned| - 1];
    assert sign == "" ==> core == unsigned;
    assert sign != "" ==> core[1..] == unsigned;
    assert !Blank(core[0]);
    StartTrimmed(lead, core + trail);
    assert lead + core + trail == lead + (core + trail);
    EndTrimmed(core, trail);
  }

  lemma Stripped(n: Notation)
    requires Proper(n)
    ensures Trim(Text(n)) == n.sign + (Mantissa(n) + Tail(n)) && Unsigned(Trim(Text(n))) == Mantissa(n) + Tail(n)
    ensures Trim(Text(n)) != "" && (Trim(Text(n))[0] == '-' <==> n.sign == "-")
  {
    hide Trim, Unsigned, ValueOf, Mantissa, Tail, Blanks;
    UnsignedEnds(n);
    SignStripped(n.lead, n.sign, Mantissa(n) + Tail(n), n.trail);
  }

  /** Every proper notation is read: its digits as one number over ten to the places after
      the point, moved by the exponent. */
  lemma NotationRead(n: Notation)
    requires Proper(n)
    ensures Parse(Text(n)).Some?
    ensures var places := |n.fraction| - Shift(n);
            Value(Parse(Text(n)).value) ==
            if places >= 0 then Coefficient(n) as real / Pow10(places) as real else (Coefficient(n) * Pow10(-places)) as real
  {
    hide Trim, Unsigned, Find, ValueOf, Mantissa, Tail, Text, Normalized, MantissaDigits, MantissaScale, Exponent, Value, Pow10;
    Stripped(n);
    ExponentRead(n);
    MantissaRead(n);
    DigitsJoined(n.whole, n.fraction);
    var l := Literal(n.sign == "-", n.whole + n.fraction, |n.fraction| - Shift(n));
    assert Read(Text(n)) == Some(l);
    NormalizedValue(Meaning(l));
    MeaningValue(l, Coefficient(n));
  }

  lemma MeaningValue(l: Literal, c: int)
    requires AllDigits(l.digits) && c == if l.negative then 0 - ValueOf(l.digits) else ValueOf(l.digits)
    ensures Value(Meaning(l)) == if l.scale >= 0 then c as real / Pow10(l.scale) as real else (c * Pow10(-l.scale)) as real
  {
    hide ValueOf;
    NoPlaces();
  }

  lemma NoPlaces()
    ensures Pow10(0) == 1
  {
  }

  // ----- nothing else is read -----

  lemma {:induction false} StartSplit(s: string) returns (lead: string)
    ensures Blanks(lead) && s == lead + TrimStart(s)
  {
    if s != "" && Blank(s[0]) {
      var rest := StartSplit(s[1..]);
      lead := [s[0]] + rest;
      assert s == [s[0]] + s[1..];
    } else {
      lead := "";
    }
  }

  lemma {:induction false} EndSplit(s: string) returns (trail: string)
    ensures Blanks(trail) && s == TrimEnd(s) + trail
  {
    if s != "" && Blank(s[|s| - 1]) {
      var rest := EndSplit(s[..|s| - 1]);
      trail := rest + [s[|s| - 1]];
      assert s == s[..|s| - 1] + [s[|s| - 1]];
    } else {
      trail := "";
    }
  }

  lemma SignSplit(s: string) returns (sign: string)
    ensures sign in ["", "+", "-"] && s == sign + Unsigned(s) && (s != "" ==> (s[0] == '-' <==> sign == "-"))
  {
    sign := if s != "" && s[0] == '-' then "-" else if s != "" && s[0] == '+' then "+" else "";
  }

  lemma DigitsApart(a: string, b: string)
    requires AllDigits(a + b)
    ensures AllDigits(a) && AllDigits(b)
  {
    forall i | 0 <= i < |a| ensures Digit(a[i]) { assert (a + b)[i] == a[i]; }
    forall i | 0 <= i < |b| ensures Digit(b[i]) { assert (a + b)[|a| + i] == b[i]; }
  }

  lemma MantissaSplit(mantissa: string) returns (whole: string, point: string, fraction: string)
    requires AllDigits(MantissaDigits(mantissa))
    ensures mantissa == whole + point + fraction && AllDigits(whole) && AllDigits(fraction) && whole + fraction == MantissaDigits(mantissa)
    ensures point in ["", "."] && (point == "" ==> fraction == "") && |fraction| == MantissaScale(mantissa)
  {
    hide Find;
    var p := Find(mantissa, ".");
    whole, point, fraction := mantissa[..p], if p == |mantissa| then "" else ".", if p == |mantissa| then "" else mantissa[p + 1..];
    DigitsApart(whole, fraction);
  }

  lemma ExponentSplit(unsigned: string) returns (mark: string, power: string, exponent: string)
    requires Exponent(unsigned).Some?
    ensures unsigned == unsigned[..Find(unsigned, "eE")] + (mark + power + exponent)
    ensures mark in ["", "e", "E"] && power in ["", "+", "-"] && AllDigits(exponent)
    ensures if mark == "" then power == "" && exponent == "" else exponent != ""
    ensures Exponent(unsigned).value == if power == "-" then 0 - ValueOf(exponent) else ValueOf(exponent)
  {
    hide Find, ValueOf, Unsigned;
    var e := Find(unsigned, "eE");
    mark, power, exponent := "", "", "";
    NothingShown();
    if e < |unsigned| {
      mark := [unsigned[e]];
      power := SignSplit(unsigned[e + 1..]);
      exponent := Unsigned(unsigned[e + 1..]);
      assert unsigned == unsigned[..e] + (mark + (power + exponent));
      UnsignedEmpty(unsigned[e + 1..]);
    } else {
      assert unsigned == unsigned[..e] + "";
    }
  }

  lemma UnsignedEmpty(s: string)
    ensures Unsigned(s) != "" ==> s != ""
  {
  }

  /** Whatever is read was written in a proper notation. */
  lemma NotationOf(value: string) returns (n: Notation)
    requires Parse(value).Some?
    ensures Proper(n) && Text(n) == value
  {
    hide TrimStart, TrimEnd, Unsigned, Find, ValueOf, Normalized, Blanks, MantissaDigits, MantissaScale, Exponent;
    var lead := StartSplit(value);
    var trail := EndSplit(TrimStart(value));
    var sign := SignSplit(Trim(value));
    var unsigned := Unsigned(Trim(value));
    var whole, point, fraction := MantissaSplit(unsigned[..Find(unsigned, "eE")]);
    var mark, power, exponent := ExponentSplit(unsigned);
    n := Notation(lead, sign, whole, point, fraction, mark, power, exponent, trail);
  }

  /** A text is a decimal number if and only if it is a proper notation. */
  lemma NumbersRead(value: string)
    ensures Parse(value).Some? <==> exists n :: Proper(n) && Text(n) == value
  {
    hide Parse, Proper, Text;
    if Parse(value).Some? {
      var n := NotationOf(value);
    }
    if n :| Proper(n) && Text(n) == value {
      NotationRead(n);
    }
  }
}
