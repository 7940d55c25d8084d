/** Decimal numerals: strings of digits and the numbers they stand for. */
module Numerals {

  predicate Digit(c: char) { '0' <= c <= '9' }

  predicate AllDigits(s: string) { forall i :: 0 <= i < |s| ==> Digit(s[i]) }

  function DigitOf(c: char): nat
    requires Digit(c)
  {
    c as int - '0' as int
  }

  function CharOf(n: nat): char
    requires n < 10
  {
    ('0' as int + n) as char
  }

  function Pow10(n: nat): (r: nat)
    ensures r > 0
  {
    if n == 0 then 1 else 10 * Pow10(n - 1)
  }

  function ValueOf(s: string): nat
    requires AllDigits(s)
  {
    if s == "" then 0 else 10 * ValueOf(s[..|s| - 1]) + DigitOf(s[|s| - 1])
  }

  /** The numeral of n, without leading zeros. */
  function Numeral(n: nat): (s: string)
    ensures AllDigits(s) && |s| > 0
  {
    if n < 10 then [CharOf(n)] else Numeral(n / 10) + [CharOf(n % 10)]
  }

  function Zeros(k: nat): string { seq(k, _ => '0') }

  /** A numeral with a minimal length, filled up with zeros on the left. */
  function Padded(n: nat, k: nat): (s: string)
    ensures AllDigits(s) && |s| >= k
  {
    var s := Numeral(n);
    if |s| < k then Zeros(k - |s|) + s else s
  }

  // ----- powers of ten -----

  lemma MulAssociates(a: int, b: int, c: int)
    ensures (a * b) * c == a * (b * c)
  {
  }

  lemma {:induction false} PowAdd(a: nat, b: nat)
    ensures Pow10(a + b) == Pow10(a) * Pow10(b)
  {
    if a > 0 {
      PowAdd(a - 1, b);
      MulAssociates(10, Pow10(a - 1), Pow10(b));
    }
  }

  // ----- values of numerals -----

  lemma {:induction false} ValueConcat(a: string, b: string)
    requires AllDigits(a) && AllDigits(b)
    ensures AllDigits(a + b) && ValueOf(a + b) == ValueOf(a) * Pow10(|b|) + ValueOf(b)
  {
    if b == "" {
      assert a + b == a;
    } else {
      var front := b[..|b| - 1];
      assert (a + b)[..|a + b| - 1] == a + front;
      ValueConcat(a, front);
      assert ValueOf(a) * (10 * Pow10(|front|)) == 10 * (ValueOf(a) * Pow10(|front|));
    }
  }

  lemma {:induction false} ValueZeros(k: nat)
    ensures AllDigits(Zeros(k)) && ValueOf(Zeros(k)) == 0
  {
    if k > 0 {
      assert Zeros(k)[..k - 1] == Zeros(k - 1);
      ValueZeros(k - 1);
    }
  }

  lemma ValueExtended(a: string, k: nat)
    requires AllDigits(a)
    ensures AllDigits(a + Zeros(k)) && ValueOf(a + Zeros(k)) == ValueOf(a) * Pow10(k)
  {
    ValueZeros(k);
    ValueConcat(a, Zeros(k));
  }

  lemma ValueLeadingZeros(k: nat, a: string)
    requires AllDigits(a)
    ensures AllDigits(Zeros(k) + a) && ValueOf(Zeros(k) + a) == ValueOf(a)
  {
    ValueZeros(k);
    ValueConcat(Zeros(k), a);
    assert 0 * Pow10(|a|) == 0;
  }

  lemma {:induction false} ValueBound(s: string)
    requires AllDigits(s)
    ensures ValueOf(s) < Pow10(|s|)
    ensures s != "" && s[0] != '0' ==> Pow10(|s| - 1) <= ValueOf(s)
  {
    if |s| == 1 {
      assert s[..0] == "";
    } else if |s| > 1 {
      ValueBound(s[..|s| - 1]);
    }
  }

  lemma {:induction false} NumeralValue(n: nat)
    ensures ValueOf(Numeral(n)) == n
    ensures n > 0 ==> Numeral(n)[0] != '0'
    ensures n == 0 ==> Numeral(n) == "0"
  {
    if n < 10 {
      assert Numeral(n)[..0] == "";
    } else {
      NumeralValue(n / 10);
      assert Numeral(n)[..|Numeral(n)| - 1] == Numeral(n / 10);
    }
  }

  /** Digits without a leading zero are the numeral of their value. */
  lemma {:induction false} NumeralOfValue(s: string)
    requires AllDigits(s) && s != "" && (|s| == 1 || s[0] != '0')
    ensures Numeral(ValueOf(s)) == s
  {
    if |s| == 1 {
      assert s[..0] == "";
    } else {
      var front := s[..|s| - 1];
      ValueBound(front);
      NumeralOfValue(front);
    }
  }

  lemma PaddedValue(n: nat, k: nat)
    ensures ValueOf(Padded(n, k)) == n
  {
    hide ValueOf, Numeral, Zeros;
    NumeralValue(n);
    var s := Numeral(n);
    if |s| < k {
      ValueLeadingZeros(k - |s|, s);
    }
  }

  /** A zero more at the right. */
  lemma PaddedTimesTen(n: nat, k: nat)
    requires k > 0
    ensures Padded(10 * n, k + 1) == Padded(n, k) + "0"
  {
    if n == 0 {
      assert Numeral(0) == "0";
      assert Zeros(k) == Zeros(k - 1) + "0";
      assert Padded(0, k) == Zeros(k);
      assert Padded(0, k + 1) == Zeros(k) + "0";
    } else {
      assert Numeral(10 * n) == Numeral(n) + "0";
    }
  }

  lemma PaddedLast(n: nat, k: nat)
    ensures Padded(n, k) != "" && Padded(n, k)[|Padded(n, k)| - 1] == CharOf(n % 10)
  {
  }
}
