/** Localized amounts: currency marks, grouping, and either decimal separator. */
module AmountText {
  import opened Numerals
  import Decimals

  type Option<+T> = Decimals.Option<T>

  /** The characters JavaScript's \s matches. */
  predicate Space(c: char)
  {
    || 0x9 <= c as int <= 0xD || c == ' ' || c as int in {0xA0, 0x1680}
    || 0x2000 <= c as int <= 0x200A || c as int in {0x2028, 0x2029, 0x202F, 0x205F, 0x3000, 0xFEFF}
  }

  function TrimStart(s: string): string
  {
    if s != "" && Space(s[0]) then TrimStart(s[1..]) else s
  }

  function TrimEnd(s: string): string
  {
    if s != "" && Space(s[|s| - 1]) then TrimEnd(s[..|s| - 1]) else s
  }

  function Trim(s: string): string { TrimEnd(TrimStart(s)) }

  // ----- currency marks -----

  predicate Letter(c: char, upper: char) { c == upper || (c as int == upper as int + 32) }

  predicate CurrencyCode(s: string)
  {
    |s| == 3
    && ((Letter(s[0], 'E') && Letter(s[1], 'U') && Letter(s[2], 'R'))
        || (Letter(s[0], 'U') && Letter(s[1], 'S') && Letter(s[2], 'D'))
        || (Letter(s[0], 'P') && Letter(s[1], 'H') && Letter(s[2], 'P')))
  }

  predicate CurrencySign(c: char) { c == '$' || c as int == 0x20AC || c as int == 0x20B1 }

  function WithoutHead(s: string): string
  {
    if |s| >= 3 && CurrencyCode(s[..3]) then TrimStart(s[3..])
    else if s != "" && CurrencySign(s[0]) then TrimStart(s[1..])
    else s
  }

  function WithoutTail(s: string): string
  {
    if |s| >= 3 && CurrencyCode(s[|s| - 3..]) then TrimEnd(s[..|s| - 3])
    else if s != "" && CurrencySign(s[|s| - 1]) then TrimEnd(s[..|s| - 1])
    else s
  }

  // ----- grouping -----

  /** The parts of s between characters of cs. */
  function Split(s: string, cs: string): (parts: seq<string>)
    ensures |parts| > 0
  {
    var i := Decimals.Find(s, cs);
    if i == |s| then [s] else [s[..i]] + Split(s[i + 1..], cs)
  }

  function Join(parts: seq<string>): string
  {
    if parts == [] then "" else parts[0] + Join(parts[1..])
  }

  /** One to three digits, then whole groups of three. */
  predicate Grouped(groups: seq<string>)
    requires |groups| > 0
  {
    && AllDigits(groups[0]) && 1 <= |groups[0]| <= 3
    && forall i :: 1 <= i < |groups| ==> AllDigits(groups[i]) && |groups[i]| == 3
  }

  /** Where c occurs last; -1 if nowhere. */
  function LastIndex(s: string, c: char): (i: int)
    ensures -1 <= i < |s|
  {
    if s == "" then -1 else if s[|s| - 1] == c then |s| - 1 else LastIndex(s[..|s| - 1], c)
  }

  function DecimalComma(s: string): string
  {
    var i := Decimals.Find(s, ",");
    if i == |s| then s else s[..i] + "." + s[i + 1..]
  }

  predicate HasSpace(s: string) { exists i :: 0 <= i < |s| && Space(s[i]) }

  const GROUP_SPACES: string := [' ', 0xA0 as char, 0x202F as char]

  /** Digits grouped by spaces, with an optional fraction, and the spaces removed. */
  function Ungrouped(s: string): Option<string>
  {
    var p := Decimals.Find(s, ".");
    var groups := Split(s[..p], GROUP_SPACES);
    if |groups| < 2 || !Grouped(groups) then Decimals.None
    else if p == |s| then Decimals.Some(Join(groups))
    else if p + 1 == |s| || !AllDigits(s[p + 1..]) then Decimals.None
    else Decimals.Some(Join(groups) + s[p..])
  }

  /** The text without grouping and with a point for the decimal separator. With both
      separators the last is decimal; a single one is decimal; a repeated one groups. */
  function Plain(text: string): Option<string>
  {
    var dot, comma := LastIndex(text, '.'), LastIndex(text, ',');
    if dot >= 0 && comma >= 0 then
      var parts := Split(text, if dot > comma then "." else ",");
      if |parts| != 2 || parts[1] == "" || !AllDigits(parts[1]) then Decimals.None
      else
        var groups := Split(parts[0], if dot > comma then "," else ".");
        if !Grouped(groups) then Decimals.None else Decimals.Some(Join(groups) + "." + parts[1])
    else
      var groups := Split(text, if dot >= 0 then "." else ",");
      if |groups| > 2 then if Grouped(groups) then Decimals.Some(Join(groups)) else Decimals.None
      else if HasSpace(text) then Ungrouped(DecimalComma(text))
      else Decimals.Some(DecimalComma(text))
  }

  /** Digits with a point, one digit at least. */
  function PlainNumber(s: string): Option<real>
  {
    var p := Decimals.Find(s, ".");
    var fraction := if p == |s| then "" else s[p + 1..];
    if !AllDigits(s[..p] + fraction) || s[..p] + fraction == "" then Decimals.None
    else Decimals.Some(ValueOf(s[..p] + fraction) as real / Pow10(|fraction|) as real)
  }

  function Negative(x: Option<real>): Option<real>
  {
    match x case None => Decimals.None case Some(v) => Decimals.Some(-v)
  }

  function LocalizedNumber(value: string): Option<real>
  {
    var text := WithoutTail(WithoutHead(Trim(value)));
    if text == "" then Decimals.None
    else
      match Plain(Decimals.Unsigned(text))
      case None => Decimals.None
      case Some(plain) => if text[0] == '-' then Negative(PlainNumber(plain)) else PlainNumber(plain)
  }

  // ----- either separator -----

  function SwapChar(c: char): char { if c == '.' then ',' else if c == ',' then '.' else c }

  /** The text with points and commas exchanged. */
  function Swap(s: string): (r: string)
    ensures |r| == |s| && forall i :: 0 <= i < |s| ==> r[i] == SwapChar(s[i])
  {
    seq(|s|, i requires 0 <= i < |s| => SwapChar(s[i]))
  }

  function SwapAll(parts: seq<string>): (r: seq<string>)
    ensures |r| == |parts| && forall i :: 0 <= i < |parts| ==> r[i] == Swap(parts[i])
  {
    seq(|parts|, i requires 0 <= i < |parts| => Swap(parts[i]))
  }

  lemma SwapSlice(s: string, i: nat, j: nat)
    requires i <= j <= |s|
    ensures Swap(s[i..j]) == Swap(s)[i..j] && Swap(s[i..]) == Swap(s)[i..] && Swap(s[..j]) == Swap(s)[..j]
  {
  }

  lemma SwapDigits(s: string)
    requires AllDigits(s)
    ensures Swap(s) == s
  {
  }

  lemma SwapAllDigits(s: string)
    ensures AllDigits(Swap(s)) <==> AllDigits(s)
  {
    if AllDigits(Swap(s)) {
      forall i | 0 <= i < |s| ensures Digit(s[i]) {
        assert Digit(Swap(s)[i]);
      }
    }
  }

  lemma {:induction false} SwapTrimStart(s: string)
    ensures TrimStart(Swap(s)) == Swap(TrimStart(s))
  {
    if s != "" && Space(s[0]) {
      SwapSlice(s, 1, |s|);
      SwapTrimStart(s[1..]);
    }
  }

  lemma {:induction false} SwapTrimEnd(s: string)
    ensures TrimEnd(Swap(s)) == Swap(TrimEnd(s))
  {
    if s != "" && Space(s[|s| - 1]) {
      SwapSlice(s, 0, |s| - 1);
      SwapTrimEnd(s[..|s| - 1]);
    }
  }

  lemma SwapTrim(s: string)
    ensures Trim(Swap(s)) == Swap(Trim(s))
  {
    SwapTrimStart(s);
    SwapTrimEnd(TrimStart(s));
  }

  lemma SwapCode(s: string)
    ensures CurrencyCode(Swap(s)) <==> CurrencyCode(s)
  {
  }

  lemma SwapSign(s: string)
    ensures forall i :: 0 <= i < |s| ==> (CurrencySign(Swap(s)[i]) <==> CurrencySign(s[i]))
  {
  }

  lemma SwapHead(s: string)
    ensures WithoutHead(Swap(s)) == Swap(WithoutHead(s))
  {
    hide CurrencyCode, TrimStart, Swap;
    SwapSign(s);
    if |s| >= 3 {
      SwapSlice(s, 3, |s|);
      SwapSlice(s, 0, 3);
      SwapTrimStart(s[3..]);
      SwapCode(s[..3]);
    }
    if s != "" {
      SwapSlice(s, 1, |s|);
      SwapTrimStart(s[1..]);
    }
  }

  lemma SwapTail(s: string)
    ensures WithoutTail(Swap(s)) == Swap(WithoutTail(s))
  {
    hide CurrencyCode, TrimEnd, Swap;
    SwapSign(s);
    if |s| >= 3 {
      SwapSlice(s, 0, |s| - 3);
      SwapSlice(s, |s| - 3, |s|);
      SwapTrimEnd(s[..|s| - 3]);
      SwapCode(s[|s| - 3..]);
    }
    if s != "" {
      SwapSlice(s, 0, |s| - 1);
      SwapTrimEnd(s[..|s| - 1]);
    }
  }

  lemma SwapFind(s: string, cs: string)
    ensures Decimals.Find(Swap(s), Swap(cs)) == Decimals.Find(s, cs)
  {
    hide Decimals.Find;
    var i := Decimals.Find(s, cs);
    forall k | 0 <= k < i ensures Swap(s)[k] !in Swap(cs) {
      SwapIn(s[k], cs);
    }
    if i < |s| {
      SwapIn(s[i], cs);
    }
    Decimals.FindFirst(Swap(s), Swap(cs), i);
  }

  lemma SwapIn(c: char, cs: string)
    ensures SwapChar(c) in Swap(cs) <==> c in cs
  {
    if c in cs {
      var i :| 0 <= i < |cs| && cs[i] == c;
      assert Swap(cs)[i] == SwapChar(c);
    }
    if SwapChar(c) in Swap(cs) {
      var i :| 0 <= i < |cs| && Swap(cs)[i] == SwapChar(c);
      assert cs[i] == c;
    }
  }

  lemma {:induction false} SwapSplit(s: string, cs: string)
    ensures Split(Swap(s), Swap(cs)) == SwapAll(Split(s, cs))
    decreases |s|
  {
    hide Decimals.Find;
    SwapFind(s, cs);
    var i := Decimals.Find(s, cs);
    SwapSlice(s, 0, i);
    if i < |s| {
      SwapSlice(s, i + 1, |s|);
      SwapSplit(s[i + 1..], cs);
    }
  }

  lemma SwapGrouped(groups: seq<string>)
    requires |groups| > 0
    ensures Grouped(SwapAll(groups)) <==> Grouped(groups)
    ensures Grouped(groups) ==> SwapAll(groups) == groups
  {
    forall i | 0 <= i < |groups| ensures AllDigits(SwapAll(groups)[i]) <==> AllDigits(groups[i]) {
      SwapAllDigits(groups[i]);
    }
    if Grouped(groups) {
      forall i | 0 <= i < |groups| ensures Swap(groups[i]) == groups[i] {
        SwapDigits(groups[i]);
      }
    }
  }

  lemma {:induction false} SwapLastIndex(s: string, c: char)
    ensures LastIndex(Swap(s), SwapChar(c)) == LastIndex(s, c)
  {
    if s != "" && s[|s| - 1] != c {
      SwapSlice(s, 0, |s| - 1);
      SwapLastIndex(s[..|s| - 1], c);
    }
  }

  lemma {:induction false} LastIndexNone(s: string, c: char)
    ensures LastIndex(s, c) == -1 <==> c !in s
    ensures LastIndex(s, c) >= 0 ==> s[LastIndex(s, c)] == c
  {
    if s != "" && s[|s| - 1] != c {
      LastIndexNone(s[..|s| - 1], c);
      assert s == s[..|s| - 1] + [s[|s| - 1]];
    }
  }

  lemma SwapSpace(s: string)
    ensures HasSpace(Swap(s)) <==> HasSpace(s)
  {
    if HasSpace(s) {
      var i :| 0 <= i < |s| && Space(s[i]);
      assert Space(Swap(s)[i]);
    }
    if HasSpace(Swap(s)) {
      var i :| 0 <= i < |s| && Space(Swap(s)[i]);
      assert Space(s[i]);
    }
  }

  /** With one separator at most, its kind does not matter. */
  lemma SwapDecimal(s: string)
    requires !('.' in s && ',' in s)
    requires |Split(s, if '.' in s then "." else ",")| <= 2
    ensures DecimalComma(Swap(s)) == DecimalComma(s)
  {
    hide Decimals.Find, Split;
    var cs := if '.' in s then "." else ",";
    var i := Decimals.Find(s, cs);
    AtMostOnce(s, cs);
    if '.' in s {
      Decimals.FindFirst(s, ",", |s|);
      Decimals.FindFirst(Swap(s), ",", i);
      assert Swap(s)[..i] + "." + Swap(s)[i + 1..] == s;
    } else {
      forall k | 0 <= k < |s| ensures Swap(s)[k] != ',' {
        assert s[k] != '.';
      }
      Decimals.FindFirst(Swap(s), ",", |s|);
      if i < |s| {
        assert s[..i] + "." + s[i + 1..] == Swap(s);
      } else {
        assert Swap(s) == s;
      }
    }
  }

  lemma AtMostOnce(s: string, cs: string)
    requires |Split(s, cs)| <= 2
    ensures var i := Decimals.Find(s, cs); forall k :: i < k < |s| ==> s[k] !in cs
  {
    hide Decimals.Find;
    var i := Decimals.Find(s, cs);
    if i < |s| {
      var rest := s[i + 1..];
      var j := Decimals.Find(rest, cs);
      assert |Split(rest, cs)| <= 1;
      assert j == |rest|;
      forall k | i < k < |s| ensures s[k] !in cs {
        assert s[k] == rest[k - i - 1];
      }
    }
  }

  lemma SwapPlain(s: string)
    ensures Plain(Swap(s)) == Plain(s)
  {
    hide Decimals.Find, Split, Grouped, DecimalComma, LastIndex, Ungrouped;
    SwapLastIndex(s, '.');
    SwapLastIndex(s, ',');
    LastIndexNone(s, '.');
    LastIndexNone(s, ',');
    var dot, comma := LastIndex(s, '.'), LastIndex(s, ',');
    assert Swap(".") == "," && Swap(",") == ".";
    SwapSplit(s, ".");
    SwapSplit(s, ",");
    if dot >= 0 && comma >= 0 {
      assert dot != comma;
      var parts := Split(s, if dot > comma then "." else ",");
      if |parts| == 2 {
        SwapAllDigits(parts[1]);
        if AllDigits(parts[1]) {
          SwapDigits(parts[1]);
        }
        SwapSplit(parts[0], if dot > comma then "," else ".");
        SwapGrouped(Split(parts[0], if dot > comma then "," else "."));
      }
    } else {
      var groups := Split(s, if dot >= 0 then "." else ",");
      if dot < 0 && comma < 0 {
        NoSeparator(s);
      } else {
        SwapGrouped(groups);
        SwapSpace(s);
        if |groups| <= 2 {
          SwapDecimal(s);
        }
      }
    }
  }

  lemma NoSeparator(s: string)
    requires '.' !in s && ',' !in s
    ensures Swap(s) == s
  {
  }

  /** Exchanging all points and commas does not change an amount. */
  lemma SwapNumber(value: string)
    ensures LocalizedNumber(Swap(value)) == LocalizedNumber(value)
  {
    hide Plain, PlainNumber, Trim, WithoutHead, WithoutTail;
    SwapTrim(value);
    SwapHead(Trim(value));
    SwapTail(WithoutHead(Trim(value)));
    var text := WithoutTail(WithoutHead(Trim(value)));
    SwapPlain(Decimals.Unsigned(text));
    if text != "" {
      SwapSlice(text, 1, |text|);
    }
  }

  // ----- what is read -----

  lemma TrimNothing(s: string)
    requires s != "" && !Space(s[0]) && !Space(s[|s| - 1])
    ensures Trim(s) == s
  {
  }

  /** Digits with a point before the last k of them stand for n / 10^k. */
  lemma ReadsDotted(n: nat, k: nat)
    requires k > 0
    ensures LocalizedNumber(Decimals.Dotted(n, k)) == Decimals.Some(n as real / Pow10(k) as real)
  {
    hide Padded, Trim, Plain, PlainNumber, WithoutHead, WithoutTail, ValueOf, Pow10;
    var s, text := Padded(n, k + 1), Decimals.Dotted(n, k);
    var p := |s| - k;
    assert Digit(text[0]) && Digit(text[|text| - 1]);
    NoMarks(text);
    assert Decimals.Unsigned(text) == text;
    DottedPlain(text, p);
    assert text[..p] + text[p + 1..] == s;
    PaddedValue(n, k + 1);
    DottedNumber(text, p);
  }

  lemma NoMarks(s: string)
    requires s != "" && Digit(s[0]) && Digit(s[|s| - 1])
    ensures Trim(s) == s && WithoutHead(s) == s && WithoutTail(s) == s
  {
    TrimNothing(s);
  }

  lemma DottedPlain(text: string, p: nat)
    requires p < |text| && text[p] == '.' && forall i :: 0 <= i < |text| && i != p ==> Digit(text[i])
    ensures Plain(text) == Decimals.Some(text)
  {
    hide Decimals.Find, Split, LastIndex;
    LastIndexNone(text, '.');
    LastIndexNone(text, ',');
    SplitOnce(text, ".", p);
    Decimals.FindFirst(text, ",", |text|);
  }

  lemma DottedNumber(text: string, p: nat)
    requires 0 < p < |text| && text[p] == '.' && AllDigits(text[..p] + text[p + 1..])
    ensures PlainNumber(text) == Decimals.Some(ValueOf(text[..p] + text[p + 1..]) as real / Pow10(|text| - p - 1) as real)
  {
    hide Decimals.Find, ValueOf;
    var s := text[..p] + text[p + 1..];
    forall i | 0 <= i < p ensures text[i] !in "." {
      assert Digit(s[i]);
    }
    Decimals.FindFirst(text, ".", p);
  }

  lemma SplitOnce(s: string, cs: string, i: nat)
    requires i < |s| && s[i] in cs && forall k :: 0 <= k < |s| && k != i ==> s[k] !in cs
    ensures Split(s, cs) == [s[..i], s[i + 1..]]
  {
    hide Decimals.Find;
    Decimals.FindFirst(s, cs, i);
    var rest := s[i + 1..];
    Decimals.FindFirst(rest, cs, |rest|);
    assert Split(rest, cs) == [rest];
  }
}
