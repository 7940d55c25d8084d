/** What each column of the archived spreadsheet holds, from the cells its formula names. */
module ReplayColumns {
  import opened Numerals
  import opened FormulaReplay

  // ----- the cells a formula names -----

  /** No letter, digit, underscore, dollar or sheet mark stands before i. */
  predicate Freestanding(s: string, i: nat)
    requires i <= |s|
  {
    i == 0 || !('A' <= s[i - 1] <= 'Z' || 'a' <= s[i - 1] <= 'z' || '0' <= s[i - 1] <= '9' || s[i - 1] in "_!$")
  }

  /** Column c and digits are written at i, each with or without a dollar, up to the last digit. */
  ghost predicate SpeltAt(s: string, i: nat, c: char, dollar: string, dollar': string, digits: string)
    requires i <= |s|
  {
    && dollar in ["", "$"] && dollar' in ["", "$"] && digits != "" && AllDigits(digits)
    && var text := dollar + [c] + dollar' + digits;
       text <= s[i..] && (|text| < |s[i..]| ==> !Digit(s[i..][|text|]))
  }

  /** A reference to row n of column c is written at i. */
  ghost predicate WrittenAt(s: string, i: nat, c: char, n: nat)
    requires i <= |s|
  {
    exists dollar, dollar', digits :: SpeltAt(s, i, c, dollar, dollar', digits) && ValueOf(digits) == n
  }

  lemma DigitsFromIs(s: string, i: nat)
    requires i <= |s|
    ensures DigitsFrom(s, i) < |s| ==> !Digit(s[DigitsFrom(s, i)])
    decreases |s| - i
  {
    if i < |s| && Digit(s[i]) {
      DigitsFromIs(s, i + 1);
    }
  }

  /** A run of digits has one end. */
  lemma DigitsEnd(s: string, i: nat, e: nat)
    requires i <= e <= |s| && AllDigits(s[i..e]) && (e < |s| ==> !Digit(s[e]))
    ensures DigitsFrom(s, i) == e
    decreases |s| - i
  {
    if i < e {
      assert s[i] == s[i..e][0];
      assert s[i + 1..e] == s[i..e][1..];
      DigitsEnd(s, i + 1, e);
    }
  }

  lemma ReferenceIs(s: string, i: nat, c: char, n: nat)
    requires i <= |s| && c != '$' && !Digit(c)
    ensures ReferenceAt(s, i, c) == FormulaReplay.Option.Some(n) <==> WrittenAt(s, i, c, n)
  {
    if ReferenceAt(s, i, c) == FormulaReplay.Option.Some(n) {
      ReferenceWritten(s, i, c, n);
    }
    if WrittenAt(s, i, c, n) {
      var dollar, dollar', digits :| SpeltAt(s, i, c, dollar, dollar', digits) && ValueOf(digits) == n;
      WrittenRead(s, i, c, dollar, dollar', digits);
    }
  }

  lemma ReferenceWritten(s: string, i: nat, c: char, n: nat)
    requires i <= |s| && ReferenceAt(s, i, c) == FormulaReplay.Option.Some(n)
    ensures WrittenAt(s, i, c, n)
  {
    hide DigitsFrom, ValueOf;
    var d := if s[i] == '$' then "$" else "";
    var j := i + |d|;
    var e := if j + 1 < |s| && s[j + 1] == '$' then "$" else "";
    var k := j + 1 + |e|;
    DigitsFromIs(s, k);
    SpeltFrom(s, i, c, d, e, DigitsFrom(s, k));
  }

  lemma SpeltFrom(s: string, i: nat, c: char, d: string, e: string, end: nat)
    requires d in ["", "$"] && e in ["", "$"] && i + |d| + 1 + |e| < end <= |s|
    requires s[i..i + |d|] == d && s[i + |d|] == c && s[i + |d| + 1..i + |d| + 1 + |e|] == e
    requires AllDigits(s[i + |d| + 1 + |e|..end]) && (end < |s| ==> !Digit(s[end]))
    ensures SpeltAt(s, i, c, d, e, s[i + |d| + 1 + |e|..end])
  {
    var k := i + |d| + 1 + |e|;
    var text := d + [c] + e + s[k..end];
    assert s[i..end] == s[i..i + |d|] + [s[i + |d|]] + s[i + |d| + 1..k] + s[k..end];
    assert s[i..][..|text|] == text;
  }

  lemma WrittenRead(s: string, i: nat, c: char, d: string, e: string, digits: string)
    requires i <= |s| && c != '$' && !Digit(c) && SpeltAt(s, i, c, d, e, digits)
    ensures ReferenceAt(s, i, c) == FormulaReplay.Option.Some(ValueOf(digits))
  {
    hide DigitsFrom, ValueOf, AllDigits;
    var k := i + |d| + 1 + |e|;
    SpeltParts(s, i, c, d, e, digits);
    DigitsEnd(s, k, k + |digits|);
    assert digits != "" && Digit(digits[0]) && s[k] == digits[0];
  }

  lemma SpeltParts(s: string, i: nat, c: char, d: string, e: string, digits: string)
    requires i <= |s| && SpeltAt(s, i, c, d, e, digits)
    ensures var k := i + |d| + 1 + |e|;
            && k + |digits| <= |s| && s[i..i + |d|] == d && s[i + |d|] == c && s[i + |d| + 1..k] == e && s[k..k + |digits|] == digits
            && digits != "" && AllDigits(digits) && Digit(digits[0]) && (k + |digits| < |s| ==> !Digit(s[k + |digits|]))
            && (d == "$" ==> s[i] == '$') && (e == "$" ==> s[i + |d| + 1] == '$') && (d == "" || d == "$") && (e == "" || e == "$")
  {
    var text := d + [c] + e + digits;
    var k := i + |d| + 1 + |e|;
    assert s[i..][..|text|] == text;
    assert s[i..i + |d|] == text[..|d|] == d;
    assert s[i + |d|] == text[|d|];
    assert s[i + |d| + 1..k] == text[|d| + 1..|d| + 1 + |e|] == e;
    assert s[k..k + |digits|] == text[|d| + 1 + |e|..] == digits;
    assert d == "$" ==> s[i] == s[i..i + |d|][0];
    assert e == "$" ==> s[i + |d| + 1] == s[i + |d| + 1..k][0];
    assert k + |digits| < |s| ==> s[k + |digits|] == s[i..][|text|];
  }

  /** The row a formula names in a column is that of the first freestanding reference. */
  lemma {:induction false} RowReferenceIs(s: string, from: nat, c: char)
    requires from <= |s| && c != '$' && !Digit(c)
    ensures RowReference(s, from, c).None? ==>
              forall i, n :: from <= i <= |s| && Freestanding(s, i) ==> !WrittenAt(s, i, c, n)
    ensures RowReference(s, from, c).Some? ==>
              exists i :: from <= i <= |s| && Freestanding(s, i) && WrittenAt(s, i, c, RowReference(s, from, c).value)
                          && forall j, n :: from <= j < i && Freestanding(s, j) ==> !WrittenAt(s, j, c, n)
    decreases |s| - from
  {
    hide WrittenAt, ReferenceAt;
    forall n: nat ensures ReferenceAt(s, from, c) == FormulaReplay.Option.Some(n) <==> WrittenAt(s, from, c, n) {
      ReferenceIs(s, from, c, n);
    }
    if from == |s| {
      NothingAtEnd(s, c);
    } else if !(Freestanding(s, from) && ReferenceAt(s, from, c).Some?) {
      RowReferenceIs(s, from + 1, c);
    }
  }

  lemma NothingAtEnd(s: string, c: char)
    ensures forall n :: !WrittenAt(s, |s|, c, n)
  {
  }

  predicate Names(formula: string, c: char)
  {
    var row := RowReference(formula, 0, c);
    row.Some? && row.value > 0
  }

  /** What the named cell holds: nothing if none is named, an error if it cannot be evaluated. */
  ghost predicate Reads(a: Archive, formula: string, c: char, v: Value)
  {
    if !Names(formula, c) then v == Empty
    else
      var o := Plain(a, c, RowReference(formula, 0, c).value);
      o == Returned(v) || (o == Raised && v == Error)
  }

  /** A named cell counts as a number; an empty one as zero. */
  predicate CountsAs(formula: string, c: char, v: Value, x: real)
  {
    Names(formula, c) && (v == Number(x) || (x == 0.0 && (v == Empty || v == Text(""))))
  }

  /** The cell holds a formula that is replayed. */
  predicate Replayed(a: Archive, c: char, row: nat, formula: string)
  {
    Output(c) && CellAt(a, c, row).formula == FormulaReplay.Option.Some(formula) && !Contains(formula, "#REF!") && FormulaFamily(a, c, formula)
  }

  // ----- products -----

  /** L is amount C times rate K, N is C times M, Q is E times P; an error unless both are numbers. */
  lemma ProductColumn(a: Archive, c: char, row: nat, formula: string, first: char, second: char, x: Value, y: Value)
    requires Replayed(a, c, row, formula)
    requires (c == 'L' && first == 'C' && second == 'K') || (c == 'N' && first == 'C' && second == 'M') || (c == 'Q' && first == 'E' && second == 'P')
    requires Reads(a, formula, first, x) && Reads(a, formula, second, y)
    ensures forall p, q :: CountsAs(formula, first, x, p) && CountsAs(formula, second, y, q) ==> Plain(a, c, row) == Returned(Number(p * q))
    ensures (forall p :: !CountsAs(formula, first, x, p)) || (forall q :: !CountsAs(formula, second, y, q)) ==> Plain(a, c, row) == Returned(Error)
  {
    hide RowReference, Replayed, Reads, CountsAs, ReadPlain, Factor, Plain, Template;
    ReplayedIs(a, c, row, formula);
    ProductRead(a, c, formula, first, second);
    FactorIs(a, formula, first, Rank(c), x);
    FactorIs(a, formula, second, Rank(c), y);
  }

  lemma ProductRead(a: Archive, c: char, formula: string, first: char, second: char)
    requires (c == 'L' && first == 'C' && second == 'K') || (c == 'N' && first == 'C' && second == 'M') || (c == 'Q' && first == 'E' && second == 'P')
    ensures Template(a, c, formula) == Product(Factor(ReadPlain(a, formula, first, Rank(c))), Factor(ReadPlain(a, formula, second, Rank(c))))
  {
    hide RowReference, ReadPlain, Factor;
  }

  lemma ReplayedIs(a: Archive, c: char, row: nat, formula: string)
    requires Replayed(a, c, row, formula)
    ensures Plain(a, c, row) == Returned(Template(a, c, formula))
  {
    hide CellAt, Contains, FormulaFamily, Template;
  }

  lemma FactorIs(a: Archive, formula: string, c: char, reader: nat, v: Value)
    requires Rank(c) < reader && Reads(a, formula, c, v)
    ensures forall x :: CountsAs(formula, c, v, x) ==> Factor(ReadPlain(a, formula, c, reader)) == Number(x)
    ensures (forall x :: !CountsAs(formula, c, v, x)) ==> Factor(ReadPlain(a, formula, c, reader)) == Error
    ensures Factor(ReadPlain(a, formula, c, reader)).Number? || Factor(ReadPlain(a, formula, c, reader)) == Error
  {
    hide RowReference, Plain;
    if Names(formula, c) {
      if v.Number? {
        assert CountsAs(formula, c, v, v.number);
      } else if v == Empty || v == Text("") {
        assert CountsAs(formula, c, v, 0.0);
      }
    }
  }

  lemma GivenIs(a: Archive, formula: string, c: char, reader: nat, v: Value)
    requires Rank(c) < reader && Reads(a, formula, c, v)
    ensures Given(ReadPlain(a, formula, c, reader)) == v
    ensures ReadPlain(a, formula, c, reader).Unnamed? <==> !Names(formula, c)
  {
    hide RowReference, Plain;
  }

  // ----- rates -----

  /** The rate of a pair that is in force on a day: of the latest date up to it, the first listed. */
  ghost predicate RateOn(a: Archive, pair: string, date: real, rate: real)
  {
    && pair in a.rates
    && exists i :: 0 <= i < |a.rates[pair]| && a.rates[pair][i].0 <= date && a.rates[pair][i].1 == rate
                   && forall j :: 0 <= j < |a.rates[pair]| && a.rates[pair][j].0 <= date ==>
                        a.rates[pair][j].0 < a.rates[pair][i].0 || (a.rates[pair][j].0 == a.rates[pair][i].0 && i <= j)
  }

  ghost predicate NoRateOn(a: Archive, pair: string, date: real)
  {
    pair !in a.rates || forall i :: 0 <= i < |a.rates[pair]| ==> a.rates[pair][i].0 > date
  }

  lemma {:induction false} BestIsFirst(rates: Rates, date: real) returns (i: int)
    ensures Best(rates, date).Some? <==> exists j :: 0 <= j < |rates| && rates[j].0 <= date
    ensures Best(rates, date).Some? ==>
              0 <= i < |rates| && rates[i] == Best(rates, date).value && rates[i].0 <= date
              && forall j :: 0 <= j < |rates| && rates[j].0 <= date ==> rates[j].0 < rates[i].0 || (rates[j].0 == rates[i].0 && i <= j)
  {
    i := 0;
    if rates != [] {
      var front, last := rates[..|rates| - 1], rates[|rates| - 1];
      i := BestIsFirst(front, date);
      assert forall j :: 0 <= j < |front| ==> rates[j] == front[j];
      if last.0 <= date && (Best(front, date).None? || Best(front, date).value.0 < last.0) {
        i := |rates| - 1;
      }
    }
  }

  lemma PriorRateIs(a: Archive, pair: string, date: real)
    ensures forall rate :: RateOn(a, pair, date, rate) ==> PriorRate(a, pair, Number(date)) == Number(rate)
    ensures NoRateOn(a, pair, date) ==> PriorRate(a, pair, Number(date)) == Error
    ensures NoRateOn(a, pair, date) || exists rate :: RateOn(a, pair, date, rate)
  {
    hide Best;
    if pair in a.rates {
      var rates := a.rates[pair];
      var i := BestIsFirst(rates, date);
      if !NoRateOn(a, pair, date) {
        assert RateOn(a, pair, date, rates[i].1);
      }
    }
  }

  /** The two currencies with a quote towards EUR. */
  predicate Quoted(word: string) { word == "PHP" || word == "USD" }

  function TowardsEur(word: string): string { if word == "PHP" then "PHPEUR" else "USDEUR" }

  /** The two currencies with a quote for PHP. */
  predicate QuotedForPhp(word: string) { word == "eur" || word == "usd" }

  function FromPhp(word: string): string { if word == "eur" then "PHPEUR" else "PHPUSD" }

  function Word(a: Archive, v: Value): string { if v.Text? then a.upper(a.strip(v.text)) else "" }

  function FoldedWord(a: Archive, v: Value): string { if v.Text? then a.fold(a.strip(v.text)) else "" }

  /** K is the rate of the currency in D on day A with two percent on top, P the plain rate
      of the currency in O; both are 1 for any other currency. */
  lemma RateColumn(a: Archive, c: char, row: nat, formula: string, source: char, currency: Value, date: Value)
    requires Replayed(a, c, row, formula) && ((c == 'K' && source == 'D') || (c == 'P' && source == 'O'))
    requires Reads(a, formula, source, currency) && Reads(a, formula, 'A', date)
    ensures currency == Error ==> Plain(a, c, row) == Returned(Error)
    ensures currency != Error && !Quoted(Word(a, currency)) ==> Plain(a, c, row) == Returned(Number(1.0))
    ensures forall day, rate ::
              Quoted(Word(a, currency)) && CountsAs(formula, 'A', date, day) && RateOn(a, TowardsEur(Word(a, currency)), day, rate) ==>
                Plain(a, c, row) == Returned(Number(if c == 'K' then 1.02 * rate else rate))
    ensures Quoted(Word(a, currency)) ==>
              (forall day :: CountsAs(formula, 'A', date, day) ==> NoRateOn(a, TowardsEur(Word(a, currency)), day)) ==>
                Plain(a, c, row) == Returned(Error)
  {
    hide RowReference, CellAt, Contains, FormulaFamily, PriorRate, RateOn, NoRateOn, Reads, CountsAs, Factor, Given, ReadPlain;
    GivenIs(a, formula, source, Rank(c), currency);
    FactorIs(a, formula, 'A', Rank(c), date);
    var d := Factor(ReadPlain(a, formula, 'A', Rank(c)));
    forall pair: string, day: real | d == Number(day)
      ensures forall rate :: RateOn(a, pair, day, rate) ==> PriorRate(a, pair, d) == Number(rate)
      ensures NoRateOn(a, pair, day) ==> PriorRate(a, pair, d) == Error
    {
      PriorRateIs(a, pair, day);
    }
    NoNumberNoRate(a);
    DateCounts(a, formula, Rank(c), date);
  }

  lemma NoNumberNoRate(a: Archive)
    ensures forall pair :: PriorRate(a, pair, Error) == Error
  {
  }

  /** A factor that is a number is what the cell counts as. */
  lemma DateCounts(a: Archive, formula: string, reader: nat, date: Value)
    requires 0 < reader && Reads(a, formula, 'A', date)
    ensures var d := Factor(ReadPlain(a, formula, 'A', reader)); d.Number? ==> CountsAs(formula, 'A', date, d.number)
  {
    hide RowReference, Plain;
  }

  /** M is 1 within a currency; into EUR it is what L holds; into PHP it is 1.02 over the prior
      rate of PHPEUR or PHPUSD; all else is an error. */
  lemma SourceFactorColumn(a: Archive, row: nat, formula: string, currency: Value, account: Value, amount: Value, date: Value)
    requires Replayed(a, 'M', row, formula)
    requires Reads(a, formula, 'D', currency) && Reads(a, formula, 'J', account) && Reads(a, formula, 'L', amount) && Reads(a, formula, 'A', date)
    ensures var from, to, result := FoldedWord(a, currency), FoldedWord(a, account), Plain(a, 'M', row);
            && (currency == Error || account == Error ==> result == Returned(Error))
            && (currency != Error && account != Error ==>
                 && (from == to ==> result == Returned(Number(1.0)))
                 && (from != to && to == "eur" ==> result == Returned(if Names(formula, 'L') then amount else Error))
                 && (from != to && to != "eur" && to != "php" ==> result == Returned(Error))
                 && (from != to && to == "php" && !QuotedForPhp(from) ==> result == Returned(Error))
                 && (from != to && to == "php" && QuotedForPhp(from) ==>
                      && (forall day, rate :: CountsAs(formula, 'A', date, day) && RateOn(a, FromPhp(from), day, rate) ==>
                            result == Returned(if rate == 0.0 then Error else Number(1.02 / rate)))
                      && ((forall day :: CountsAs(formula, 'A', date, day) ==> NoRateOn(a, FromPhp(from), day)) ==>
                            result == Returned(Error))))
  {
    hide RowReference, CellAt, Contains, FormulaFamily, PriorRate, RateOn, NoRateOn, Reads, CountsAs, Factor, Given, ReadPlain;
    GivenIs(a, formula, 'D', 3, currency);
    GivenIs(a, formula, 'J', 3, account);
    GivenIs(a, formula, 'L', 3, amount);
    FactorIs(a, formula, 'A', 3, date);
    var d := Factor(ReadPlain(a, formula, 'A', 3));
    forall pair: string, day: real | d == Number(day)
      ensures forall rate :: RateOn(a, pair, day, rate) ==> PriorRate(a, pair, d) == Number(rate)
      ensures NoRateOn(a, pair, day) ==> PriorRate(a, pair, d) == Error
    {
      PriorRateIs(a, pair, day);
    }
    NoNumberNoRate(a);
    DateCounts(a, formula, 3, date);
  }

  // ----- looked-up currencies -----

  /** Nothing worth looking up: no cell, an empty one, empty text, zero or false. */
  predicate Blank(v: Value) { v == Empty || v == Text("") || v == Number(0.0) || v == Truth(false) }

  /** The currency of an account, by its name stripped and folded. */
  ghost predicate CurrencyOf(a: Archive, name: Value, v: Value)
  {
    var key := a.fold(a.strip(a.textOf(name)));
    if key in a.currencies then v == Text(a.currencies[key]) else v == Error
  }

  /** J is the currency of the account in H, O that of the one in I, blank for a blank; for an
      expense O is what J holds. */
  lemma CurrencyColumn(a: Archive, c: char, row: nat, formula: string, name: Value, other: Value)
    requires Replayed(a, c, row, formula) && (c == 'J' || c == 'O')
    requires Reads(a, formula, if c == 'J' then 'H' else 'I', name) && (c == 'O' ==> Reads(a, formula, 'J', other))
    ensures var result := Plain(a, c, row);
            && (name == Error ==> result == Returned(Error))
            && (Blank(name) ==> result == Returned(Text("")))
            && (c == 'O' && name.Text? && name.text != "" && FoldedWord(a, name) == "expense" ==>
                  result == Returned(if Names(formula, 'J') then other else Error))
            && (name != Error && !Blank(name) && !(c == 'O' && name.Text? && FoldedWord(a, name) == "expense") ==>
                  result.Returned? && CurrencyOf(a, name, result.value))
  {
    hide RowReference, CellAt, Contains, FormulaFamily, Reads, ReadPlain, Given;
    if c == 'J' {
      GivenIs(a, formula, 'H', 1, name);
    } else {
      GivenIs(a, formula, 'I', 2, name);
      GivenIs(a, formula, 'J', 2, other);
    }
  }

  // ----- which formulas are known -----

  ghost predicate Holds(text: string, part: string)
  {
    exists before, after :: text == before + part + after
  }

  lemma ContainsIs(text: string, part: string)
    ensures Contains(text, part) <==> Holds(text, part)
  {
    if Contains(text, part) {
      var i :| 0 <= i <= |text| && PartAt(text, part, i);
      assert text == text[..i] + part + text[i + |part|..];
    }
    if before, after :| text == before + part + after {
      assert PartAt(text, part, |before|);
    }
  }

  ghost predicate HoldsAll(text: string, parts: set<string>)
  {
    forall part :: part in parts ==> Holds(text, part)
  }

  /** What a formula of each column has to mention, in capitals. */
  function Mentions(c: char): set<string>
  {
    match c
    case 'J' => {"DGET", "H"}
    case 'K' => {"IFS", "XLOOKUP", "D"}
    case 'L' => {"*", "C", "K"}
    case 'M' => {"IFS", "XLOOKUP", "D", "J"}
    case 'N' => {"*", "C", "M"}
    case 'O' => {"IF", "DGET", "I"}
    case 'P' => {"IFS", "XLOOKUP", "O"}
    case _ => {"*", "P", "E"}
  }

  lemma FamilyIs(a: Archive, c: char, formula: string)
    requires Output(c)
    ensures FormulaFamily(a, c, formula) <==> HoldsAll(a.upper(formula), Mentions(c))
  {
    hide Contains, Holds;
    var text, tokens := a.upper(formula), ExpectedTokens(c);
    forall part ensures Contains(text, part) <==> Holds(text, part) {
      ContainsIs(text, part);
    }
    assert forall part :: part in Mentions(c) ==> part in tokens;
    assert forall i :: 0 <= i < |tokens| ==> tokens[i] in Mentions(c);
  }

  /** Rows are counted from 1; what is outside the sheet is empty. */
  lemma CellIs(a: Archive, c: char)
    ensures forall i :: 0 <= i < |a.rows| && c in a.rows[i] ==> CellAt(a, c, i + 1) == a.rows[i][c]
    ensures forall i :: 0 <= i < |a.rows| && c !in a.rows[i] ==> CellAt(a, c, i + 1) == Cell(FormulaReplay.Option.None, Empty)
    ensures forall row: nat :: row == 0 || row > |a.rows| ==> CellAt(a, c, row) == Cell(FormulaReplay.Option.None, Empty)
  {
  }

  // ----- cells that are not replayed -----

  /** Inputs and cells without a formula hold their value, broken references are an error, and
      a formula of another family cannot be evaluated. */
  lemma OtherCells(a: Archive, c: char, row: nat)
    ensures var cell := CellAt(a, c, row);
            && (c !in "JKLMNOPQ" || cell.formula.None? ==> Plain(a, c, row) == Returned(cell.value))
            && (c in "JKLMNOPQ" && cell.formula.Some? && Contains(cell.formula.value, "#REF!") ==> Plain(a, c, row) == Returned(Error))
            && (c in "JKLMNOPQ" && cell.formula.Some? && !Contains(cell.formula.value, "#REF!") && !FormulaFamily(a, c, cell.formula.value) ==>
                  Plain(a, c, row) == Raised)
  {
    hide Template, CellAt, Contains, FormulaFamily;
  }
}
