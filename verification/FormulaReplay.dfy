/** The replay of archived spreadsheet formulas: memoised, guarded against cycles, and
    equal to plain recursion. */
module FormulaReplay {
  import opened Numerals

  datatype Option<+T> = None | Some(value: T)

  /** What a cell holds; Error stands for every error value. */
  datatype Value = Error | Empty | Text(text: string) | Number(number: real) | Truth(truth: bool)

  /** A call either returns a value or raises. */
  datatype Outcome = Returned(value: Value) | Raised

  datatype Cell = Cell(formula: Option<string>, value: Value)

  type Rates = seq<(real, real)>

  /** An archive: the transaction cells, the account currencies by folded name, and the
      rate tables, with the text functions of the language as parameters. */
  datatype Archive = Archive(
    rows: seq<map<char, Cell>>,
    currencies: map<string, string>,
    rates: map<string, Rates>,
    upper: string -> string,
    fold: string -> string,
    strip: string -> string,
    textOf: Value -> string)

  const OUTPUT_COLUMNS := "JKLMNOPQ"

  predicate Output(c: char) { c in OUTPUT_COLUMNS }

  /** Input columns are 0; every formula reads columns of smaller rank. */
  function Rank(c: char): nat
  {
    if c == 'J' || c == 'K' then 1
    else if c == 'L' || c == 'O' then 2
    else if c == 'M' || c == 'P' then 3
    else if c == 'N' || c == 'Q' then 4
    else 0
  }

  // ----- cells and references -----

  function CellAt(a: Archive, c: char, row: nat): Cell
  {
    if 1 <= row <= |a.rows| && c in a.rows[row - 1] then a.rows[row - 1][c] else Cell(None, Empty)
  }

  predicate WordChar(c: char) { Digit(c) || 'A' <= c <= 'Z' || 'a' <= c <= 'z' || c == '_' || c == '!' || c == '$' }

  function DigitsFrom(s: string, i: nat): (j: nat)
    requires i <= |s|
    ensures i <= j <= |s| && AllDigits(s[i..j])
    decreases |s| - i
  {
    if i < |s| && Digit(s[i]) then DigitsFrom(s, i + 1) else i
  }

  /** The row a reference that starts at i names: column and digits, each after an optional dollar. */
  function ReferenceAt(s: string, i: nat, column: char): Option<nat>
    requires i <= |s|
  {
    var j := if i < |s| && s[i] == '$' then i + 1 else i;
    if j >= |s| || s[j] != column then None
    else
      var k := if j + 1 < |s| && s[j + 1] == '$' then j + 2 else j + 1;
      var end := DigitsFrom(s, k);
      if end == k then None else Some(ValueOf(s[k..end]))
  }

  /** The first reference to a column that belongs to no other word or sheet. */
  function RowReference(s: string, i: nat, column: char): Option<nat>
    requires i <= |s|
    decreases |s| - i
  {
    if i == |s| then None
    else if (i == 0 || !WordChar(s[i - 1])) && ReferenceAt(s, i, column).Some? then ReferenceAt(s, i, column)
    else RowReference(s, i + 1, column)
  }

  predicate PartAt(s: string, part: string, i: int) { 0 <= i <= |s| - |part| && s[i..i + |part|] == part }

  predicate Contains(s: string, part: string) { exists i :: 0 <= i <= |s| && PartAt(s, part, i) }

  function ExpectedTokens(c: char): seq<string>
  {
    if c == 'J' then ["DGET", "H"]
    else if c == 'K' then ["IFS", "XLOOKUP", "D"]
    else if c == 'L' then ["*", "C", "K"]
    else if c == 'M' then ["IFS", "XLOOKUP", "D", "J"]
    else if c == 'N' then ["*", "C", "M"]
    else if c == 'O' then ["IF", "DGET", "I"]
    else if c == 'P' then ["IFS", "XLOOKUP", "O"]
    else ["*", "P", "E"]
  }

  predicate FormulaFamily(a: Archive, c: char, formula: string)
  {
    forall i :: 0 <= i < |ExpectedTokens(c)| ==> Contains(a.upper(formula), ExpectedTokens(c)[i])
  }

  // ----- values -----

  /** A value as a factor: empty counts as zero. */
  function AsNumber(v: Value): Value
  {
    match v
    case Empty => Number(0.0)
    case Text(t) => if t == "" then Number(0.0) else Error
    case Number(_) => v
    case _ => Error
  }

  predicate Falsy(v: Value) { v == Empty || v == Text("") || v == Number(0.0) || v == Truth(false) }

  function Product(x: Value, y: Value): Value
  {
    if x.Number? && y.Number? then Number(x.number * y.number) else Error
  }

  function Lookup(a: Archive, name: Value): Value
  {
    var key := a.fold(a.strip(a.textOf(name)));
    if key in a.currencies then Text(a.currencies[key]) else Error
  }

  function Best(rates: Rates, date: real): Option<(real, real)>
  {
    if rates == [] then None
    else
      var before, last := Best(rates[..|rates| - 1], date), rates[|rates| - 1];
      if last.0 <= date && (before.None? || before.value.0 < last.0) then Some(last) else before
  }

  /** The rate of the latest date on or before the given one. */
  function PriorRate(a: Archive, pair: string, date: Value): Value
  {
    if !date.Number? || pair !in a.rates then Error
    else match Best(a.rates[pair], date.number) case None => Error case Some(item) => Number(item.1)
  }

  lemma {:induction false} BestIsLatest(rates: Rates, date: real)
    ensures Best(rates, date).None? ==> forall i :: 0 <= i < |rates| ==> rates[i].0 > date
    ensures Best(rates, date).Some? ==>
              && Best(rates, date).value in rates && Best(rates, date).value.0 <= date
              && forall i :: 0 <= i < |rates| && rates[i].0 <= date ==> rates[i].0 <= Best(rates, date).value.0
  {
    if rates != [] {
      BestIsLatest(rates[..|rates| - 1], date);
    }
  }

  /** With one rate for a date, the rate found is that of the latest date. */
  lemma PriorRateIsLatest(a: Archive, pair: string, date: real, i: nat)
    requires pair in a.rates && i < |a.rates[pair]| && a.rates[pair][i].0 <= date
    requires forall j :: 0 <= j < |a.rates[pair]| && a.rates[pair][j].0 <= date && j != i ==> a.rates[pair][j].0 < a.rates[pair][i].0
    ensures PriorRate(a, pair, Number(date)) == Number(a.rates[pair][i].1)
  {
    BestIsLatest(a.rates[pair], date);
  }

  // ----- formulas, given the values they read -----

  /** One cell read by a formula: nothing when the formula names no row (or row 0). */
  datatype Read = Unnamed | Named(outcome: Outcome)

  function Given(r: Read): Value
  {
    match r case Unnamed => Empty case Named(o) => if o.Raised? then Error else o.value
  }

  function Factor(r: Read): Value
  {
    match r case Unnamed => Error case Named(o) => if o.Raised? then Error else AsNumber(o.value)
  }

  /** The currency pair towards EUR. */
  function PairToEur(currency: string): Option<string>
  {
    if currency == "PHP" then Some("PHPEUR") else if currency == "USD" then Some("USDEUR") else None
  }

  function Upper(a: Archive, v: Value): string { if v.Text? then a.upper(a.strip(v.text)) else "" }

  function Folded(a: Archive, v: Value): string { if v.Text? then a.fold(a.strip(v.text)) else "" }

  function RateToEur(a: Archive, currency: Value, date: Value): Value
  {
    if currency == Error then Error
    else
      match PairToEur(Upper(a, currency))
      case None => Number(1.0)
      case Some(pair) => PriorRate(a, pair, date)
  }

  function SourceRate(a: Archive, currency: Value, date: Value): Value
  {
    if currency == Error then Error
    else
      match PairToEur(Upper(a, currency))
      case None => Number(1.0)
      case Some(pair) => Product(Number(1.02), PriorRate(a, pair, date))
  }

  function PhpRate(a: Archive, currency: string, date: Value): Value
  {
    var rate := if currency == "eur" then PriorRate(a, "PHPEUR", date) else if currency == "usd" then PriorRate(a, "PHPUSD", date) else Error;
    if !rate.Number? || rate.number == 0.0 then Error else Number(1.02 / rate.number)
  }

  function ColumnJ(a: Archive, name: Value): Value
  {
    if name == Error then Error else if Falsy(name) then Text("") else Lookup(a, name)
  }

  function ColumnM(a: Archive, currency: Value, account: Value, amount: Read, date: Value): Value
  {
    if currency == Error || account == Error then Error
    else if Folded(a, currency) == Folded(a, account) then Number(1.0)
    else if Folded(a, account) == "eur" then if amount.Unnamed? then Error else Given(amount)
    else if Folded(a, account) == "php" then PhpRate(a, Folded(a, currency), date)
    else Error
  }

  function ColumnO(a: Archive, destination: Value, currency: Read): Value
  {
    if destination == Error then Error
    else if Falsy(destination) then Text("")
    else if destination.Text? && Folded(a, destination) == "expense" then if currency.Unnamed? then Error else Given(currency)
    else Lookup(a, destination)
  }

  // ----- plain recursion -----

  function ReadPlain(a: Archive, formula: string, c: char, reader: nat): Read
    requires Rank(c) < reader
    decreases reader, 0
  {
    match RowReference(formula, 0, c)
    case None => Unnamed
    case Some(row) => if row == 0 then Unnamed else Named(Plain(a, c, row))
  }

  /** A formula of column c, with every cell it reads evaluated again from scratch. */
  function Template(a: Archive, c: char, formula: string): Value
    requires Output(c)
    decreases Rank(c), 1
  {
    var n := Rank(c);
    if c == 'J' then ColumnJ(a, Given(ReadPlain(a, formula, 'H', n)))
    else if c == 'K' then SourceRate(a, Given(ReadPlain(a, formula, 'D', n)), Factor(ReadPlain(a, formula, 'A', n)))
    else if c == 'L' then Product(Factor(ReadPlain(a, formula, 'C', n)), Factor(ReadPlain(a, formula, 'K', n)))
    else if c == 'M' then
      ColumnM(a, Given(ReadPlain(a, formula, 'D', n)), Given(ReadPlain(a, formula, 'J', n)),
              ReadPlain(a, formula, 'L', n), Factor(ReadPlain(a, formula, 'A', n)))
    else if c == 'N' then Product(Factor(ReadPlain(a, formula, 'C', n)), Factor(ReadPlain(a, formula, 'M', n)))
    else if c == 'O' then ColumnO(a, Given(ReadPlain(a, formula, 'I', n)), ReadPlain(a, formula, 'J', n))
    else if c == 'P' then RateToEur(a, Given(ReadPlain(a, formula, 'O', n)), Factor(ReadPlain(a, formula, 'A', n)))
    else Product(Factor(ReadPlain(a, formula, 'P', n)), Factor(ReadPlain(a, formula, 'E', n)))
  }

  /** The value of a cell without any cache: its formula if it is of the known family. */
  function Plain(a: Archive, c: char, row: nat): Outcome
    decreases Rank(c), 2
  {
    var cell := CellAt(a, c, row);
    if !Output(c) || cell.formula.None? then Returned(cell.value)
    else if Contains(cell.formula.value, "#REF!") then Returned(Error)
    else if !FormulaFamily(a, c, cell.formula.value) then Raised
    else Returned(Template(a, c, cell.formula.value))
  }

  /** Archives that differ only in columns of larger rank, or in other rows of the same
      column, give a cell the same value: no formula reads its own column or a later one,
      whatever rows it names. */
  ghost predicate SameBelow(a: Archive, b: Archive, rank: nat)
  {
    && a.currencies == b.currencies && a.rates == b.rates
    && a.upper == b.upper && a.fold == b.fold && a.strip == b.strip && a.textOf == b.textOf
    && forall c: char, row: nat :: Rank(c) < rank ==> CellAt(a, c, row) == CellAt(b, c, row)
  }

  lemma {:induction false} ReadsSmallerRanks(a: Archive, b: Archive, c: char, row: nat)
    requires SameBelow(a, b, Rank(c)) && CellAt(a, c, row) == CellAt(b, c, row)
    ensures Plain(a, c, row) == Plain(b, c, row)
    decreases Rank(c), 2
  {
    hide Template, CellAt, Contains;
    var cell := CellAt(a, c, row);
    if Output(c) && cell.formula.Some? {
      TemplateSame(a, b, c, cell.formula.value);
    }
  }

  lemma {:induction false} TemplateSame(a: Archive, b: Archive, c: char, formula: string)
    requires Output(c) && SameBelow(a, b, Rank(c))
    ensures Template(a, c, formula) == Template(b, c, formula)
    decreases Rank(c), 1
  {
    hide ReadPlain, RowReference, CellAt, SameBelow, ColumnJ, ColumnM, ColumnO, Product, SourceRate, RateToEur, Given, Factor;
    forall d: char | Rank(d) < Rank(c) ensures ReadPlain(a, formula, d, Rank(c)) == ReadPlain(b, formula, d, Rank(c)) {
      ReadSame(a, b, formula, d, Rank(c));
    }
    TablesSame(a, b, Rank(c));
    ColumnsSame(a, b);
  }

  /** The columns use the tables of an archive and not its cells. */
  lemma ColumnsSame(a: Archive, b: Archive)
    requires a.currencies == b.currencies && a.rates == b.rates && a.upper == b.upper && a.fold == b.fold && a.strip == b.strip && a.textOf == b.textOf
    ensures forall name :: ColumnJ(a, name) == ColumnJ(b, name)
    ensures forall currency, account, amount, date :: ColumnM(a, currency, account, amount, date) == ColumnM(b, currency, account, amount, date)
    ensures forall destination, currency :: ColumnO(a, destination, currency) == ColumnO(b, destination, currency)
    ensures forall currency, date :: SourceRate(a, currency, date) == SourceRate(b, currency, date)
    ensures forall currency, date :: RateToEur(a, currency, date) == RateToEur(b, currency, date)
  {
  }

  lemma TablesSame(a: Archive, b: Archive, rank: nat)
    requires SameBelow(a, b, rank)
    ensures a.currencies == b.currencies && a.rates == b.rates && a.upper == b.upper && a.fold == b.fold && a.strip == b.strip && a.textOf == b.textOf
  {
  }

  lemma {:induction false} ReadSame(a: Archive, b: Archive, formula: string, c: char, reader: nat)
    requires Rank(c) < reader && SameBelow(a, b, reader)
    ensures ReadPlain(a, formula, c, reader) == ReadPlain(b, formula, c, reader)
    decreases reader, 0
  {
    hide RowReference, Plain, CellAt;
    match RowReference(formula, 0, c)
    case None =>
    case Some(row) =>
      ReadsSmallerRanks(a, b, c, row);
  }

  // ----- the memoised evaluator -----

  type Key = (char, nat)

  class Replay {
    const archive: Archive
    var cache: map<Key, Value>
    var visiting: set<Key>

    constructor (archive: Archive)
      ensures this.archive == archive && Valid() && visiting == {} && cache == map[]
    {
      this.archive := archive;
      cache, visiting := map[], {};
    }

    /** Cached values are those plain recursion gives. */
    ghost predicate Valid()
      reads this
    {
      forall key :: key in cache ==> Plain(archive, key.0, key.1) == Returned(cache[key])
    }

    /** Formulas under evaluation are of larger rank than anything they lead to. */
    ghost predicate Above(rank: int)
      reads this
    {
      forall key :: key in visiting ==> Rank(key.0) > rank
    }

    method ReadCell(formula: string, c: char, ghost reader: nat) returns (r: Read)
      requires Valid() && Above(Rank(c)) && Rank(c) < reader
      modifies this
      ensures Valid() && visiting == old(visiting) && old(cache).Items <= cache.Items
      ensures r == ReadPlain(archive, formula, c, reader)
      decreases Rank(c), 2
    {
      hide Plain, RowReference;
      var row := RowReference(formula, 0, c);
      if row.None? || row.value == 0 {
        return Unnamed;
      }
      var o := Evaluate(c, row.value);
      r := Named(o);
    }

    /** The value of a cell, from the cache when it is there. The guard against cycles is
        never what returns. */
    method Evaluate(c: char, row: nat) returns (o: Outcome)
      requires Valid() && Above(Rank(c))
      modifies this
      ensures Valid() && visiting == old(visiting) && old(cache).Items <= cache.Items
      ensures o == Plain(archive, c, row)
      decreases Rank(c), 1
    {
      hide Template, CellAt, Contains, FormulaFamily, Rank;
      var key := (c, row);
      if key in cache {
        return Returned(cache[key]);
      }
      var cell := CellAt(archive, c, row);
      if !Output(c) || cell.formula.None? {
        return Returned(cell.value);
      }
      var formula := cell.formula.value;
      if Contains(formula, "#REF!") {
        cache := cache[key := Error];
        return Returned(Error);
      }
      if !FormulaFamily(archive, c, formula) {
        return Raised;
      }
      if key in visiting {
        assert false;
      }
      visiting := visiting + {key};
      var result := Calculate(c, formula);
      visiting := visiting - {key};
      assert key in cache ==> cache[key] == result;
      cache := cache[key := result];
      o := Returned(result);
    }

    /** Reads what the formula of a column needs, in the order it needs it. */
    method Calculate(c: char, formula: string) returns (v: Value)
      requires Valid() && Output(c) && Above(Rank(c) - 1)
      modifies this
      ensures Valid() && visiting == old(visiting) && old(cache).Items <= cache.Items
      ensures v == Template(archive, c, formula)
      decreases Rank(c), 0
    {
      hide Plain, ReadPlain, SourceRate, RateToEur, Product, PhpRate, Lookup, Folded, Falsy;
      ghost var n := Rank(c);
      if c == 'J' {
        var name := ReadCell(formula, 'H', n);
        v := ColumnJ(archive, Given(name));
      } else if c == 'K' {
        var currency := ReadCell(formula, 'D', n);
        var date := ReadCell(formula, 'A', n);
        v := SourceRate(archive, Given(currency), Factor(date));
      } else if c == 'L' {
        var amount := ReadCell(formula, 'C', n);
        var rate := ReadCell(formula, 'K', n);
        v := Product(Factor(amount), Factor(rate));
      } else if c == 'M' {
        v := CalculateM(formula);
      } else if c == 'N' {
        var amount := ReadCell(formula, 'C', n);
        var rate := ReadCell(formula, 'M', n);
        v := Product(Factor(amount), Factor(rate));
      } else if c == 'O' {
        v := CalculateO(formula);
      } else if c == 'P' {
        var currency := ReadCell(formula, 'O', n);
        var date := ReadCell(formula, 'A', n);
        v := RateToEur(archive, Given(currency), Factor(date));
      } else {
        var rate := ReadCell(formula, 'P', n);
        var amount := ReadCell(formula, 'E', n);
        v := Product(Factor(rate), Factor(amount));
      }
    }

    method CalculateM(formula: string) returns (v: Value)
      requires Valid() && Above(Rank('M') - 1)
      modifies this
      ensures Valid() && visiting == old(visiting) && old(cache).Items <= cache.Items
      ensures v == Template(archive, 'M', formula)
      decreases Rank('M'), -1
    {
      hide Plain, ReadPlain, PhpRate, Folded;
      ghost var n := Rank('M');
      var currency := ReadCell(formula, 'D', n);
      var account := ReadCell(formula, 'J', n);
      if Given(currency) == Error || Given(account) == Error {
        v := Error;
      } else if Folded(archive, Given(currency)) == Folded(archive, Given(account)) {
        v := Number(1.0);
      } else if Folded(archive, Given(account)) == "eur" {
        var amount := ReadCell(formula, 'L', n);
        v := if amount.Unnamed? then Error else Given(amount);
      } else if Folded(archive, Given(account)) == "php" {
        var date := ReadCell(formula, 'A', n);
        v := PhpRate(archive, Folded(archive, Given(currency)), Factor(date));
      } else {
        v := Error;
      }
    }

    method CalculateO(formula: string) returns (v: Value)
      requires Valid() && Above(Rank('O') - 1)
      modifies this
      ensures Valid() && visiting == old(visiting) && old(cache).Items <= cache.Items
      ensures v == Template(archive, 'O', formula)
      decreases Rank('O'), -1
    {
      hide Plain, ReadPlain, Lookup, Folded, Falsy;
      ghost var n := Rank('O');
      var destination := ReadCell(formula, 'I', n);
      var given := Given(destination);
      if given == Error {
        v := Error;
      } else if Falsy(given) {
        v := Text("");
      } else if given.Text? && Folded(archive, given) == "expense" {
        var currency := ReadCell(formula, 'J', n);
        v := if currency.Unnamed? then Error else Given(currency);
      } else {
        v := Lookup(archive, given);
      }
    }
  }

  /** Cells asked for in any order, one after another, all have their plain values. */
  method EvaluateAll(archive: Archive, keys: seq<Key>) returns (outcomes: seq<Outcome>)
    ensures |outcomes| == |keys| && forall k :: 0 <= k < |keys| ==> outcomes[k] == Plain(archive, keys[k].0, keys[k].1)
  {
    hide Plain;
    var replay := new Replay(archive);
    outcomes := [];
    for k := 0 to |keys|
      invariant replay.Valid() && replay.visiting == {} && replay.archive == archive
      invariant |outcomes| == k && forall l :: 0 <= l < k ==> outcomes[l] == Plain(archive, keys[l].0, keys[l].1)
    {
      var o := replay.Evaluate(keys[k].0, keys[k].1);
      outcomes := outcomes + [o];
    }
  }
}
