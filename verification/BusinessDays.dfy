/** Dates as text, and the operating days of the TARGET payment system between two of them. */
module BusinessDays {
  import opened Numerals
  import opened Decimals
  import opened Calendar

  const I64 := 0x8000_0000_0000_0000

  /** The day number of a date written year-month-day. */
  function ParseDate(value: string): Option<int>
  {
    var i := Find(value, "-");
    if i == |value| then None
    else
      var rest := value[i + 1..];
      var j := Find(rest, "-");
      if j == |rest| then None
      else
        var last := rest[j + 1..];
        var y, m, d := ParseInteger(value[..i], I64), ParseInteger(rest[..j], I64), ParseInteger(last, I64);
        if '-' in last || y.None? || m.None? || d.None? || !ValidDate(Date(y.value, m.value, d.value)) then None
        else Some(DayNumber(Date(y.value, m.value, d.value)))
  }

  /** A date as text, the year with four digits at least. */
  function DateText(year: nat, month: nat, day: nat): string
  {
    Padded(year, 4) + "-" + Padded(month, 2) + "-" + Padded(day, 2)
  }

  lemma ParseDigits(n: nat, k: nat)
    requires n < I64
    ensures ParseInteger(Padded(n, k), I64) == Some(n)
  {
    hide Padded, ValueOf;
    PaddedValue(n, k);
    var s := Padded(n, k);
    assert s != "" by { PaddedLast(n, k); }
    assert Digit(s[0]);
  }

  /** Reading a date that was written gives its day number. */
  lemma ParseDateText(d: Date)
    requires ValidDate(d) && 0 <= d.year < I64
    ensures ParseDate(DateText(d.year, d.month, d.day)) == Some(DayNumber(d))
  {
    hide Padded, DayNumber, ValidDate, ParseInteger, Find;
    assert 1 <= d.month <= 12 && 1 <= d.day <= 31 by { ValidRange(d); }
    var y, m, n := Padded(d.year, 4), Padded(d.month, 2), Padded(d.day, 2);
    var value := DateText(d.year, d.month, d.day);
    ParseDigits(d.year, 4);
    ParseDigits(d.month, 2);
    ParseDigits(d.day, 2);
    FindFirst(value, "-", |y|);
    var rest := value[|y| + 1..];
    assert rest == m + ("-" + n);
    FindFirst(rest, "-", |m|);
    assert rest[|m| + 1..] == n;
    assert value[..|y|] == y && rest[..|m|] == m;
    assert '-' !in n by { assert AllDigits(n); }
  }

  lemma ValidRange(d: Date)
    requires ValidDate(d)
    ensures 1 <= d.month <= 12 && 1 <= d.day <= 31
  {
  }

  /** A number within a date: digits, perhaps after a plus sign. */
  datatype Part = Part(plus: bool, digits: string)

  predicate ProperPart(p: Part) { p.digits != "" && AllDigits(p.digits) && ValueOf(p.digits) < I64 }

  function PartText(p: Part): string { (if p.plus then "+" else "") + p.digits }

  lemma PartRead(p: Part)
    requires ProperPart(p)
    ensures ParseInteger(PartText(p), I64) == Some(ValueOf(p.digits)) && '-' !in PartText(p)
  {
    hide ValueOf;
    var s := PartText(p);
    assert Digit(p.digits[0]);
    if p.plus {
      assert s[1..] == p.digits;
    } else {
      assert s == p.digits;
    }
  }

  lemma PartOf(s: string) returns (p: Part)
    requires ParseInteger(s, I64).Some? && '-' !in s
    ensures AllDigits(p.digits) && ProperPart(p) && PartText(p) == s
  {
    hide ValueOf;
    var digits := Unsigned(s);
    p := Part(s != "" && s[0] == '+', digits);
    if p.plus {
      assert s == "+" + digits;
    } else {
      assert s == "" + digits;
    }
  }

  /** The text names the year, month and day of a valid date. */
  predicate Names(value: string, date: Date, y: Part, m: Part, d: Part)
  {
    && ProperPart(y) && ProperPart(m) && ProperPart(d)
    && value == PartText(y) + ("-" + (PartText(m) + ("-" + PartText(d))))
    && date == Date(ValueOf(y.digits), ValueOf(m.digits), ValueOf(d.digits)) && ValidDate(date)
  }

  lemma NamesRead(value: string, date: Date, y: Part, m: Part, d: Part)
    requires Names(value, date, y, m, d)
    ensures ParseDate(value) == Some(DayNumber(date))
  {
    hide Find, ParseInteger, ValueOf, PartText, ProperPart, ValidDate, DayNumber;
    PartRead(y);
    PartRead(m);
    PartRead(d);
    var rest := PartText(m) + ("-" + PartText(d));
    FindFirst(value, "-", |PartText(y)|);
    assert value[|PartText(y)| + 1..] == rest && value[..|PartText(y)|] == PartText(y);
    FindFirst(rest, "-", |PartText(m)|);
    assert rest[|PartText(m)| + 1..] == PartText(d) && rest[..|PartText(m)|] == PartText(m);
  }

  lemma Joined(s: string, i: nat)
    requires i < |s|
    ensures s == s[..i] + ([s[i]] + s[i + 1..])
  {
  }

  lemma NamesOf(value: string) returns (date: Date, y: Part, m: Part, d: Part)
    requires ParseDate(value).Some?
    ensures Names(value, date, y, m, d)
  {
    hide Find, ParseInteger, ValueOf, PartText, ProperPart, ValidDate, DayNumber;
    var i := Find(value, "-");
    var rest := value[i + 1..];
    var j := Find(rest, "-");
    y := PartOf(value[..i]);
    m := PartOf(rest[..j]);
    d := PartOf(rest[j + 1..]);
    date := Date(ValueOf(y.digits), ValueOf(m.digits), ValueOf(d.digits));
    PartRead(y);
    PartRead(m);
    PartRead(d);
    Joined(value, i);
    Joined(rest, j);
  }

  /** A text is a date if and only if it names the year, month and day of a valid one. */
  lemma DatesRead(value: string, n: int)
    ensures ParseDate(value) == Some(n) <==>
            exists date, y, m, d :: Names(value, date, y, m, d) && n == DayNumber(date)
  {
    hide ParseDate, Names, DayNumber;
    if ParseDate(value).Some? {
      var date, y, m, d := NamesOf(value);
      NamesRead(value, date, y, m, d);
    }
    if date, y, m, d :| Names(value, date, y, m, d) && n == DayNumber(date) {
      NamesRead(value, date, y, m, d);
    }
  }

  /** Dates that can be read are of years with a readable Easter. */
  lemma ReadYear(value: string)
    requires ParseDate(value).Some?
    ensures 0 <= CivilDate(ParseDate(value).value).year < I64
  {
    hide ParseDate, CivilDate, ValidDate, DayNumber;
    var date, y, m, d := NamesOf(value);
    NamesRead(value, date, y, m, d);
    CivilDateInverts(date);
  }

  // ----- operating days -----

  /** Whether day n is an operating day; years before 0 have no readable Easter. */
  function Operating(n: int): Option<bool>
  {
    var d := CivilDate(n);
    if Weekday(n) >= 5 then Some(false)
    else if FixedHoliday(d) then Some(false)
    else if d.year < 0 then None
    else
      EasterIsSunday(d.year);
      var (month, day) := GregorianEaster(d.year);
      match ParseDate(DateText(d.year, month, day))
      case None => None
      case Some(easter) => Some(n != easter - 2 && n != easter + 1)
  }

  predicate FixedHoliday(d: Date)
  {
    || (d.month == 1 && d.day == 1)
    || (d.month == 5 && d.day == 1)
    || (d.month == 12 && (d.day == 25 || d.day == 26))
  }

  /** Monday to Friday, no fixed holiday, not Good Friday and not Easter Monday. */
  predicate OperatingDay(n: int)
    requires CivilDate(n).year >= 0
  {
    var d, easter := CivilDate(n), EasterDay(CivilDate(n).year);
    Weekday(n) < 5 && (d.month, d.day) !in {(1, 1), (5, 1), (12, 25), (12, 26)} && n !in {easter - 2, easter + 1}
  }

  lemma OperatingIs(n: int)
    requires 0 <= CivilDate(n).year < I64
    ensures Operating(n) == Some(OperatingDay(n))
  {
    hide CivilDate, Weekday, DayNumber, GregorianEaster, ParseDate, ValidDate;
    var year := CivilDate(n).year;
    EasterIsSunday(year);
    var (month, day) := GregorianEaster(year);
    ParseDateText(Date(year, month, day));
  }

  /** Operating days after `from`, up to and including `through`. */
  function OperatingDays(from: int, through: int): Option<nat>
    decreases through - from
  {
    if through <= from then Some(0)
    else
      var before, last := OperatingDays(from, through - 1), Operating(through);
      if before.None? || last.None? then None else Some(before.value + if last.value then 1 else 0)
  }

  ghost function DaysBetween(from: int, through: int): set<int>
  {
    set n: int | from < n <= through && CivilDate(n).year >= 0 && OperatingDay(n)
  }

  /** In the readable years the count is the number of operating days after the first date
      up to the second. */
  lemma {:induction false} DaysCounted(from: int, through: int)
    requires from <= through ==> 0 <= CivilDate(from).year && CivilDate(through).year < I64
    ensures OperatingDays(from, through) == Some(|DaysBetween(from, through)|)
    decreases through - from
  {
    hide Operating, OperatingDay, CivilDate;
    var days := DaysBetween(from, through);
    if from < through {
      YearsOrdered(from, through);
      YearsOrdered(through - 1, through);
      DaysCounted(from, through - 1);
      OperatingIs(through);
      assert days == DaysBetween(from, through - 1) + if OperatingDay(through) then {through} else {};
    } else {
      assert days == {};
    }
  }

  /** Both dates can be read, and this many operating days lie after the first up to the second. */
  ghost predicate Elapsed(from: string, through: string, days: int)
  {
    var a, b := ParseDate(from), ParseDate(through);
    a.Some? && b.Some? && days == |DaysBetween(a.value, b.value)|
  }

  lemma ElapsedIs(from: string, through: string, days: int)
    ensures (days >= 0 && TargetBusinessDays(from, through) == Some(days)) <==> Elapsed(from, through, days)
  {
    hide ParseDate, OperatingDays, CivilDate, DaysBetween;
    var a, b := ParseDate(from), ParseDate(through);
    if a.Some? && b.Some? {
      ReadYear(from);
      ReadYear(through);
      DaysCounted(a.value, b.value);
    }
  }

  function TargetBusinessDays(from: string, through: string): Option<nat>
  {
    var a, b := ParseDate(from), ParseDate(through);
    if a.None? || b.None? then None else OperatingDays(a.value, b.value)
  }

  method CountBusinessDays(from: string, through: string) returns (r: Option<nat>)
    ensures r == TargetBusinessDays(from, through)
    ensures r.Some? <==> ParseDate(from).Some? && ParseDate(through).Some?
    ensures r.Some? ==> r.value == |DaysBetween(ParseDate(from).value, ParseDate(through).value)|
  {
    hide Operating, ParseDate, DaysBetween, CivilDate;
    var a, b := ParseDate(from), ParseDate(through);
    if a.None? || b.None? {
      return None;
    }
    ReadYear(from);
    ReadYear(through);
    DaysCounted(a.value, b.value);
    if b.value <= a.value {
      return Some(0);
    }
    var count, date := 0, a.value + 1;
    while date <= b.value
      invariant a.value < date <= b.value + 1
      invariant OperatingDays(a.value, date - 1) == Some(count)
    {
      var operating := Operating(date);
      if operating.None? {
        UndefinedStays(a.value, date, b.value);
        return None;
      }
      if operating.value {
        count := count + 1;
      }
      date := date + 1;
    }
    r := Some(count);
  }

  lemma {:induction false} UndefinedStays(from: int, date: int, through: int)
    requires from < date <= through && OperatingDays(from, date).None?
    ensures OperatingDays(from, through).None?
    decreases through - date
  {
    if date < through {
      UndefinedStays(from, date, through - 1);
    }
  }

  function Plus(a: Option<nat>, b: Option<nat>): Option<nat>
  {
    if a.None? || b.None? then None else Some(a.value + b.value)
  }

  /** Counting to a day between and on from there counts all. */
  lemma {:induction false} OperatingDaysAdd(from: int, between: int, through: int)
    requires from <= between <= through
    ensures OperatingDays(from, through) == Plus(OperatingDays(from, between), OperatingDays(between, through))
    decreases through - between
  {
    hide Operating;
    if between < through {
      OperatingDaysAdd(from, between, through - 1);
    }
  }

  /** There are never more operating days than days. */
  lemma {:induction false} OperatingDaysBound(from: int, through: int)
    requires from <= through && OperatingDays(from, through).Some?
    ensures OperatingDays(from, through).value <= through - from
    decreases through - from
  {
    hide Operating;
    if from < through {
      OperatingDaysBound(from, through - 1);
    }
  }

  /** Seven days have five operating days at most. */
  lemma OperatingWeek(from: int)
    requires OperatingDays(from, from + 7).Some?
    ensures OperatingDays(from, from + 7).value <= 5
  {
    hide Operating, Weekday;
    var x, y := WeekendOf(from);
    WeekendRests(from + x);
    WeekendRests(from + y);
    RestingDays(from, x, y, 7);
  }

  lemma WeekendOf(from: int) returns (x: int, y: int)
    ensures 1 <= x < y <= 7 && Weekday(from + x) >= 5 && Weekday(from + y) >= 5
  {
    x := 1 + (4 - from - 3) % 7;
    y := 1 + (5 - from - 3) % 7;
    if y < x {
      x, y := y, x;
    }
  }

  /** Days known to rest are not counted. */
  lemma {:induction false} RestingDays(from: int, x: int, y: int, k: nat)
    requires 0 < x < y && Operating(from + x) == Operating(from + y) == Some(false)
    requires OperatingDays(from, from + k).Some?
    ensures OperatingDays(from, from + k).value <= k - (if x <= k then 1 else 0) - (if y <= k then 1 else 0)
  {
    hide Operating;
    if k > 0 {
      assert from + k - 1 == from + (k - 1);
      RestingDays(from, x, y, k - 1);
    }
  }

  lemma WeekendRests(n: int)
    requires Weekday(n) >= 5
    ensures Operating(n) == Some(false)
  {
  }

  /** In the readable years every interval has a count. */
  lemma {:induction false} OperatingDaysDefined(from: int, through: int)
    requires 0 <= CivilDate(from).year && CivilDate(through).year < I64
    ensures OperatingDays(from, through).Some?
    decreases through - from
  {
    hide Operating, OperatingDay, CivilDate;
    if from < through {
      YearsOrdered(from, through);
      YearsOrdered(through - 1, through);
      OperatingDaysDefined(from, through - 1);
      OperatingIs(through);
    }
  }

  lemma YearsOrdered(a: int, b: int)
    requires a <= b
    ensures CivilDate(a).year <= CivilDate(b).year
  {
    hide CivilDate, DayNumber, ValidDate;
    DayNumberInverts(a);
    DayNumberInverts(b);
    DayNumberOrder(CivilDate(b), CivilDate(a));
  }
}
