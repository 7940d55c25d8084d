/** Dates of the proleptic Gregorian calendar, their day numbers, and Easter. */
module Calendar {
  import opened Rounding

  datatype Date = Date(year: int, month: int, day: int)

  predicate LeapYear(y: int) { y % 4 == 0 && (y % 100 != 0 || y % 400 == 0) }

  function DaysIn(y: int, m: int): int
  {
    if m == 2 then if LeapYear(y) then 29 else 28
    else if m == 4 || m == 6 || m == 9 || m == 11 then 30
    else 31
  }

  predicate ValidDate(d: Date)
  {
    1 <= d.month <= 12 && 1 <= d.day <= DaysIn(d.year, d.month)
  }

  /** The day number of a date; day 0 is 1 January 1970. */
  function DayNumber(d: Date): int
  {
    var year := if d.month <= 2 then d.year - 1 else d.year;
    var era := year / 400;
    var yearOfEra := year - era * 400;
    var monthPrime := d.month + if d.month > 2 then -3 else 9;
    var dayOfYear := (153 * monthPrime + 2) / 5 + d.day - 1;
    var dayOfEra := yearOfEra * 365 + yearOfEra / 4 - yearOfEra / 100 + dayOfYear;
    era * 146_097 + dayOfEra - 719_468
  }

  function CivilDate(days: int): Date
  {
    var shifted := days + 719_468;
    var era := shifted / 146_097;
    var dayOfEra := shifted - era * 146_097;
    var yearOfEra := YearOfEra(dayOfEra);
    var dayOfYear := dayOfEra - (365 * yearOfEra + yearOfEra / 4 - yearOfEra / 100);
    var monthPrime := (5 * dayOfYear + 2) / 153;
    var day := dayOfYear - (153 * monthPrime + 2) / 5 + 1;
    var month := monthPrime + if monthPrime < 10 then 3 else -9;
    Date(yearOfEra + era * 400 + if month <= 2 then 1 else 0, month, day)
  }

  function YearOfEra(dayOfEra: int): int
  {
    (dayOfEra - dayOfEra / 1_460 + dayOfEra / 36_524 - dayOfEra / 146_096) / 365
  }

  /** Monday is 0 and Sunday 6. */
  function Weekday(days: int): int { (days + 3) % 7 }

  // ----- the calendar, independently of day numbers -----

  function Tomorrow(d: Date): Date
  {
    if d.day < DaysIn(d.year, d.month) then d.(day := d.day + 1)
    else if d.month < 12 then Date(d.year, d.month + 1, 1)
    else Date(d.year + 1, 1, 1)
  }

  function Yesterday(d: Date): Date
  {
    if d.day > 1 then d.(day := d.day - 1)
    else if d.month > 1 then Date(d.year, d.month - 1, DaysIn(d.year, d.month - 1))
    else Date(d.year - 1, 12, 31)
  }

  predicate Before(a: Date, b: Date)
  {
    a.year < b.year || (a.year == b.year && (a.month < b.month || (a.month == b.month && a.day < b.day)))
  }

  // ----- day numbers count days -----

  /** Days before 1 March of a year, counted without eras. */
  function YearStart(y: int): int { 365 * y + y / 4 - y / 100 + y / 400 }

  /** Days of a year that starts in March before its month m (0 is March). */
  function MonthStart(m: int): int { (153 * m + 2) / 5 }

  function MarchYear(d: Date): int { if d.month <= 2 then d.year - 1 else d.year }

  function MarchMonth(d: Date): int { if d.month <= 2 then d.month + 9 else d.month - 3 }

  lemma DayNumberIs(d: Date)
    ensures DayNumber(d) == YearStart(MarchYear(d)) + MonthStart(MarchMonth(d)) + d.day - 1 - 719_468
  {
    var y := MarchYear(d);
    var e := y / 400;
    EraDivision(y, e, y - e * 400);
  }

  lemma EraDivision(y: int, e: int, r: int)
    requires y == 400 * e + r && 0 <= r < 400
    ensures y / 4 == 100 * e + r / 4 && y / 100 == 4 * e + r / 100 && y / 400 == e
  {
  }

  /** A year that starts in March has its leap day at the end. */
  lemma YearLength(y: int)
    ensures YearStart(y + 1) == YearStart(y) + if LeapYear(y + 1) then 366 else 365
  {
    Successive(y, 4);
    Successive(y, 100);
    Successive(y, 400);
    assert LeapYear(y + 1) <==> (y + 1) % 4 == 0 && ((y + 1) % 100 != 0 || (y + 1) % 400 == 0);
  }

  lemma Successive(y: int, d: int)
    requires d > 1
    ensures (y + 1) / d == y / d + if (y + 1) % d == 0 then 1 else 0
  {
    var q, r := (y + 1) / d, (y + 1) % d;
    assert y + 1 == q * d + r;
    assert (q - 1) * d == q * d - d;
    if r == 0 {
      DivMod(y, d, q - 1, d - 1);
    } else {
      DivMod(y, d, q, r - 1);
    }
  }

  lemma MonthStarts()
    ensures MonthStart(0) == 0 && MonthStart(1) == 31 && MonthStart(2) == 61 && MonthStart(3) == 92
    ensures MonthStart(4) == 122 && MonthStart(5) == 153 && MonthStart(6) == 184 && MonthStart(7) == 214
    ensures MonthStart(8) == 245 && MonthStart(9) == 275 && MonthStart(10) == 306 && MonthStart(11) == 337
  {
  }

  /** Consecutive days have consecutive numbers. */
  lemma TomorrowIsNext(d: Date)
    requires ValidDate(d)
    ensures ValidDate(Tomorrow(d)) && DayNumber(Tomorrow(d)) == DayNumber(d) + 1
  {
    hide DayNumber, YearStart, MonthStart, LeapYear;
    DayNumberIs(d);
    DayNumberIs(Tomorrow(d));
    MonthStarts();
    YearLength(d.year - 1);
  }

  lemma YesterdayIsBefore(d: Date)
    requires ValidDate(d)
    ensures ValidDate(Yesterday(d)) && Tomorrow(Yesterday(d)) == d && DayNumber(Yesterday(d)) == DayNumber(d) - 1
  {
    hide DayNumber, LeapYear;
    TomorrowIsNext(Yesterday(d));
  }

  lemma EpochIsZero()
    ensures DayNumber(Date(1970, 1, 1)) == 0
  {
  }

  /** Later dates have larger numbers. */
  lemma DayNumberOrder(a: Date, b: Date)
    requires ValidDate(a) && ValidDate(b)
    ensures Before(a, b) <==> DayNumber(a) < DayNumber(b)
    ensures a == b <==> DayNumber(a) == DayNumber(b)
  {
    if Before(a, b) {
      EarlierIsSmaller(a, b);
    } else if Before(b, a) {
      EarlierIsSmaller(b, a);
    }
  }

  lemma EarlierIsSmaller(a: Date, b: Date)
    requires ValidDate(a) && ValidDate(b) && Before(a, b)
    ensures DayNumber(a) < DayNumber(b)
  {
    hide DayNumber, YearStart, MonthStart, LeapYear;
    DayNumberIs(a);
    DayNumberIs(b);
    MonthStarts();
    var x, y := MarchYear(a), MarchYear(b);
    YearLength(x);
    if x < y {
      YearStartMonotone(x + 1, y);
    }
  }

  lemma YearStartMonotone(x: int, y: int)
    requires x <= y
    ensures YearStart(x) <= YearStart(y)
    decreases y - x
  {
    hide YearStart;
    if x < y {
      YearStartMonotone(x, y - 1);
      YearLength(y - 1);
    }
  }

  // ----- day numbers and dates are inverse -----

  /** The estimate of the year is right for every day of every year of an era. */
  lemma YearOfEraIs(c: int, q: int, r: int, k: int)
    requires 0 <= c <= 3 && 0 <= q <= 24 && 0 <= r <= 3 && 0 <= k
    requires k <= if r == 3 && (q < 24 || c == 3) then 365 else 364
    ensures YearOfEra(36_524 * c + 1_461 * q + 365 * r + k) == 100 * c + 4 * q + r
  {
    var n := 36_524 * c + 1_461 * q + 365 * r + k;
    var rest := 24 * c + q + 365 * r + k;
    var extra := if rest >= 1_460 then 1 else 0;
    assert n == 1_460 * (25 * c + q) + rest;
    assert n / 1_460 == 25 * c + q + extra;
    assert n / 36_524 - n / 146_096 == c;
    assert n - n / 1_460 + n / 36_524 - n / 146_096 == 365 * (100 * c + 4 * q + r) + (k - extra);
  }

  lemma YearOfEraOf(y: int, k: int)
    requires 0 <= y < 400 && 0 <= k <= if LeapYear(y + 1) then 365 else 364
    ensures YearOfEra(365 * y + y / 4 - y / 100 + k) == y
  {
    hide YearOfEra;
    var c, q, r := y / 100, y % 100 / 4, y % 4;
    assert y == 100 * c + 4 * q + r && y / 4 == 25 * c + q;
    YearOfEraIs(c, q, r, k);
  }

  lemma MonthOf(m: int, day: int)
    requires 0 <= m <= 11 && 1 <= day <= 31
    requires m in {1, 3, 6, 8} ==> day <= 30
    requires m == 11 ==> day <= 29
    ensures (5 * (MonthStart(m) + day - 1) + 2) / 153 == m
  {
    MonthStarts();
  }

  /** Going from a date to its number and back gives the date. */
  lemma CivilDateInverts(d: Date)
    requires ValidDate(d)
    ensures CivilDate(DayNumber(d)) == d
  {
    hide YearOfEra, LeapYear, MonthStart, DayNumber, CivilDate;
    var y, m := MarchYear(d), MarchMonth(d);
    var era := y / 400;
    var yoe, doy := y - era * 400, MonthStart(m) + d.day - 1;
    MonthStarts();
    LeapInEra(y + 1, era, yoe + 1);
    var doe := 365 * yoe + yoe / 4 - yoe / 100 + doy;
    YearOfEraOf(yoe, doy);
    assert DayNumber(d) + 719_468 == era * 146_097 + doe by { NumberInEra(d); }
    DayOfEraBound(yoe, doy);
    DivMod(era * 146_097 + doe, 146_097, era, doe);
    MonthOf(m, d.day);
    CivilDateBy(DayNumber(d), era, doe, yoe, doy, m);
  }

  lemma NumberInEra(d: Date)
    ensures var y := MarchYear(d); var yoe := y - y / 400 * 400;
            DayNumber(d) + 719_468 == y / 400 * 146_097 + (365 * yoe + yoe / 4 - yoe / 100 + (MonthStart(MarchMonth(d)) + d.day - 1))
  {
  }

  lemma LeapInEra(y: int, era: int, yoe: int)
    requires y == yoe + 400 * era
    ensures LeapYear(y) <==> LeapYear(yoe)
  {
    Shifted(yoe, 100 * era, 4);
    Shifted(yoe, 4 * era, 100);
    Shifted(yoe, era, 400);
  }

  lemma Shifted(n: int, k: int, d: int)
    requires d > 0
    ensures (n + k * d) % d == n % d
  {
    var q, r := n / d, n % d;
    assert n == q * d + r && (q + k) * d == q * d + k * d;
    DivMod(n + k * d, d, q + k, r);
  }

  lemma DayOfEraBound(y: int, k: int)
    requires 0 <= y < 400 && 0 <= k <= if LeapYear(y + 1) then 365 else 364
    ensures 0 <= 365 * y + y / 4 - y / 100 + k < 146_097
  {
  }

  lemma CivilDateBy(days: int, era: int, doe: int, yoe: int, doy: int, m: int)
    requires (days + 719_468) / 146_097 == era && days + 719_468 == era * 146_097 + doe
    requires YearOfEra(doe) == yoe && doe == 365 * yoe + yoe / 4 - yoe / 100 + doy
    requires (5 * doy + 2) / 153 == m && 0 <= m <= 11
    ensures CivilDate(days) ==
            Date(yoe + era * 400 + (if m < 10 then 0 else 1), if m < 10 then m + 3 else m - 9, doy - MonthStart(m) + 1)
  {
    hide YearOfEra;
    var shifted := days + 719_468;
    assert shifted - era * 146_097 == doe;
  }

  /** Every number is the number of the date it is turned into. */
  lemma {:induction false} DayNumberInverts(n: int)
    ensures ValidDate(CivilDate(n)) && DayNumber(CivilDate(n)) == n
    decreases if n < 0 then -n else n
  {
    hide DayNumber, CivilDate, LeapYear;
    if n == 0 {
      EpochIsZero();
      CivilDateInverts(Date(1970, 1, 1));
    } else if n > 0 {
      DayNumberInverts(n - 1);
      TomorrowIsNext(CivilDate(n - 1));
      CivilDateInverts(Tomorrow(CivilDate(n - 1)));
    } else {
      DayNumberInverts(n + 1);
      YesterdayIsBefore(CivilDate(n + 1));
      CivilDateInverts(Yesterday(CivilDate(n + 1)));
    }
  }

  // ----- Easter -----

  /** Month and day of Easter in a year of the Gregorian calendar. */
  function GregorianEaster(year: nat): (int, int)
  {
    var a, b, c := year % 19, year / 100, year % 100;
    var e := b % 4;
    var i, k := c / 4, c % 4;
    var h := MoonShift(year);
    var l := ToSunday(32 + 2 * e + 2 * i - k, h);
    var value := h + l - 7 * TooLate(a, h, l) + 114;
    (value / 31, value % 31 + 1)
  }

  /** Days from the day after the full moon to the Sunday on or after it. */
  function ToSunday(s: int, h: int): int { (s - h) % 7 }

  /** A full moon too late in the cycle takes a week off. */
  function TooLate(a: int, h: int, l: int): int { (a + 11 * h + 22 * l) / 451 }

  /** How many days after 21 March the computed full moon falls, before two corrections. */
  function MoonShift(year: nat): int
  {
    var a, b := year % 19, year / 100;
    var d, f := b / 4, (b + 8) / 25;
    var g := (b - f + 1) / 3;
    (19 * a + b - d - g + 15) % 30
  }

  /** Day number of the paschal full moon: 21 March to 18 April. */
  function PaschalMoon(year: nat): int
  {
    var h := MoonShift(year);
    var late := h == 29 || (h == 28 && year % 19 > 10);
    DayNumber(Date(year, 3, 21)) + if late then h - 1 else h
  }

  /** Age of the moon at the start of the year in the Gregorian calendar: from its place in
      the cycle of 19 years, the leap days dropped by centuries, and the moon's own drift. */
  function Epact(year: nat): int
  {
    var golden, century := year % 19 + 1, year / 100 + 1;
    var dropped, drift := 3 * century / 4 - 12, (8 * century + 5) / 25 - 5;
    (11 * golden + 20 + drift - dropped) % 30
  }

  /** The ecclesiastical full moon, as a day of March: the first on or after the 21st. */
  function FullMoon(year: nat): int
  {
    var epact := Epact(year);
    var age := if epact == 24 || (epact == 25 && year % 19 + 1 > 11) then epact + 1 else epact;
    if 44 - age < 21 then 74 - age else 44 - age
  }

  lemma CenturyCorrections(b: nat)
    ensures 3 * (b + 1) / 4 == b - b / 4
    ensures (8 * (b + 1) + 5) / 25 == (b - (b + 8) / 25 + 1) / 3
  {
  }

  /** The full moon for each epact. */
  lemma FullMoonBy(year: nat, h: int)
    requires var e := Epact(year); 0 <= e < 30 && h == if e <= 23 then 23 - e else 53 - e
    ensures var late := h == 29 || (h == 28 && year % 19 > 10); FullMoon(year) - 21 == if late then h - 1 else h
  {
    hide Epact;
  }

  lemma MirroredShift(n: int, e: int)
    requires e == (8 - n) % 30
    ensures (n + 15) % 30 == if e <= 23 then 23 - e else 53 - e
  {
    var q := (8 - n) / 30;
    assert n + 15 == 23 - e - 30 * q;
    if e <= 23 {
      DivMod(n + 15, 30, -q, 23 - e);
    } else {
      DivMod(n + 15, 30, -q - 1, 53 - e);
    }
  }

  lemma EpactIs(year: nat, n: int)
    requires var a, b := year % 19, year / 100; n == 19 * a + b - b / 4 - (b - (b + 8) / 25 + 1) / 3
    ensures Epact(year) == (8 - n) % 30
  {
    var a, b := year % 19, year / 100;
    CenturyCorrections(b);
    Shifted(8 - n, a + 1, 30);
  }

  /** The moon the computation goes by is that of the calendar. */
  lemma PaschalMoonIs(year: nat)
    ensures PaschalMoon(year) == DayNumber(Date(year, 3, 21)) + FullMoon(year) - 21
  {
    hide DayNumber, Epact, FullMoon;
    var a, b := year % 19, year / 100;
    var n := 19 * a + b - b / 4 - (b - (b + 8) / 25 + 1) / 3;
    EpactIs(year, n);
    MirroredShift(n, Epact(year));
    FullMoonBy(year, MoonShift(year));
  }

  function EasterDay(year: nat): int
  {
    var (month, day) := GregorianEaster(year);
    DayNumber(Date(year, month, day))
  }

  /** The computed date is days after 22 March, at most 34. */
  lemma EasterOffset(a: int, h: int, l: int)
    requires 0 <= a < 19 && 0 <= h < 30 && 0 <= l < 7
    ensures var x := h + l - 7 * TooLate(a, h, l);
            && 0 <= x <= 34
            && var late := h == 29 || (h == 28 && a > 10);
               1 <= x + 1 - (if late then h - 1 else h) <= 7
  {
    if a + 11 * h + 22 * l >= 451 {
      assert TooLate(a, h, l) == 1;
    } else {
      assert TooLate(a, h, l) == 0;
    }
  }

  lemma MarchAndApril(year: int, x: int)
    requires 0 <= x <= 34
    ensures var value := x + 114;
            && ValidDate(Date(year, value / 31, value % 31 + 1))
            && DayNumber(Date(year, value / 31, value % 31 + 1)) == DayNumber(Date(year, 3, 22)) + x
            && if x <= 9 then value / 31 == 3 && value % 31 + 1 == 22 + x else value / 31 == 4 && value % 31 + 1 == x - 9
  {
    DayNumberIs(Date(year, 3, 22));
    DayNumberIs(Date(year, 3, 22 + x));
    DayNumberIs(Date(year, 4, x - 9));
  }

  /** The weekday of 22 March, by the parts of the year the computation uses. */
  lemma MarchWeekday(d: int, e: int, i: int, k: int)
    requires 0 <= e < 4 && 0 <= i < 25 && 0 <= k < 4
    ensures (DayNumber(Date(400 * d + 100 * e + 4 * i + k, 3, 22)) + 32 + 2 * e + 2 * i - k) % 7 == 3
  {
    var y := 400 * d + 100 * e + 4 * i + k;
    DayNumberIs(Date(y, 3, 22));
    assert y / 4 == 100 * d + 25 * e + i;
    assert y / 100 == 4 * d + e;
    assert y / 400 == d;
    assert YearStart(y) == 7 * (20_871 * d + 5_217 * e + 208 * i + 52 * k) + 5 * e + 5 * i + k;
  }

  lemma Modulo(n: int, x: int, s: int)
    requires (n + s) % 7 == 3 && (x - s) % 7 == 0
    ensures Weekday(n + x) == 6
  {
  }

  /** Easter is the Sunday after the paschal full moon, from 22 March to 25 April. */
  lemma EasterIsSunday(year: nat)
    ensures var (month, day) := GregorianEaster(year);
            && ValidDate(Date(year, month, day))
            && ((month == 3 && 22 <= day <= 31) || (month == 4 && 1 <= day <= 25))
    ensures Weekday(EasterDay(year)) == 6
    ensures PaschalMoon(year) < EasterDay(year) <= PaschalMoon(year) + 7
  {
    hide DayNumber, MoonShift, Weekday, ValidDate, ToSunday, TooLate;
    var a := year % 19;
    var d, e, i, k := YearParts(year);
    var h, s := MoonShift(year), 32 + 2 * e + 2 * i - k;
    var l := ToSunday(s, h);
    var x := h + l - 7 * TooLate(a, h, l);
    MoonShiftRange(year);
    SundayShift(s, h, TooLate(a, h, l));
    EasterOffset(a, h, l);
    MarchAndApril(year, x);
    MarchDays(year);
    MarchWeekday(d, e, i, k);
    Modulo(DayNumber(Date(year, 3, 22)), x, s);
  }

  lemma YearParts(year: nat) returns (d: int, e: int, i: int, k: int)
    ensures d == year / 100 / 4 && e == year / 100 % 4 && i == year % 100 / 4 && k == year % 100 % 4
    ensures year == 400 * d + 100 * e + 4 * i + k && 0 <= e < 4 && 0 <= i < 25 && 0 <= k < 4
  {
    d, e, i, k := year / 100 / 4, year / 100 % 4, year % 100 / 4, year % 100 % 4;
  }

  lemma SundayShift(s: int, h: int, m: int)
    ensures 0 <= ToSunday(s, h) < 7 && (h + ToSunday(s, h) - 7 * m - s) % 7 == 0
  {
    Congruent(h, ToSunday(s, h), m, s);
  }

  lemma MoonShiftRange(year: nat)
    ensures 0 <= MoonShift(year) < 30
  {
  }

  lemma MarchDays(year: int)
    ensures DayNumber(Date(year, 3, 21)) + 1 == DayNumber(Date(year, 3, 22))
  {
  }

  lemma Congruent(h: int, l: int, m: int, s: int)
    requires l == (s - h) % 7
    ensures (h + l - 7 * m - s) % 7 == 0
  {
  }
}
