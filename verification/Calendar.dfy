/** Calendar arithmetic (`civil_from_epoch`, `src/util/mod.rs`).

The conversion works in 400-year eras of March-based years.  It is compared
with the proleptic Gregorian calendar given the ordinary way: the leap-year
rule, the length of each month, and the date that follows a date.
*/
module Calendar {

  datatype Civil = Civil(year: int, month: int, day: int, hour: int, minute: int, second: int)

  // -------------------------------------------------------------------------
  // The reference calendar
  // -------------------------------------------------------------------------

  predicate IsLeap(y: int) {
    y % 4 == 0 && (y % 100 != 0 || y % 400 == 0)
  }

  function DaysInMonth(y: int, m: int): int {
    if m == 2 then (if IsLeap(y) then 29 else 28)
    else if m == 4 || m == 6 || m == 9 || m == 11 then 30
    else 31
  }

  predicate ValidDate(y: int, m: int, d: int) {
    1 <= m <= 12 && 1 <= d <= DaysInMonth(y, m)
  }

  predicate ValidTime(h: int, mi: int, s: int) {
    0 <= h < 24 && 0 <= mi < 60 && 0 <= s < 60
  }

  function NextDate(y: int, m: int, d: int): (int, int, int) {
    if d < DaysInMonth(y, m) then (y, m, d + 1)
    else if m < 12 then (y, m + 1, 1)
    else (y + 1, 1, 1)
  }

  /** Days from 1 January 1970 to 1 January of year `y`. */
  function NewYear(y: int): int {
    365 * (y - 1) + (y - 1) / 4 - (y - 1) / 100 + (y - 1) / 400 - 719_162
  }

  function DaysBeforeMonth(y: int, m: int): int
    requires 1 <= m <= 12
  {
    if m == 1 then 0 else DaysBeforeMonth(y, m - 1) + DaysInMonth(y, m - 1)
  }

  function DayNumber(y: int, m: int, d: int): int
    requires 1 <= m <= 12
  {
    NewYear(y) + DaysBeforeMonth(y, m) + d - 1
  }

  /** Chronological order of dates. */
  predicate Earlier(y: int, m: int, d: int, y': int, m': int, d': int) {
    y < y' || (y == y' && (m < m' || (m == m' && d < d')))
  }

  /** `NewYear` is right: the epoch is day 0 and a year has 365 or 366 days. */
  lemma YearLength(y: int)
    ensures NewYear(1970) == 0
    ensures NewYear(y + 1) == NewYear(y) + 365 + (if IsLeap(y) then 1 else 0)
  {
    DivStep(y, 4);
    DivStep(y, 100);
    DivStep(y, 400);
  }

  lemma DivStep(y: int, n: int)
    requires n == 4 || n == 100 || n == 400
    ensures y / n == (y - 1) / n + (if y % n == 0 then 1 else 0)
  {
  }

  lemma MonthTable(y: int)
    ensures var l := if IsLeap(y) then 1 else 0;
            && DaysBeforeMonth(y, 1) == 0
            && DaysBeforeMonth(y, 2) == 31
            && DaysBeforeMonth(y, 3) == 59 + l
            && DaysBeforeMonth(y, 4) == 90 + l
            && DaysBeforeMonth(y, 5) == 120 + l
            && DaysBeforeMonth(y, 6) == 151 + l
            && DaysBeforeMonth(y, 7) == 181 + l
            && DaysBeforeMonth(y, 8) == 212 + l
            && DaysBeforeMonth(y, 9) == 243 + l
            && DaysBeforeMonth(y, 10) == 273 + l
            && DaysBeforeMonth(y, 11) == 304 + l
            && DaysBeforeMonth(y, 12) == 334 + l
  {
    assert DaysBeforeMonth(y, 3) == DaysBeforeMonth(y, 2) + DaysInMonth(y, 2);
    assert DaysBeforeMonth(y, 5) == DaysBeforeMonth(y, 4) + DaysInMonth(y, 4);
    assert DaysBeforeMonth(y, 7) == DaysBeforeMonth(y, 6) + DaysInMonth(y, 6);
    assert DaysBeforeMonth(y, 9) == DaysBeforeMonth(y, 8) + DaysInMonth(y, 8);
    assert DaysBeforeMonth(y, 11) == DaysBeforeMonth(y, 10) + DaysInMonth(y, 10);
  }

  /** The reference day number counts days: the epoch is 0 and the day after a
      date is numbered one more.  This fixes `DayNumber` on every valid date. */
  lemma DayNumberCountsDays(y: int, m: int, d: int)
    requires ValidDate(y, m, d)
    ensures DayNumber(1970, 1, 1) == 0
    ensures var (y', m', d') := NextDate(y, m, d);
            ValidDate(y', m', d') && DayNumber(y', m', d') == DayNumber(y, m, d) + 1
  {
    YearLength(y);
    MonthTable(y);
  }

  /** Day numbers order dates, so no two valid dates share one. */
  lemma DayNumberIsMonotone(y: int, m: int, d: int, y': int, m': int, d': int)
    requires ValidDate(y, m, d) && ValidDate(y', m', d')
    ensures Earlier(y, m, d, y', m', d') <==> DayNumber(y, m, d) < DayNumber(y', m', d')
  {
    WithinYear(y, m, d);
    WithinYear(y', m', d');
    if y < y' {
      YearsGrow(y + 1, y');
    } else if y' < y {
      YearsGrow(y' + 1, y);
    } else {
      if Earlier(y, m, d, y', m', d') {
        SameYear(y, m, d, m', d');
      } else if Earlier(y, m', d', y, m, d) {
        SameYear(y, m', d', m, d);
      }
    }
  }

  lemma SameYear(y: int, m: int, d: int, m': int, d': int)
    requires ValidDate(y, m, d) && ValidDate(y, m', d')
    requires Earlier(y, m, d, y, m', d')
    ensures DayNumber(y, m, d) < DayNumber(y, m', d')
  {
    if m < m' {
      MonthsGrow(y, m + 1, m');
    }
  }

  lemma {:induction false} MonthsGrow(y: int, m: int, m': int)
    requires 1 <= m <= m' <= 12
    ensures DaysBeforeMonth(y, m) <= DaysBeforeMonth(y, m')
    decreases m' - m
  {
    if m < m' {
      MonthsGrow(y, m, m' - 1);
    }
  }

  lemma WithinYear(y: int, m: int, d: int)
    requires ValidDate(y, m, d)
    ensures NewYear(y) <= DayNumber(y, m, d) < NewYear(y + 1)
  {
    YearLength(y);
    MonthTable(y);
  }

  lemma {:induction false} YearsGrow(y: int, y': int)
    requires y <= y'
    ensures NewYear(y) <= NewYear(y')
    decreases y' - y
  {
    if y < y' {
      YearLength(y);
      YearsGrow(y + 1, y');
    }
  }

  // -------------------------------------------------------------------------
  // The conversion
  // -------------------------------------------------------------------------

  /** Rust's integer `/`, which rounds towards zero. */
  function TruncDiv(a: int, b: int): int
    requires b > 0
  {
    if a >= 0 then a / b else -((-a) / b)
  }

  function Era(z: int): int {
    TruncDiv(if z >= 0 then z else z - 146_096, 146_097)
  }

  function YearOfEra(doe: int): int {
    (doe - doe / 1460 + doe / 36_524 - doe / 146_096) / 365
  }

  function DayOfYear(doe: int): int {
    var yoe := YearOfEra(doe);
    doe - (365 * yoe + yoe / 4 - yoe / 100)
  }

  /** The calendar date of day `doy` of March-based year `yoe` of an era. */
  function DateOf(era: int, yoe: int, doy: int): (int, int, int) {
    var y := yoe + era * 400;
    var mp := (5 * doy + 2) / 153;
    var d := doy - (153 * mp + 2) / 5 + 1;
    var m := if mp < 10 then mp + 3 else mp - 9;
    (if m <= 2 then y + 1 else y, m, d)
  }

  /** The calendar date of day `z`, counted from 1 March of year 0. */
  function DateOfDay(z: int): (int, int, int) {
    var era := Era(z);
    var doe := z - era * 146_097;
    DateOf(era, YearOfEra(doe), DayOfYear(doe))
  }

  function CivilFromEpoch(secs: int): Civil {
    var days := secs / 86_400;
    var rem := secs % 86_400;
    var (y, m, d) := DateOfDay(days + 719_468);
    Civil(y, m, d, rem / 3600, (rem % 3600) / 60, rem % 60)
  }

  lemma EraIsFloor(z: int)
    ensures 0 <= z - Era(z) * 146_097 < 146_097
  {
  }

  /** The year-of-era formula finds the March-based year that contains the day:
      the day of year is within range, and 366th days fall only in years whose
      February is a leap one. */
  lemma YearOfEraIsRight(doe: int)
    requires 0 <= doe < 146_097
    ensures var yoe := YearOfEra(doe);
            var doy := DayOfYear(doe);
            && 0 <= yoe < 400
            && 0 <= doy <= 365
            && (doy == 365 ==> IsLeap(yoe + 1))
            && doe == 365 * yoe + yoe / 4 - yoe / 100 + doy
  {
    var a, b, c, doy := SplitEra(doe);
    YearOfEraOf(a, b, c, doy);
  }

  /** Centuries, four-year cycles, years and days of a day of era. */
  lemma SplitEra(doe: int) returns (a: int, b: int, c: int, doy: int)
    requires 0 <= doe < 146_097
    ensures 0 <= a <= 3 && 0 <= b <= 24 && 0 <= c <= 3 && 0 <= doy <= 365
    ensures doy == 365 ==> c == 3 && (b == 24 ==> a == 3)
    ensures doe == 36_524 * a + 1461 * b + 365 * c + doy
  {
    a := if doe < 36_524 then 0 else if doe < 73_048 then 1 else if doe < 109_572 then 2 else 3;
    var r := doe - 36_524 * a;
    b := r / 1461;
    var r' := r - 1461 * b;
    c := if r' < 365 then 0 else if r' < 730 then 1 else if r' < 1095 then 2 else 3;
    doy := r' - 365 * c;
  }

  lemma YearOfEraOf(a: int, b: int, c: int, doy: int)
    requires 0 <= a <= 3 && 0 <= b <= 24 && 0 <= c <= 3 && 0 <= doy <= 365
    requires doy == 365 ==> c == 3 && (b == 24 ==> a == 3)
    ensures var doe := 36_524 * a + 1461 * b + 365 * c + doy;
            var yoe := 100 * a + 4 * b + c;
            && YearOfEra(doe) == yoe
            && 365 * yoe + yoe / 4 - yoe / 100 == doe - doy
            && (doy == 365 ==> IsLeap(yoe + 1))
  {
    var doe := 36_524 * a + 1461 * b + 365 * c + doy;
    var yoe := 100 * a + 4 * b + c;
    var carry := if 24 * a + b + 365 * c + doy >= 1460 then 1 else 0;
    Corrections(doe, a, b, carry, doy - 365 + 365 * c);
    DivIs(doe - (25 * a + b + carry) + a, 365, yoe);
    DivIs(yoe, 4, 25 * a + b);
    DivIs(yoe, 100, a);
    if doy == 365 {
      LeapYearOfEra(a, b);
    }
  }

  /** The three correction terms of the year-of-era formula. */
  lemma Corrections(doe: int, a: int, b: int, carry: int, rest: int)
    requires 0 <= a <= 3 && 0 <= b <= 24 && -365 <= rest <= 1095
    requires rest == 1095 && b == 24 ==> a == 3
    requires doe == 36_524 * a + 1461 * b + 365 + rest
    requires carry == if 24 * a + b + 365 + rest >= 1460 then 1 else 0
    ensures doe / 1460 == 25 * a + b + carry
    ensures doe / 36_524 - doe / 146_096 == a
  {
    var last := if doe == 146_096 then 1 else 0;
    DivIs(doe, 1460, 25 * a + b + carry);
    DivIs(doe, 36_524, a + last);
    DivIs(doe, 146_096, last);
  }

  lemma LeapYearOfEra(a: int, b: int)
    requires 0 <= a <= 3 && 0 <= b <= 24 && (b == 24 ==> a == 3)
    ensures IsLeap(100 * a + 4 * b + 4)
  {
    var y := 100 * a + 4 * b + 4;
    DivIs(y, 4, 25 * a + b + 1);
    if b < 24 {
      DivIs(y, 100, a);
    }
  }

  lemma DivIs(x: int, n: int, q: int)
    requires n > 0 && n * q <= x < n * q + n
    ensures x / n == q && x % n == x - n * q
  {
    var k := x / n - q;
    assert n * k == n * (x / n) - n * q;
    assert -n < n * k < n;
    SmallMultiple(n, k);
  }

  lemma SmallMultiple(n: int, k: int)
    requires n > 0 && -n < n * k < n
    ensures k == 0
  {
    if k >= 1 {
      Multiple(n, k);
    } else if k <= -1 {
      Multiple(n, -k);
    }
  }

  lemma Multiple(n: int, k: int)
    requires n > 0 && k >= 1
    ensures n * k >= n
  {
    assert n * k == n * (k - 1) + n;
  }

  lemma MonthOfDay(doy: int)
    requires 0 <= doy <= 365
    ensures var mp := (5 * doy + 2) / 153;
            var d := doy - (153 * mp + 2) / 5 + 1;
            && 0 <= mp <= 11
            && 1 <= d <= 31
            && (mp == 1 || mp == 3 || mp == 6 || mp == 8 ==> d <= 30)
            && (mp == 11 ==> d <= 29 && (d == 29 ==> doy == 365))
  {
  }

  /** The converted date and time are valid, and counting back gives the input:
      on every integer the conversion is exactly the calendar. */
  lemma CivilIsTheCalendar(secs: int)
    ensures var c := CivilFromEpoch(secs);
            && ValidDate(c.year, c.month, c.day)
            && ValidTime(c.hour, c.minute, c.second)
            && DayNumber(c.year, c.month, c.day) * 86_400
               + c.hour * 3600 + c.minute * 60 + c.second == secs
  {
    hide ValidDate, DayNumber, DateOfDay;
    DayIsTheCalendar(secs / 86_400 + 719_468);
    TimeOfDay(secs % 86_400);
  }

  lemma TimeOfDay(rem: int)
    requires 0 <= rem < 86_400
    ensures ValidTime(rem / 3600, rem % 3600 / 60, rem % 60)
    ensures rem / 3600 * 3600 + rem % 3600 / 60 * 60 + rem % 60 == rem
  {
    DivIs(rem, 60, rem / 3600 * 60 + rem % 3600 / 60);
  }

  lemma DayIsTheCalendar(z: int)
    ensures var (y, m, d) := DateOfDay(z);
            ValidDate(y, m, d) && DayNumber(y, m, d) == z - 719_468
  {
    hide ValidDate, DayNumber, Era, YearOfEra, DayOfYear, DateOf, IsLeap;
    var era := Era(z);
    EraIsFloor(z);
    var doe := z - era * 146_097;
    YearOfEraIsRight(doe);
    DateOfEra(era, doe, YearOfEra(doe), DayOfYear(doe));
  }

  lemma DateOfEra(era: int, doe: int, yoe: int, doy: int)
    requires 0 <= yoe < 400 && 0 <= doy <= 365
    requires doy == 365 ==> IsLeap(yoe + 1)
    requires doe == 365 * yoe + yoe / 4 - yoe / 100 + doy
    ensures var (y, m, d) := DateOf(era, yoe, doy);
            && ValidDate(y, m, d)
            && DayNumber(y, m, d) == era * 146_097 + doe - 719_468
  {
    MonthOfDay(doy);
    var y := yoe + era * 400;
    YearLength(y);
    MonthTable(y);
    MonthTable(y + 1);
    LeapRepeats(era, yoe + 1);
    EraDivides(era, yoe);
  }

  lemma LeapRepeats(era: int, y: int)
    ensures IsLeap(y + era * 400) == IsLeap(y)
  {
    DivIs(y + era * 400, 400, y / 400 + era);
    DivIs(y + era * 400, 100, y / 100 + 4 * era);
    DivIs(y + era * 400, 4, y / 4 + 100 * era);
  }

  lemma EraDivides(era: int, yoe: int)
    requires 0 <= yoe < 400
    ensures NewYear(yoe + era * 400 + 1)
         == 365 * yoe + yoe / 4 - yoe / 100 + era * 146_097 - 719_162
  {
    assert (yoe + era * 400) / 4 == yoe / 4 + 100 * era;
    assert (yoe + era * 400) / 100 == yoe / 100 + 4 * era;
    assert (yoe + era * 400) / 400 == era;
  }

  /** Later instants never give an earlier date, and equal days give equal
      dates. */
  lemma CivilIsMonotone(secs: int, secs': int)
    requires secs <= secs'
    ensures var c := CivilFromEpoch(secs);
            var c' := CivilFromEpoch(secs');
            && !Earlier(c'.year, c'.month, c'.day, c.year, c.month, c.day)
            && (secs / 86_400 == secs' / 86_400 <==>
                c.year == c'.year && c.month == c'.month && c.day == c'.day)
  {
    CivilIsTheCalendar(secs);
    CivilIsTheCalendar(secs');
    var c := CivilFromEpoch(secs);
    var c' := CivilFromEpoch(secs');
    DayNumberIsMonotone(c.year, c.month, c.day, c'.year, c'.month, c'.day);
    DayNumberIsMonotone(c'.year, c'.month, c'.day, c.year, c.month, c.day);
  }
}
