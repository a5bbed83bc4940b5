/**
 `format_date`: Unix seconds to a proleptic Gregorian date (the calendar of ISO 8601).
 The code counts years from March in 400-year eras; the reference side counts
 calendar days from January.
 */
module Calendar {

  newtype i64 = x: int | -0x8000_0000_0000_0000 <= x < 0x8000_0000_0000_0000

  datatype Date = Date(year: int, month: int, day: int)

  // ----- the calendar -----

  predicate IsLeap(year: int) {
    year % 4 == 0 && (year % 100 != 0 || year % 400 == 0)
  }

  function DaysIn(year: int, month: int): int {
    if month == 2 then (if IsLeap(year) then 29 else 28)
    else if month in {4, 6, 9, 11} then 30
    else 31
  }

  predicate Valid(d: Date) {
    1 <= d.month <= 12 && 1 <= d.day <= DaysIn(d.year, d.month)
  }

  function Next(d: Date): Date {
    if d.day < DaysIn(d.year, d.month) then d.(day := d.day + 1)
    else if d.month < 12 then Date(d.year, d.month + 1, 1)
    else Date(d.year + 1, 1, 1)
  }

  predicate Before(a: Date, b: Date) {
    a.year < b.year || (a.year == b.year && (a.month < b.month || (a.month == b.month && a.day < b.day)))
  }

  function DaysBeforeYear(year: int): int {
    365 * (year - 1) + (year - 1) / 4 - (year - 1) / 100 + (year - 1) / 400
  }

  function DaysBeforeMonth(year: int, month: int): int
    decreases month
  {
    if month <= 1 then 0 else DaysBeforeMonth(year, month - 1) + DaysIn(year, month - 1)
  }

  /** Days from 1970-01-01, by counting. */
  function DayNumber(d: Date): int {
    DaysBeforeYear(d.year) + DaysBeforeMonth(d.year, d.month) + d.day - 1 - 719162
  }

  lemma {:induction false} YearLength(year: int)
    ensures DaysBeforeYear(year + 1) == DaysBeforeYear(year) + if IsLeap(year) then 366 else 365
  {
    Step4(year);
    Step100(year);
    Step400(year);
    assert year % 400 == 0 ==> year % 100 == 0 by { Multiple400(year); }
    assert year % 100 == 0 ==> year % 4 == 0 by { Multiple100(year); }
  }

  lemma {:induction false} Step4(x: int)
    ensures x / 4 == (x - 1) / 4 + if x % 4 == 0 then 1 else 0
  {}

  lemma {:induction false} Step100(x: int)
    ensures x / 100 == (x - 1) / 100 + if x % 100 == 0 then 1 else 0
  {}

  lemma {:induction false} Step400(x: int)
    ensures x / 400 == (x - 1) / 400 + if x % 400 == 0 then 1 else 0
  {}

  lemma {:induction false} Multiple400(x: int)
    ensures x % 400 == 0 ==> x % 100 == 0
  {
    assert x % 400 == 0 ==> x == 100 * (4 * (x / 400));
  }

  lemma {:induction false} Multiple100(x: int)
    ensures x % 100 == 0 ==> x % 4 == 0
  {
    assert x % 100 == 0 ==> x == 4 * (25 * (x / 100));
  }

  lemma {:induction false} MonthTable(year: int)
    ensures DaysBeforeMonth(year, 1) == 0 && DaysBeforeMonth(year, 2) == 31
    ensures forall m :: 3 <= m <= 13 ==>
              DaysBeforeMonth(year, m) == 59 + (if IsLeap(year) then 1 else 0) + (153 * (m - 3) + 2) / 5
  {
    var leap := if IsLeap(year) then 1 else 0;
    assert DaysBeforeMonth(year, 2) == 31;
    assert DaysBeforeMonth(year, 3) == 59 + leap;
    assert DaysBeforeMonth(year, 4) == 90 + leap;
    assert DaysBeforeMonth(year, 5) == 120 + leap;
    assert DaysBeforeMonth(year, 6) == 151 + leap;
    assert DaysBeforeMonth(year, 7) == 181 + leap;
    assert DaysBeforeMonth(year, 8) == 212 + leap;
    assert DaysBeforeMonth(year, 9) == 243 + leap;
    assert DaysBeforeMonth(year, 10) == 273 + leap;
    assert DaysBeforeMonth(year, 11) == 304 + leap;
    assert DaysBeforeMonth(year, 12) == 334 + leap;
    assert DaysBeforeMonth(year, 13) == 365 + leap;
  }

  lemma {:induction false} NextCountsOne(d: Date)
    requires Valid(d)
    ensures Valid(Next(d)) && DayNumber(Next(d)) == DayNumber(d) + 1 && Before(d, Next(d))
  {
    YearLength(d.year);
    MonthTable(d.year);
    assert DaysBeforeMonth(d.year, d.month + 1) == DaysBeforeMonth(d.year, d.month) + DaysIn(d.year, d.month);
  }

  lemma {:induction false} YearsGrow(a: int, b: int)
    requires a < b
    ensures DaysBeforeYear(a) + 365 <= DaysBeforeYear(b)
    ensures IsLeap(a) ==> DaysBeforeYear(a) + 366 <= DaysBeforeYear(b)
    decreases b - a
  {
    YearLength(a);
    if a + 1 < b {
      YearsGrow(a + 1, b);
    }
  }

  lemma {:induction false} MonthsGrow(year: int, a: int, b: int)
    requires 1 <= a < b
    ensures DaysBeforeMonth(year, a) + DaysIn(year, a) <= DaysBeforeMonth(year, b)
    decreases b - a
  {
    if a + 1 < b {
      MonthsGrow(year, a, b - 1);
    }
  }

  lemma {:induction false} DayNumberIncreases(a: Date, b: Date)
    requires Valid(a) && Valid(b)
    ensures Before(a, b) <==> DayNumber(a) < DayNumber(b)
    ensures a == b <==> DayNumber(a) == DayNumber(b)
  {
    if Before(a, b) {
      Increases(a, b);
    } else if Before(b, a) {
      Increases(b, a);
    } else {
      assert a == b;
    }
  }

  lemma {:induction false} Increases(a: Date, b: Date)
    requires Valid(a) && Valid(b) && Before(a, b)
    ensures DayNumber(a) < DayNumber(b)
  {
    MonthTable(a.year);
    MonthTable(b.year);
    if a.year < b.year {
      YearsGrow(a.year, b.year);
      if a.month < 12 {
        MonthsGrow(a.year, a.month, 13);
      }
    } else if a.month < b.month {
      MonthsGrow(a.year, a.month, b.month);
    }
  }

  // ----- the conversion, on unbounded integers -----

  function YearOfEra(dayOfEra: int): int {
    (dayOfEra - dayOfEra / 1460 + dayOfEra / 36524 - dayOfEra / 146096) / 365
  }

  function YearStart(yearOfEra: int): int {
    365 * yearOfEra + yearOfEra / 4 - yearOfEra / 100
  }

  function MonthIndex(dayOfYear: int): int {
    (5 * dayOfYear + 2) / 153
  }

  function Civil(dayNumber: int): Date {
    var days := dayNumber + 719468;
    var era := days / 146097;
    var dayOfEra := days % 146097;
    var yearOfEra := YearOfEra(dayOfEra);
    var dayOfYear := dayOfEra - YearStart(yearOfEra);
    var monthIndex := MonthIndex(dayOfYear);
    var day := dayOfYear - (153 * monthIndex + 2) / 5 + 1;
    var month := if monthIndex < 10 then monthIndex + 3 else monthIndex - 9;
    var year := yearOfEra + era * 400 + if month <= 2 then 1 else 0;
    Date(year, month, day)
  }

  /** The closed form finds the March-based year that contains the day. */
  lemma {:induction false} YearOfEraIsRight(dayOfEra: int)
    requires 0 <= dayOfEra < 146097
    ensures 0 <= YearOfEra(dayOfEra) <= 399
    ensures 0 <= dayOfEra - YearStart(YearOfEra(dayOfEra)) <= 365
    ensures dayOfEra - YearStart(YearOfEra(dayOfEra)) == 365 ==> IsLeap(YearOfEra(dayOfEra) + 1)
  {
    var century := dayOfEra / 36524;
    if century == 4 {
      assert dayOfEra == 146096;
    } else {
      var inCentury := dayOfEra % 36524;
      CenturySplit(century, inCentury);
      assert dayOfEra == 36524 * century + inCentury;
    }
  }

  /** Inside one century: four-year cycles of 1461 days. */
  lemma {:induction false} CenturySplit(century: int, inCentury: int)
    requires 0 <= century <= 3 && 0 <= inCentury < 36524
    ensures var d := 36524 * century + inCentury;
            && 0 <= YearOfEra(d) <= 399
            && 0 <= d - YearStart(YearOfEra(d)) <= 365
            && (d - YearStart(YearOfEra(d)) == 365 ==> IsLeap(YearOfEra(d) + 1))
  {
    var cycle := inCentury / 1461;
    var inCycle := inCentury % 1461;
    var year := if inCycle == 1460 then 3 else inCycle / 365;
    CycleYear(century, cycle, inCycle, year);
    CycleDay(century, cycle, inCycle, year);
  }

  lemma {:induction false} CycleDay(century: int, cycle: int, inCycle: int, year: int)
    requires 0 <= century <= 3 && 0 <= cycle <= 24 && 0 <= inCycle < 1461
    requires year == if inCycle == 1460 then 3 else inCycle / 365
    requires 1461 * cycle + inCycle < 36524
    ensures var y := 100 * century + 4 * cycle + year;
            var dayOfYear := 36524 * century + 1461 * cycle + inCycle - YearStart(y);
            && 0 <= y <= 399 && 0 <= dayOfYear <= 365
            && (dayOfYear == 365 ==> IsLeap(y + 1))
  {
    var y := 100 * century + 4 * cycle + year;
    assert y / 4 == 25 * century + cycle && y / 100 == century;
    if inCycle == 1460 {
      assert cycle <= 23;
      assert y + 1 == 100 * century + 4 * (cycle + 1);
      assert (y + 1) % 100 == 4 * (cycle + 1);
    }
  }

  lemma {:induction false} CycleYear(century: int, cycle: int, inCycle: int, year: int)
    requires 0 <= century <= 3 && 0 <= cycle <= 24 && 0 <= inCycle < 1461
    requires year == if inCycle == 1460 then 3 else inCycle / 365
    requires 1461 * cycle + inCycle < 36524
    ensures var d := 36524 * century + 1461 * cycle + inCycle;
            YearOfEra(d) == 100 * century + 4 * cycle + year
  {
    var d := 36524 * century + 1461 * cycle + inCycle;
    assert d / 36524 == century && d / 146096 == 0;
    var rest := 24 * century + cycle + inCycle;
    assert d == 1460 * (25 * century + cycle) + rest;
    assert d / 1460 == 25 * century + cycle + rest / 1460;
    var left := inCycle - rest / 1460;
    assert d - d / 1460 + century == 365 * (100 * century + 4 * cycle) + left;
    assert 365 * year <= left < 365 * (year + 1);
  }

  lemma {:induction false} MonthIndexIsRight(dayOfYear: int)
    requires 0 <= dayOfYear <= 365
    ensures var m := MonthIndex(dayOfYear);
            && 0 <= m <= 11
            && (153 * m + 2) / 5 <= dayOfYear < (153 * (m + 1) + 2) / 5
  {}

  /** A March-based year, month index and day, as a calendar date. */
  function FromMarch(march: int, monthIndex: int, day: int): Date {
    if monthIndex < 10 then Date(march, monthIndex + 3, day) else Date(march + 1, monthIndex - 9, day)
  }

  lemma {:induction false} FromMarchIsRight(march: int, monthIndex: int, day: int)
    requires 0 <= monthIndex <= 11 && 1 <= day
    requires day <= (153 * (monthIndex + 1) + 2) / 5 - (153 * monthIndex + 2) / 5
    requires monthIndex == 11 ==> day <= if IsLeap(march + 1) then 29 else 28
    ensures Valid(FromMarch(march, monthIndex, day))
    ensures DayNumber(FromMarch(march, monthIndex, day)) ==
            DaysBeforeYear(march + 1) + (153 * monthIndex + 2) / 5 + day - 1 - 719468
  {
    YearLength(march);
    MonthTable(march);
    MonthTable(march + 1);
  }

  lemma {:induction false} CivilParts(n: int) returns (era: int, yearOfEra: int, dayOfYear: int)
    ensures n + 719468 == 146097 * era + YearStart(yearOfEra) + dayOfYear
    ensures 0 <= yearOfEra <= 399 && 0 <= dayOfYear <= 365
    ensures dayOfYear == 365 ==> IsLeap(yearOfEra + 1)
    ensures var m := MonthIndex(dayOfYear);
            Civil(n) == FromMarch(yearOfEra + era * 400, m, dayOfYear - (153 * m + 2) / 5 + 1)
  {
    var days := n + 719468;
    era := days / 146097;
    var dayOfEra := days % 146097;
    yearOfEra := YearOfEra(dayOfEra);
    dayOfYear := dayOfEra - YearStart(yearOfEra);
    YearOfEraIsRight(dayOfEra);
    MonthIndexIsRight(dayOfYear);
  }

  lemma {:induction false} CivilFields(n: int)
    ensures Valid(Civil(n)) && DayNumber(Civil(n)) == n
  {
    var era, yearOfEra, dayOfYear := CivilParts(n);
    MarchDate(era, yearOfEra, dayOfYear);
  }

  lemma {:induction false} MarchDate(era: int, yearOfEra: int, dayOfYear: int)
    requires 0 <= yearOfEra <= 399 && 0 <= dayOfYear <= 365
    requires dayOfYear == 365 ==> IsLeap(yearOfEra + 1)
    ensures var m := MonthIndex(dayOfYear);
            var d := FromMarch(yearOfEra + era * 400, m, dayOfYear - (153 * m + 2) / 5 + 1);
            Valid(d) && DayNumber(d) == 146097 * era + YearStart(yearOfEra) + dayOfYear - 719468
  {
    MonthIndexIsRight(dayOfYear);
    EraStart(era, yearOfEra);
    LeapInEra(era, yearOfEra + 1);
    var m := MonthIndex(dayOfYear);
    FromMarchIsRight(yearOfEra + era * 400, m, dayOfYear - (153 * m + 2) / 5 + 1);
  }

  lemma {:induction false} EraStart(era: int, yearOfEra: int)
    requires 0 <= yearOfEra <= 399
    ensures DaysBeforeYear(yearOfEra + era * 400 + 1) == 146097 * era + YearStart(yearOfEra)
  {
    var y := yearOfEra + era * 400;
    assert y / 4 == yearOfEra / 4 + 100 * era;
    assert y / 100 == yearOfEra / 100 + 4 * era;
    assert y / 400 == era;
  }

  lemma {:induction false} LeapInEra(era: int, year: int)
    ensures IsLeap(year + era * 400) == IsLeap(year)
  {
    Shift4(year, 100 * era);
    Shift100(year, 4 * era);
    Shift400(year, era);
  }

  lemma {:induction false} Shift4(x: int, q: int)
    ensures (x + 4 * q) % 4 == x % 4
  {
    assert x + 4 * q == 4 * (x / 4 + q) + x % 4;
  }

  lemma {:induction false} Shift100(x: int, q: int)
    ensures (x + 100 * q) % 100 == x % 100
  {
    assert x + 100 * q == 100 * (x / 100 + q) + x % 100;
  }

  lemma {:induction false} Shift400(x: int, q: int)
    ensures (x + 400 * q) % 400 == x % 400
  {
    assert x + 400 * q == 400 * (x / 400 + q) + x % 400;
  }

  // ----- what the conversion guarantees -----

  /** `Civil` and counting days are inverse to each other. */
  lemma {:induction false} CivilInverse(d: Date)
    requires Valid(d)
    ensures Civil(DayNumber(d)) == d
  {
    CivilFields(DayNumber(d));
    DayNumberIncreases(Civil(DayNumber(d)), d);
  }

  lemma {:induction false} CivilAfter(d: Date, n: int)
    requires Valid(d) && DayNumber(d) == n
    ensures Civil(n + 1) == Next(d)
  {
    NextCountsOne(d);
    CivilInverse(Next(d));
  }

  /** Day 0 is 1970-01-01 and every next day number is the next calendar day. */
  lemma {:induction false} CivilSuccessor(n: int)
    ensures Civil(0) == Date(1970, 1, 1)
    ensures Civil(n + 1) == Next(Civil(n))
  {
    CivilInverse(Date(1970, 1, 1));
    CivilFields(n);
    CivilAfter(Civil(n), n);
  }

  lemma {:induction false} CivilIncreases(m: int, n: int)
    ensures m < n <==> Before(Civil(m), Civil(n))
  {
    CivilFields(m);
    CivilFields(n);
    DayNumberIncreases(Civil(m), Civil(n));
  }

  // ----- the code, in 64-bit arithmetic -----

  function YearOfEra64(dayOfEra: i64): (y: i64)
    requires 0 <= dayOfEra < 146097
    ensures y as int == YearOfEra(dayOfEra as int) && 0 <= y <= 399
    ensures 0 <= dayOfEra as int - YearStart(y as int) <= 365
  {
    YearOfEraIsRight(dayOfEra as int);
    (dayOfEra - dayOfEra / 1460 + dayOfEra / 36524 - dayOfEra / 146096) / 365
  }

  function MonthAndDay64(dayOfYear: i64): (md: (i64, i64))
    requires 0 <= dayOfYear <= 365
    ensures var m := MonthIndex(dayOfYear as int);
            && md.0 as int == (if m < 10 then m + 3 else m - 9)
            && md.1 as int == dayOfYear as int - (153 * m + 2) / 5 + 1
            && 1 <= md.0 <= 12 && 1 <= md.1 <= 31
  {
    MonthIndexIsRight(dayOfYear as int);
    var monthIndex := (5 * dayOfYear + 2) / 153;
    var day := dayOfYear - (153 * monthIndex + 2) / 5 + 1;
    var month := if monthIndex < 10 then monthIndex + 3 else monthIndex - 9;
    (month, day)
  }

  /** The date of a day counted from 0000-03-01. */
  function FromShifted64(days: i64): (fields: (i64, i64, i64))
    requires -0x1_0000_0000_0000 <= days <= 0x1_0000_0000_0000
    ensures Date(fields.0 as int, fields.1 as int, fields.2 as int) == Civil(days as int - 719468)
  {
    var era := days / 146097;
    var dayOfEra := days % 146097;
    var yearOfEra := YearOfEra64(dayOfEra);
    var dayOfYear := dayOfEra - (365 * yearOfEra + yearOfEra / 4 - yearOfEra / 100);
    var (month, day) := MonthAndDay64(dayOfYear);
    var year := yearOfEra + era * 400 + if month <= 2 then 1 else 0;
    (year, month, day)
  }

  /** The printed year, month and day.  Every intermediate value fits an i64, whatever the input. */
  function FormatDate(seconds: i64): (fields: (i64, i64, i64))
    ensures Date(fields.0 as int, fields.1 as int, fields.2 as int) == Civil(seconds as int / 86400)
  {
    FromShifted64(seconds / 86400 + 719468)
  }
}
