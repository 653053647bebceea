/**
 The Gregorian arithmetic of the storage layer: civil date to day number
 (src/storage/timestamp_util.h), day number to civil date
 (src/storage/engine/csv_writer.cpp). The leap rule is that of Appendix C of
 RFC 3339.
 */
module Calendar {

  datatype Date = Date(year: int, month: int, day: int)

  predicate Leap(year: int) {
    year % 4 == 0 && (year % 100 != 0 || year % 400 == 0)
  }

  function DaysInMonth(year: int, month: int): int
    requires 1 <= month <= 12
  {
    if month == 2 then (if Leap(year) then 29 else 28)
    else if month in {4, 6, 9, 11} then 30
    else 31
  }

  predicate Valid(d: Date) {
    d.year >= 1 && 1 <= d.month <= 12 && 1 <= d.day <= DaysInMonth(d.year, d.month)
  }

  // ---- Civil date to days ----

  const MONTH_DAYS: seq<int> := [0, 31, 59, 90, 120, 151, 181, 212, 243, 273, 304, 334, 365]

  /** Division of the source's signed integers, which truncates toward zero. */
  function Quotient(a: int, b: int): int
    requires b > 0
  {
    if a >= 0 then a / b else -((-a) / b)
  }

  function UtcDaysFromEpoch(year: int, month: int, day: int): int
    requires 1 <= month <= 12
  {
    var y := year - 1;
    y * 365 + Quotient(y, 4) - Quotient(y, 100) + Quotient(y, 400) - 719162
    + MONTH_DAYS[month - 1] + (day - 1) + (if Leap(year) && month > 2 then 1 else 0)
  }

  function DayNumber(d: Date): int
    requires Valid(d)
  {
    UtcDaysFromEpoch(d.year, d.month, d.day)
  }

  // ---- Days to civil date ----

  /** Days from 0000-03-01 to 1970-01-01, and days of 400 years. */
  const EPOCH_SHIFT: int := 719468
  const ERA_DAYS: int := 146097

  function YearOfEra(doe: int): int
    requires 0 <= doe < ERA_DAYS
  {
    (doe - doe / 1460 + doe / 36524 - doe / 146096) / 365
  }

  /** Month and day of day `doy` of a year that starts on 1 March, and the civil year they fall in. */
  function MarchDate(y: int, doy: int): Date {
    var mp := (5 * doy + 2) / 153;
    var d := doy - (153 * mp + 2) / 5 + 1;
    var m := if mp < 10 then mp + 3 else mp - 9;
    Date(if m <= 2 then y + 1 else y, m, d)
  }

  /** The unclamped arithmetic of CsvWriter::TimestampToDate. */
  function CivilFromDays(days: int): Date
    requires days >= -EPOCH_SHIFT
  {
    var z := days + EPOCH_SHIFT;
    var era := z / ERA_DAYS;
    var doe := z - era * ERA_DAYS;
    var yoe := YearOfEra(doe);
    MarchDate(yoe + era * 400, doe - (365 * yoe + yoe / 4 - yoe / 100))
  }

  /** Days of `k` years counted from a 1 March at the start of an era. */
  function YearStart(k: int): int {
    365 * k + k / 4 - k / 100 + k / 400
  }

  /** Where a day of era falls: century, four-year cycle, year of cycle and day of year. */
  predicate Split(doe: int, c: int, q: int, r: int, doy: int) {
    && 0 <= c <= 3 && 0 <= q <= 24 && 0 <= r <= 3 && 0 <= doy <= 365
    && doe == 36524 * c + 1461 * q + 365 * r + doy
    && (doy == 365 ==> r == 3 && (q == 24 ==> c == 3))
  }

  lemma SplitExists(doe: int) returns (c: int, q: int, r: int, doy: int)
    requires 0 <= doe < ERA_DAYS
    ensures Split(doe, c, q, r, doy)
  {
    c := if doe / 36524 < 3 then doe / 36524 else 3;
    var inCentury := doe - 36524 * c;
    assert 0 <= inCentury <= 36524 && (c < 3 ==> inCentury < 36524);
    q := inCentury / 1461;
    var inCycle := inCentury - 1461 * q;
    assert 0 <= inCycle < 1461;
    r := if inCycle / 365 < 3 then inCycle / 365 else 3;
    doy := inCycle - 365 * r;
  }

  /** The correction terms of the formula cancel exactly. */
  lemma YearOfEraSplit(doe: int, c: int, q: int, r: int, doy: int)
    requires 0 <= doe < ERA_DAYS && Split(doe, c, q, r, doy)
    ensures YearOfEra(doe) == 100 * c + 4 * q + r
  {
    var over := 24 * c + q + 365 * r + doy;
    var e := if over >= 1460 then 1 else 0;
    assert doe == 1460 * (25 * c + q) + over;
    assert doe / 1460 == 25 * c + q + e;
    assert doe / 36524 - doe / 146096 == c;
    assert doe - doe / 1460 + doe / 36524 - doe / 146096 == 365 * (100 * c + 4 * q + r) + (doy - e);
    assert 0 <= doy - e <= 364;
  }

  lemma YearStartSplit(c: int, q: int, r: int)
    requires 0 <= c <= 3 && 0 <= q <= 24 && 0 <= r <= 3
    ensures YearStart(100 * c + 4 * q + r) == 36524 * c + 1461 * q + 365 * r
    ensures YearStart(100 * c + 4 * q + r + 1)
            == 36524 * c + 1461 * q + 365 * (r + 1) + (if r == 3 && (q < 24 || c == 3) then 1 else 0)
  {
    var k := 100 * c + 4 * q + r;
    assert k / 4 == 25 * c + q && k / 100 == c && k / 400 == 0;
    assert (k + 1) / 4 == 25 * c + q + (if r == 3 then 1 else 0);
    assert (k + 1) / 100 == c + (if r == 3 && q == 24 then 1 else 0);
    assert (k + 1) / 400 == (if r == 3 && q == 24 && c == 3 then 1 else 0);
  }

  /** The year of era brackets the day of era. */
  lemma YearBracket(doe: int)
    requires 0 <= doe < ERA_DAYS
    ensures var yoe := YearOfEra(doe); 0 <= yoe <= 399 && YearStart(yoe) <= doe < YearStart(yoe + 1)
  {
    var c, q, r, doy := SplitExists(doe);
    YearOfEraSplit(doe, c, q, r, doy);
    YearStartSplit(c, q, r);
  }

  lemma LeapCount(y: int)
    requires y >= 1
    ensures y / 4 - (y - 1) / 4 == (if y % 4 == 0 then 1 else 0)
    ensures y / 100 - (y - 1) / 100 == (if y % 100 == 0 then 1 else 0)
    ensures y / 400 - (y - 1) / 400 == (if y % 400 == 0 then 1 else 0)
    ensures YearStart(y) - YearStart(y - 1) == (if Leap(y) then 366 else 365)
  {
    Quotients(y, 4);
    Quotients(y, 100);
    Quotients(y, 400);
    LeapMultiples(y);
  }

  lemma Quotients(y: int, d: int)
    requires d == 4 || d == 100 || d == 400
    ensures y / d - (y - 1) / d == (if y % d == 0 then 1 else 0)
  {
  }

  lemma LeapMultiples(y: int)
    ensures (y % 400 == 0 ==> y % 100 == 0) && (y % 100 == 0 ==> y % 4 == 0)
  {
  }

  lemma EraYears(yoe: int, era: int)
    requires 0 <= yoe <= 400 && era >= 0
    ensures YearStart(yoe + era * 400) == YearStart(yoe) + era * ERA_DAYS
  {
    assert (yoe + era * 400) / 4 == yoe / 4 + era * 100;
    assert (yoe + era * 400) / 100 == yoe / 100 + era * 4;
    assert (yoe + era * 400) / 400 == yoe / 400 + era;
  }

  lemma MarchMonth(doy: int)
    requires 0 <= doy <= 365
    ensures var mp := (5 * doy + 2) / 153;
            var d := doy - (153 * mp + 2) / 5 + 1;
            && 0 <= mp <= 11 && (mp >= 10 <==> doy >= 306)
            && 1 <= d <= (if mp == 11 then 29 else if mp in {1, 3, 6, 8} then 30 else 31)
            && (mp == 11 && d == 29 <==> doy == 365)
            && (mp < 10 ==> MONTH_DAYS[mp + 2] + d - 1 == doy + 59)
            && (mp >= 10 ==> MONTH_DAYS[mp - 10] + d - 1 == doy - 306)
  {
  }

  /** Day `doy` of the year that starts on 1 March of `y` is a real date with the right day number. */
  lemma MarchDateIs(y: int, doy: int)
    requires y >= 0 && 0 <= doy < YearStart(y + 1) - YearStart(y)
    requires y == 0 ==> doy >= 306
    ensures Valid(MarchDate(y, doy)) && DayNumber(MarchDate(y, doy)) == YearStart(y) + doy - EPOCH_SHIFT
  {
    LeapCount(y + 1);
    MarchMonth(doy);
    if y >= 1 {
      LeapCount(y);
    }
  }

  // ---- Main results: the two conversions are inverse ----

  /** 0001-01-01 as a day number. */
  const FIRST_DAY: int := -719162

  /** Day `doe` of era `era` is day `doy` of March year `y`. */
  lemma PlaceInEra(era: int, doe: int) returns (y: int, doy: int)
    requires era >= 0 && 0 <= doe < ERA_DAYS
    ensures var yoe := YearOfEra(doe); y == yoe + era * 400 && doy == doe - (365 * yoe + yoe / 4 - yoe / 100)
    ensures y >= 0 && 0 <= doy < YearStart(y + 1) - YearStart(y) && YearStart(y) + doy == era * ERA_DAYS + doe
  {
    YearBracket(doe);
    var yoe := YearOfEra(doe);
    assert yoe / 400 == 0;
    assert YearStart(yoe) == 365 * yoe + yoe / 4 - yoe / 100;
    EraYears(yoe, era);
    EraYears(yoe + 1, era);
    y, doy := yoe + era * 400, doe - YearStart(yoe);
  }

  lemma CivilIsMarchDate(days: int) returns (y: int, doy: int)
    requires days >= -EPOCH_SHIFT
    ensures CivilFromDays(days) == MarchDate(y, doy)
    ensures y >= 0 && 0 <= doy < YearStart(y + 1) - YearStart(y) && YearStart(y) + doy == days + EPOCH_SHIFT
  {
    var z := days + EPOCH_SHIFT;
    var era := z / ERA_DAYS;
    y, doy := PlaceInEra(era, z - era * ERA_DAYS);
  }

  /** Days to date and back, for every day from year 1 on: a real date, and the day one started from. */
  lemma DaysRoundTrip(days: int)
    requires days >= FIRST_DAY
    ensures Valid(CivilFromDays(days)) && DayNumber(CivilFromDays(days)) == days
  {
    var y, doy := CivilIsMarchDate(days);
    assert YearStart(0) == 0;
    MarchDateIs(y, doy);
  }

  predicate Earlier(a: Date, b: Date) {
    a.year < b.year || (a.year == b.year && (a.month < b.month || (a.month == b.month && a.day < b.day)))
  }

  function NewYear(year: int): int {
    UtcDaysFromEpoch(year, 1, 1)
  }

  lemma InItsYear(d: Date)
    requires Valid(d)
    ensures NewYear(d.year) <= DayNumber(d) < NewYear(d.year + 1)
  {
    LeapCount(d.year);
  }

  lemma {:induction false} NewYearsIncrease(a: int, b: int)
    requires 1 <= a <= b
    ensures NewYear(a) + 365 * (b - a) <= NewYear(b)
    decreases b - a
  {
    if a < b {
      LeapCount(b - 1);
      NewYearsIncrease(a, b - 1);
    }
  }

  /** Day numbers order dates as the calendar does. */
  lemma DayNumberMonotone(a: Date, b: Date)
    requires Valid(a) && Valid(b) && Earlier(a, b)
    ensures DayNumber(a) < DayNumber(b)
  {
    if a.year < b.year {
      InItsYear(a);
      InItsYear(b);
      NewYearsIncrease(a.year + 1, b.year);
    } else if a.month < b.month {
      MonthsIncrease(a.year, a.month, b.month);
    }
  }

  lemma MonthsIncrease(year: int, m: int, n: int)
    requires year >= 1 && 1 <= m < n <= 12
    ensures UtcDaysFromEpoch(year, m, 1) + DaysInMonth(year, m) <= UtcDaysFromEpoch(year, n, 1)
  {
  }

  lemma DayNumberInjective(a: Date, b: Date)
    requires Valid(a) && Valid(b) && DayNumber(a) == DayNumber(b)
    ensures a == b
  {
    if Earlier(a, b) {
      DayNumberMonotone(a, b);
    } else if Earlier(b, a) {
      DayNumberMonotone(b, a);
    }
  }

  /** Date to days and back, for every date from year 1 on. */
  lemma DateRoundTrip(d: Date)
    requires Valid(d)
    ensures DayNumber(d) >= FIRST_DAY && CivilFromDays(DayNumber(d)) == d
  {
    InItsYear(d);
    NewYearsIncrease(1, d.year);
    DaysRoundTrip(DayNumber(d));
    DayNumberInjective(d, CivilFromDays(DayNumber(d)));
  }

  function NextDate(d: Date): Date
    requires Valid(d)
  {
    if d.day < DaysInMonth(d.year, d.month) then Date(d.year, d.month, d.day + 1)
    else if d.month < 12 then Date(d.year, d.month + 1, 1)
    else Date(d.year + 1, 1, 1)
  }

  lemma NextDayNumber(d: Date)
    requires Valid(d)
    ensures Valid(NextDate(d)) && DayNumber(NextDate(d)) == DayNumber(d) + 1
  {
    if d.day == DaysInMonth(d.year, d.month) {
      if d.month < 12 {
        MonthLength(d.year, d.month);
      } else {
        LeapCount(d.year);
      }
    }
  }

  lemma MonthLength(year: int, month: int)
    requires year >= 1 && 1 <= month < 12
    ensures UtcDaysFromEpoch(year, month + 1, 1) == UtcDaysFromEpoch(year, month, 1) + DaysInMonth(year, month)
  {
  }

  /** Both conversions follow the calendar day by day. */
  lemma NextDay(d: Date)
    requires Valid(d)
    ensures Valid(NextDate(d)) && DayNumber(NextDate(d)) == DayNumber(d) + 1
    ensures DayNumber(d) >= FIRST_DAY && CivilFromDays(DayNumber(d) + 1) == NextDate(d)
  {
    NextDayNumber(d);
    DateRoundTrip(d);
    DateRoundTrip(NextDate(d));
  }

  lemma SuccessorIsNextDate(d: Date, e: Date)
    requires Valid(d) && Valid(e) && DayNumber(e) == DayNumber(d) + 1
    ensures e == NextDate(d)
  {
    NextDayNumber(d);
    DayNumberInjective(e, NextDate(d));
  }
}
