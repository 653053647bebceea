/**
 The trade-date window of src/storage/timestamp_util.h with its day-keyed cache,
 and the RANGE partition boundaries that src/storage/client/dolphindb_schema.cpp
 enumerates for it.
 */
module Partitions {
  import opened Calendar
  import opened TradeDates

  // ---- The trade-date window ----

  function UsecToDateInt(usec: nat): int {
    if usec == 0 || usec > MAX_VALID_USEC then -1 else usec / USECS_PER_DAY
  }

  /** The last acceptable trade date on day `today`: the end of the year before current year + 5. */
  function MaxValidDate(today: nat): int {
    NewYear(CivilFromDays(today).year + PARTITION_YEAR_FORWARD) - 1
  }

  predicate ValidTradeDate(date: int, today: nat) {
    MIN_VALID_DATE <= date <= MaxValidDate(today)
  }

  const SECONDS_PER_DAY: nat := 86400

  /** The two statics of IsValidTradeDate. */
  class TradeDateCache {
    var cachedMaxDate: int
    var cachedOnDay: int

    ghost predicate Valid()
      reads this
    {
      cachedOnDay == -1 || (cachedOnDay >= 0 && cachedMaxDate == MaxValidDate(cachedOnDay))
    }

    constructor ()
      ensures Valid()
    {
      cachedMaxDate, cachedOnDay := 0, -1;
    }

    /** However the clock moves between calls, the cached answer is the fresh one. */
    method IsValidTradeDate(tradeDate: int, now: nat) returns (ok: bool)
      requires Valid()
      modifies this
      ensures Valid()
      ensures ok == ValidTradeDate(tradeDate, now / SECONDS_PER_DAY)
    {
      if tradeDate < 0 {
        return false;
      }
      var today := now / SECONDS_PER_DAY;
      if cachedOnDay != today {
        var curYear := CivilFromDays(today).year;
        cachedMaxDate := UtcDaysFromEpoch(curYear + PARTITION_YEAR_FORWARD, 1, 1) - 1;
        cachedOnDay := today;
      }
      ok := tradeDate >= MIN_VALID_DATE && tradeDate <= cachedMaxDate;
    }

    method IsValidExchangeTimestamp(usec: nat, now: nat) returns (ok: bool)
      requires Valid()
      modifies this
      ensures Valid()
      ensures ok == (0 < usec <= MAX_VALID_USEC && ValidTradeDate(usec / USECS_PER_DAY, now / SECONDS_PER_DAY))
    {
      ok := IsValidTradeDate(UsecToDateInt(usec), now);
    }
  }

  // ---- Partition boundaries ----

  datatype Granularity = Day | Month | Year

  /** "day" and "month" by name; everything else is treated as "year". */
  function ParseGranularity(name: string): Granularity {
    if name == "day" then Day else if name == "month" then Month else Year
  }

  function DayDates(startYear: int, endYear: int): seq<Date>
    requires 1 <= startYear <= endYear + 1
  {
    NewYearsOrdered(startYear, endYear + 1);
    seq(NewYear(endYear + 1) - NewYear(startYear), i requires 0 <= i => CivilFromDays(NewYear(startYear) + i))
  }

  function MonthDates(startYear: int, endYear: int): seq<Date>
    requires 1 <= startYear <= endYear + 1
  {
    seq(12 * (endYear - startYear + 1), i requires 0 <= i => Date(startYear + i / 12, i % 12 + 1, 1))
  }

  function YearDates(startYear: int, endYear: int): seq<Date>
    requires 1 <= startYear <= endYear + 1
  {
    seq(endYear - startYear + 1, i requires 0 <= i => Date(startYear + i, 1, 1))
  }

  /** The last year listed; the year before the first when there is none. */
  function LastYear(startYear: int, endYear: int): int {
    if endYear < startYear then startYear - 1 else endYear
  }

  /** What BuildRangeSpec must list: every day, every first of a month, or every 1 January. */
  function Boundaries(startYear: int, endYear: int, g: Granularity): seq<Date>
    requires 1 <= startYear
  {
    var last := LastYear(startYear, endYear);
    match g
    case Day => DayDates(startYear, last)
    case Month => MonthDates(startYear, last)
    case Year => YearDates(startYear, last)
  }

  lemma NewYearsOrdered(a: int, b: int)
    requires 1 <= a <= b
    ensures FIRST_DAY <= NewYear(a) <= NewYear(b)
  {
    NewYearsIncrease(a, b);
    NewYearsIncrease(1, a);
  }

  function Quoted(d: Date): string
    requires d.year >= 0 && d.month >= 0 && d.day >= 0
  {
    "\"" + Padded(d.year, 4) + "." + Padded(d.month, 2) + "." + Padded(d.day, 2) + "\""
  }

  ghost predicate AllValid(ds: seq<Date>) {
    forall i | 0 <= i < |ds| :: Valid(ds[i])
  }

  /** The comma-separated list, as the `dates` string grows. */
  ghost function Joined(ds: seq<Date>): (r: string)
    requires AllValid(ds)
    ensures r == [] <==> ds == []
  {
    if ds == [] then ""
    else if |ds| == 1 then Quoted(ds[0])
    else Joined(ds[..|ds| - 1]) + "," + Quoted(ds[|ds| - 1])
  }

  /** The characters of a listed date up to the year 9999: "YYYY.MM.DD" in quotes. */
  lemma QuotedCharacters(d: Date)
    requires Valid(d) && d.year <= 9999
    ensures Quoted(d) == ['\"', Digit(d.year / 1000), Digit(d.year / 100 % 10), Digit(d.year / 10 % 10),
                          Digit(d.year % 10), '.', Digit(d.month / 10), Digit(d.month % 10), '.',
                          Digit(d.day / 10), Digit(d.day % 10), '\"']
  {
    FourDigits(d.year);
    TwoDigits(d.month);
    TwoDigits(d.day);
  }

  // A reader of the list

  /** The position of the first `c`, or the length. */
  function Find(s: string, c: char): (i: nat)
    ensures i <= |s|
  {
    if s == [] || s[0] == c then 0 else 1 + Find(s[1..], c)
  }

  /** What is left after the first `c`. */
  function After(s: string, c: char): (r: string)
    ensures s != [] ==> |r| < |s|
  {
    if Find(s, c) < |s| then s[Find(s, c) + 1..] else []
  }

  lemma {:induction false} FindIn(field: string, c: char, rest: string)
    requires c !in field
    ensures Find(field + [c] + rest, c) == |field| && After(field + [c] + rest, c) == rest
    decreases |field|
  {
    var s := field + [c] + rest;
    if field != [] {
      FindIn(field[1..], c, rest);
      assert s[1..] == field[1..] + [c] + rest;
    }
  }

  /** One quoted date off the front: the opening quote, year, month and day. */
  function ReadDate(s: string): Date {
    var y := After(s, '\"');
    var m := After(y, '.');
    var d := After(m, '.');
    Date(Value(y[..Find(y, '.')]), Value(m[..Find(m, '.')]), Value(d[..Find(d, '\"')]))
  }

  function AfterDate(s: string): (r: string)
    ensures s != [] ==> |r| < |s|
  {
    After(After(After(After(s, '\"'), '.'), '.'), '\"')
  }

  function ReadDates(s: string): seq<Date>
    decreases |s|
  {
    if s == [] then []
    else
      [ReadDate(s)] + if AfterDate(s) != [] && AfterDate(s)[0] == ',' then ReadDates(AfterDate(s)[1..]) else []
  }

  /** The dates of a spec: what stands between "date([" and "])". */
  function ReadSpec(spec: string): seq<Date>
    requires |spec| >= 8
  {
    ReadDates(spec[6..|spec| - 2])
  }

  lemma {:induction false} PaddedDigits(n: nat, width: nat)
    ensures '.' !in Padded(n, width) && '\"' !in Padded(n, width)
    decreases n, width
  {
    if n >= 10 || width > 1 {
      PaddedDigits(n / 10, if width == 0 then 0 else width - 1);
    }
  }

  lemma ReadField(n: nat, width: nat, c: char, rest: string)
    requires c == '.' || c == '\"'
    ensures var s := Padded(n, width) + [c] + rest; Value(s[..Find(s, c)]) == n && After(s, c) == rest
  {
    var field := Padded(n, width);
    PaddedDigits(n, width);
    FindIn(field, c, rest);
    PaddedValue(n, width);
    assert (field + [c] + rest)[..|field|] == field;
  }

  lemma ReadQuoted(d: Date, rest: string)
    requires Valid(d)
    ensures ReadDate(Quoted(d) + rest) == d && AfterDate(Quoted(d) + rest) == rest
  {
    var s := Quoted(d) + rest;
    var third := Padded(d.day, 2) + ['\"'] + rest;
    var second := Padded(d.month, 2) + ['.'] + third;
    var first := Padded(d.year, 4) + ['.'] + second;
    assert s == [] + ['\"'] + first;
    FindIn([], '\"', first);
    ReadField(d.year, 4, '.', second);
    ReadField(d.month, 2, '.', third);
    ReadField(d.day, 2, '\"', rest);
  }

  lemma Commas(a: string, b: string, c: string)
    ensures (a + "," + b) + "," + c == a + "," + (b + "," + c)
  {
  }

  lemma {:induction false} JoinedCons(d: Date, ds: seq<Date>, first: string, r: string)
    requires Valid(d) && AllValid(ds) && AllValid([d] + ds) && first == Quoted(d) && r == Joined([d] + ds)
    ensures r == if ds == [] then first else first + "," + Joined(ds)
    decreases |ds|
  {
    if ds == [] {
      assert [d] + ds == [d];
    } else {
      var init, last := ds[..|ds| - 1], ds[|ds| - 1];
      assert [d] + ds == ([d] + init) + [last] && ds == init + [last];
      JoinedCons(d, init, first, Joined([d] + init));
      JoinedSnoc([d] + init, last);
      JoinedSnoc(init, last);
      Commas(first, Joined(init), Quoted(last));
    }
  }

  lemma ReadDatesStep(s: string, d: Date, rest: string)
    requires s != [] && ReadDate(s) == d && AfterDate(s) == rest
    ensures ReadDates(s) == [d] + if rest != [] && rest[0] == ',' then ReadDates(rest[1..]) else []
  {
  }

  lemma ReadLast(d: Date, s: string)
    requires Valid(d) && s == Quoted(d)
    ensures ReadDates(s) == [d]
  {
    ReadQuoted(d, []);
    assert s + [] == s;
    ReadDatesStep(s, d, []);
  }

  lemma ReadMore(d: Date, rest: string, tail: string, s: string)
    requires Valid(d) && tail == "," + rest && s == Quoted(d) + tail
    ensures ReadDates(s) == [d] + ReadDates(rest)
  {
    ReadQuoted(d, tail);
    CommaFirst(rest, tail);
    ReadDatesStep(s, d, tail);
  }

  lemma CommaFirst(rest: string, tail: string)
    requires tail == "," + rest
    ensures tail != [] && tail[0] == ',' && tail[1..] == rest
  {
  }

  lemma CommaThen(first: string, rest: string)
    ensures first + "," + rest == first + ("," + rest)
  {
  }

  /** Reading the list gives back its dates. */
  lemma {:induction false} ReadJoined(ds: seq<Date>, s: string)
    requires AllValid(ds) && s == Joined(ds)
    ensures ReadDates(s) == ds
    decreases |ds|
  {
    if ds != [] {
      var d, rest := ds[0], ds[1..];
      assert ds == [d] + rest;
      JoinedCons(d, rest, Quoted(d), s);
      if rest == [] {
        ReadLast(d, s);
      } else {
        ReadJoined(rest, Joined(rest));
        CommaThen(Quoted(d), Joined(rest));
        ReadMore(d, Joined(rest), "," + Joined(rest), s);
      }
    }
  }

  const MONTH_LENGTHS: seq<int> := [31, 28, 31, 30, 31, 30, 31, 31, 30, 31, 30, 31]

  lemma JoinedSnoc(before: seq<Date>, d: Date)
    requires AllValid(before) && Valid(d)
    ensures AllValid(before + [d])
    ensures Joined(before + [d]) == if before == [] then Quoted(d) else Joined(before) + "," + Quoted(d)
  {
    assert (before + [d])[..|before|] == before;
  }

  /** One turn of the innermost loop: a comma unless the string is empty, then the quoted date. */
  method AppendDate(dates: string, d: Date, ghost before: seq<Date>) returns (r: string)
    requires Valid(d) && AllValid(before) && dates == Joined(before)
    ensures AllValid(before + [d]) && r == Joined(before + [d])
  {
    JoinedSnoc(before, d);
    if dates != [] {
      r := dates + "," + Quoted(d);
    } else {
      r := Quoted(d);
    }
  }

  // "day"

  /** Real dates on consecutive days from day number `first` on. */
  ghost predicate Consecutive(ds: seq<Date>, first: int) {
    AllValid(ds) && forall i | 0 <= i < |ds| :: DayNumber(ds[i]) == first + i
  }

  lemma ConsecutiveSnoc(ds: seq<Date>, first: int, d: Date)
    requires Consecutive(ds, first) && Valid(d) && DayNumber(d) == first + |ds|
    ensures Consecutive(ds + [d], first)
  {
  }

  lemma DayOfMonth(y: int, m: int, d: int)
    requires y >= 1 && 1 <= m <= 12 && 1 <= d <= DaysInMonth(y, m)
    ensures Valid(Date(y, m, d)) && DayNumber(Date(y, m, d)) == UtcDaysFromEpoch(y, m, 1) + d - 1
  {
  }

  /** The source's table with its February correction. */
  method MonthLengthOf(y: int, m: int) returns (n: int)
    requires 1 <= m <= 12
    ensures n == DaysInMonth(y, m)
  {
    n := MONTH_LENGTHS[m - 1];
    if m == 2 && ((y % 4 == 0 && y % 100 != 0) || y % 400 == 0) {
      n := 29;
    }
  }

  /** The innermost loop: the days of one month. */
  method AppendMonth(dates: string, y: int, m: int, ghost before: seq<Date>, ghost first: int)
    returns (r: string, ghost after: seq<Date>)
    requires y >= 1 && 1 <= m <= 12 && Consecutive(before, first) && dates == Joined(before)
    requires UtcDaysFromEpoch(y, m, 1) == first + |before|
    ensures Consecutive(after, first) && r == Joined(after)
    ensures |after| == |before| + DaysInMonth(y, m)
  {
    r, after := dates, before;
    var daysInMonth := MonthLengthOf(y, m);
    var d := 1;
    while d <= daysInMonth
      invariant 1 <= d <= daysInMonth + 1
      invariant Consecutive(after, first) && r == Joined(after) && |after| == |before| + d - 1
    {
      DayOfMonth(y, m, d);
      ConsecutiveSnoc(after, first, Date(y, m, d));
      r := AppendDate(r, Date(y, m, d), after);
      after := after + [Date(y, m, d)];
      d := d + 1;
    }
  }

  method AppendYear(dates: string, y: int, ghost before: seq<Date>, ghost first: int)
    returns (r: string, ghost after: seq<Date>)
    requires y >= 1 && Consecutive(before, first) && dates == Joined(before) && NewYear(y) == first + |before|
    ensures Consecutive(after, first) && r == Joined(after) && NewYear(y + 1) == first + |after|
  {
    r, after := dates, before;
    var m := 1;
    while m <= 12
      invariant 1 <= m <= 13
      invariant Consecutive(after, first) && r == Joined(after)
      invariant first + |after| == (if m <= 12 then UtcDaysFromEpoch(y, m, 1) else NewYear(y + 1))
    {
      r, after := AppendMonth(r, y, m, after, first);
      if m < 12 {
        MonthLength(y, m);
      } else {
        LeapCount(y);
      }
      m := m + 1;
    }
  }

  lemma ConsecutiveIsBoundaries(ds: seq<Date>, startYear: int, endYear: int)
    requires 1 <= startYear <= endYear + 1
    requires Consecutive(ds, NewYear(startYear)) && |ds| == NewYear(endYear + 1) - NewYear(startYear)
    ensures ds == DayDates(startYear, endYear)
  {
    NewYearsOrdered(startYear, endYear + 1);
    var b := DayDates(startYear, endYear);
    forall i | 0 <= i < |ds|
      ensures ds[i] == b[i]
    {
      DateRoundTrip(ds[i]);
    }
  }

  method DaySpec(startYear: int, endYear: int) returns (dates: string)
    requires 1 <= startYear
    ensures var ds := DayDates(startYear, LastYear(startYear, endYear)); AllValid(ds) && dates == Joined(ds)
  {
    ghost var listed;
    dates, listed := ListDays(startYear, endYear);
    ConsecutiveIsBoundaries(listed, startYear, LastYear(startYear, endYear));
  }

  /** The year loop. */
  method ListDays(startYear: int, endYear: int) returns (dates: string, ghost listed: seq<Date>)
    requires 1 <= startYear
    ensures Consecutive(listed, NewYear(startYear)) && dates == Joined(listed)
    ensures NewYear(startYear) + |listed| == NewYear(LastYear(startYear, endYear) + 1)
  {
    dates, listed := "", [];
    ghost var first := NewYear(startYear);
    var y := startYear;
    while y <= endYear
      invariant startYear <= y <= LastYear(startYear, endYear) + 1
      invariant Consecutive(listed, first) && dates == Joined(listed)
      invariant NewYear(y) == first + |listed|
    {
      dates, listed := AppendYear(dates, y, listed, first);
      y := y + 1;
    }
    assert y == LastYear(startYear, endYear) + 1;
  }

  // "month" and "year"

  ghost predicate Firsts(ds: seq<Date>, startYear: int) {
    AllValid(ds) && forall i | 0 <= i < |ds| :: ds[i] == Date(startYear + i / 12, i % 12 + 1, 1)
  }

  lemma FirstsSnoc(ds: seq<Date>, startYear: int, y: int, m: int)
    requires Firsts(ds, startYear) && 1 <= startYear <= y && 1 <= m <= 12 && |ds| == 12 * (y - startYear) + m - 1
    ensures Firsts(ds + [Date(y, m, 1)], startYear)
  {
    MonthIndex(y - startYear, m - 1);
  }

  /** The inner loop: the firsts of one year's months. */
  method AppendFirsts(dates: string, y: int, ghost before: seq<Date>, ghost startYear: int)
    returns (r: string, ghost after: seq<Date>)
    requires 1 <= startYear <= y && Firsts(before, startYear) && dates == Joined(before)
    requires |before| == 12 * (y - startYear)
    ensures Firsts(after, startYear) && r == Joined(after) && |after| == |before| + 12
  {
    r, after := dates, before;
    var m := 1;
    while m <= 12
      invariant 1 <= m <= 13
      invariant Firsts(after, startYear) && r == Joined(after) && |after| == |before| + m - 1
    {
      FirstsSnoc(after, startYear, y, m);
      r := AppendDate(r, Date(y, m, 1), after);
      after := after + [Date(y, m, 1)];
      m := m + 1;
    }
  }

  lemma FirstsAreBoundaries(ds: seq<Date>, startYear: int, endYear: int)
    requires 1 <= startYear <= endYear + 1 && Firsts(ds, startYear) && |ds| == 12 * (endYear + 1 - startYear)
    ensures ds == MonthDates(startYear, endYear)
  {
  }

  method MonthSpec(startYear: int, endYear: int) returns (dates: string)
    requires 1 <= startYear
    ensures var ds := MonthDates(startYear, LastYear(startYear, endYear)); AllValid(ds) && dates == Joined(ds)
  {
    ghost var listed;
    dates, listed := ListMonths(startYear, endYear);
    FirstsAreBoundaries(listed, startYear, LastYear(startYear, endYear));
  }

  /** The year loop. */
  method ListMonths(startYear: int, endYear: int) returns (dates: string, ghost listed: seq<Date>)
    requires 1 <= startYear
    ensures Firsts(listed, startYear) && dates == Joined(listed)
    ensures |listed| == 12 * (LastYear(startYear, endYear) + 1 - startYear)
  {
    dates, listed := "", [];
    var y := startYear;
    while y <= endYear
      invariant startYear <= y <= LastYear(startYear, endYear) + 1
      invariant Firsts(listed, startYear) && dates == Joined(listed) && |listed| == 12 * (y - startYear)
    {
      dates, listed := AppendFirsts(dates, y, listed, startYear);
      y := y + 1;
    }
    assert y == LastYear(startYear, endYear) + 1;
  }

  lemma MonthIndex(years: nat, months: nat)
    requires months < 12
    ensures (12 * years + months) / 12 == years && (12 * years + months) % 12 == months
  {
  }

  ghost predicate NewYears(ds: seq<Date>, startYear: int) {
    AllValid(ds) && forall i | 0 <= i < |ds| :: ds[i] == Date(startYear + i, 1, 1)
  }

  lemma NewYearsAreBoundaries(ds: seq<Date>, startYear: int, endYear: int)
    requires 1 <= startYear <= endYear + 1 && NewYears(ds, startYear) && |ds| == endYear + 1 - startYear
    ensures ds == YearDates(startYear, endYear)
  {
  }

  method YearSpec(startYear: int, endYear: int) returns (dates: string)
    requires 1 <= startYear
    ensures var ds := YearDates(startYear, LastYear(startYear, endYear)); AllValid(ds) && dates == Joined(ds)
  {
    ghost var listed;
    dates, listed := ListYears(startYear, endYear);
    NewYearsAreBoundaries(listed, startYear, LastYear(startYear, endYear));
  }

  /** The year loop. */
  method ListYears(startYear: int, endYear: int) returns (dates: string, ghost listed: seq<Date>)
    requires 1 <= startYear
    ensures NewYears(listed, startYear) && dates == Joined(listed)
    ensures |listed| == LastYear(startYear, endYear) + 1 - startYear
  {
    dates, listed := "", [];
    var y := startYear;
    while y <= endYear
      invariant startYear <= y <= LastYear(startYear, endYear) + 1
      invariant NewYears(listed, startYear) && dates == Joined(listed) && |listed| == y - startYear
    {
      dates := AppendDate(dates, Date(y, 1, 1), listed);
      listed := listed + [Date(y, 1, 1)];
      y := y + 1;
    }
    assert y == LastYear(startYear, endYear) + 1;
  }

  /** DolphinDBSchema::BuildRangeSpec. */
  method BuildRangeSpec(startYear: int, endYear: int, granularity: string) returns (spec: string)
    requires 1 <= startYear
    ensures AllValid(Boundaries(startYear, endYear, ParseGranularity(granularity)))
    ensures spec == "date([" + Joined(Boundaries(startYear, endYear, ParseGranularity(granularity))) + "])"
    ensures ReadSpec(spec) == Boundaries(startYear, endYear, ParseGranularity(granularity))
    ensures var last := if endYear < startYear then startYear - 1 else endYear;
            ReadSpec(spec) == if granularity == "day" then DayDates(startYear, last)
                              else if granularity == "month" then MonthDates(startYear, last)
                              else YearDates(startYear, last)
  {
    var dates: string;
    if granularity == "day" {
      dates := DaySpec(startYear, endYear);
    } else if granularity == "month" {
      dates := MonthSpec(startYear, endYear);
    } else {
      dates := YearSpec(startYear, endYear);
    }
    spec := "date([" + dates + "])";
    assert spec[6..|spec| - 2] == dates;
    ReadJoined(Boundaries(startYear, endYear, ParseGranularity(granularity)), dates);
  }

  // ---- Main results: which dates have a partition ----

  function Numbers(b: seq<Date>): (r: seq<int>)
    requires forall i | 0 <= i < |b| :: Valid(b[i])
    ensures |r| == |b|
  {
    seq(|b|, i requires 0 <= i < |b| => DayNumber(b[i]))
  }

  ghost predicate Increasing(b: seq<int>) {
    forall i: nat, j: nat | i < j < |b| :: b[i] < b[j]
  }

  /** `day` lies between boundary `i` and the next. */
  predicate InInterval(b: seq<int>, i: nat, day: int)
    requires i + 1 < |b|
  {
    b[i] <= day < b[i + 1]
  }

  ghost predicate Covered(b: seq<int>, day: int) {
    exists i: nat | i + 1 < |b| :: InInterval(b, i, day)
  }

  ghost predicate CoveredOnce(b: seq<int>, day: int) {
    Covered(b, day) &&
    forall i: nat, j: nat | i + 1 < |b| && j + 1 < |b| && InInterval(b, i, day) && InInterval(b, j, day) :: i == j
  }

  /** Between increasing boundaries, a day is in one interval exactly from the first to before the last. */
  lemma {:induction false} CoveredIff(b: seq<int>, day: int)
    requires b != [] && Increasing(b)
    ensures Covered(b, day) <==> b[0] <= day < b[|b| - 1]
    ensures Covered(b, day) ==> CoveredOnce(b, day)
    decreases |b|
  {
    if |b| > 1 {
      var init := b[..|b| - 1];
      CoveredIff(init, day);
      if Covered(init, day) {
        var i: nat :| i + 1 < |init| && InInterval(init, i, day);
        assert InInterval(b, i, day);
      }
      if b[|b| - 2] <= day < b[|b| - 1] {
        assert InInterval(b, |b| - 2, day);
      }
    }
  }

  lemma RangeCoveredIff(b: seq<int>, hi: int)
    requires b != [] && Increasing(b) && b[|b| - 1] >= b[0]
    ensures (forall day | b[0] <= day <= hi :: CoveredOnce(b, day)) <==> hi < b[0] || hi < b[|b| - 1]
  {
    forall day
      ensures CoveredOnce(b, day) <==> b[0] <= day < b[|b| - 1]
    {
      CoveredIff(b, day);
    }
    if b[0] <= hi && b[|b| - 1] <= hi {
      assert !CoveredOnce(b, hi);
    }
  }

  /** What a list of boundaries from `startYear` to `endYear` must look like. */
  ghost predicate Spans(ns: seq<int>, startYear: int, endYear: int) {
    && ns != [] && Increasing(ns)
    && ns[0] == NewYear(startYear)
    && NewYear(endYear) <= ns[|ns| - 1] < NewYear(endYear + 1)
  }

  lemma DayDateIs(startYear: int, endYear: int, i: nat)
    requires 1 <= startYear <= endYear && i < NewYear(endYear + 1) - NewYear(startYear)
    ensures |DayDates(startYear, endYear)| == NewYear(endYear + 1) - NewYear(startYear)
    ensures Valid(DayDates(startYear, endYear)[i])
    ensures DayNumber(DayDates(startYear, endYear)[i]) == NewYear(startYear) + i
  {
    NewYearsOrdered(startYear, endYear + 1);
    DaysRoundTrip(NewYear(startYear) + i);
  }

  lemma DayDatesConsecutive(startYear: int, endYear: int)
    requires 1 <= startYear <= endYear
    ensures Consecutive(DayDates(startYear, endYear), NewYear(startYear))
    ensures |DayDates(startYear, endYear)| == NewYear(endYear + 1) - NewYear(startYear) > 0
  {
    NewYearsIncrease(startYear, endYear + 1);
    NewYearsOrdered(startYear, endYear + 1);
    forall i: nat | i < |DayDates(startYear, endYear)|
      ensures Valid(DayDates(startYear, endYear)[i])
      ensures DayNumber(DayDates(startYear, endYear)[i]) == NewYear(startYear) + i
    {
      DayDateIs(startYear, endYear, i);
    }
  }

  lemma ConsecutiveSuccessors(b: seq<Date>, first: int, i: nat)
    requires Consecutive(b, first) && i + 1 < |b|
    ensures b[i + 1] == NextDate(b[i])
  {
    SuccessorIsNextDate(b[i], b[i + 1]);
  }

  lemma ConsecutiveSpans(b: seq<Date>, startYear: int, endYear: int)
    requires 1 <= startYear <= endYear && Consecutive(b, NewYear(startYear))
    requires |b| == NewYear(endYear + 1) - NewYear(startYear) > 0
    ensures Spans(Numbers(b), startYear, endYear)
  {
    NewYearsIncrease(endYear, endYear + 1);
    var ns := Numbers(b);
    forall i: nat | i < |ns|
      ensures ns[i] == NewYear(startYear) + i
    {
      assert ns[i] == DayNumber(b[i]);
    }
  }

  lemma MonthsInOrder(startYear: int, i: nat, j: nat, a: Date, b: Date)
    requires startYear >= 1 && i < j
    requires a == Date(startYear + i / 12, i % 12 + 1, 1) && b == Date(startYear + j / 12, j % 12 + 1, 1)
    ensures Valid(a) && Valid(b) && Earlier(a, b)
  {
  }

  lemma NumberAt(b: seq<Date>, i: nat)
    requires AllValid(b) && i < |b|
    ensures Numbers(b)[i] == DayNumber(b[i])
  {
  }

  lemma MonthNumbers(b: seq<Date>, startYear: int, i: nat, j: nat)
    requires startYear >= 1 && Firsts(b, startYear) && i < j < |b|
    ensures Numbers(b)[i] < Numbers(b)[j]
  {
    MonthsInOrder(startYear, i, j, b[i], b[j]);
    DayNumberMonotone(b[i], b[j]);
    NumberAt(b, i);
    NumberAt(b, j);
  }

  lemma LastMonth(b: seq<Date>, startYear: int, endYear: int)
    requires 1 <= startYear <= endYear && |b| == 12 * (endYear - startYear + 1) && Firsts(b, startYear)
    ensures NewYear(endYear) <= Numbers(b)[|b| - 1] < NewYear(endYear + 1)
  {
    MonthIndex(endYear - startYear, 11);
    assert b[|b| - 1] == Date(endYear, 12, 1);
    InItsYear(b[|b| - 1]);
  }

  lemma FirstMonth(b: seq<Date>, startYear: int)
    requires startYear >= 1 && b != [] && Firsts(b, startYear)
    ensures Numbers(b)[0] == NewYear(startYear)
  {
  }

  lemma MonthsIncreasing(b: seq<Date>, startYear: int)
    requires startYear >= 1 && Firsts(b, startYear)
    ensures Increasing(Numbers(b))
  {
    forall i: nat, j: nat | i < j < |b|
      ensures Numbers(b)[i] < Numbers(b)[j]
    {
      MonthNumbers(b, startYear, i, j);
    }
  }

  lemma MonthDatesSpan(b: seq<Date>, startYear: int, endYear: int)
    requires 1 <= startYear <= endYear && |b| == 12 * (endYear - startYear + 1) && Firsts(b, startYear)
    ensures Spans(Numbers(b), startYear, endYear)
  {
    MonthsIncreasing(b, startYear);
    FirstMonth(b, startYear);
    LastMonth(b, startYear, endYear);
  }

  lemma YearDatesSpan(b: seq<Date>, startYear: int, endYear: int)
    requires 1 <= startYear <= endYear && |b| == endYear - startYear + 1 && AllValid(b)
    requires forall i | 0 <= i < |b| :: b[i] == Date(startYear + i, 1, 1)
    ensures Spans(Numbers(b), startYear, endYear)
  {
    var ns := Numbers(b);
    forall i: nat, j: nat | i < j < |b|
      ensures ns[i] < ns[j]
    {
      DayNumberMonotone(b[i], b[j]);
    }
    InItsYear(b[|b| - 1]);
  }

  /**
   Boundaries increase strictly from the first 1 January into the last year; for "day" each is the
   calendar successor of the one before.
   */
  lemma BoundariesIncrease(startYear: int, endYear: int, g: Granularity)
    requires 1 <= startYear <= endYear
    ensures var b := Boundaries(startYear, endYear, g);
            && AllValid(b) && Spans(Numbers(b), startYear, endYear)
            && (g == Day ==> forall i: nat | i + 1 < |b| :: b[i + 1] == NextDate(b[i]))
  {
    match g
    case Day =>
      DayDatesConsecutive(startYear, endYear);
      var b := DayDates(startYear, endYear);
      ConsecutiveSpans(b, startYear, endYear);
      forall i: nat | i + 1 < |b|
        ensures b[i + 1] == NextDate(b[i])
      {
        ConsecutiveSuccessors(b, NewYear(startYear), i);
      }
    case Month => MonthDatesSpan(MonthDates(startYear, endYear), startYear, endYear);
    case Year => YearDatesSpan(YearDates(startYear, endYear), startYear, endYear);
  }

  lemma SpanCoversIff(ns: seq<int>, schemaYear: int, year: int)
    requires schemaYear >= 2 && year >= 1 && Spans(ns, schemaYear - 1, schemaYear + 5)
    ensures (forall day | NewYear(schemaYear - 1) <= day < NewYear(year + 5) :: CoveredOnce(ns, day))
            <==> year <= schemaYear
  {
    var hi := NewYear(year + 5) - 1;
    NewYearsIncrease(schemaYear - 1, schemaYear + 5);
    RangeCoveredIff(ns, hi);
    if year <= schemaYear {
      NewYearsIncrease(year + 5, schemaYear + 5);
    } else {
      NewYearsIncrease(schemaYear + 6, year + 5);
    }
  }

  /** The day numbers of the boundaries InitSchema asks for when the current (local) year is `schemaYear`. */
  ghost predicate IsWindow(ns: seq<int>, schemaYear: int, g: Granularity)
    requires schemaYear >= 2
  {
    var b := Boundaries(schemaYear - PARTITION_YEAR_BACK, schemaYear + PARTITION_YEAR_FORWARD, g);
    AllValid(b) && ns == Numbers(b)
  }

  lemma WindowSpans(ns: seq<int>, schemaYear: int, g: Granularity)
    requires schemaYear >= 2 && IsWindow(ns, schemaYear, g)
    ensures Spans(ns, schemaYear - 1, schemaYear + 5)
  {
    BoundariesSpan(ns, schemaYear - 1, schemaYear + 5, g);
  }

  lemma BoundariesSpan(ns: seq<int>, startYear: int, endYear: int, g: Granularity)
    requires 1 <= startYear <= endYear
    requires var b := Boundaries(startYear, endYear, g); AllValid(b) && ns == Numbers(b)
    ensures Spans(ns, startYear, endYear)
  {
    BoundariesIncrease(startYear, endYear, g);
  }

  /**
   A schema built in `schemaYear` has exactly one partition for every date from 1 January of the
   year before up to the last one the validator accepts on day `today`, if and only if the
   validator's year has not moved past the schema's.
   */
  lemma WindowCoversIff(ns: seq<int>, schemaYear: int, g: Granularity, today: nat)
    requires schemaYear >= 2 && IsWindow(ns, schemaYear, g)
    ensures (forall day | NewYear(schemaYear - 1) <= day <= MaxValidDate(today) :: CoveredOnce(ns, day))
            <==> CivilFromDays(today).year <= schemaYear
  {
    WindowSpans(ns, schemaYear, g);
    YearAtMost9999(today);
    SpanCoversIff(ns, schemaYear, CivilFromDays(today).year);
  }

  /** A date before that has no partition, also if the validator accepts it, as it does from 2000-01-01 on. */
  lemma OldDatesHaveNoPartition(ns: seq<int>, schemaYear: int, g: Granularity, today: nat, day: int)
    requires schemaYear >= 2 && IsWindow(ns, schemaYear, g) && MIN_VALID_DATE <= day < NewYear(schemaYear - 1)
    requires CivilFromDays(today).year >= schemaYear - 6
    ensures ValidTradeDate(day, today) && !Covered(ns, day)
  {
    WindowSpans(ns, schemaYear, g);
    BeforeTheWindow(ns, schemaYear, CivilFromDays(today).year, day);
  }

  lemma BeforeTheWindow(ns: seq<int>, schemaYear: int, year: int, day: int)
    requires 2 <= schemaYear <= year + 6 && Spans(ns, schemaYear - 1, schemaYear + 5) && day < NewYear(schemaYear - 1)
    ensures day < NewYear(year + 5) && !Covered(ns, day)
  {
    CoveredIff(ns, day);
    NewYearsOrdered(schemaYear - 1, year + 5);
  }

  /**
   Exactly when every date the validator accepts has its partition: the schema reaches back to 2000-01-01 and
   the validator's year has not moved past the schema's, or the validator accepts nothing.
   */
  lemma AcceptedDatesCoveredIff(ns: seq<int>, schemaYear: int, g: Granularity, today: nat)
    requires schemaYear >= 2 && IsWindow(ns, schemaYear, g)
    ensures (forall day | ValidTradeDate(day, today) :: CoveredOnce(ns, day))
            <==> || MaxValidDate(today) < MIN_VALID_DATE
                 || (NewYear(schemaYear - 1) <= MIN_VALID_DATE && CivilFromDays(today).year <= schemaYear)
  {
    var max := MaxValidDate(today);
    WindowSpans(ns, schemaYear, g);
    if max >= MIN_VALID_DATE {
      assert ValidTradeDate(MIN_VALID_DATE, today) && ValidTradeDate(max, today);
      CoveredIff(ns, MIN_VALID_DATE);
      LastDayCoveredIff(ns, schemaYear, today);
      if NewYear(schemaYear - 1) <= MIN_VALID_DATE {
        WindowCoversIff(ns, schemaYear, g, today);
      }
    }
  }

  lemma LastDayCoveredIff(ns: seq<int>, schemaYear: int, today: nat)
    requires schemaYear >= 2 && Spans(ns, schemaYear - 1, schemaYear + 5)
    ensures CoveredOnce(ns, MaxValidDate(today)) ==> CivilFromDays(today).year <= schemaYear
  {
    if CivilFromDays(today).year > schemaYear {
      PastTheWindow(ns, schemaYear, CivilFromDays(today).year);
    }
  }

  lemma PastTheWindow(ns: seq<int>, schemaYear: int, year: int)
    requires 2 <= schemaYear < year && Spans(ns, schemaYear - 1, schemaYear + 5)
    ensures !Covered(ns, NewYear(year + 5) - 1)
  {
    CoveredIff(ns, NewYear(year + 5) - 1);
    NewYearsOrdered(schemaYear + 6, year + 5);
  }
}
