/**
 Dates as the storage layer prints them: the file date of src/storage/engine/csv_writer.cpp
 (`full-date` of section 5.6 of RFC 3339), and the constants of src/storage/timestamp_util.h.
 */
module TradeDates {
  import opened Machine
  import opened Calendar
  import opened RingIndex

  const USECS_PER_DAY: nat := 86_400_000_000
  const MAX_VALID_USEC: nat := 4_102_444_800_000_000
  const MIN_VALID_DATE: int := 10957
  const PARTITION_YEAR_BACK: int := 1
  const PARTITION_YEAR_FORWARD: int := 5

  // ---- Decimal text ----

  function Digit(n: nat): char
    requires n < 10
  {
    ('0' as int + n) as char
  }

  /** Decimal digits of `n`, zero-padded to at least `width`. */
  function Padded(n: nat, width: nat): (r: string)
    ensures r != []
    decreases n, width
  {
    if n < 10 && width <= 1 then [Digit(n)]
    else Padded(n / 10, if width == 0 then 0 else width - 1) + [Digit(n % 10)]
  }

  function Value(s: string): int {
    if s == [] then 0 else 10 * Value(s[..|s| - 1]) + (s[|s| - 1] as int - '0' as int)
  }

  lemma {:induction false} PaddedValue(n: nat, width: nat)
    ensures Value(Padded(n, width)) == n
    decreases n, width
  {
    if n >= 10 || width > 1 {
      var p := Padded(n / 10, if width == 0 then 0 else width - 1);
      PaddedValue(n / 10, if width == 0 then 0 else width - 1);
      assert (p + [Digit(n % 10)])[..|p|] == p;
    }
  }

  lemma PaddedTwo(n: nat)
    requires n < 100
    ensures |Padded(n, 2)| == 2
  {
  }

  lemma PaddedFour(n: nat)
    requires n < 10000
    ensures |Padded(n, 4)| == 4
  {
    assert |Padded(n / 1000, 1)| == 1;
    assert |Padded(n / 100, 2)| == 2;
    assert |Padded(n / 10, 3)| == 3;
  }

  // ---- The date in a CSV file name ----

  function FullDate(d: Date): string
    requires d.year >= 0 && d.month >= 0 && d.day >= 0
  {
    Padded(d.year, 4) + "-" + Padded(d.month, 2) + "-" + Padded(d.day, 2)
  }

  function ParseFullDate(s: string): Date
    requires |s| == 10
  {
    Date(Value(s[..4]), Value(s[5..7]), Value(s[8..]))
  }

  function Clamp(x: int, lo: int, hi: int): int {
    if x < lo then lo else if x > hi then hi else x
  }

  /** CsvWriter::TimestampToDate with its clamps; its numbers are unsigned, so 0 bounds the year below. */
  function TimestampToDate(usec: nat): string {
    var c := CivilFromDays(usec / USECS_PER_DAY);
    FullDate(Date(Clamp(c.year, 0, 9999), Clamp(c.month, 1, 12), Clamp(c.day, 1, 31)))
  }

  lemma TwoDigits(n: nat)
    requires n < 100
    ensures Padded(n, 2) == [Digit(n / 10), Digit(n % 10)]
  {
    assert Padded(n / 10, 1) == [Digit(n / 10)];
  }

  lemma FourDigits(n: nat)
    requires n < 10000
    ensures Padded(n, 4) == [Digit(n / 1000), Digit(n / 100 % 10), Digit(n / 10 % 10), Digit(n % 10)]
  {
    assert n / 10 / 10 == n / 100 && n / 100 / 10 == n / 1000;
    assert Padded(n / 1000, 1) == [Digit(n / 1000)];
    assert Padded(n / 100, 2) == [Digit(n / 1000), Digit(n / 100 % 10)];
    assert Padded(n / 10, 3) == [Digit(n / 1000), Digit(n / 100 % 10), Digit(n / 10 % 10)];
  }

  /** The ten characters of a printed date: YYYY-MM-DD. */
  lemma FullDateCharacters(d: Date)
    requires 0 <= d.year <= 9999 && 0 <= d.month <= 12 && 0 <= d.day <= 31
    ensures FullDate(d) == [Digit(d.year / 1000), Digit(d.year / 100 % 10), Digit(d.year / 10 % 10), Digit(d.year % 10),
                            '-', Digit(d.month / 10), Digit(d.month % 10), '-', Digit(d.day / 10), Digit(d.day % 10)]
  {
    FourDigits(d.year);
    TwoDigits(d.month);
    TwoDigits(d.day);
  }

  /** The two limits of an exchange timestamp: its day is from 2000-01-01 on, and it is not after 2100-01-01. */
  lemma TimestampLimits()
    ensures CivilFromDays(MIN_VALID_DATE) == Date(2000, 1, 1)
    ensures MAX_VALID_USEC % USECS_PER_DAY == 0 && CivilFromDays(MAX_VALID_USEC / USECS_PER_DAY) == Date(2100, 1, 1)
  {
    assert DayNumber(Date(2000, 1, 1)) == MIN_VALID_DATE;
    assert DayNumber(Date(2100, 1, 1)) == MAX_VALID_USEC / USECS_PER_DAY;
    DateRoundTrip(Date(2000, 1, 1));
    DateRoundTrip(Date(2100, 1, 1));
  }

  lemma FullDateRoundTrip(d: Date)
    requires 0 <= d.year <= 9999 && 0 <= d.month <= 12 && 0 <= d.day <= 31
    ensures |FullDate(d)| == 10 && ParseFullDate(FullDate(d)) == d
    ensures FullDate(d)[4] == FullDate(d)[7] == '-'
  {
    PaddedFour(d.year);
    PaddedTwo(d.month);
    PaddedTwo(d.day);
    PaddedValue(d.year, 4);
    PaddedValue(d.month, 2);
    PaddedValue(d.day, 2);
    var s := FullDate(d);
    assert s[..4] == Padded(d.year, 4) && s[5..7] == Padded(d.month, 2) && s[8..] == Padded(d.day, 2);
  }

  /** 9999-12-31. */
  const LAST_DAY: int := 2932896

  lemma YearAtMost9999(days: nat)
    ensures CivilFromDays(days).year <= 9999 <==> days <= LAST_DAY
    ensures CivilFromDays(days).year >= 1970
  {
    var c := CivilFromDays(days);
    DaysRoundTrip(days);
    InItsYear(c);
    assert NewYear(10000) == LAST_DAY + 1;
    assert NewYear(1970) == 0;
    if c.year <= 9999 {
      NewYearsIncrease(c.year + 1, 10000);
    } else {
      NewYearsIncrease(10000, c.year);
    }
    if c.year < 1970 {
      NewYearsIncrease(c.year + 1, 1970);
    }
  }

  /** Only the year clamp can fire, and it does exactly after 9999-12-31. */
  lemma TimestampToDateIs(usec: nat)
    ensures var c := CivilFromDays(usec / USECS_PER_DAY);
            && TimestampToDate(usec) == FullDate(Date(if c.year <= 9999 then c.year else 9999, c.month, c.day))
            && (c.year <= 9999 <==> usec / USECS_PER_DAY <= LAST_DAY)
  {
    DaysRoundTrip(usec / USECS_PER_DAY);
    YearAtMost9999(usec / USECS_PER_DAY);
  }

  /**
   Up to the year 9999 the date printed for a timestamp, read back and handed to the other
   conversion, is the timestamp's day; and every date from 1970 to 9999 is printed for its own day.
   */
  lemma TimestampRoundTrip(usec: nat)
    requires usec / USECS_PER_DAY <= LAST_DAY
    ensures |TimestampToDate(usec)| == 10 && TimestampToDate(usec)[4] == TimestampToDate(usec)[7] == '-'
    ensures var d := ParseFullDate(TimestampToDate(usec));
            Valid(d) && UtcDaysFromEpoch(d.year, d.month, d.day) == usec / USECS_PER_DAY
  {
    var c := CivilFromDays(usec / USECS_PER_DAY);
    DaysRoundTrip(usec / USECS_PER_DAY);
    TimestampToDateIs(usec);
    YearAtMost9999(usec / USECS_PER_DAY);
    FullDateRoundTrip(c);
  }

  lemma DatePrintedForItsDay(d: Date, usec: nat)
    requires Valid(d) && 1970 <= d.year <= 9999 && usec / USECS_PER_DAY == DayNumber(d)
    ensures TimestampToDate(usec) == FullDate(d)
  {
    DateRoundTrip(d);
    TimestampToDateIs(usec);
  }

  lemma EraLaterLeap(year: int)
    ensures Leap(year + 400) == Leap(year)
  {
    SameRemainder(year, 4, 100);
    SameRemainder(year, 100, 4);
    SameRemainder(year, 400, 1);
  }

  lemma SameRemainder(a: int, m: int, k: int)
    requires m > 0 && k >= 0
    ensures (a + m * k) % m == a % m
  {
    if k > 0 {
      SameRemainder(a, m, k - 1);
      OneMore(a + m * (k - 1), m);
      assert a + m * (k - 1) + m == a + m * k;
    }
  }

  lemma OneMore(a: int, m: int)
    requires m > 0
    ensures (a + m) % m == a % m
  {
    var q, r := a / m, a % m;
    assert a + m == m * (q + 1) + r;
    var k := (a + m) / m - (q + 1);
    assert m * k == r - (a + m) % m;
    MulGap(m, k);
  }

  lemma EraLater(d: Date)
    requires Valid(d)
    ensures Valid(d.(year := d.year + 400)) && DayNumber(d.(year := d.year + 400)) == DayNumber(d) + ERA_DAYS
  {
    EraLaterLeap(d.year);
    var y := d.year - 1;
    assert Quotient(y + 400, 4) == Quotient(y, 4) + 100;
    assert Quotient(y + 400, 100) == Quotient(y, 100) + 4;
    assert Quotient(y + 400, 400) == Quotient(y, 400) + 1;
  }

  /** 400 years on from a day before the year 10399. */
  lemma EraForth(days: nat, c: Date) returns (n: nat)
    requires c == CivilFromDays(days) && c.year < 10399
    ensures n < 4_000_000 && CivilFromDays(n) == c.(year := c.year + 400)
  {
    DaysRoundTrip(days);
    assert DayNumber(Date(10399, 1, 1)) < 3_500_000;
    DayNumberMonotone(c, Date(10399, 1, 1));
    EraLater(c);
    DateRoundTrip(c.(year := c.year + 400));
    n := days + ERA_DAYS;
  }

  /** 400 years back from a later day. */
  lemma EraBack(days: nat, c: Date) returns (n: nat)
    requires c == CivilFromDays(days) && c.year >= 10399
    ensures n <= days && CivilFromDays(n) == c.(year := c.year - 400)
  {
    var d := c.(year := c.year - 400);
    DaysRoundTrip(days);
    YearAtMost9999(days);
    EraLaterLeap(d.year);
    EraLater(d);
    DateRoundTrip(d);
    n := days - ERA_DAYS;
  }

  lemma DayStart(n: nat)
    ensures n * USECS_PER_DAY / USECS_PER_DAY == n
  {
  }

  /** Two days of the year 9999 or later that differ in the year only have one printed date. */
  lemma SamePrint(a: nat, b: nat, c: Date, d: Date)
    requires c == CivilFromDays(a / USECS_PER_DAY) && d == CivilFromDays(b / USECS_PER_DAY)
    requires c.year >= 9999 && d.year >= 9999 && c.year != d.year && c.month == d.month && c.day == d.day
    ensures TimestampToDate(b) == TimestampToDate(a) && !SameDay(a, b)
  {
    TimestampToDateIs(a);
    TimestampToDateIs(b);
  }

  /** From the year 9999 on, the clamp gives two different days one name, both inside the 64-bit range. */
  lemma NamesCollide(a: nat) returns (b: nat)
    requires a < TWO_64 && CivilFromDays(a / USECS_PER_DAY).year >= 9999
    ensures b < TWO_64 && TimestampToDate(b) == TimestampToDate(a) && !SameDay(a, b)
  {
    var c := CivilFromDays(a / USECS_PER_DAY);
    var n: nat;
    if c.year < 10399 {
      n := EraForth(a / USECS_PER_DAY, c);
    } else {
      n := EraBack(a / USECS_PER_DAY, c);
    }
    DayStart(n);
    b := n * USECS_PER_DAY;
    SamePrint(a, b, c, CivilFromDays(n));
  }

  predicate SameDay(a: nat, b: nat) {
    a / USECS_PER_DAY == b / USECS_PER_DAY
  }

  /**
   RotateIfNeeded keys its files by the day number and names them by the printed date. Over all 64-bit timestamps a
   file name belongs to one day only exactly for the days before the year 9999.
   */
  lemma FileNameIsUniqueIff(a: nat)
    requires a < TWO_64
    ensures (forall b: nat | b < TWO_64 && TimestampToDate(b) == TimestampToDate(a) :: SameDay(a, b))
            <==> CivilFromDays(a / USECS_PER_DAY).year < 9999
  {
    if CivilFromDays(a / USECS_PER_DAY).year < 9999 {
      forall b: nat | b < TWO_64 && TimestampToDate(b) == TimestampToDate(a)
        ensures SameDay(a, b)
      {
        SameNameSameDay(a, b);
      }
    } else {
      var b := NamesCollide(a);
    }
  }

  lemma SameNameSameDay(a: nat, b: nat)
    requires TimestampToDate(b) == TimestampToDate(a) && CivilFromDays(a / USECS_PER_DAY).year < 9999
    ensures SameDay(a, b)
  {
    var c, d := CivilFromDays(a / USECS_PER_DAY), CivilFromDays(b / USECS_PER_DAY);
    TimestampToDateIs(a);
    TimestampToDateIs(b);
    DaysRoundTrip(a / USECS_PER_DAY);
    DaysRoundTrip(b / USECS_PER_DAY);
    YearAtMost9999(a / USECS_PER_DAY);
    YearAtMost9999(b / USECS_PER_DAY);
    FullDateRoundTrip(c);
    FullDateRoundTrip(Date(if d.year <= 9999 then d.year else 9999, d.month, d.day));
  }
}
