/** The proleptic Gregorian calendar and its ISO week dates, on UTC times. */
module Calendar {
  import opened Wrappers

  /** A moment in UTC, field by field. */
  datatype DateTime = DateTime(
    year: int, month: int, day: int, hour: int, minute: int, second: int, microsecond: int)

  const MAX_YEAR := 9999
  const SECONDS_PER_DAY := 86400
  const EPOCH_DAY := 719163   // 1970-01-01

  predicate IsLeap(y: int) {
    y % 4 == 0 && (y % 100 != 0 || y % 400 == 0)
  }

  function DaysBeforeYear(y: int): int {
    (y - 1) * 365 + (y - 1) / 4 - (y - 1) / 100 + (y - 1) / 400
  }

  function DaysInMonth(y: int, m: int): int {
    if m == 2 then (if IsLeap(y) then 29 else 28)
    else if m == 4 || m == 6 || m == 9 || m == 11 then 30 else 31
  }

  function DaysBeforeMonth(y: int, m: int): int
    requires 1 <= m <= 13
  {
    if m == 1 then 0 else DaysBeforeMonth(y, m - 1) + DaysInMonth(y, m - 1)
  }

  predicate ValidDate(y: int, m: int, d: int) {
    1 <= y <= MAX_YEAR && 1 <= m <= 12 && 1 <= d <= DaysInMonth(y, m)
  }

  /** Days counted from 0001-01-01, which is day 1 and a Monday. */
  function ToOrdinal(y: int, m: int, d: int): int
    requires 1 <= m <= 12
  {
    DaysBeforeYear(y) + DaysBeforeMonth(y, m) + d
  }

  predicate Valid(t: DateTime) {
    && ValidDate(t.year, t.month, t.day)
    && 0 <= t.hour < 24 && 0 <= t.minute < 60 && 0 <= t.second < 60 && 0 <= t.microsecond < 1000000
  }

  function Day(t: DateTime): int
    requires Valid(t)
  {
    ToOrdinal(t.year, t.month, t.day)
  }

  /** Seconds since the epoch, the fraction cut off. */
  function EpochSecond(t: DateTime): int
    requires Valid(t)
  {
    (Day(t) - EPOCH_DAY) * SECONDS_PER_DAY + t.hour * 3600 + t.minute * 60 + t.second
  }

  /** Position on the time line, in microseconds since the epoch. */
  function Instant(t: DateTime): int
    requires Valid(t)
  {
    EpochSecond(t) * 1000000 + t.microsecond
  }

  function StartOfDay(day: int): int {
    (day - EPOCH_DAY) * SECONDS_PER_DAY
  }

  // ----- what the numbers are -----

  /** Which dates there are, month by month. */
  lemma DatesByMonth(y: int, m: int, d: int)
    ensures ValidDate(y, m, d) <==>
      && 1 <= y <= 9999
      && (|| (m in {1, 3, 5, 7, 8, 10, 12} && 1 <= d <= 31)
          || (m in {4, 6, 9, 11} && 1 <= d <= 30)
          || (m == 2 && 1 <= d <= if y % 4 == 0 && (y % 100 != 0 || y % 400 == 0) then 29 else 28))
  {
  }

  /** The ordinal of a date in closed form. */
  lemma OrdinalClosed(y: int, m: int, d: int)
    requires ValidDate(y, m, d)
    ensures var leap := y % 4 == 0 && (y % 100 != 0 || y % 400 == 0);
            ToOrdinal(y, m, d)
            == 365 * (y - 1) + (y - 1) / 4 - (y - 1) / 100 + (y - 1) / 400
               + (367 * m - 362) / 12 + (if m <= 2 then 0 else if leap then -1 else -2) + d
  {
    MonthsClosed(y, m);
  }

  lemma {:induction false} MonthsClosed(y: int, m: int)
    requires 1 <= m <= 12
    ensures var leap := y % 4 == 0 && (y % 100 != 0 || y % 400 == 0);
            DaysBeforeMonth(y, m) == (367 * m - 362) / 12 + if m <= 2 then 0 else if leap then -1 else -2
  {
    if m > 1 { MonthsClosed(y, m - 1); }
  }

  /** The epoch is the first moment of 1970, and times count seconds and microseconds
      from there. */
  lemma EpochIs1970(t: DateTime)
    requires Valid(t)
    ensures EpochSecond(DateTime(1970, 1, 1, 0, 0, 0, 0)) == 0
    ensures EpochSecond(t)
         == ((24 * (ToOrdinal(t.year, t.month, t.day) - 719163) + t.hour) * 60 + t.minute) * 60 + t.second
    ensures Instant(t) == 1000000 * EpochSecond(t) + t.microsecond
  {
    MonthsClosed(1970, 1);
  }

  // ----- ordinals and dates -----

  lemma YearLength(y: int)
    requires y >= 1
    ensures DaysBeforeYear(y + 1) == DaysBeforeYear(y) + (if IsLeap(y) then 366 else 365)
  {
    Quotients(y);
    assert (y + 1) - 1 == y;
  }

  lemma Quotients(y: int)
    ensures y / 4 == (y - 1) / 4 + (if y % 4 == 0 then 1 else 0)
    ensures y / 100 == (y - 1) / 100 + (if y % 100 == 0 then 1 else 0)
    ensures y / 400 == (y - 1) / 400 + (if y % 400 == 0 then 1 else 0)
    ensures y % 100 == 0 ==> y % 4 == 0
    ensures y % 400 == 0 ==> y % 100 == 0
  {
  }

  lemma {:induction false} YearsInOrder(y: int, z: int)
    requires 1 <= y <= z
    ensures DaysBeforeYear(z) >= DaysBeforeYear(y) + 365 * (z - y)
    decreases z
  {
    if y < z {
      YearsInOrder(y, z - 1);
      YearLength(z - 1);
      hide DaysBeforeYear;
    }
  }

  lemma MonthTable(y: int)
    ensures DaysBeforeMonth(y, 13) == if IsLeap(y) then 366 else 365
  {
    MonthsInOrder(y, 1, 13);
    var f := if IsLeap(y) then 1 else 0;
    assert DaysBeforeMonth(y, 3) == 59 + f;
    assert DaysBeforeMonth(y, 5) == 120 + f;
    assert DaysBeforeMonth(y, 7) == 181 + f;
    assert DaysBeforeMonth(y, 9) == 243 + f;
    assert DaysBeforeMonth(y, 11) == 304 + f;
  }

  lemma {:induction false} MonthsInOrder(y: int, m: int, n: int)
    requires 1 <= m < n <= 13
    ensures DaysBeforeMonth(y, m) + DaysInMonth(y, m) <= DaysBeforeMonth(y, n)
    ensures DaysBeforeMonth(y, m) >= 0
    decreases n
  {
    MonthNonNegative(y, m);
    if m + 1 < n {
      MonthsInOrder(y, m, n - 1);
    }
  }

  lemma {:induction false} MonthNonNegative(y: int, m: int)
    requires 1 <= m <= 13
    ensures DaysBeforeMonth(y, m) >= 0
  {
    if m > 1 {
      MonthNonNegative(y, m - 1);
    }
  }

  /** A date lies inside its year. */
  lemma DateInYear(y: int, m: int, d: int)
    requires ValidDate(y, m, d)
    ensures DaysBeforeYear(y) < ToOrdinal(y, m, d) <= DaysBeforeYear(y + 1)
  {
    MonthNonNegative(y, m);
    MonthsInOrder(y, m, 13);
    MonthTable(y);
    YearLength(y);
  }

  ghost predicate DateBefore(y: int, m: int, d: int, y': int, m': int, d': int) {
    y < y' || (y == y' && (m < m' || (m == m' && d < d')))
  }

  /** Ordinals follow the order of dates, and tell them apart. */
  lemma OrdinalOrder(y: int, m: int, d: int, y': int, m': int, d': int)
    requires ValidDate(y, m, d) && ValidDate(y', m', d')
    ensures ToOrdinal(y, m, d) < ToOrdinal(y', m', d') <==> DateBefore(y, m, d, y', m', d')
    ensures ToOrdinal(y, m, d) == ToOrdinal(y', m', d') <==> (y, m, d) == (y', m', d')
  {
    hide DaysBeforeYear, DaysBeforeMonth, DaysInMonth;
    DateInYear(y, m, d);
    DateInYear(y', m', d');
    if y < y' {
      YearsInOrder(y + 1, y');
    } else if y' < y {
      YearsInOrder(y' + 1, y);
    } else if m < m' {
      MonthsInOrder(y, m, m');
    } else if m' < m {
      MonthsInOrder(y, m', m);
    }
  }

  /** The date of an ordinal: search the year, then the month. */
  function YearOf(n: int, y: int): (r: int)
    requires 1 <= y && DaysBeforeYear(y) < n
    ensures y <= r && DaysBeforeYear(r) < n <= DaysBeforeYear(r + 1)
    decreases n - DaysBeforeYear(y)
  {
    YearLength(y);
    if n <= DaysBeforeYear(y + 1) then y else YearOf(n, y + 1)
  }

  function MonthOf(y: int, k: int, m: int): (r: int)
    requires 1 <= m <= 12 && DaysBeforeMonth(y, m) < k <= DaysBeforeMonth(y, 13)
    ensures m <= r <= 12 && DaysBeforeMonth(y, r) < k <= DaysBeforeMonth(y, r) + DaysInMonth(y, r)
    decreases 12 - m
  {
    if k <= DaysBeforeMonth(y, m + 1) then m else MonthOf(y, k, m + 1)
  }

  const MAX_ORDINAL := 3652059   // 9999-12-31

  lemma LastYearEnds()
    ensures DaysBeforeYear(MAX_YEAR + 1) == MAX_ORDINAL
  {
  }

  /** Midnight of the day with this ordinal. */
  function FromOrdinal(n: int): (t: DateTime)
    requires 1 <= n <= MAX_ORDINAL
    ensures Valid(t) && Day(t) == n
    ensures t.hour == t.minute == t.second == t.microsecond == 0
  {
    LastYearEnds();
    var y := YearOf(n, 1);
    assert y <= MAX_YEAR by {
      if y > MAX_YEAR { YearsInOrder(MAX_YEAR + 1, y); }
    }
    YearLength(y);
    MonthTable(y);
    var k := n - DaysBeforeYear(y);
    var m := MonthOf(y, k, 1);
    DateTime(y, m, k - DaysBeforeMonth(y, m), 0, 0, 0, 0)
  }

  // ----- ISO weeks -----

  /** 0 is Monday. */
  function Weekday(day: int): int {
    (day + 6) % 7
  }

  function MondayOf(day: int): int {
    day - Weekday(day)
  }

  /** The Monday of the week with number 1 in ISO year `y`. */
  function IsoWeek1Monday(y: int): int {
    var firstDay := ToOrdinal(y, 1, 1);
    var monday := firstDay - Weekday(firstDay);
    if Weekday(firstDay) > 3 then monday + 7 else monday
  }

  /** ISO year, week and weekday (1 is Monday) of day `n`, which lies in year `y`. */
  function IsoDate(y: int, n: int): (int, int, int) {
    var monday := IsoWeek1Monday(y);
    var week := (n - monday) / 7;
    var weekday := (n - monday) % 7 + 1;
    if week < 0 then
      var earlier := IsoWeek1Monday(y - 1);
      (y - 1, (n - earlier) / 7 + 1, (n - earlier) % 7 + 1)
    else if week >= 52 && n >= IsoWeek1Monday(y + 1) then
      (y + 1, 1, weekday)
    else
      (y, week + 1, weekday)
  }

  function IsoCalendar(t: DateTime): (int, int, int)
    requires Valid(t)
  {
    IsoDate(t.year, Day(t))
  }

  /** The Monday of an ISO week; None where the library raises. */
  function FromIsoCalendarMonday(y: int, week: int): (t: Option<DateTime>)
    ensures t.Some? ==> Valid(t.value) && Day(t.value) == IsoWeek1Monday(y) + (week - 1) * 7
  {
    if !(1 <= y <= MAX_YEAR) then None
    else if !(1 <= week <= 53) then None
    else if week == 53 && !LongYear(y) then None
    else
      var n := IsoWeek1Monday(y) + (week - 1) * 7;
      if 1 <= n <= MAX_ORDINAL then Some(FromOrdinal(n)) else None
  }

  /** The library's test for a year of 53 weeks. */
  predicate LongYear(y: int) {
    var first := ToOrdinal(y, 1, 1) % 7;
    first == 4 || (first == 3 && IsLeap(y))
  }

  /** The first day of 1970 was a Thursday, and weekdays follow each other. */
  lemma WeekdayIs(n: int)
    ensures Weekday(n) == (n - 719163 + 3) % 7 && 0 <= n - MondayOf(n) == Weekday(n) < 7
  {
  }

  /** A week as its Monday plus a weekday. */
  lemma WeekOfDay(n: int)
    ensures n - 6 <= MondayOf(n) <= n
    ensures Weekday(MondayOf(n)) == 0 && MondayOf(MondayOf(n)) == MondayOf(n)
    ensures MondayOf(n) == 7 * ((n + 6) / 7) - 6
  {
    var q := (n + 6) / 7;
    assert n + 6 == 7 * q + Weekday(n);
  }

  lemma Week1OfFirstDay(f: int)
    ensures var t := (if Weekday(f) > 3 then f - Weekday(f) + 7 else f - Weekday(f)) + 3;
            Weekday(t) == 3 && f <= t <= f + 6
  {
    var q := (f + 6) / 7;
    assert f + 6 == 7 * q + Weekday(f);
    assert (7 * q + 3) % 7 == 3;
    assert (7 * (q + 1) + 3) % 7 == 3;
  }

  lemma FirstThursday(y: int)
    ensures var t := IsoWeek1Monday(y) + 3;
            Weekday(t) == 3 && DaysBeforeYear(y) < t <= DaysBeforeYear(y) + 7
  {
    Week1OfFirstDay(ToOrdinal(y, 1, 1));
    hide DaysBeforeYear, Weekday;
  }

  /** Days, Thursdays and a year whose first Thursday is `monday + 3`. */
  lemma ThursdayCount(n: int, before: int, monday: int)
    requires Weekday(monday + 3) == 3 && before < monday + 3 <= before + 7
    ensures n >= monday <==> MondayOf(n) + 3 > before
    ensures (n - monday) / 7 == (MondayOf(n) + 3 - before - 1) / 7
    ensures (n - monday) % 7 == Weekday(n)
    ensures MondayOf(n) == monday + (n - monday) / 7 * 7
  {
    var q := (n - monday) / 7;
    var r := (n - monday) % 7;
    assert n == monday + 7 * q + r;
    assert (monday + 6) % 7 == 0;
    assert (n + 6) % 7 == r;
    assert MondayOf(n) == monday + 7 * q;
  }

  /** The link between a day and a year's weeks. */
  ghost predicate WeeksFrom(n: int, y: int) {
    var before, monday := DaysBeforeYear(y), IsoWeek1Monday(y);
    && (n >= monday <==> MondayOf(n) + 3 > before)
    && (n - monday) / 7 == (MondayOf(n) + 3 - before - 1) / 7
    && (n - monday) % 7 == Weekday(n)
    && MondayOf(n) == monday + (n - monday) / 7 * 7
  }

  lemma WeeksFromYear(n: int, y: int)
    ensures WeeksFrom(n, y)
  {
    FirstThursday(y);
    hide DaysBeforeYear, IsoWeek1Monday, Weekday, MondayOf;
    ThursdayCount(n, DaysBeforeYear(y), IsoWeek1Monday(y));
  }

  /** What the guards of the library's case split say. */
  lemma IsoGuards(y: int, n: int)
    requires DaysBeforeYear(y + 1) >= DaysBeforeYear(y) + 365
    ensures (n - IsoWeek1Monday(y)) / 7 < 0 <==> MondayOf(n) + 3 <= DaysBeforeYear(y)
    ensures (n - IsoWeek1Monday(y)) / 7 >= 52 && n >= IsoWeek1Monday(y + 1)
       <==> MondayOf(n) + 3 > DaysBeforeYear(y + 1)
  {
    WeeksFromYear(n, y);
    WeeksFromYear(n, y + 1);
    hide DaysBeforeYear, IsoWeek1Monday, MondayOf, Weekday;
  }

  lemma IsoBranches(y: int, n: int)
    requires DaysBeforeYear(y + 1) >= DaysBeforeYear(y) + 365
    ensures var thursday, (year, week, _) := MondayOf(n) + 3, IsoDate(y, n);
            && year == (if thursday <= DaysBeforeYear(y) then y - 1
                        else if thursday > DaysBeforeYear(y + 1) then y + 1 else y)
            && week == if thursday > DaysBeforeYear(y + 1) then 1 else (n - IsoWeek1Monday(year)) / 7 + 1
  {
    IsoGuards(y, n);
    hide DaysBeforeYear, IsoWeek1Monday, MondayOf;
  }

  lemma YearSpans(y: int)
    requires 1 <= y
    ensures 365 <= DaysBeforeYear(y) - DaysBeforeYear(y - 1) <= 366
    ensures 365 <= DaysBeforeYear(y + 1) - DaysBeforeYear(y) <= 366
  {
    if y > 1 { YearLength(y - 1); }
    YearLength(y);
  }

  /** The case split picks the year the Thursday lies in. */
  lemma IsoYear(y: int, n: int)
    requires 1 <= y && DaysBeforeYear(y) < n <= DaysBeforeYear(y + 1)
    ensures var (year, week, _) := IsoDate(y, n);
            && DaysBeforeYear(year) < MondayOf(n) + 3 <= DaysBeforeYear(year + 1)
            && DaysBeforeYear(year + 1) <= DaysBeforeYear(year) + 366
            && week == (n - IsoWeek1Monday(year)) / 7 + 1
  {
    YearSpans(y);
    YearSpans(y + 1);
    WeekOfDay(n);
    hide DaysBeforeYear, IsoWeek1Monday, MondayOf, Weekday, IsoDate;
    IsoBranches(y, n);
    if MondayOf(n) + 3 > DaysBeforeYear(y + 1) {
      WeeksFromYear(n, y + 1);
    }
  }

  lemma IsoWeekday(y: int, n: int)
    ensures IsoDate(y, n).2 == Weekday(n) + 1
  {
    WeeksFromYear(n, y - 1);
    WeeksFromYear(n, y);
    hide DaysBeforeYear, IsoWeek1Monday, MondayOf, Weekday;
  }

  /** The week-date rule: a week belongs to the year its Thursday is in, and is
      numbered by counting that year's Thursdays. */
  lemma WeekDateRule(t: DateTime)
    requires Valid(t)
    ensures var (year, week, weekday) := IsoCalendar(t);
            var thursday := MondayOf(Day(t)) + 3;
            && DaysBeforeYear(year) < thursday <= DaysBeforeYear(year + 1)
            && week == (thursday - DaysBeforeYear(year) - 1) / 7 + 1
            && weekday == Weekday(Day(t)) + 1
            && 1 <= week <= 53
            && MondayOf(Day(t)) == IsoWeek1Monday(year) + (week - 1) * 7
  {
    DateInYear(t.year, t.month, t.day);
    IsoYear(t.year, Day(t));
    IsoWeekday(t.year, Day(t));
    hide DaysBeforeYear, IsoWeek1Monday, MondayOf, Weekday, Day, IsoDate;
    WeeksFromYear(Day(t), IsoCalendar(t).0);
  }

  /** The same in plain numbers: with the days since 1970, of which the first was a
      Thursday, the year is the one the week's Thursday lies in, and the week is the
      number of that year's Thursdays up to it. */
  lemma WeekInNumbers(t: DateTime)
    requires Valid(t)
    ensures var (year, week, weekday) := IsoCalendar(t);
            var days := EpochSecond(t) / 86400;
            var thursday := days - (days + 3) % 7 + 3;
            var first := 365 * (year - 1) + (year - 1) / 4 - (year - 1) / 100 + (year - 1) / 400 + 1 - 719163;
            var next := 365 * year + year / 4 - year / 100 + year / 400 + 1 - 719163;
            && first <= thursday < next
            && week == (thursday - first) / 7 + 1
            && weekday == (days + 3) % 7 + 1
  {
    WeekDateRule(t);
    EpochIs1970(t);
    WeekdayIs(Day(t));
    var (year, week, weekday) := IsoCalendar(t);
    assert EpochSecond(t) / 86400 == Day(t) - 719163;
    hide IsoCalendar, Day, Weekday, IsoWeek1Monday, EpochSecond;
    assert (year + 1) - 1 == year;
  }
}
