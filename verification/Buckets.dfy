/** Bucket keys, bucket scores and the time inferred back from a key. */
module Buckets {
  import opened Wrappers
  import opened Calendar

  datatype Unit = Hour | Day | Week | Month

  // ----- fixed-width numbers and the order of strings -----

  /** The order of strings that sorting and sorted sets use. */
  predicate LexLess(a: string, b: string) {
    b != [] && (a == [] || a[0] < b[0] || (a[0] == b[0] && LexLess(a[1..], b[1..])))
  }

  function Pow10(w: nat): (p: nat)
    ensures p >= 1
  {
    if w == 0 then 1 else 10 * Pow10(w - 1)
  }

  function Digit(d: int): char
    requires 0 <= d < 10
  {
    ('0' as int + d) as char
  }

  /** `n` in `w` decimal digits, with leading zeros. */
  function Pad(n: nat, w: nat): (s: string)
    requires n < Pow10(w)
    ensures |s| == w
  {
    if w == 0 then "" else Pad(n / 10, w - 1) + [Digit(n % 10)]
  }

  function ParseDigits(s: string): (n: Option<nat>)
    ensures n.Some? ==> n.value < Pow10(|s|)
  {
    if s == "" then Some(0) else
    var last := s[|s| - 1];
    match ParseDigits(s[..|s| - 1])
    case None => None
    case Some(high) =>
      if '0' <= last <= '9' then Some(10 * high + (last as int - '0' as int)) else None
  }

  lemma {:induction false} ParsePad(n: nat, w: nat)
    requires n < Pow10(w)
    ensures ParseDigits(Pad(n, w)) == Some(n)
  {
    if w > 0 {
      ParsePad(n / 10, w - 1);
      assert Pad(n, w)[..w - 1] == Pad(n / 10, w - 1);
    }
  }

  /** Strings of one length compare part by part. */
  lemma {:induction false} LexConcat(a: string, b: string, c: string, d: string)
    requires |a| == |c|
    ensures LexLess(a + b, c + d) <==> LexLess(a, c) || (a == c && LexLess(b, d))
  {
    if a == [] {
      assert a + b == b && c + d == d;
    } else {
      assert (a + b)[1..] == a[1..] + b && (c + d)[1..] == c[1..] + d;
      assert a == [a[0]] + a[1..] && c == [c[0]] + c[1..];
      LexConcat(a[1..], b, c[1..], d);
    }
  }

  lemma LexOne(x: char, y: char)
    ensures LexLess([x], [y]) <==> x < y
  {
    assert [x][1..] == [] && [y][1..] == [];
  }

  /** Padded numbers sort as numbers, and no two share a string. */
  lemma {:induction false} PadOrder(n: nat, m: nat, w: nat)
    requires n < Pow10(w) && m < Pow10(w)
    ensures LexLess(Pad(n, w), Pad(m, w)) <==> n < m
    ensures Pad(n, w) == Pad(m, w) <==> n == m
  {
    ParsePad(n, w);
    ParsePad(m, w);
    if w > 0 {
      PadOrder(n / 10, m / 10, w - 1);
      LexConcat(Pad(n / 10, w - 1), [Digit(n % 10)], Pad(m / 10, w - 1), [Digit(m % 10)]);
      LexOne(Digit(n % 10), Digit(m % 10));
    }
  }

  lemma {:induction false} LexIrreflexive(a: string)
    ensures !LexLess(a, a)
  {
    if a != [] { LexIrreflexive(a[1..]); }
  }

  /** A separator between two parts changes nothing. */
  lemma LexSeparated(a: string, sep: string, b: string, c: string, d: string)
    requires |a| == |c|
    ensures LexLess(a + sep + b, c + sep + d) <==> LexLess(a, c) || (a == c && LexLess(b, d))
    ensures |b| == |d| ==> (a + sep + b == c + sep + d <==> a == c && b == d)
  {
    assert a + sep + b == a + (sep + b) && c + sep + d == c + (sep + d);
    LexConcat(a, sep + b, c, sep + d);
    LexConcat(sep, b, sep, d);
    LexIrreflexive(sep);
    if a + sep + b == c + sep + d && |b| == |d| {
      assert a == (a + sep + b)[..|a|] && c == (c + sep + d)[..|a|];
      assert b == (a + sep + b)[|a| + |sep|..] && d == (c + sep + d)[|a| + |sep|..];
    }
  }

  // ----- keys -----

  lemma Powers()
    ensures Pow10(2) == 100 && Pow10(4) == 10000
  {
    assert Pow10(1) == 10;
    assert Pow10(3) == 10 * Pow10(2);
  }

  function MonthKey(y: int, m: int): (k: string)
    requires 0 <= y <= 9999 && 0 <= m <= 99
    ensures |k| == 7
  {
    Powers();
    Pad(y, 4) + "-" + Pad(m, 2)
  }

  function DayKey(y: int, m: int, d: int): (k: string)
    requires 0 <= y <= 9999 && 0 <= m <= 99 && 0 <= d <= 99
    ensures |k| == 10
  {
    Powers();
    MonthKey(y, m) + "-" + Pad(d, 2)
  }

  function HourKey(y: int, m: int, d: int, h: int): (k: string)
    requires 0 <= y <= 9999 && 0 <= m <= 99 && 0 <= d <= 99 && 0 <= h <= 99
    ensures |k| == 13
  {
    Powers();
    DayKey(y, m, d) + "T" + Pad(h, 2)
  }

  function WeekKey(y: int, w: int): (k: string)
    requires 0 <= y <= 9999 && 0 <= w <= 99
    ensures |k| == 8
  {
    Powers();
    Pad(y, 4) + "-W" + Pad(w, 2)
  }

  lemma DayRange(t: DateTime)
    requires Valid(t)
    ensures 1 <= Calendar.Day(t) <= MAX_ORDINAL
  {
    DateInYear(t.year, t.month, t.day);
    LastYearEnds();
    YearsInOrder(1, t.year);
    YearsInOrder(t.year + 1, MAX_YEAR + 1);
  }

  lemma IsoYearNear(t: DateTime)
    requires Valid(t)
    ensures t.year - 1 <= IsoCalendar(t).0 <= t.year + 1
  {
  }

  /** The ISO year of a valid date is a valid year. */
  lemma IsoYearRange(t: DateTime)
    requires Valid(t)
    ensures 1 <= IsoCalendar(t).0 <= MAX_YEAR
  {
    hide IsoDate, IsoCalendar, Calendar.Day;
    IsoYearNear(t);
    WeekDateRule(t);
    DayRange(t);
    WeekOfDay(Calendar.Day(t));
    hide MondayOf;
    LastYearEnds();
    assert DaysBeforeYear(1) == 0;
    hide DaysBeforeYear;
  }

  /** A 53rd week passes the library's test for long years. */
  lemma Week53(n: int, year: int)
    requires 1 <= year
    requires var thursday := MondayOf(n) + 3;
             && (thursday - DaysBeforeYear(year) - 1) / 7 == 52
             && thursday <= DaysBeforeYear(year + 1)
    ensures LongYear(year)
  {
    YearLength(year);
    WeekOfDay(n);
    assert ToOrdinal(year, 1, 1) == DaysBeforeYear(year) + 1;
    hide DaysBeforeYear, ToOrdinal, MondayOf, IsLeap;
    LongYearDays(ToOrdinal(year, 1, 1), (n + 6) / 7, IsLeap(year));
  }

  lemma LongYearDays(first: int, q: int, leap: bool)
    requires (7 * q - 3 - first) / 7 == 52
    requires 7 * q - 3 < first + (if leap then 366 else 365)
    ensures first % 7 == 4 || (first % 7 == 3 && leap)
  {
    if 7 * q - 3 == first + 364 {
      assert first == 7 * (q - 53) + 4;
    } else {
      assert first == 7 * (q - 53) + 3;
    }
  }

  /** Every valid date has an ISO week the library can turn back into its Monday. */
  lemma IsoWeekMonday(t: DateTime)
    requires Valid(t)
    ensures var (year, week, _) := IsoCalendar(t);
            && 1 <= year <= MAX_YEAR && 1 <= week <= 53
            && FromIsoCalendarMonday(year, week).Some?
            && Calendar.Day(FromIsoCalendarMonday(year, week).value) == MondayOf(Calendar.Day(t))
  {
    var (year, week, _) := IsoCalendar(t);
    var n := Calendar.Day(t);
    hide *;
    IsoYearRange(t);
    WeekDateRule(t);
    WeekOfDay(n);
    if week == 53 {
      Week53(n, year);
    }
    MondayRange(t);
    FromIsoSucceeds(year, week);
  }

  lemma MondayRange(t: DateTime)
    requires Valid(t)
    ensures 1 <= MondayOf(Calendar.Day(t)) <= MAX_ORDINAL
  {
    DayRange(t);
    WeekOfDay(Calendar.Day(t));
  }

  lemma FromIsoSucceeds(y: int, week: int)
    requires 1 <= y <= MAX_YEAR && 1 <= week <= 53 && (week == 53 ==> LongYear(y))
    requires 1 <= IsoWeek1Monday(y) + (week - 1) * 7 <= MAX_ORDINAL
    ensures FromIsoCalendarMonday(y, week).Some?
  {
  }

  /** The year formats to four digits; the week format pads, so it needs no bound. */
  predicate Formats(t: DateTime, u: Unit) {
    Valid(t) && (u.Week? || t.year >= 1000)
  }

  function BucketKey(t: DateTime, u: Unit): string
    requires Formats(t, u)
  {
    match u
    case Hour => HourKey(t.year, t.month, t.day, t.hour)
    case Day => DayKey(t.year, t.month, t.day)
    case Week => IsoWeekMonday(t); WeekKey(IsoCalendar(t).0, IsoCalendar(t).1)
    case Month => MonthKey(t.year, t.month)
  }

  /** Epoch seconds of the start of the bucket a time falls into. */
  function BucketScore(t: DateTime, u: Unit): int
    requires Valid(t)
  {
    match u
    case Hour => EpochSecond(DateTime(t.year, t.month, t.day, t.hour, 0, 0, 0))
    case Day => EpochSecond(DateTime(t.year, t.month, t.day, 0, 0, 0, 0))
    case Week =>
      IsoWeekMonday(t);
      EpochSecond(FromIsoCalendarMonday(IsoCalendar(t).0, IsoCalendar(t).1).value)
    case Month => EpochSecond(DateTime(t.year, t.month, 1, 0, 0, 0, 0))
  }

  // ----- scores -----

  function Floor(n: int, step: int): int
    requires step > 0
  {
    n / step * step
  }

  lemma FloorFacts(n: int, m: int, step: int)
    requires (step == 3600 || step == SECONDS_PER_DAY) && n <= m
    ensures Floor(n, step) <= n && Floor(n, step) <= Floor(m, step)
  {
    if step == 3600 {
      assert n / 3600 <= m / 3600;
    } else {
      assert n / 86400 <= m / 86400;
    }
  }

  lemma HourForm(t: DateTime)
    requires Valid(t)
    ensures BucketScore(t, Hour) == Floor(EpochSecond(t), 3600)
  {
    var start := 24 * (Calendar.Day(t) - EPOCH_DAY) + t.hour;
    assert BucketScore(t, Hour) == 3600 * start;
    assert EpochSecond(t) == 3600 * start + (t.minute * 60 + t.second);
  }

  lemma DayForm(t: DateTime)
    requires Valid(t)
    ensures BucketScore(t, Unit.Day) == StartOfDay(Calendar.Day(t)) == Floor(EpochSecond(t), SECONDS_PER_DAY)
  {
    var start := Calendar.Day(t) - EPOCH_DAY;
    assert EpochSecond(t) == SECONDS_PER_DAY * start + (t.hour * 3600 + t.minute * 60 + t.second);
  }

  lemma WeekForm(t: DateTime)
    requires Valid(t)
    ensures BucketScore(t, Week) == StartOfDay(MondayOf(Calendar.Day(t)))
  {
    IsoWeekMonday(t);
  }

  lemma MonthForm(t: DateTime)
    requires Valid(t)
    ensures BucketScore(t, Month) == StartOfDay(ToOrdinal(t.year, t.month, 1))
  {
  }

  lemma WeekSteps(day: int, day': int)
    requires day <= day'
    ensures MondayOf(day) <= day && MondayOf(day) <= MondayOf(day')
  {
    WeekOfDay(day);
    WeekOfDay(day');
    hide MondayOf;
  }

  lemma ScoreSteps(t: DateTime, t': DateTime, u: Unit)
    requires Valid(t) && Valid(t') && EpochSecond(t) <= EpochSecond(t') && Calendar.Day(t) <= Calendar.Day(t')
    ensures BucketScore(t, u) <= EpochSecond(t)
    ensures BucketScore(t, u) <= BucketScore(t', u)
  {
    assert t'.month <= 12 && t.month <= 12;
    hide *;
    DayForm(t);
    DayForm(t');
    FloorFacts(EpochSecond(t), EpochSecond(t'), SECONDS_PER_DAY);
    match u
    case Hour =>
      HourForm(t);
      HourForm(t');
      FloorFacts(EpochSecond(t), EpochSecond(t'), 3600);
    case Day =>
    case Week =>
      WeekForm(t);
      WeekForm(t');
      WeekSteps(Calendar.Day(t), Calendar.Day(t'));
      DayStarts(MondayOf(Calendar.Day(t)), Calendar.Day(t));
      DayStarts(MondayOf(Calendar.Day(t)), MondayOf(Calendar.Day(t')));
    case Month =>
      MonthForm(t);
      MonthForm(t');
      MonthsFollow(t, t');
      DayStarts(ToOrdinal(t.year, t.month, 1), Calendar.Day(t));
      DayStarts(ToOrdinal(t.year, t.month, 1), ToOrdinal(t'.year, t'.month, 1));
  }

  lemma DayStarts(day: int, day': int)
    requires day <= day'
    ensures StartOfDay(day) <= StartOfDay(day')
  {
  }

  /** A bucket starts at or before the times in it, and buckets follow time. */
  lemma ScoreMonotone(t: DateTime, t': DateTime, u: Unit)
    requires Valid(t) && Valid(t') && Instant(t) <= Instant(t')
    ensures BucketScore(t, u) * 1000000 <= Instant(t)
    ensures BucketScore(t, u) <= BucketScore(t', u)
  {
    assert EpochSecond(t) <= EpochSecond(t') && Calendar.Day(t) <= Calendar.Day(t') by {
      hide ToOrdinal;
    }
    hide BucketScore, EpochSecond, Calendar.Day;
    ScoreSteps(t, t', u);
  }

  lemma MonthsFollow(t: DateTime, t': DateTime)
    requires Valid(t) && Valid(t') && Calendar.Day(t) <= Calendar.Day(t')
    ensures ToOrdinal(t.year, t.month, 1) <= Calendar.Day(t)
    ensures ToOrdinal(t.year, t.month, 1) <= ToOrdinal(t'.year, t'.month, 1)
  {
    OrdinalOrder(t.year, t.month, t.day, t'.year, t'.month, t'.day);
    OrdinalOrder(t.year, t.month, 1, t'.year, t'.month, 1);
  }

  // ----- keys and scores -----

  lemma MonthKeyOrder(y: int, m: int, y': int, m': int)
    requires 0 <= y <= 9999 && 0 <= m <= 99 && 0 <= y' <= 9999 && 0 <= m' <= 99
    ensures LexLess(MonthKey(y, m), MonthKey(y', m')) <==> y < y' || (y == y' && m < m')
    ensures MonthKey(y, m) == MonthKey(y', m') <==> y == y' && m == m'
  {
    Powers();
    hide LexLess, Pad, Pow10;
    PadOrder(y, y', 4);
    PadOrder(m, m', 2);
    LexSeparated(Pad(y, 4), "-", Pad(m, 2), Pad(y', 4), Pad(m', 2));
  }

  lemma WeekKeyOrder(y: int, w: int, y': int, w': int)
    requires 0 <= y <= 9999 && 0 <= w <= 99 && 0 <= y' <= 9999 && 0 <= w' <= 99
    ensures LexLess(WeekKey(y, w), WeekKey(y', w')) <==> y < y' || (y == y' && w < w')
    ensures WeekKey(y, w) == WeekKey(y', w') <==> y == y' && w == w'
  {
    Powers();
    hide LexLess, Pad, Pow10;
    PadOrder(y, y', 4);
    PadOrder(w, w', 2);
    LexSeparated(Pad(y, 4), "-W", Pad(w, 2), Pad(y', 4), Pad(w', 2));
  }

  lemma DayKeyOrder(y: int, m: int, d: int, y': int, m': int, d': int)
    requires 0 <= y <= 9999 && 0 <= m <= 99 && 0 <= d <= 99
    requires 0 <= y' <= 9999 && 0 <= m' <= 99 && 0 <= d' <= 99
    ensures LexLess(DayKey(y, m, d), DayKey(y', m', d')) <==> DateBefore(y, m, d, y', m', d')
    ensures DayKey(y, m, d) == DayKey(y', m', d') <==> (y, m, d) == (y', m', d')
  {
    Powers();
    hide LexLess, Pad, Pow10, MonthKey;
    PadOrder(d, d', 2);
    MonthKeyOrder(y, m, y', m');
    LexSeparated(MonthKey(y, m), "-", Pad(d, 2), MonthKey(y', m'), Pad(d', 2));
  }

  lemma HourKeyOrder(y: int, m: int, d: int, h: int, y': int, m': int, d': int, h': int)
    requires 0 <= y <= 9999 && 0 <= m <= 99 && 0 <= d <= 99 && 0 <= h <= 99
    requires 0 <= y' <= 9999 && 0 <= m' <= 99 && 0 <= d' <= 99 && 0 <= h' <= 99
    ensures LexLess(HourKey(y, m, d, h), HourKey(y', m', d', h'))
       <==> DateBefore(y, m, d, y', m', d') || ((y, m, d) == (y', m', d') && h < h')
    ensures HourKey(y, m, d, h) == HourKey(y', m', d', h') <==> (y, m, d, h) == (y', m', d', h')
  {
    Powers();
    hide LexLess, Pad, Pow10, DayKey;
    PadOrder(h, h', 2);
    DayKeyOrder(y, m, d, y', m', d');
    LexSeparated(DayKey(y, m, d), "T", Pad(h, 2), DayKey(y', m', d'), Pad(h', 2));
  }

  /** ISO weeks, by year and number, follow their Mondays. */
  lemma IsoWeekOrder(t: DateTime, t': DateTime)
    requires Valid(t) && Valid(t')
    ensures var (y, w, _), (y', w', _) := IsoCalendar(t), IsoCalendar(t');
            var monday, monday' := MondayOf(Calendar.Day(t)), MondayOf(Calendar.Day(t'));
            && (monday < monday' <==> y < y' || (y == y' && w < w'))
            && (monday == monday' <==> y == y' && w == w')
  {
    hide *;
    var (y, w, _) := IsoCalendar(t);
    var (y', w', _) := IsoCalendar(t');
    WeekDateRule(t);
    WeekDateRule(t');
    IsoYearRange(t);
    IsoYearRange(t');
    if y < y' {
      YearsInOrder(y + 1, y');
    } else if y' < y {
      YearsInOrder(y' + 1, y);
    }
  }

  /** Keys and scores name the same buckets in the same order: sorting keys as
      strings sorts buckets by time. */
  lemma KeyMatchesScore(t: DateTime, t': DateTime, u: Unit)
    requires Formats(t, u) && Formats(t', u)
    ensures LexLess(BucketKey(t, u), BucketKey(t', u)) <==> BucketScore(t, u) < BucketScore(t', u)
    ensures BucketKey(t, u) == BucketKey(t', u) <==> BucketScore(t, u) == BucketScore(t', u)
  {
    match u
    case Hour => HourKeyMatchesScore(t, t');
    case Day => DayKeyMatchesScore(t, t');
    case Week => WeekKeyMatchesScore(t, t');
    case Month => MonthKeyMatchesScore(t, t');
  }

  lemma HourKeyMatchesScore(t: DateTime, t': DateTime)
    requires Formats(t, Hour) && Formats(t', Hour)
    ensures LexLess(BucketKey(t, Hour), BucketKey(t', Hour)) <==> BucketScore(t, Hour) < BucketScore(t', Hour)
    ensures BucketKey(t, Hour) == BucketKey(t', Hour) <==> BucketScore(t, Hour) == BucketScore(t', Hour)
  {
    HourKeyOrder(t.year, t.month, t.day, t.hour, t'.year, t'.month, t'.day, t'.hour);
    OrdinalOrder(t.year, t.month, t.day, t'.year, t'.month, t'.day);
    hide ToOrdinal, HourKey, LexLess;
  }

  lemma DayKeyMatchesScore(t: DateTime, t': DateTime)
    requires Formats(t, Unit.Day) && Formats(t', Unit.Day)
    ensures LexLess(BucketKey(t, Unit.Day), BucketKey(t', Unit.Day))
       <==> BucketScore(t, Unit.Day) < BucketScore(t', Unit.Day)
    ensures BucketKey(t, Unit.Day) == BucketKey(t', Unit.Day)
       <==> BucketScore(t, Unit.Day) == BucketScore(t', Unit.Day)
  {
    DayKeyOrder(t.year, t.month, t.day, t'.year, t'.month, t'.day);
    OrdinalOrder(t.year, t.month, t.day, t'.year, t'.month, t'.day);
    hide ToOrdinal, DayKey, LexLess;
  }

  lemma WeekKeyMatchesScore(t: DateTime, t': DateTime)
    requires Valid(t) && Valid(t')
    ensures LexLess(BucketKey(t, Week), BucketKey(t', Week)) <==> BucketScore(t, Week) < BucketScore(t', Week)
    ensures BucketKey(t, Week) == BucketKey(t', Week) <==> BucketScore(t, Week) == BucketScore(t', Week)
  {
    IsoWeekMonday(t);
    IsoWeekMonday(t');
    WeekKeyOrder(IsoCalendar(t).0, IsoCalendar(t).1, IsoCalendar(t').0, IsoCalendar(t').1);
    IsoWeekOrder(t, t');
    WeekForm(t);
    WeekForm(t');
    hide IsoCalendar, MondayOf, Calendar.Day, WeekKey, LexLess, BucketScore;
  }

  lemma MonthKeyMatchesScore(t: DateTime, t': DateTime)
    requires Formats(t, Month) && Formats(t', Month)
    ensures LexLess(BucketKey(t, Month), BucketKey(t', Month))
       <==> BucketScore(t, Month) < BucketScore(t', Month)
    ensures BucketKey(t, Month) == BucketKey(t', Month) <==> BucketScore(t, Month) == BucketScore(t', Month)
  {
    MonthKeyOrder(t.year, t.month, t'.year, t'.month);
    OrdinalOrder(t.year, t.month, 1, t'.year, t'.month, 1);
    hide ToOrdinal, MonthKey, LexLess;
  }

  /** A later time never gets a key that sorts before an earlier one's. */
  lemma KeysFollowTime(t: DateTime, t': DateTime, u: Unit)
    requires Formats(t, u) && Formats(t', u) && Instant(t) <= Instant(t')
    ensures !LexLess(BucketKey(t', u), BucketKey(t, u))
  {
    assert Valid(t) && Valid(t');
    hide *;
    ScoreMonotone(t, t', u);
    KeyMatchesScore(t', t, u);
  }

  // ----- from a key back to a time -----

  function At(s: string, i: int, c: char): bool {
    0 <= i < |s| && s[i] == c
  }

  function Midnight(y: int, m: int, d: int, h: int): Option<DateTime> {
    var t := DateTime(y, m, d, h, 0, 0, 0);
    if Valid(t) then Some(t) else None
  }

  /** A time inside the bucket named by a key; None where parsing raises. */
  function InferTime(key: string, u: Unit): (t: Option<DateTime>)
    ensures t.Some? ==> Valid(t.value)
  {
    match u
    case Hour =>
      if |key| != 13 || !At(key, 4, '-') || !At(key, 7, '-') || !At(key, 10, 'T') then None else
      (match (ParseDigits(key[0..4]), ParseDigits(key[5..7]), ParseDigits(key[8..10]), ParseDigits(key[11..13]))
       case (Some(y), Some(m), Some(d), Some(h)) => Midnight(y, m, d, h)
       case _ => None)
    case Day =>
      if |key| != 10 || !At(key, 4, '-') || !At(key, 7, '-') then None else
      (match (ParseDigits(key[0..4]), ParseDigits(key[5..7]), ParseDigits(key[8..10]))
       case (Some(y), Some(m), Some(d)) => Midnight(y, m, d, 0)
       case _ => None)
    case Week =>
      if |key| != 8 || !At(key, 4, '-') || !At(key, 5, 'W') then None else
      (match (ParseDigits(key[0..4]), ParseDigits(key[6..8]))
       case (Some(y), Some(w)) => FromIsoCalendarMonday(y, w)
       case _ => None)
    case Month =>
      if |key| != 7 || !At(key, 4, '-') then None else
      (match (ParseDigits(key[0..4]), ParseDigits(key[5..7]))
       case (Some(y), Some(m)) => Midnight(y, m, 1, 0)
       case _ => None)
  }

  /** The time inferred from a bucket's key is the start of that bucket, and its
      own key and score are the bucket's. */
  lemma InferRoundTrip(t: DateTime, u: Unit)
    requires Formats(t, u)
    ensures var back := InferTime(BucketKey(t, u), u);
            && back.Some? && Formats(back.value, u)
            && BucketKey(back.value, u) == BucketKey(t, u)
            && BucketScore(back.value, u) == BucketScore(t, u)
            && Instant(back.value) == BucketScore(t, u) * 1000000
  {
    match u
    case Hour => InferHour(t);
    case Day => InferDay(t);
    case Week => InferWeek(t);
    case Month => InferMonth(t);
  }

  lemma MonthParts(y: int, m: int)
    requires 0 <= y <= 9999 && 0 <= m <= 99
    ensures var k := MonthKey(y, m);
            ParseDigits(k[0..4]) == Some(y) && At(k, 4, '-') && ParseDigits(k[5..7]) == Some(m)
  {
    Powers();
    hide Pow10, Pad, ParseDigits;
    ParsePad(y, 4);
    ParsePad(m, 2);
    var k := MonthKey(y, m);
    assert k[0..4] == Pad(y, 4) && k[5..7] == Pad(m, 2);
  }

  lemma DayParts(y: int, m: int, d: int)
    requires 0 <= y <= 9999 && 0 <= m <= 99 && 0 <= d <= 99
    ensures var k := DayKey(y, m, d);
            && k[0..7] == MonthKey(y, m) && At(k, 7, '-') && ParseDigits(k[8..10]) == Some(d)
            && ParseDigits(k[0..4]) == Some(y) && At(k, 4, '-') && ParseDigits(k[5..7]) == Some(m)
  {
    Powers();
    hide Pow10, Pad, ParseDigits, MonthKey;
    ParsePad(d, 2);
    MonthParts(y, m);
    var k := DayKey(y, m, d);
    assert k[8..10] == Pad(d, 2) && k[0..7] == MonthKey(y, m);
    assert k[0..4] == k[0..7][0..4] && k[5..7] == k[0..7][5..7] && k[4] == k[0..7][4];
  }

  lemma HourParts(y: int, m: int, d: int, h: int)
    requires 0 <= y <= 9999 && 0 <= m <= 99 && 0 <= d <= 99 && 0 <= h <= 99
    ensures var k := HourKey(y, m, d, h);
            && At(k, 10, 'T') && ParseDigits(k[11..13]) == Some(h)
            && At(k, 7, '-') && ParseDigits(k[8..10]) == Some(d)
            && ParseDigits(k[0..4]) == Some(y) && At(k, 4, '-') && ParseDigits(k[5..7]) == Some(m)
  {
    Powers();
    hide Pow10, Pad, ParseDigits, DayKey;
    ParsePad(h, 2);
    DayParts(y, m, d);
    var k := HourKey(y, m, d, h);
    assert k[11..13] == Pad(h, 2) && k[0..10] == DayKey(y, m, d);
    assert k[0..4] == k[0..10][0..4] && k[5..7] == k[0..10][5..7] && k[8..10] == k[0..10][8..10];
    assert k[4] == k[0..10][4] && k[7] == k[0..10][7];
  }

  lemma WeekParts(y: int, w: int)
    requires 0 <= y <= 9999 && 0 <= w <= 99
    ensures var k := WeekKey(y, w);
            && ParseDigits(k[0..4]) == Some(y) && At(k, 4, '-') && At(k, 5, 'W')
            && ParseDigits(k[6..8]) == Some(w)
  {
    Powers();
    hide Pow10, Pad, ParseDigits;
    ParsePad(y, 4);
    ParsePad(w, 2);
    var k := WeekKey(y, w);
    assert k[0..4] == Pad(y, 4) && k[6..8] == Pad(w, 2);
  }

  lemma InferHour(t: DateTime)
    requires Formats(t, Hour)
    ensures InferTime(BucketKey(t, Hour), Hour) == Some(DateTime(t.year, t.month, t.day, t.hour, 0, 0, 0))
    ensures Instant(DateTime(t.year, t.month, t.day, t.hour, 0, 0, 0)) == BucketScore(t, Hour) * 1000000
  {
    HourParts(t.year, t.month, t.day, t.hour);
    hide HourKey, ParseDigits, ToOrdinal;
  }

  lemma InferDay(t: DateTime)
    requires Formats(t, Unit.Day)
    ensures InferTime(BucketKey(t, Unit.Day), Unit.Day) == Some(DateTime(t.year, t.month, t.day, 0, 0, 0, 0))
    ensures Instant(DateTime(t.year, t.month, t.day, 0, 0, 0, 0)) == BucketScore(t, Unit.Day) * 1000000
  {
    DayParts(t.year, t.month, t.day);
    hide DayKey, ParseDigits, ToOrdinal;
  }

  lemma InferMonth(t: DateTime)
    requires Formats(t, Month)
    ensures InferTime(BucketKey(t, Month), Month) == Some(DateTime(t.year, t.month, 1, 0, 0, 0, 0))
    ensures Instant(DateTime(t.year, t.month, 1, 0, 0, 0, 0)) == BucketScore(t, Month) * 1000000
  {
    MonthParts(t.year, t.month);
    hide MonthKey, ParseDigits, ToOrdinal;
  }

  lemma InferWeek(t: DateTime)
    requires Valid(t)
    ensures var back := InferTime(BucketKey(t, Week), Week);
            && back.Some? && BucketKey(back.value, Week) == BucketKey(t, Week)
            && BucketScore(back.value, Week) == BucketScore(t, Week)
            && Instant(back.value) == BucketScore(t, Week) * 1000000
  {
    var (y, w, _) := IsoCalendar(t);
    IsoWeekMonday(t);
    WeekParts(y, w);
    hide WeekKey, ParseDigits, IsoCalendar, Calendar.Day, MondayOf;
    var monday := FromIsoCalendarMonday(y, w).value;
    assert InferTime(BucketKey(t, Week), Week) == Some(monday);
    WeekOfDay(Calendar.Day(t));
    WeekForm(t);
    WeekForm(monday);
    WeekKeyMatchesScore(t, monday);
  }

  // ----- keys and scores in plain characters and numbers -----

  predicate TwoDigits(s: string, i: nat, n: int) {
    && i + 2 <= |s| && '0' <= s[i] <= '9' && '0' <= s[i + 1] <= '9'
    && n == 10 * (s[i] as int - '0' as int) + (s[i + 1] as int - '0' as int)
  }

  predicate FourDigits(s: string, i: nat, n: int) {
    && i + 4 <= |s| && (forall k :: i <= k < i + 4 ==> '0' <= s[k] <= '9')
    && n == 1000 * (s[i] as int - '0' as int) + 100 * (s[i + 1] as int - '0' as int)
            + 10 * (s[i + 2] as int - '0' as int) + (s[i + 3] as int - '0' as int)
  }

  /** A key character by character. */
  lemma KeyReads(t: DateTime, u: Unit)
    requires Formats(t, u)
    ensures var k := BucketKey(t, u);
            match u
            case Hour =>
              && |k| == 13 && FourDigits(k, 0, t.year) && k[4] == '-' && TwoDigits(k, 5, t.month) && k[7] == '-'
              && TwoDigits(k, 8, t.day) && k[10] == 'T' && TwoDigits(k, 11, t.hour)
            case Day =>
              && |k| == 10 && FourDigits(k, 0, t.year) && k[4] == '-' && TwoDigits(k, 5, t.month) && k[7] == '-'
              && TwoDigits(k, 8, t.day)
            case Week =>
              var (year, week, _) := IsoCalendar(t);
              |k| == 8 && FourDigits(k, 0, year) && k[4] == '-' && k[5] == 'W' && TwoDigits(k, 6, week)
            case Month => |k| == 7 && FourDigits(k, 0, t.year) && k[4] == '-' && TwoDigits(k, 5, t.month)
  {
    match u
    case Hour => HourReads(t.year, t.month, t.day, t.hour);
    case Day => DayReads(t.year, t.month, t.day);
    case Week => IsoWeekMonday(t); WeekReads(IsoCalendar(t).0, IsoCalendar(t).1);
    case Month => MonthReads(t.year, t.month);
  }

  lemma MonthReads(y: int, m: int)
    requires 0 <= y <= 9999 && 0 <= m <= 99
    ensures var k := MonthKey(y, m); |k| == 7 && FourDigits(k, 0, y) && k[4] == '-' && TwoDigits(k, 5, m)
  {
    hide Pad, Pow10;
    PadReads4(y, "-" + Pad2(m));
    PadReads2(m, Pad4(y) + "-", "");
    assert MonthKey(y, m) == Pad4(y) + ("-" + Pad2(m)) == Pad4(y) + "-" + Pad2(m) + "";
  }

  lemma DayReads(y: int, m: int, d: int)
    requires 0 <= y <= 9999 && 0 <= m <= 99 && 0 <= d <= 99
    ensures var k := DayKey(y, m, d);
            && |k| == 10 && FourDigits(k, 0, y) && k[4] == '-' && TwoDigits(k, 5, m) && k[7] == '-'
            && TwoDigits(k, 8, d)
  {
    hide Pad, Pow10, MonthKey;
    MonthReads(y, m);
    PadReads2(d, MonthKey(y, m) + "-", "");
    var k := DayKey(y, m, d);
    assert k == MonthKey(y, m) + "-" + Pad2(d) + "";
    assert forall i :: 0 <= i < 7 ==> k[i] == MonthKey(y, m)[i];
  }

  lemma HourReads(y: int, m: int, d: int, h: int)
    requires 0 <= y <= 9999 && 0 <= m <= 99 && 0 <= d <= 99 && 0 <= h <= 99
    ensures var k := HourKey(y, m, d, h);
            && |k| == 13 && FourDigits(k, 0, y) && k[4] == '-' && TwoDigits(k, 5, m) && k[7] == '-'
            && TwoDigits(k, 8, d) && k[10] == 'T' && TwoDigits(k, 11, h)
  {
    hide Pad, Pow10, DayKey;
    DayReads(y, m, d);
    PadReads2(h, DayKey(y, m, d) + "T", "");
    var k := HourKey(y, m, d, h);
    assert k == DayKey(y, m, d) + "T" + Pad2(h) + "";
    assert forall i :: 0 <= i < 10 ==> k[i] == DayKey(y, m, d)[i];
  }

  lemma WeekReads(y: int, w: int)
    requires 0 <= y <= 9999 && 0 <= w <= 99
    ensures var k := WeekKey(y, w);
            |k| == 8 && FourDigits(k, 0, y) && k[4] == '-' && k[5] == 'W' && TwoDigits(k, 6, w)
  {
    hide Pad, Pow10;
    PadReads4(y, "-W" + Pad2(w));
    PadReads2(w, Pad4(y) + "-W", "");
    assert WeekKey(y, w) == Pad4(y) + ("-W" + Pad2(w)) == Pad4(y) + "-W" + Pad2(w) + "";
  }

  function Pad2(n: nat): (s: string)
    requires n <= 99
    ensures |s| == 2
  {
    Powers();
    Pad(n, 2)
  }

  function Pad4(n: nat): (s: string)
    requires n <= 9999
    ensures |s| == 4
  {
    Powers();
    Pad(n, 4)
  }

  lemma PadReads2(n: nat, before: string, after: string)
    requires n <= 99
    ensures TwoDigits(before + Pad2(n) + after, |before|, n)
  {
    Powers();
    var s := Pad(n, 2);
    assert Pad(n / 10, 1) == Pad(n / 10 / 10, 0) + [Digit(n / 10 % 10)];
    assert s == [Digit(n / 10), Digit(n % 10)];
    assert (before + Pad2(n) + after)[|before|] == s[0] && (before + Pad2(n) + after)[|before| + 1] == s[1];
  }

  lemma PadReads4(n: nat, after: string)
    requires n <= 9999
    ensures FourDigits(Pad4(n) + after, 0, n)
  {
    Powers();
    var s := Pad(n, 4);
    assert Pad(n / 1000, 1) == Pad(n / 10000, 0) + [Digit(n / 1000 % 10)];
    assert Pad(n / 100, 2) == Pad(n / 1000, 1) + [Digit(n / 100 % 10)];
    assert Pad(n / 10, 3) == Pad(n / 100, 2) + [Digit(n / 10 % 10)];
    assert s == [Digit(n / 1000), Digit(n / 100 % 10), Digit(n / 10 % 10), Digit(n % 10)];
    hide Pad;
    assert forall k :: 0 <= k < 4 ==> (Pad4(n) + after)[k] == s[k];
  }

  /** A score in epoch seconds: the start of the hour, of the day, of the Monday, or of
      the first of the month; 1970 began on a Thursday. */
  lemma ScoreInNumbers(t: DateTime, u: Unit)
    requires Valid(t)
    ensures var seconds := EpochSecond(t);
            var days := seconds / 86400;
            BucketScore(t, u) == match u
                                 case Hour => seconds - seconds % 3600
                                 case Day => 86400 * days
                                 case Week => 86400 * (days - (days + 3) % 7)
                                 case Month => 86400 * (days - (t.day - 1))
  {
    hide BucketScore, ToOrdinal, EpochSecond, Weekday, MondayOf;
    EpochIs1970(t);
    DaysOfSeconds(t);
    match u
    case Hour => HourForm(t);
    case Day => DayForm(t);
    case Week => WeekForm(t); WeekdayIs(Calendar.Day(t));
    case Month => MonthForm(t); FirstOfMonth(t);
  }

  lemma DaysOfSeconds(t: DateTime)
    requires Valid(t)
    ensures EpochSecond(t) / 86400 == Calendar.Day(t) - 719163
  {
  }

  lemma FirstOfMonth(t: DateTime)
    requires Valid(t)
    ensures ToOrdinal(t.year, t.month, 1) == Calendar.Day(t) - (t.day - 1)
  {
  }
}
