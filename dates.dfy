/** Calendar arithmetic of the app's `Date` extensions and of Carbon on the
    server: the proleptic Gregorian calendar in one fixed time zone. An instant
    is a civil date plus the second of that day. */
module Dates {
  import opened Text
  import opened Wrappers

  const SecondsPerDay: int := 86400

  datatype Date = Date(year: int, month: int, day: int)

  /** A point in time: the civil date and the second within that day. */
  datatype Instant = Instant(date: Date, second: int)

  predicate IsLeapYear(y: int) {
    (y % 4 == 0 && y % 100 != 0) || y % 400 == 0
  }

  function DaysInMonth(y: int, m: int): int {
    if m == 2 then (if IsLeapYear(y) then 29 else 28)
    else if m == 4 || m == 6 || m == 9 || m == 11 then 30
    else 31
  }

  predicate ValidDate(d: Date) {
    1 <= d.month <= 12 && 1 <= d.day <= DaysInMonth(d.year, d.month)
  }

  predicate ValidInstant(t: Instant) {
    ValidDate(t.date) && 0 <= t.second < SecondsPerDay
  }

  // ---------------------------------------------------------------------------
  // Day numbers (Rata Die: 0001-01-01 is day 1, a Monday)

  function DaysBeforeYear(y: int): int {
    365 * (y - 1) + (y - 1) / 4 - (y - 1) / 100 + (y - 1) / 400
  }

  /** Days of year `y` before the first of month `m`. */
  function DaysBeforeMonth(y: int, m: int): int
    requires 1 <= m <= 12
  {
    var cumulative := [0, 31, 59, 90, 120, 151, 181, 212, 243, 273, 304, 334];
    cumulative[m - 1] + (if m > 2 && IsLeapYear(y) then 1 else 0)
  }

  function DayNumber(d: Date): int
    requires ValidDate(d)
  {
    DaysBeforeYear(d.year) + DaysBeforeMonth(d.year, d.month) + d.day
  }

  lemma DaysBeforeYearNext(y: int)
    ensures DaysBeforeYear(y + 1) == DaysBeforeYear(y) + 365 + (if IsLeapYear(y) then 1 else 0)
  {
    assert y / 4 - (y - 1) / 4 == if y % 4 == 0 then 1 else 0;
    assert y / 100 - (y - 1) / 100 == if y % 100 == 0 then 1 else 0;
    assert y / 400 - (y - 1) / 400 == if y % 400 == 0 then 1 else 0;
  }

  // ---------------------------------------------------------------------------
  // Stepping one day

  function NextDay(d: Date): (r: Date)
    requires ValidDate(d)
    ensures ValidDate(r)
  {
    if d.day < DaysInMonth(d.year, d.month) then Date(d.year, d.month, d.day + 1)
    else if d.month < 12 then Date(d.year, d.month + 1, 1)
    else Date(d.year + 1, 1, 1)
  }

  function PrevDay(d: Date): (r: Date)
    requires ValidDate(d)
    ensures ValidDate(r)
  {
    if d.day > 1 then Date(d.year, d.month, d.day - 1)
    else if d.month > 1 then Date(d.year, d.month - 1, DaysInMonth(d.year, d.month - 1))
    else Date(d.year - 1, 12, 31)
  }

  lemma PrevNext(d: Date)
    requires ValidDate(d)
    ensures PrevDay(NextDay(d)) == d
    ensures NextDay(PrevDay(d)) == d
  {
  }

  /** The day after `d` has the next day number. */
  lemma DayNumberNext(d: Date)
    requires ValidDate(d)
    ensures DayNumber(NextDay(d)) == DayNumber(d) + 1
  {
    if d.day == DaysInMonth(d.year, d.month) && d.month == 12 {
      DaysBeforeYearNext(d.year);
    }
  }

  lemma DayNumberPrev(d: Date)
    requires ValidDate(d)
    ensures DayNumber(PrevDay(d)) == DayNumber(d) - 1
  {
    PrevNext(d);
    DayNumberNext(PrevDay(d));
  }

  // ---------------------------------------------------------------------------
  // Adding days (`addingDays`, Carbon `addDays` / `subDays`)

  function AddDays(d: Date, n: int): (r: Date)
    requires ValidDate(d)
    ensures ValidDate(r)
    decreases if n < 0 then -n else n
  {
    if n == 0 then d
    else if n > 0 then AddDays(NextDay(d), n - 1)
    else AddDays(PrevDay(d), n + 1)
  }

  lemma {:induction false} AddDaysNextNonNeg(d: Date, n: nat)
    requires ValidDate(d)
    ensures AddDays(d, n + 1) == NextDay(AddDays(d, n))
    decreases n
  {
    if n > 0 {
      AddDaysNextNonNeg(NextDay(d), n - 1);
    }
  }

  lemma {:induction false} AddDaysNextNeg(d: Date, n: int)
    requires ValidDate(d) && n < 0
    ensures AddDays(d, n + 1) == NextDay(AddDays(d, n))
    decreases -n
  {
    if n == -1 {
      PrevNext(d);
    } else {
      AddDaysNextNeg(PrevDay(d), n + 1);
    }
  }

  /** Adding one more day is stepping to the next day, for every count. */
  lemma AddDaysNext(d: Date, n: int)
    requires ValidDate(d)
    ensures AddDays(d, n + 1) == NextDay(AddDays(d, n))
  {
    if n >= 0 {
      AddDaysNextNonNeg(d, n);
    } else {
      AddDaysNextNeg(d, n);
    }
  }

  lemma AddDaysPrev(d: Date, n: int)
    requires ValidDate(d)
    ensures AddDays(d, n - 1) == PrevDay(AddDays(d, n))
  {
    AddDaysNext(d, n - 1);
    PrevNext(AddDays(d, n - 1));
  }

  /** Adding `n` days moves the day number by exactly `n`. */
  lemma {:induction false} DayNumberAddDays(d: Date, n: int)
    requires ValidDate(d)
    ensures DayNumber(AddDays(d, n)) == DayNumber(d) + n
    decreases if n < 0 then -n else n
  {
    if n > 0 {
      var e := NextDay(d);
      assert AddDays(d, n) == AddDays(e, n - 1);
      DayNumberNext(d);
      DayNumberAddDays(e, n - 1);
    } else if n < 0 {
      var e := PrevDay(d);
      assert AddDays(d, n) == AddDays(e, n + 1);
      DayNumberPrev(d);
      DayNumberAddDays(e, n + 1);
    }
  }

  /** Day numbers identify dates: two valid dates with one day number are equal. */
  lemma DayNumberInjective(a: Date, b: Date)
    requires ValidDate(a) && ValidDate(b) && DayNumber(a) == DayNumber(b)
    ensures a == b
  {
    if a.year < b.year {
      YearBounds(a);
      YearBounds(b);
      DaysBeforeYearMonotone(a.year + 1, b.year);
    } else if a.year > b.year {
      YearBounds(a);
      YearBounds(b);
      DaysBeforeYearMonotone(b.year + 1, a.year);
    } else {
      DayOfYearInjective(a, b);
    }
  }

  /** Within one year, the day of the year identifies the month and day. */
  lemma DayOfYearInjective(a: Date, b: Date)
    requires ValidDate(a) && ValidDate(b) && a.year == b.year
    requires DaysBeforeMonth(a.year, a.month) + a.day == DaysBeforeMonth(b.year, b.month) + b.day
    ensures a == b
  {
  }

  /** A date's day number lies within its year. */
  lemma YearBounds(d: Date)
    requires ValidDate(d)
    ensures DaysBeforeYear(d.year) < DayNumber(d) <= DaysBeforeYear(d.year + 1)
  {
    DaysBeforeYearNext(d.year);
  }

  lemma {:induction false} DaysBeforeYearMonotone(x: int, y: int)
    requires x <= y
    ensures DaysBeforeYear(x) <= DaysBeforeYear(y)
    decreases y - x
  {
    if x < y {
      DaysBeforeYearNext(x);
      DaysBeforeYearMonotone(x + 1, y);
    }
  }

  /** Adding days composes: `d + m + n == d + (m + n)`. */
  lemma AddDaysAdditive(d: Date, m: int, n: int)
    requires ValidDate(d)
    ensures AddDays(AddDays(d, m), n) == AddDays(d, m + n)
  {
    DayNumberAddDays(d, m);
    DayNumberAddDays(AddDays(d, m), n);
    DayNumberAddDays(d, m + n);
    DayNumberInjective(AddDays(AddDays(d, m), n), AddDays(d, m + n));
  }

  /** Going back the same number of days returns to the start. */
  lemma AddDaysRoundTrip(d: Date, n: int)
    requires ValidDate(d)
    ensures AddDays(AddDays(d, n), -n) == d
  {
    AddDaysAdditive(d, n, -n);
  }

  // ---------------------------------------------------------------------------
  // Weekdays (`weekday`: 1 = Sunday ... 7 = Saturday)

  function Weekday(d: Date): (w: int)
    requires ValidDate(d)
    ensures 1 <= w <= 7
  {
    DayNumber(d) % 7 + 1
  }

  /** The weekday advances by one (cyclically) from one day to the next. */
  lemma WeekdayAddDays(d: Date, n: int)
    requires ValidDate(d)
    ensures Weekday(AddDays(d, n)) - 1 == (Weekday(d) - 1 + n) % 7
  {
    DayNumberAddDays(d, n);
    ModSevenShift(DayNumber(d), n);
  }

  lemma ModSevenShift(a: int, n: int)
    ensures (a + n) % 7 == (a % 7 + n) % 7
  {
    var q := a / 7;
    assert a + n == (a % 7 + n) + 7 * q;
  }

  /** Anchors: 1 January 2001 was a Monday and 1 February 2026 is a Sunday. */
  lemma WeekdayAnchors()
    ensures Weekday(Date(2001, 1, 1)) == 2
    ensures Weekday(Date(2026, 2, 1)) == 1
  {
  }

  // ---------------------------------------------------------------------------
  // Adding months (`addingMonths`, clamping the day to the target month)

  function MonthIndex(d: Date): int {
    d.year * 12 + (d.month - 1)
  }

  function AddMonths(d: Date, n: int): (r: Date)
    requires ValidDate(d)
    ensures ValidDate(r)
    ensures MonthIndex(r) == MonthIndex(d) + n
    ensures r.day == if d.day <= DaysInMonth(r.year, r.month) then d.day else DaysInMonth(r.year, r.month)
  {
    var index := MonthIndex(d) + n;
    var y := index / 12;
    var m := index % 12 + 1;
    var last := DaysInMonth(y, m);
    Date(y, m, if d.day <= last then d.day else last)
  }

  /** Without clamping (day 28 or earlier), adding months is undone by
      subtracting them. */
  lemma AddMonthsRoundTrip(d: Date, n: int)
    requires ValidDate(d) && d.day <= 28
    ensures AddMonths(AddMonths(d, n), -n) == d
  {
  }

  /** 31 January plus one month is the last day of February. */
  lemma AddMonthsClamps()
    ensures AddMonths(Date(2024, 1, 31), 1) == Date(2024, 2, 29)
    ensures AddMonths(Date(2025, 1, 31), 1) == Date(2025, 2, 28)
  {
  }

  // ---------------------------------------------------------------------------
  // Instants

  /** Seconds since the start of day 0 in the configured zone. */
  function Key(t: Instant): int
    requires ValidDate(t.date)
  {
    DayNumber(t.date) * 86400 + t.second
  }

  predicate Before(a: Instant, b: Instant)
    requires ValidDate(a.date) && ValidDate(b.date)
  {
    Key(a) < Key(b)
  }

  /** The key determines the instant. */
  lemma KeyInjective(a: Instant, b: Instant)
    requires ValidInstant(a) && ValidInstant(b) && Key(a) == Key(b)
    ensures a == b
  {
    assert DayNumber(a.date) == DayNumber(b.date);
    DayNumberInjective(a.date, b.date);
  }

  /** Instants are ordered first by date, then by second. */
  lemma BeforeIff(a: Instant, b: Instant)
    requires ValidInstant(a) && ValidInstant(b)
    ensures Before(a, b) <==>
      DayNumber(a.date) < DayNumber(b.date) || (a.date == b.date && a.second < b.second)
  {
    if a.date != b.date && DayNumber(a.date) == DayNumber(b.date) {
      DayNumberInjective(a.date, b.date);
    }
  }

  /** `isDate(_:inSameDayAs:)`. */
  predicate SameDay(a: Instant, b: Instant) {
    a.date == b.date
  }

  /** `isPast`: strictly before now. */
  predicate IsPast(t: Instant, now: Instant)
    requires ValidDate(t.date) && ValidDate(now.date)
  {
    Key(t) < Key(now)
  }

  /** `isFuture`: strictly after now. */
  predicate IsFuture(t: Instant, now: Instant)
    requires ValidDate(t.date) && ValidDate(now.date)
  {
    Key(t) > Key(now)
  }

  /** An instant is never both past and future, and the present is neither. */
  lemma PastFutureExclusive(t: Instant, now: Instant)
    requires ValidInstant(t) && ValidInstant(now)
    ensures !(IsPast(t, now) && IsFuture(t, now))
    ensures t == now ==> !IsPast(t, now) && !IsFuture(t, now)
    ensures t != now ==> IsPast(t, now) || IsFuture(t, now)
  {
    if t != now && Key(t) == Key(now) {
      KeyInjective(t, now);
    }
  }

  /** `isToday`: same calendar day as now. */
  predicate IsToday(t: Instant, now: Instant) {
    t.date == now.date
  }

  /** `addingDays`: the same time of day, `n` days later. */
  function AddDaysTo(t: Instant, n: int): (r: Instant)
    requires ValidDate(t.date)
    ensures ValidDate(r.date) && r.second == t.second
  {
    Instant(AddDays(t.date, n), t.second)
  }

  /** The same instant one second earlier. */
  function SecondBefore(t: Instant): (r: Instant)
    requires ValidInstant(t)
    ensures ValidInstant(r)
  {
    if t.second > 0 then Instant(t.date, t.second - 1) else Instant(PrevDay(t.date), SecondsPerDay - 1)
  }

  lemma SecondBeforeKey(t: Instant)
    requires ValidInstant(t)
    ensures Key(SecondBefore(t)) == Key(t) - 1
  {
    if t.second == 0 {
      DayNumberPrev(t.date);
    }
  }

  function StartOfDay(t: Instant): (r: Instant) {
    Instant(t.date, 0)
  }

  /** `endOfDay`: the start of the day, plus one day, minus one second. */
  function EndOfDay(t: Instant): (r: Instant)
    requires ValidDate(t.date)
    ensures ValidInstant(r)
  {
    SecondBefore(Instant(NextDay(t.date), 0))
  }

  /** The end of a day is its last second: same day, 86399 seconds after its
      start, one second before the next day begins. */
  lemma EndOfDayIsLastSecond(t: Instant)
    requires ValidDate(t.date)
    ensures SameDay(EndOfDay(t), t)
    ensures EndOfDay(t).second == SecondsPerDay - 1
    ensures Key(EndOfDay(t)) + 1 == Key(Instant(NextDay(t.date), 0))
  {
    PrevNext(t.date);
    SecondBeforeKey(Instant(NextDay(t.date), 0));
  }

  /** `startOfMonth`: midnight on the first of the month. */
  function StartOfMonth(t: Instant): (r: Instant)
    requires ValidDate(t.date)
    ensures ValidInstant(r)
  {
    Instant(Date(t.date.year, t.date.month, 1), 0)
  }

  /** `endOfMonth`: the start of the month, plus one month, minus one second,
      which is 23:59:59 on the month's last day. */
  function EndOfMonth(t: Instant): (r: Instant)
    requires ValidDate(t.date)
    ensures ValidInstant(r)
    ensures r == Instant(Date(t.date.year, t.date.month, DaysInMonth(t.date.year, t.date.month)), SecondsPerDay - 1)
  {
    SecondBefore(Instant(AddMonths(StartOfMonth(t).date, 1), 0))
  }

  /** A month runs from its start to its end: every instant of it lies
      between the two, which are exactly its number of days apart. */
  lemma MonthBrackets(t: Instant)
    requires ValidInstant(t)
    ensures Key(StartOfMonth(t)) <= Key(t) <= Key(EndOfMonth(t))
    ensures Key(EndOfMonth(t)) + 1 - Key(StartOfMonth(t)) == DaysInMonth(t.date.year, t.date.month) * SecondsPerDay
  {
  }

  /** `startOfWeek(startingOn:)`: midnight on the latest day not after `t`
      whose weekday is `startingOn + 1` (`startingOn` 0 = Sunday, 1 = Monday). */
  function StartOfWeek(t: Instant, startingOn: int): (r: Instant)
    requires ValidDate(t.date)
    ensures ValidInstant(r)
  {
    var offset := (Weekday(t.date) - (startingOn + 1)) % 7;
    Instant(AddDays(t.date, -offset), 0)
  }

  /** The week starts on the requested weekday, at most six days back. */
  lemma StartOfWeekProperties(t: Instant, startingOn: int)
    requires ValidDate(t.date) && 0 <= startingOn <= 6
    ensures Weekday(StartOfWeek(t, startingOn).date) == startingOn + 1
    ensures DayNumber(t.date) - 6 <= DayNumber(StartOfWeek(t, startingOn).date) <= DayNumber(t.date)
  {
    var offset := (Weekday(t.date) - (startingOn + 1)) % 7;
    DayNumberAddDays(t.date, -offset);
    StartOfWeekMod(DayNumber(t.date), startingOn);
  }

  lemma StartOfWeekMod(day: int, startingOn: int)
    requires 0 <= startingOn <= 6
    ensures (day - (day % 7 - startingOn) % 7) % 7 == startingOn
  {
    var r := day % 7;
    var q := day / 7;
    assert day == 7 * q + r;
    if r >= startingOn {
      assert (r - startingOn) % 7 == r - startingOn;
      assert day - (r - startingOn) == 7 * q + startingOn;
    } else {
      assert (r - startingOn) % 7 == r - startingOn + 7;
      assert day - (r - startingOn + 7) == 7 * (q - 1) + startingOn;
    }
  }

  // ---------------------------------------------------------------------------
  // Wire formats

  /** The year as `yyyy` prints it: the year of the era (year 0 is 1 BC). */
  function YearOfEra(y: int): nat {
    if y >= 1 then y else 1 - y
  }

  /** `apiDateString`, format `yyyy-MM-dd`. */
  function FormatYmd(d: Date): (s: string)
    requires ValidDate(d)
  {
    Padded(YearOfEra(d.year), 4) + "-" + Padded(d.month, 2) + "-" + Padded(d.day, 2)
  }

  function HourOf(t: Instant): int {
    t.second / 3600
  }

  function MinuteOf(t: Instant): int {
    (t.second % 3600) / 60
  }

  /** `timeString()` with the 24-hour default, format `HH:mm`. */
  function FormatHm(t: Instant): (s: string)
    requires ValidInstant(t)
  {
    Padded(HourOf(t), 2) + ":" + Padded(MinuteOf(t), 2)
  }

  /** `Y-m-d` accepted by PHP's `date_format:Y-m-d` rule: four-digit year,
      two-digit month and day, a real calendar date. */
  function ParseYmd(s: string): (r: Option<Date>)
    ensures r.Some? ==> ValidDate(r.value) && 0 <= r.value.year <= 9999
  {
    if |s| == 10 && s[4] == '-' && s[7] == '-'
       && AllDigits(s[..4]) && AllDigits(s[5..7]) && AllDigits(s[8..])
    then
      ParseDigitsBound(s[..4]);
      var d := Date(ParseDigits(s[..4]), ParseDigits(s[5..7]), ParseDigits(s[8..]));
      if ValidDate(d) then Some(d) else None
    else None
  }

  /** `H:i` accepted by PHP's `date_format:H:i` rule: hour 00-23, minute 00-59. */
  function ParseHm(s: string): (r: Option<(int, int)>)
    ensures r.Some? ==> 0 <= r.value.0 < 24 && 0 <= r.value.1 < 60
  {
    if |s| == 5 && s[2] == ':' && AllDigits(s[..2]) && AllDigits(s[3..]) then
      var h := ParseDigits(s[..2]);
      var m := ParseDigits(s[3..]);
      if h < 24 && m < 60 then Some((h, m)) else None
    else None
  }

  /** Every date the app formats with a year from 1 to 9999 is accepted by the
      server's `Y-m-d` rule, which reads back the same date. */
  lemma FormatParseYmd(d: Date)
    requires ValidDate(d) && 1 <= d.year <= 9999
    ensures ParseYmd(FormatYmd(d)) == Some(d)
  {
    PaddedWidth(d.year, 4);
    PaddedWidth(d.month, 2);
    PaddedWidth(d.day, 2);
    var s := FormatYmd(d);
    assert s[..4] == Padded(d.year, 4);
    assert s[5..7] == Padded(d.month, 2);
    assert s[8..] == Padded(d.day, 2);
    ParsePadded(d.year, 4);
    ParsePadded(d.month, 2);
    ParsePadded(d.day, 2);
  }

  /** Every time the app formats is accepted by the server's `H:i` rule, which
      reads back the hour and minute. */
  lemma FormatParseHm(t: Instant)
    requires ValidInstant(t)
    ensures ParseHm(FormatHm(t)) == Some((HourOf(t), MinuteOf(t)))
  {
    PaddedWidth(HourOf(t), 2);
    PaddedWidth(MinuteOf(t), 2);
    var s := FormatHm(t);
    assert s[..2] == Padded(HourOf(t), 2);
    assert s[3..] == Padded(MinuteOf(t), 2);
    ParsePadded(HourOf(t), 2);
    ParsePadded(MinuteOf(t), 2);
  }
}
