/** Calendar response items and the cells of the calendar grid
    (`Models/Calendar.swift`). */
module CalendarModels {
  import opened Wrappers
  import opened Dates
  import opened AccountModels
  import opened TagModels
  import opened PostModels

  /** The account chips shown on a calendar item. */
  datatype CalendarAccountPreview = CalendarAccountPreview(id: int, name: string, provider: SocialProvider, image: Option<string>)

  /** One post as the calendar endpoint returns it. */
  datatype CalendarPost = CalendarPost(
    id: int,
    status: PostStatus,
    scheduledAt: Option<Instant>,
    publishedAt: Option<Instant>,
    content: Option<string>,
    accounts: Option<seq<CalendarAccountPreview>>,
    tags: Option<seq<Tag>>)

  /** `effectiveDate`: the date a post is shown on. */
  function EffectiveDate(p: CalendarPost): (r: Option<Instant>)
    ensures r.Some? <==> p.scheduledAt.Some? || p.publishedAt.Some?
    ensures r.Some? ==> r == p.scheduledAt || r == p.publishedAt
    ensures p.scheduledAt.Some? ==> r == p.scheduledAt
  {
    if p.scheduledAt.Some? then p.scheduledAt else p.publishedAt
  }

  /** `==` on calendar posts: by id only (and `hash` combines only the id). */
  predicate SameCalendarPost(a: CalendarPost, b: CalendarPost) {
    a.id == b.id
  }

  function CalendarPostHash(p: CalendarPost): int {
    p.id
  }

  lemma CalendarPostEqualityById(a: CalendarPost, b: CalendarPost, c: CalendarPost)
    ensures SameCalendarPost(a, a)
    ensures SameCalendarPost(a, b) ==> SameCalendarPost(b, a) && CalendarPostHash(a) == CalendarPostHash(b)
    ensures SameCalendarPost(a, b) && SameCalendarPost(b, c) ==> SameCalendarPost(a, c)
    ensures SameCalendarPost(a, a.(status := b.status, scheduledAt := b.scheduledAt, content := b.content, tags := b.tags))
  {
  }

  /** The `period` block: window bounds as `yyyy-MM-dd` and the view type. */
  datatype CalendarPeriod = CalendarPeriod(start: string, end: string, kind: string)

  /** `startDate` / `endDate`: the bounds read back with `yyyy-MM-dd`. */
  function PeriodStartDate(p: CalendarPeriod): Option<Date> {
    ParseYmd(p.start)
  }

  function PeriodEndDate(p: CalendarPeriod): Option<Date> {
    ParseYmd(p.end)
  }

  /** A period the server writes from two dates reads back as those dates. */
  lemma PeriodDatesRoundTrip(a: Date, b: Date, kind: string)
    requires ValidDate(a) && 1 <= a.year <= 9999 && ValidDate(b) && 1 <= b.year <= 9999
    ensures PeriodStartDate(CalendarPeriod(FormatYmd(a), FormatYmd(b), kind)) == Some(a)
    ensures PeriodEndDate(CalendarPeriod(FormatYmd(a), FormatYmd(b), kind)) == Some(b)
  {
    FormatParseYmd(a);
    FormatParseYmd(b);
  }

  /** A cell of the calendar grid. Its random `id` is left out. */
  datatype CalendarDay = CalendarDay(date: Instant, isCurrentMonth: bool, isToday: bool, posts: seq<CalendarPost>)

  /** `CalendarDay(date:)` with the defaults. */
  function NewDay(date: Instant): (d: CalendarDay)
    ensures d.date == date && d.isCurrentMonth && !d.isToday && d.posts == []
  {
    CalendarDay(date, true, false, [])
  }

  /** `dayNumber`: the day of the month. */
  function DayOfMonth(d: CalendarDay): (n: int)
    requires ValidDate(d.date.date)
    ensures 1 <= n <= 31
    ensures n <= DaysInMonth(d.date.date.year, d.date.date.month)
  {
    d.date.date.day
  }

  /** `==` on cells: the two dates fall on the same calendar day. */
  predicate SameCalendarDay(a: CalendarDay, b: CalendarDay) {
    SameDay(a.date, b.date)
  }

  /** Cell equality ignores the time of day, the flags and the posts, and is an
      equivalence. */
  lemma SameCalendarDayIgnoresRest(a: CalendarDay, b: CalendarDay, c: CalendarDay, s: int)
    requires ValidInstant(a.date) && 0 <= s < SecondsPerDay
    ensures SameCalendarDay(a, a)
    ensures SameCalendarDay(a, b) ==> SameCalendarDay(b, a)
    ensures SameCalendarDay(a, b) && SameCalendarDay(b, c) ==> SameCalendarDay(a, c)
    ensures SameCalendarDay(a, CalendarDay(Instant(a.date.date, s), !a.isCurrentMonth, !a.isToday, b.posts))
  {
  }

  /** `hash(into:)` as written: it combines the whole instant. */
  function DayHashAsWritten(d: CalendarDay): int
    requires ValidDate(d.date.date)
  {
    Key(d.date)
  }

  /** The hash as written breaks the rule that equal values hash alike: the
      first of February at midnight (a cell of February's grid) equals the
      first of February at 23:59:59 (a trailing cell of January's grid, which
      counts from the end of January), yet their hashes differ. */
  lemma DayHashAsWrittenDisagreesWithEquality()
    ensures var a := CalendarDay(Instant(Date(2026, 2, 1), 0), true, false, []);
            var b := CalendarDay(Instant(Date(2026, 2, 1), SecondsPerDay - 1), false, false, []);
            SameCalendarDay(a, b) && DayHashAsWritten(a) != DayHashAsWritten(b)
  {
  }

  /** The hash that agrees with `==`: the day, not the instant. */
  function DayHash(d: CalendarDay): int
    requires ValidDate(d.date.date)
  {
    DayNumber(d.date.date)
  }

  /** Equal cells hash alike, and cells on different days hash apart, so the
      hash decides equality exactly. */
  lemma DayHashAgreesWithEquality(a: CalendarDay, b: CalendarDay)
    requires ValidDate(a.date.date) && ValidDate(b.date.date)
    ensures SameCalendarDay(a, b) <==> DayHash(a) == DayHash(b)
  {
    if DayHash(a) == DayHash(b) {
      DayNumberInjective(a.date.date, b.date.date);
    }
  }
}
