/** The calendar screen's view model (`Views/Calendar/CalendarView.swift`):
    the month and week grids, the bucketing of posts into cells, and the
    navigation between periods. `Calendar.current.firstWeekday` and the
    current instant are parameters. */
module CalendarView {
  import opened Wrappers
  import opened Dates
  import opened CalendarModels

  datatype CalendarViewType = Month | Week

  // ---------------------------------------------------------------------------
  // Bucketing posts by day

  /** The post is shown on the day of `date`. */
  predicate OnDay(p: CalendarPost, date: Instant) {
    EffectiveDate(p).Some? && SameDay(EffectiveDate(p).value, date)
  }

  /** `postsForDate`: the posts whose effective date falls on that day. */
  function PostsForDate(posts: seq<CalendarPost>, date: Instant): (r: seq<CalendarPost>)
    ensures |r| <= |posts|
    ensures forall p :: p in r <==> p in posts && OnDay(p, date)
  {
    if posts == [] then []
    else if OnDay(posts[0], date) then [posts[0]] + PostsForDate(posts[1..], date)
    else PostsForDate(posts[1..], date)
  }

  /** Bucketing distributes over concatenation, so each bucket keeps the input
      order. */
  lemma {:induction false} PostsForDateAppend(a: seq<CalendarPost>, b: seq<CalendarPost>, date: Instant)
    ensures PostsForDate(a + b, date) == PostsForDate(a, date) + PostsForDate(b, date)
  {
    if a == [] {
      assert a + b == b;
    } else {
      assert (a + b)[0] == a[0];
      assert (a + b)[1..] == a[1..] + b;
      PostsForDateAppend(a[1..], b, date);
      if OnDay(a[0], date) {
        calc {
          PostsForDate(a + b, date);
          [a[0]] + PostsForDate(a[1..] + b, date);
          [a[0]] + (PostsForDate(a[1..], date) + PostsForDate(b, date));
          ([a[0]] + PostsForDate(a[1..], date)) + PostsForDate(b, date);
        }
      }
    }
  }

  /** One post makes a bucket of itself exactly when it is on that day; an
      undated post is in no bucket. */
  lemma PostsForDateSingle(p: CalendarPost, date: Instant)
    ensures PostsForDate([p], date) == if OnDay(p, date) then [p] else []
    ensures EffectiveDate(p).None? ==> PostsForDate([p], date) == []
  {
    assert [p][1..] == [];
  }

  /** A grid cell: its posts are always the bucket of its own date. */
  function Cell(date: Instant, isCurrentMonth: bool, isToday: bool, posts: seq<CalendarPost>): (c: CalendarDay) {
    CalendarDay(date, isCurrentMonth, isToday, PostsForDate(posts, date))
  }

  // ---------------------------------------------------------------------------
  // The month grid

  function FirstOfMonth(t: Instant): (d: Date)
    requires ValidDate(t.date)
    ensures ValidDate(d) && d.day == 1
  {
    StartOfMonth(t).date
  }

  /** `adjustedDays`: how many days of the previous month lead the grid. */
  function LeadingCount(t: Instant, firstWeekday: int): (n: int)
    requires ValidDate(t.date) && 1 <= firstWeekday <= 7
    ensures 0 <= n <= 6
    ensures n == (Weekday(FirstOfMonth(t)) - firstWeekday) % 7
  {
    var daysToAdd := Weekday(StartOfMonth(t).date) - firstWeekday;
    if daysToAdd < 0 then daysToAdd + 7 else daysToAdd
  }

  function MonthLength(t: Instant): (n: int)
    ensures 28 <= n <= 31
  {
    DaysInMonth(t.date.year, t.date.month)
  }

  /** The `lead` days before `first` (the first of the month), oldest first,
      at midnight, neither in the month nor today. */
  function LeadingCells(first: Date, lead: nat, posts: seq<CalendarPost>): (r: seq<CalendarDay>)
    requires ValidDate(first)
    ensures |r| == lead
    ensures forall k :: 0 <= k < |r| ==>
      && r[k].date == Instant(AddDays(first, k - lead), 0) && ValidInstant(r[k].date)
      && !r[k].isCurrentMonth && !r[k].isToday && r[k].posts == PostsForDate(posts, r[k].date)
  {
    var r := seq(lead, k => Cell(Instant(AddDays(first, k - lead), 0), false, false, posts));
    assert forall k :: 0 <= k < lead ==> r[k] == Cell(Instant(AddDays(first, k - lead), 0), false, false, posts);
    r
  }

  /** Every day of the month at midnight, in the month, today when it is. */
  function MonthCells(t: Instant, now: Instant, posts: seq<CalendarPost>): (r: seq<CalendarDay>)
    requires ValidDate(t.date)
    ensures |r| == MonthLength(t)
    ensures forall k :: 0 <= k < |r| ==>
      && r[k].date == Instant(Date(t.date.year, t.date.month, k + 1), 0) && ValidInstant(r[k].date)
      && r[k].isCurrentMonth && (r[k].isToday <==> IsToday(r[k].date, now))
      && r[k].posts == PostsForDate(posts, r[k].date)
  {
    seq(MonthLength(t), k requires 0 <= k < MonthLength(t) =>
      var date := Instant(Date(t.date.year, t.date.month, k + 1), 0);
      Cell(date, true, IsToday(date, now), posts))
  }

  /** 23:59:59 on the month's last day, which is what `endOfMonth` gives. */
  function LastSecondOfMonth(t: Instant): (r: Instant)
    requires ValidDate(t.date)
    ensures ValidInstant(r)
  {
    Instant(Date(t.date.year, t.date.month, MonthLength(t)), SecondsPerDay - 1)
  }

  /** `count` days from `first` (the month's last second moved on by a day),
      at that time of day, neither in the month nor today. */
  function TrailingCells(first: Instant, count: nat, posts: seq<CalendarPost>): (r: seq<CalendarDay>)
    requires ValidInstant(first)
    ensures |r| == count
    ensures forall k :: 0 <= k < |r| ==>
      && r[k].date == Instant(AddDays(first.date, k), first.second) && ValidInstant(r[k].date)
      && !r[k].isCurrentMonth && !r[k].isToday && r[k].posts == PostsForDate(posts, r[k].date)
  {
    var r := seq(count, k => Cell(Instant(AddDays(first.date, k), first.second), false, false, posts));
    assert forall k :: 0 <= k < count ==> r[k] == Cell(Instant(AddDays(first.date, k), first.second), false, false, posts);
    r
  }

  function TrailingCount(t: Instant, firstWeekday: int): (n: nat)
    requires ValidDate(t.date) && 1 <= firstWeekday <= 7
    ensures 5 <= n <= 14
  {
    42 - LeadingCount(t, firstWeekday) - MonthLength(t)
  }

  /** The month view: leading days, the month, and trailing days. */
  function MonthGrid(t: Instant, firstWeekday: int, now: Instant, posts: seq<CalendarPost>): (r: seq<CalendarDay>)
    requires ValidDate(t.date) && 1 <= firstWeekday <= 7
    ensures |r| == 42
    ensures forall k :: 0 <= k < |r| ==> ValidInstant(r[k].date) && r[k].posts == PostsForDate(posts, r[k].date)
  {
    LeadingCells(FirstOfMonth(t), LeadingCount(t, firstWeekday), posts) + MonthCells(t, now, posts)
      + TrailingCells(AddDaysTo(LastSecondOfMonth(t), 1), TrailingCount(t, firstWeekday), posts)
  }

  /** The week view: seven days from the Monday on or before `t`, at
      midnight, all in the period, today when it is. */
  function WeekGrid(t: Instant, now: Instant, posts: seq<CalendarPost>): (r: seq<CalendarDay>)
    requires ValidDate(t.date)
    ensures |r| == 7
    ensures forall k :: 0 <= k < |r| ==>
      && r[k].date == Instant(AddDays(StartOfWeek(t, 1).date, k), 0) && ValidInstant(r[k].date)
      && r[k].isCurrentMonth && (r[k].isToday <==> IsToday(r[k].date, now))
      && r[k].posts == PostsForDate(posts, r[k].date)
  {
    var start := StartOfWeek(t, 1);
    var r := seq(7, k => Cell(AddDaysTo(start, k), true, IsToday(AddDaysTo(start, k), now), posts));
    assert forall k :: 0 <= k < 7 ==> r[k] == Cell(AddDaysTo(start, k), true, IsToday(AddDaysTo(start, k), now), posts);
    r
  }

  function Grid(viewType: CalendarViewType, t: Instant, firstWeekday: int, now: Instant, posts: seq<CalendarPost>): seq<CalendarDay>
    requires ValidDate(t.date) && 1 <= firstWeekday <= 7
  {
    if viewType == Month then MonthGrid(t, firstWeekday, now, posts) else WeekGrid(t, now, posts)
  }

  // ---------------------------------------------------------------------------
  // Properties of the month grid

  /** Within a month, the first plus `j` days is day `j + 1`. */
  lemma AddDaysWithinMonth(first: Date, j: int)
    requires ValidDate(first) && first.day == 1 && 0 <= j < DaysInMonth(first.year, first.month)
    ensures AddDays(first, j) == Date(first.year, first.month, j + 1)
  {
    DayNumberAddDays(first, j);
    DayNumberInjective(AddDays(first, j), Date(first.year, first.month, j + 1));
  }

  /** Cell `k` of the month grid falls `k - lead` days after the first of the
      month: the grid is a run of consecutive days. */
  lemma MonthGridDates(t: Instant, firstWeekday: int, now: Instant, posts: seq<CalendarPost>, k: int)
    requires ValidDate(t.date) && 1 <= firstWeekday <= 7 && 0 <= k < 42
    ensures |MonthGrid(t, firstWeekday, now, posts)| == 42
    ensures MonthGrid(t, firstWeekday, now, posts)[k].date.date == AddDays(FirstOfMonth(t), k - LeadingCount(t, firstWeekday))
  {
    var g := MonthGrid(t, firstWeekday, now, posts);
    var lead := LeadingCount(t, firstWeekday);
    var n := MonthLength(t);
    var first := FirstOfMonth(t);
    var leading := LeadingCells(FirstOfMonth(t), lead, posts);
    var month := MonthCells(t, now, posts);
    var trailing := TrailingCells(AddDaysTo(LastSecondOfMonth(t), 1), TrailingCount(t, firstWeekday), posts);
    assert g == leading + month + trailing;
    if k < lead {
      assert g[k] == leading[k];
    } else if k < lead + n {
      assert g[k] == month[k - lead];
      AddDaysWithinMonth(first, k - lead);
    } else {
      assert g[k] == trailing[k - lead - n];
      AddDaysWithinMonth(first, n - 1);
      AddDaysAdditive(first, n - 1, k - lead - n + 1);
    }
  }

  /** The month grid has 42 cells and each cell is the day after the one
      before it. */
  lemma MonthGridShape(t: Instant, firstWeekday: int, now: Instant, posts: seq<CalendarPost>, k: int)
    requires ValidDate(t.date) && 1 <= firstWeekday <= 7 && 0 < k < 42
    ensures |MonthGrid(t, firstWeekday, now, posts)| == 42
    ensures MonthGrid(t, firstWeekday, now, posts)[k].date.date == NextDay(MonthGrid(t, firstWeekday, now, posts)[k - 1].date.date)
  {
    var lead := LeadingCount(t, firstWeekday);
    MonthGridDates(t, firstWeekday, now, posts, k - 1);
    MonthGridDates(t, firstWeekday, now, posts, k);
    AddDaysNext(FirstOfMonth(t), k - 1 - lead);
  }

  /** The grid's first cell falls on `firstWeekday`. */
  lemma MonthGridStartsOnWeekday(t: Instant, firstWeekday: int, now: Instant, posts: seq<CalendarPost>)
    requires ValidDate(t.date) && 1 <= firstWeekday <= 7
    ensures |MonthGrid(t, firstWeekday, now, posts)| == 42
    ensures Weekday(MonthGrid(t, firstWeekday, now, posts)[0].date.date) == firstWeekday
  {
    var lead := LeadingCount(t, firstWeekday);
    var first := FirstOfMonth(t);
    MonthGridDates(t, firstWeekday, now, posts, 0);
    var d0 := AddDays(first, -lead);
    assert MonthGrid(t, firstWeekday, now, posts)[0].date.date == d0;
    WeekdayAddDays(first, -lead);
    StepBackToWeekday(Weekday(first), firstWeekday, lead);
    assert Weekday(d0) - 1 == firstWeekday - 1;
  }

  /** Stepping back `(w - f) % 7` days from weekday `w` lands on weekday `f`. */
  lemma StepBackToWeekday(w: int, f: int, lead: int)
    requires 1 <= w <= 7 && 1 <= f <= 7 && lead == (w - f) % 7
    ensures (w - 1 - lead) % 7 == f - 1
  {
    if w >= f {
      assert lead == w - f;
    } else {
      assert lead == w - f + 7;
      assert w - 1 - lead == (f - 1) - 7;
    }
  }

  /** Cells are on pairwise different days, ordered by day. */
  lemma MonthGridDistinct(t: Instant, firstWeekday: int, now: Instant, posts: seq<CalendarPost>, i: int, j: int)
    requires ValidDate(t.date) && 1 <= firstWeekday <= 7 && 0 <= i < 42 && 0 <= j < 42
    ensures |MonthGrid(t, firstWeekday, now, posts)| == 42
    ensures DayNumber(MonthGrid(t, firstWeekday, now, posts)[j].date.date)
         == DayNumber(MonthGrid(t, firstWeekday, now, posts)[i].date.date) + (j - i)
    ensures i != j ==> !SameCalendarDay(MonthGrid(t, firstWeekday, now, posts)[i], MonthGrid(t, firstWeekday, now, posts)[j])
  {
    var g := MonthGrid(t, firstWeekday, now, posts);
    var lead := LeadingCount(t, firstWeekday);
    MonthGridDates(t, firstWeekday, now, posts, i);
    MonthGridDates(t, firstWeekday, now, posts, j);
    DaysApart(FirstOfMonth(t), g[i].date.date, g[j].date.date, i - lead, j - lead);
  }

  /** Two dates reached from one start lie as many days apart as their
      offsets. */
  lemma DaysApart(first: Date, a: Date, b: Date, x: int, y: int)
    requires ValidDate(first) && a == AddDays(first, x) && b == AddDays(first, y)
    ensures DayNumber(b) == DayNumber(a) + (y - x)
  {
    DayNumberAddDays(first, x);
    DayNumberAddDays(first, y);
  }

  /** The flags: the leading cells are the previous month and never today; the
      month's days follow in order, each at midnight and today exactly when it
      is; the trailing cells are the next month and never today. */
  lemma MonthGridFlags(t: Instant, firstWeekday: int, now: Instant, posts: seq<CalendarPost>, k: int)
    requires ValidDate(t.date) && 1 <= firstWeekday <= 7 && 0 <= k < 42
    ensures |MonthGrid(t, firstWeekday, now, posts)| == 42
    ensures var c := MonthGrid(t, firstWeekday, now, posts)[k];
            var lead := LeadingCount(t, firstWeekday);
            && (c.isCurrentMonth <==> lead <= k < lead + MonthLength(t))
            && (c.isCurrentMonth ==> c.date == Instant(Date(t.date.year, t.date.month, k - lead + 1), 0)
                                     && (c.isToday <==> IsToday(c.date, now)))
            && (!c.isCurrentMonth ==> !c.isToday)
            && (k < lead ==> c.date.second == 0)
            && (lead + MonthLength(t) <= k ==> c.date.second == SecondsPerDay - 1)
  {
    var g := MonthGrid(t, firstWeekday, now, posts);
    var lead := LeadingCount(t, firstWeekday);
    var n := MonthLength(t);
    var leading := LeadingCells(FirstOfMonth(t), lead, posts);
    var month := MonthCells(t, now, posts);
    var trailing := TrailingCells(AddDaysTo(LastSecondOfMonth(t), 1), TrailingCount(t, firstWeekday), posts);
    assert g == leading + month + trailing;
    if k < lead {
      assert g[k] == leading[k];
    } else if k < lead + n {
      assert g[k] == month[k - lead];
    } else {
      assert g[k] == trailing[k - lead - n];
    }
  }

  /** Each day of the month appears in exactly one cell, and that cell is the
      one flagged as belonging to the month. */
  lemma MonthDayAppearsOnce(t: Instant, firstWeekday: int, now: Instant, posts: seq<CalendarPost>, day: int)
    requires ValidDate(t.date) && 1 <= firstWeekday <= 7 && 1 <= day <= MonthLength(t)
    ensures var g := MonthGrid(t, firstWeekday, now, posts);
            var k := LeadingCount(t, firstWeekday) + day - 1;
            && |g| == 42 && 0 <= k < 42
            && g[k].date.date == Date(t.date.year, t.date.month, day) && g[k].isCurrentMonth
            && forall j :: 0 <= j < 42 && g[j].date.date == Date(t.date.year, t.date.month, day) ==> j == k
  {
    var g := MonthGrid(t, firstWeekday, now, posts);
    var k := LeadingCount(t, firstWeekday) + day - 1;
    MonthGridFlags(t, firstWeekday, now, posts, k);
    forall j | 0 <= j < 42 && g[j].date.date == Date(t.date.year, t.date.month, day)
      ensures j == k
    {
      MonthGridDistinct(t, firstWeekday, now, posts, j, k);
    }
  }

  /** A cell holds exactly the posts dated on its day, and a post is in at
      most one cell of the grid. */
  lemma MonthGridPosts(t: Instant, firstWeekday: int, now: Instant, posts: seq<CalendarPost>, p: CalendarPost, i: int, j: int)
    requires ValidDate(t.date) && 1 <= firstWeekday <= 7 && 0 <= i < 42 && 0 <= j < 42
    ensures |MonthGrid(t, firstWeekday, now, posts)| == 42
    ensures var g := MonthGrid(t, firstWeekday, now, posts);
            (p in g[i].posts <==> p in posts && EffectiveDate(p).Some? && EffectiveDate(p).value.date == g[i].date.date)
    ensures var g := MonthGrid(t, firstWeekday, now, posts);
            p in g[i].posts && p in g[j].posts ==> i == j
  {
    MonthGridDistinct(t, firstWeekday, now, posts, i, j);
  }

  /** February 2026 begins on a Sunday; with Sunday as the first weekday the
      grid leads with no day of January and trails with 14 days of March, so
      its last cell is 14 March. */
  lemma FebruaryTrailsTwoWeeks(now: Instant, posts: seq<CalendarPost>)
    ensures var t := Instant(Date(2026, 2, 10), 0);
            var g := MonthGrid(t, 1, now, posts);
            LeadingCount(t, 1) == 0 && TrailingCount(t, 1) == 14
            && |g| == 42 && g[41].date == Instant(Date(2026, 3, 14), SecondsPerDay - 1)
  {
    var t := Instant(Date(2026, 2, 10), 0);
    WeekdayAnchors();
    assert FirstOfMonth(t) == Date(2026, 2, 1) && MonthLength(t) == 28;
    MonthGridDates(t, 1, now, posts, 41);
    MonthGridFlags(t, 1, now, posts, 41);
    FebruaryFirstPlus41();
  }

  /** Forty-one days after 1 February 2026 is 14 March 2026. */
  lemma FebruaryFirstPlus41()
    ensures AddDays(Date(2026, 2, 1), 41) == Date(2026, 3, 14)
  {
    var first := Date(2026, 2, 1);
    DayNumberAddDays(first, 41);
    assert DayNumber(Date(2026, 3, 14)) == DayNumber(first) + 41;
    DayNumberInjective(AddDays(first, 41), Date(2026, 3, 14));
  }

  // ---------------------------------------------------------------------------
  // Properties of the week grid

  /** The week view is seven consecutive days from a Monday, all flagged as
      belonging to the period, the first at most six days before `t`. */
  lemma WeekGridShape(t: Instant, now: Instant, posts: seq<CalendarPost>, k: int)
    requires ValidDate(t.date) && 0 <= k < 7
    ensures var g := WeekGrid(t, now, posts);
            && Weekday(g[0].date.date) == 2
            && DayNumber(t.date) - 6 <= DayNumber(g[0].date.date) <= DayNumber(t.date)
            && DayNumber(g[k].date.date) == DayNumber(g[0].date.date) + k
            && g[k].date.second == 0 && g[k].isCurrentMonth
            && (g[k].isToday <==> IsToday(g[k].date, now))
  {
    var start := StartOfWeek(t, 1).date;
    StartOfWeekProperties(t, 1);
    DayNumberAddDays(start, k);
    DayNumberAddDays(start, 0);
  }

  // ---------------------------------------------------------------------------
  // Navigation

  /** `previousPeriod` / `nextPeriod`: a month (keeping the time of day and
      clamping the day) or seven days. */
  function ShiftPeriod(t: Instant, viewType: CalendarViewType, direction: int): (r: Instant)
    requires ValidInstant(t)
    ensures ValidInstant(r) && r.second == t.second
    ensures viewType == Week ==> DayNumber(r.date) == DayNumber(t.date) + 7 * direction
    ensures viewType == Month ==> MonthIndex(r.date) == MonthIndex(t.date) + direction
  {
    if viewType == Month then Instant(AddMonths(t.date, direction), t.second)
    else
      DayNumberAddDays(t.date, 7 * direction);
      AddDaysTo(t, 7 * direction)
  }

  /** In the week view next then previous returns to the same instant; in the
      month view it does too unless the day had to be clamped. */
  lemma ShiftPeriodRoundTrip(t: Instant, viewType: CalendarViewType)
    requires ValidInstant(t)
    ensures viewType == Week ==> ShiftPeriod(ShiftPeriod(t, viewType, 1), viewType, -1) == t
    ensures viewType == Month && t.date.day <= 28 ==> ShiftPeriod(ShiftPeriod(t, viewType, 1), viewType, -1) == t
  {
    if viewType == Week {
      AddDaysRoundTrip(t.date, 7);
    } else if t.date.day <= 28 {
      AddMonthsRoundTrip(t.date, 1);
    }
  }

  /** A clamped day is not restored: 31 January comes back as 28 January. */
  lemma ShiftPeriodClampsJanuary()
    ensures ShiftPeriod(ShiftPeriod(Instant(Date(2025, 1, 31), 0), Month, 1), Month, -1) == Instant(Date(2025, 1, 28), 0)
  {
    AddMonthsClamps();
    assert ShiftPeriod(Instant(Date(2025, 1, 31), 0), Month, 1) == Instant(Date(2025, 2, 28), 0);
    assert AddMonths(Date(2025, 2, 28), -1) == Date(2025, 1, 28);
  }

  // ---------------------------------------------------------------------------
  // Building the grids, as `generateCalendarDays` does

  /** The first loop of the month branch: the `lead` days before the start
      of the month, oldest first. */
  method AppendLeadingDays(days: seq<CalendarDay>, startOfMonth: Instant, lead: nat, posts: seq<CalendarPost>)
    returns (r: seq<CalendarDay>)
    requires ValidDate(startOfMonth.date) && startOfMonth.second == 0
    ensures r == days + LeadingCells(startOfMonth.date, lead, posts)
  {
    r := days;
    ghost var leading := LeadingCells(startOfMonth.date, lead, posts);
    for i := lead downto 0
      invariant r == days + leading[..lead - i]
    {
      var date := AddDaysTo(startOfMonth, -(i + 1));
      assert leading[..lead - i] == leading[..lead - i - 1] + [leading[lead - i - 1]];
      r := r + [CalendarDay(date, false, false, PostsForDate(posts, date))];
    }
    assert leading[..lead] == leading;
  }

  /** The second loop: every day of the month, today when it is. */
  method AppendMonthDays(days: seq<CalendarDay>, currentDate: Instant, now: Instant, posts: seq<CalendarPost>)
    returns (r: seq<CalendarDay>)
    requires ValidDate(currentDate.date)
    ensures r == days + MonthCells(currentDate, now, posts)
  {
    r := days;
    var range := DaysInMonth(currentDate.date.year, currentDate.date.month);
    ghost var month := MonthCells(currentDate, now, posts);
    for day := 1 to range + 1
      invariant r == days + month[..day - 1]
    {
      var date := Instant(Date(currentDate.date.year, currentDate.date.month, day), 0);
      var isToday := IsToday(date, now);
      assert month[..day] == month[..day - 1] + [month[day - 1]];
      r := r + [CalendarDay(date, true, isToday, PostsForDate(posts, date))];
    }
    assert month[..range] == month;
  }

  /** The third loop: `remaining` days on from the end of the month. */
  method AppendTrailingDays(days: seq<CalendarDay>, endOfMonth: Instant, remaining: nat, posts: seq<CalendarPost>)
    returns (r: seq<CalendarDay>)
    requires ValidInstant(endOfMonth)
    ensures r == days + TrailingCells(AddDaysTo(endOfMonth, 1), remaining, posts)
  {
    r := days;
    ghost var trailing := TrailingCells(AddDaysTo(endOfMonth, 1), remaining, posts);
    for i := 1 to remaining + 1
      invariant r == days + trailing[..i - 1]
    {
      var date := AddDaysTo(endOfMonth, i);
      AddDaysAdditive(endOfMonth.date, 1, i - 1);
      assert trailing[..i] == trailing[..i - 1] + [trailing[i - 1]];
      r := r + [CalendarDay(date, false, false, PostsForDate(posts, date))];
    }
    assert trailing[..remaining] == trailing;
  }

  /** The month branch of `generateCalendarDays`: the leading days counted
      back from the start of the month, the month's days set one by one, and
      trailing days counted on from the end of the month until there are 42. */
  method BuildMonthDays(currentDate: Instant, firstWeekday: int, now: Instant, posts: seq<CalendarPost>)
    returns (days: seq<CalendarDay>)
    requires ValidInstant(currentDate) && 1 <= firstWeekday <= 7
    ensures days == MonthGrid(currentDate, firstWeekday, now, posts)
  {
    days := [];
    var startOfMonth := StartOfMonth(currentDate);
    var startWeekday := Weekday(startOfMonth.date);
    var daysToAdd := startWeekday - firstWeekday;
    var adjustedDays := if daysToAdd < 0 then daysToAdd + 7 else daysToAdd;
    ghost var leading := LeadingCells(FirstOfMonth(currentDate), LeadingCount(currentDate, firstWeekday), posts);
    ghost var month := MonthCells(currentDate, now, posts);
    assert startOfMonth.date == FirstOfMonth(currentDate) && adjustedDays == LeadingCount(currentDate, firstWeekday);
    days := AppendLeadingDays(days, startOfMonth, adjustedDays, posts);
    assert days == leading;
    days := AppendMonthDays(days, currentDate, now, posts);
    assert days == leading + month;
    var remaining := 42 - |days|;
    var endOfMonth := EndOfMonth(currentDate);
    assert remaining == TrailingCount(currentDate, firstWeekday) && endOfMonth == LastSecondOfMonth(currentDate);
    if remaining > 0 {
      days := AppendTrailingDays(days, endOfMonth, remaining, posts);
    }
  }

  /** The week branch of `generateCalendarDays`: seven days from the start of
      the week. */
  method BuildWeekDays(currentDate: Instant, now: Instant, posts: seq<CalendarPost>) returns (days: seq<CalendarDay>)
    requires ValidInstant(currentDate)
    ensures days == WeekGrid(currentDate, now, posts)
  {
    days := [];
    var startOfWeek := StartOfWeek(currentDate, 1);
    ghost var week := WeekGrid(currentDate, now, posts);
    for i := 0 to 7
      invariant days == week[..i]
    {
      var date := AddDaysTo(startOfWeek, i);
      var isToday := IsToday(date, now);
      days := days + [CalendarDay(date, true, isToday, PostsForDate(posts, date))];
    }
    assert week[..7] == week;
  }

  // ---------------------------------------------------------------------------
  // The view model

  class CalendarViewModel {
    var currentDate: Instant
    var viewType: CalendarViewType
    var calendarDays: seq<CalendarDay>
    var posts: seq<CalendarPost>
    var isLoading: bool
    var errorMessage: Option<string>

    ghost predicate Valid()
      reads this
    {
      ValidInstant(currentDate)
    }

    /** A fresh model shows the month of `now` and has nothing loaded. */
    constructor (now: Instant)
      requires ValidInstant(now)
      ensures Valid() && currentDate == now && viewType == Month
      ensures calendarDays == [] && posts == [] && !isLoading && errorMessage.None?
    {
      currentDate := now;
      viewType := Month;
      calendarDays := [];
      posts := [];
      isLoading := false;
      errorMessage := None;
    }

    /** `generateCalendarDays`. */
    method GenerateCalendarDays(firstWeekday: int, now: Instant)
      requires Valid() && 1 <= firstWeekday <= 7
      modifies this`calendarDays
      ensures calendarDays == Grid(viewType, currentDate, firstWeekday, now, posts)
    {
      var days;
      if viewType == Month {
        days := BuildMonthDays(currentDate, firstWeekday, now, posts);
      } else {
        days := BuildWeekDays(currentDate, now, posts);
      }
      calendarDays := days;
    }

    /** `loadCalendar` once the request for the current period has finished
        with `response`: on success the posts are replaced and the grid is
        rebuilt; on failure only the error message changes. The loading flag
        is cleared either way. */
    method LoadCalendar(response: Result<seq<CalendarPost>, string>, firstWeekday: int, now: Instant)
      requires Valid() && 1 <= firstWeekday <= 7
      modifies this`posts, this`calendarDays, this`errorMessage, this`isLoading
      ensures Valid() && !isLoading
      ensures response.Success? ==>
        posts == response.value && calendarDays == Grid(viewType, currentDate, firstWeekday, now, posts)
        && errorMessage == old(errorMessage)
      ensures response.Failure? ==>
        posts == old(posts) && calendarDays == old(calendarDays) && errorMessage == Some(response.error)
    {
      isLoading := true;
      if response.Success? {
        posts := response.value;
        GenerateCalendarDays(firstWeekday, now);
      } else {
        errorMessage := Some(response.error);
      }
      isLoading := false;
    }

    /** `previousPeriod` (the reload it starts is a separate `LoadCalendar`). */
    method PreviousPeriod()
      requires Valid()
      modifies this`currentDate
      ensures Valid() && currentDate == ShiftPeriod(old(currentDate), viewType, -1)
    {
      if viewType == Month {
        currentDate := Instant(AddMonths(currentDate.date, -1), currentDate.second);
      } else {
        currentDate := AddDaysTo(currentDate, -7);
      }
    }

    /** `nextPeriod`. */
    method NextPeriod()
      requires Valid()
      modifies this`currentDate
      ensures Valid() && currentDate == ShiftPeriod(old(currentDate), viewType, 1)
    {
      if viewType == Month {
        currentDate := Instant(AddMonths(currentDate.date, 1), currentDate.second);
      } else {
        currentDate := AddDaysTo(currentDate, 7);
      }
    }

    /** `goToToday`. */
    method GoToToday(now: Instant)
      requires ValidInstant(now)
      modifies this`currentDate
      ensures Valid() && currentDate == now
    {
      currentDate := now;
    }
  }
}
