/** The server side of the calendar: `CalendarController::__invoke`, which
    picks a date window, selects the user's posts in it and echoes the
    window back as the `period` block. */
module CalendarController {
  import opened Wrappers
  import opened Dates
  import opened JsonValues
  import opened PostModels
  import opened AccountModels
  import opened TagModels
  import opened ServerModels
  import opened CalendarModels
  import opened CalendarView
  import Sorting

  /** The query string; every field may be absent. */
  datatype CalendarQuery = CalendarQuery(date: Option<string>, kind: Option<string>, accountId: Option<int>, tagId: Option<int>)

  /** The inclusive bounds of the posts asked for. */
  datatype Window = Window(start: Instant, end: Instant)

  /** `startOfWeek()` .. `endOfWeek()`: Monday midnight to Sunday 23:59:59 of
      the week holding `t`. */
  function WeekWindow(t: Instant): (w: Window)
    requires ValidDate(t.date)
    ensures ValidInstant(w.start) && ValidInstant(w.end)
    ensures w.start == StartOfWeek(t, 1)
    ensures Weekday(w.start.date) == 2 && w.start.second == 0
    ensures DayNumber(t.date) - 6 <= DayNumber(w.start.date) <= DayNumber(t.date)
    ensures DayNumber(w.end.date) == DayNumber(w.start.date) + 6 && w.end.second == SecondsPerDay - 1
  {
    var start := StartOfWeek(t, 1);
    StartOfWeekProperties(t, 1);
    DayNumberAddDays(start.date, 6);
    Window(start, Instant(AddDays(start.date, 6), SecondsPerDay - 1))
  }

  /** `startOfMonth()->subDays(7)` .. `endOfMonth()->addDays(7)`. */
  function MonthWindow(t: Instant): (w: Window)
    requires ValidDate(t.date)
    ensures ValidInstant(w.start) && ValidInstant(w.end)
    ensures DayNumber(w.start.date) == DayNumber(FirstOfMonth(t)) - 7 && w.start.second == 0
    ensures DayNumber(w.end.date) == DayNumber(FirstOfMonth(t)) + MonthLength(t) - 1 + 7
    ensures w.end.second == SecondsPerDay - 1
  {
    var first := StartOfMonth(t);
    var last := EndOfMonth(t);
    DayNumberAddDays(first.date, -7);
    DayNumberAddDays(last.date, 7);
    Window(AddDaysTo(first, -7), AddDaysTo(last, 7))
  }

  /** `type` defaults to "month". */
  function Kind(q: CalendarQuery): string {
    if q.kind.Some? then q.kind.value else "month"
  }

  /** Only "week" selects the week window; any other type gets the month's. */
  function WindowFor(t: Instant, kind: string): (w: Window)
    requires ValidDate(t.date)
    ensures kind == "week" ==> w == WeekWindow(t)
    ensures kind != "week" ==> w == MonthWindow(t)
  {
    if kind == "week" then WeekWindow(t) else MonthWindow(t)
  }

  /** `date` defaults to today; it is read as `Y-m-d` at midnight. A date that
      does not parse makes the request fail. */
  function RequestDate(q: CalendarQuery, today: Date): (r: Option<Instant>)
    requires ValidDate(today) && 1 <= today.year <= 9999
    ensures q.date.None? ==> r == Some(Instant(today, 0))
    ensures q.date.Some? ==> (r.Some? <==> ParseYmd(q.date.value).Some?)
    ensures r.Some? ==> ValidInstant(r.value) && 0 <= r.value.date.year <= 9999
  {
    FormatParseYmd(today);
    var parsed := ParseYmd(if q.date.Some? then q.date.value else FormatYmd(today));
    if parsed.Some? then Some(Instant(parsed.value, 0)) else None
  }

  /** The rows the endpoint returns: the user's, scheduled, scheduled or
      published inside the window, and attached to the requested account and
      tag when those are given. */
  predicate CalendarMatch(p: ServerPost, userId: int, w: Window, q: CalendarQuery) {
    && p.userId == userId
    && p.scheduledAt.Some?
    && (Between(p.scheduledAt, w.start, w.end) || Between(p.publishedAt, w.start, w.end))
    && (q.accountId.Some? ==> AttachedAccount(p, q.accountId.value))
    && (q.tagId.Some? ==> AttachedTag(p, q.tagId.value))
  }

  function CalendarKeep(userId: int, w: Window, q: CalendarQuery): ServerPost -> bool {
    (p: ServerPost) => CalendarMatch(p, userId, w, q)
  }

  /** The builder: the fixed conditions, then one `whereHas` per filter given. */
  method BuildConditions(userId: int, w: Window, q: CalendarQuery) returns (conds: seq<Condition>)
    ensures forall p :: HoldsAll(conds, p) <==> CalendarMatch(p, userId, w, q)
  {
    conds := [OwnedBy(userId), ScheduledNotNull, ScheduledOrPublishedBetween(w.start, w.end)];
    ghost var base := conds;
    if q.accountId.Some? {
      conds := conds + [HasAccount(q.accountId.value)];
    }
    ghost var withAccount := conds;
    if q.tagId.Some? {
      conds := conds + [HasTag(q.tagId.value)];
    }
    forall p
      ensures HoldsAll(conds, p) <==> CalendarMatch(p, userId, w, q)
    {
      assert HoldsAll(base, p) <==> Holds(base[0], p) && Holds(base[1], p) && Holds(base[2], p);
      assert q.accountId.Some? ==> withAccount[3] == HasAccount(q.accountId.value);
      assert HoldsAll(withAccount, p) <==> HoldsAll(base, p) && (q.accountId.Some? ==> AttachedAccount(p, q.accountId.value)) by {
        if q.accountId.Some? {
          assert forall i :: 0 <= i < 3 ==> withAccount[i] == base[i];
        }
      }
      assert HoldsAll(conds, p) <==> HoldsAll(withAccount, p) && (q.tagId.Some? ==> AttachedTag(p, q.tagId.value)) by {
        if q.tagId.Some? {
          assert conds[|withAccount|] == HasTag(q.tagId.value);
          assert forall i :: 0 <= i < |withAccount| ==> conds[i] == withAccount[i];
        }
      }
    }
  }

  // ---------------------------------------------------------------------------
  // Response items

  datatype AccountItem = AccountItem(id: int, name: string, provider: string, image: Option<string>)
  datatype TagItem = TagItem(id: int, name: string, hexColor: string)

  /** One entry of `posts`; `content` is whatever JSON the first block holds. */
  datatype CalendarItem = CalendarItem(
    id: int,
    status: int,
    scheduledAt: Option<Instant>,
    publishedAt: Option<Instant>,
    content: Option<Json>,
    accounts: seq<AccountItem>,
    tags: seq<TagItem>)

  datatype CalendarResponse = CalendarResponse(posts: seq<CalendarItem>, period: CalendarPeriod)

  /** `$versionContent[0]` of a decoded PHP array: the first element of a
      list, or the entry under key "0" of an object. */
  function FirstBlock(c: Json): (r: Option<Json>)
    ensures c.JArr? ==> (r.Some? <==> c.items != []) && (r.Some? ==> r.value == c.items[0])
    ensures c.JObj? ==> (r.Some? <==> "0" in c.fields) && (r.Some? ==> r.value == c.fields["0"])
    ensures !c.JArr? && !c.JObj? ==> r.None?
  {
    if c.JArr? && c.items != [] then Some(c.items[0])
    else if c.JObj? && "0" in c.fields then Some(c.fields["0"])
    else None
  }

  /** The item's `content`: the first version's first block's non-null
      `value`, else null. */
  function ContentOf(p: ServerPost): (r: Option<Json>)
    ensures r.Some? ==> r.value != JNull
    ensures p.versions == [] ==> r.None?
    ensures r.Some? ==> var b := FirstBlock(p.versions[0].content);
                        b.Some? && b.value.JObj? && "value" in b.value.fields && b.value.fields["value"] == r.value
  {
    if p.versions == [] then None
    else
      var block := FirstBlock(p.versions[0].content);
      if block.Some? && block.value.JObj? && "value" in block.value.fields && block.value.fields["value"] != JNull
      then Some(block.value.fields["value"])
      else None
  }

  function AccountItemOf(a: ServerAccount): AccountItem {
    AccountItem(a.id, a.name, a.provider, a.imageUrl)
  }

  function TagItemOf(t: ServerTag): TagItem {
    TagItem(t.id, t.name, t.hexColor)
  }

  /** The `map` callback over the selected rows. */
  function ItemOf(p: ServerPost): (i: CalendarItem)
    ensures i.id == p.id && StatusFromCode(i.status) == Some(p.status)
    ensures i.scheduledAt == p.scheduledAt && i.publishedAt == p.publishedAt && i.content == ContentOf(p)
    ensures |i.accounts| == |p.accounts| && forall k :: 0 <= k < |p.accounts| ==> i.accounts[k].id == p.accounts[k].id
    ensures |i.tags| == |p.tags| && forall k :: 0 <= k < |p.tags| ==> i.tags[k].id == p.tags[k].id
  {
    StatusCodeRoundTrip(p.status, 0);
    var accounts := seq(|p.accounts|, k requires 0 <= k < |p.accounts| => AccountItemOf(p.accounts[k]));
    var tags := seq(|p.tags|, k requires 0 <= k < |p.tags| => TagItemOf(p.tags[k]));
    CalendarItem(p.id, StatusCode(p.status), p.scheduledAt, p.publishedAt, ContentOf(p), accounts, tags)
  }

  /** The content block the app writes (`{type: text, value: v}`, see
      `RequestToJson`) is the content the calendar echoes back. */
  lemma ContentOfClientVersion(p: ServerPost, v: string)
    requires p.versions != []
    requires p.versions[0].content == JArr([StringDict(map["type" := "text", "value" := v])])
    ensures ContentOf(p) == Some(JStr(v))
  {
    var block := StringDict(map["type" := "text", "value" := v]);
    assert "value" in block.fields;
  }

  /** `orderBy('scheduled_at')->get()->map(...)` over rows that all have a
      scheduled date: one item per row, in ascending scheduled order. */
  method OrderedItems(selected: seq<ServerPost>) returns (items: seq<CalendarItem>)
    requires forall p :: p in selected ==> p.scheduledAt.Some?
    ensures |items| == |selected|
    ensures forall i :: i in items <==> exists p :: p in selected && i == ItemOf(p)
    ensures forall i :: 0 <= i < |items| ==> items[i].scheduledAt.Some?
    ensures forall i, j :: 0 <= i < j < |items| ==>
              InstantKey(items[i].scheduledAt.value) <= InstantKey(items[j].scheduledAt.value)
  {
    PostOrdersArePreorders();
    var ordered := Sorting.SortBy(selected, ScheduledLeq);
    Sorting.SortBySorted(selected, ScheduledLeq);
    items := seq(|ordered|, k requires 0 <= k < |ordered| => ItemOf(ordered[k]));
    MappedMembers(selected, ordered, items);
    MappedInOrder(selected, ordered, items);
  }

  /** Mapping a rearrangement of the rows gives one item per row and no
      other. */
  lemma MappedMembers(selected: seq<ServerPost>, ordered: seq<ServerPost>, items: seq<CalendarItem>)
    requires multiset(ordered) == multiset(selected)
    requires |items| == |ordered| && forall k :: 0 <= k < |ordered| ==> items[k] == ItemOf(ordered[k])
    ensures forall i :: i in items <==> exists p :: p in selected && i == ItemOf(p)
  {
    forall i
      ensures i in items <==> exists p :: p in selected && i == ItemOf(p)
    {
      if i in items {
        var k :| 0 <= k < |items| && items[k] == i;
        assert ordered[k] in multiset(selected);
      }
      if exists p :: p in selected && i == ItemOf(p) {
        var p :| p in selected && i == ItemOf(p);
        assert p in multiset(ordered);
        var k :| 0 <= k < |ordered| && ordered[k] == p;
        assert items[k] == i;
      }
    }
  }

  /** Mapping rows sorted by scheduled date keeps them in that order. */
  lemma MappedInOrder(selected: seq<ServerPost>, ordered: seq<ServerPost>, items: seq<CalendarItem>)
    requires forall p :: p in selected ==> p.scheduledAt.Some?
    requires multiset(ordered) == multiset(selected) && Sorting.SortedBy(ordered, ScheduledLeq)
    requires |items| == |ordered| && forall k :: 0 <= k < |ordered| ==> items[k] == ItemOf(ordered[k])
    ensures forall i :: 0 <= i < |items| ==> items[i].scheduledAt.Some?
    ensures forall i, j :: 0 <= i < j < |items| ==>
              InstantKey(items[i].scheduledAt.value) <= InstantKey(items[j].scheduledAt.value)
  {
    forall k | 0 <= k < |ordered|
      ensures ordered[k].scheduledAt.Some?
    {
      assert ordered[k] in multiset(selected);
    }
    forall i, j | 0 <= i < j < |items|
      ensures InstantKey(items[i].scheduledAt.value) <= InstantKey(items[j].scheduledAt.value)
    {
      assert ScheduledLeq(ordered[i], ordered[j]);
    }
  }

  /** `__invoke`. The failure is the status of the exception an unparseable
      `date` raises. */
  method Invoke(rows: seq<ServerPost>, userId: int, q: CalendarQuery, today: Date) returns (r: Result<CalendarResponse, int>)
    requires ValidDate(today) && 1 <= today.year <= 9999
    ensures r.Failure? <==> RequestDate(q, today).None?
    ensures r.Success? ==>
      var t := RequestDate(q, today).value;
      var w := WindowFor(t, Kind(q));
      && r.value.period == CalendarPeriod(FormatYmd(w.start.date), FormatYmd(w.end.date), Kind(q))
      && (forall i :: i in r.value.posts <==> exists p :: p in rows && CalendarMatch(p, userId, w, q) && i == ItemOf(p))
      && |r.value.posts| == |Filter(rows, CalendarKeep(userId, w, q))|
      && (forall i :: 0 <= i < |r.value.posts| ==> r.value.posts[i].scheduledAt.Some?)
      && (forall i, j :: 0 <= i < j < |r.value.posts| ==>
            InstantKey(r.value.posts[i].scheduledAt.value) <= InstantKey(r.value.posts[j].scheduledAt.value))
  {
    var current := RequestDate(q, today);
    if current.None? {
      return Failure(500);
    }
    var t := current.value;
    var kind := Kind(q);
    var w := WindowFor(t, kind);
    var conds := BuildConditions(userId, w, q);
    var selected := Get(rows, conds);
    WhereIsFilter(rows, conds, CalendarKeep(userId, w, q));
    var items := OrderedItems(selected);
    r := Success(CalendarResponse(items, CalendarPeriod(FormatYmd(w.start.date), FormatYmd(w.end.date), kind)));
  }

  // ---------------------------------------------------------------------------
  // What the app makes of the response

  /** Decoding the `accounts` array; an unknown provider fails the decode. */
  function DecodeAccounts(xs: seq<AccountItem>): (r: Option<seq<CalendarAccountPreview>>)
    ensures r.Some? <==> forall k :: 0 <= k < |xs| ==> ProviderFromRaw(xs[k].provider).Some?
    ensures r.Some? ==> |r.value| == |xs|
    ensures r.Some? ==> forall k :: 0 <= k < |xs| ==>
              r.value[k].id == xs[k].id && ProviderFromRaw(xs[k].provider) == Some(r.value[k].provider)
  {
    if xs == [] then Some([])
    else
      var head := ProviderFromRaw(xs[0].provider);
      var tail := DecodeAccounts(xs[1..]);
      if head.Some? && tail.Some? then
        Some([CalendarAccountPreview(xs[0].id, xs[0].name, head.value, xs[0].image)] + tail.value)
      else
        assert head.None? ==> ProviderFromRaw(xs[0].provider).None?;
        assert tail.None? ==> exists k :: 1 <= k < |xs| && ProviderFromRaw(xs[k].provider).None? by {
          if tail.None? {
            var k :| 0 <= k < |xs[1..]| && ProviderFromRaw(xs[1..][k].provider).None?;
            assert xs[1..][k] == xs[k + 1];
          }
        }
        None
  }

  /** The app's `CalendarPost` decoder applied to one item: the status code
      must be known, `content` must be a string or null, and every provider
      must be known. */
  function DecodeItem(i: CalendarItem): (r: Option<CalendarPost>)
    ensures r.Some? <==>
      && StatusFromCode(i.status).Some?
      && (i.content.None? || i.content.value.JStr?)
      && DecodeAccounts(i.accounts).Some?
    ensures r.Some? ==> r.value.id == i.id && r.value.scheduledAt == i.scheduledAt && r.value.publishedAt == i.publishedAt
    ensures r.Some? ==> StatusCode(r.value.status) == i.status
  {
    var status := StatusFromCode(i.status);
    var accounts := DecodeAccounts(i.accounts);
    if status.Some? && (i.content.None? || i.content.value.JStr?) && accounts.Some? then
      StatusCodeRoundTrip(status.value, i.status);
      var content := if i.content.Some? then Some(i.content.value.s) else None;
      var tags := seq(|i.tags|, k requires 0 <= k < |i.tags| => Tag(i.tags[k].id, i.tags[k].name, i.tags[k].hexColor, None, None));
      Some(CalendarPost(i.id, status.value, i.scheduledAt, i.publishedAt, content, Some(accounts.value), Some(tags)))
    else None
  }

  /** Every post the endpoint returns has a scheduled date, so the app always
      files it under that date: the `publishedAt` fallback of `effectiveDate`
      is never reached for server data. */
  lemma ServerPostsShowOnScheduledDate(p: ServerPost, userId: int, w: Window, q: CalendarQuery)
    requires CalendarMatch(p, userId, w, q) && DecodeItem(ItemOf(p)).Some?
    ensures EffectiveDate(DecodeItem(ItemOf(p)).value) == p.scheduledAt
    ensures EffectiveDate(DecodeItem(ItemOf(p)).value).Some?
  {
  }

  /** The week window is exactly the seven days of the app's week view: it
      starts at the first cell, ends on the last cell's day, and an instant lies
      in it exactly when it falls on one of the cells. */
  lemma WeekWindowMatchesWeekGrid(t: Instant, now: Instant, posts: seq<CalendarPost>, s: Instant)
    requires ValidDate(t.date) && ValidInstant(s)
    ensures var g := WeekGrid(t, now, posts);
            var w := WeekWindow(t);
            && g[0].date == w.start && g[6].date.date == w.end.date
            && (Key(w.start) <= Key(s) <= Key(w.end) <==> exists k :: 0 <= k < 7 && g[k].date.date == s.date)
  {
    var g := WeekGrid(t, now, posts);
    var w := WeekWindow(t);
    WeekGridShape(t, now, posts, 0);
    assert g[0].date == w.start;
    if Key(w.start) <= Key(s) <= Key(w.end) {
      var k := DayNumber(s.date) - DayNumber(w.start.date);
      assert 0 <= k < 7;
      WeekGridShape(t, now, posts, k);
      DayNumberInjective(g[k].date.date, s.date);
    }
    if exists k :: 0 <= k < 7 && g[k].date.date == s.date {
      var k :| 0 <= k < 7 && g[k].date.date == s.date;
      WeekGridShape(t, now, posts, k);
    }
  }

  /** Against the month grid, the month window starts before the first cell,
      and covers a cell's day exactly when the cell is no more than seven days
      past the month: the rest of the trailing cells are never filled from
      the server. */
  lemma MonthWindowAgainstMonthGrid(t: Instant, firstWeekday: int, now: Instant, posts: seq<CalendarPost>, k: int)
    requires ValidDate(t.date) && 1 <= firstWeekday <= 7 && 0 <= k < 42
    ensures var g := MonthGrid(t, firstWeekday, now, posts);
            var w := MonthWindow(t);
            && Key(w.start) < Key(g[k].date)
            && (DayNumber(g[k].date.date) <= DayNumber(w.end.date)
                <==> k < LeadingCount(t, firstWeekday) + MonthLength(t) + 7)
  {
    var g := MonthGrid(t, firstWeekday, now, posts);
    var lead := LeadingCount(t, firstWeekday);
    MonthGridDates(t, firstWeekday, now, posts, k);
    DayNumberAddDays(FirstOfMonth(t), k - lead);
    WindowAroundDay(t, lead, k, g[k].date);
  }

  /** A day `k - lead` days after the first of the month, for `lead` at most
      six, starts after the month window does, and lies within it exactly
      when it is at most seven days past the month. */
  lemma WindowAroundDay(t: Instant, lead: int, k: int, d: Instant)
    requires ValidDate(t.date) && 0 <= lead <= 6 && 0 <= k && ValidInstant(d)
    requires DayNumber(d.date) == DayNumber(FirstOfMonth(t)) + (k - lead)
    ensures Key(MonthWindow(t).start) < Key(d)
    ensures DayNumber(d.date) <= DayNumber(MonthWindow(t).end.date) <==> k < lead + MonthLength(t) + 7
  {
    BeforeIff(MonthWindow(t).start, d);
  }

  /** February 2026 starting the week on Sunday: the grid's last seven cells
      (8 to 14 March) lie past the end of the month window. */
  lemma FebruaryTailOutsideWindow(now: Instant, posts: seq<CalendarPost>, k: int)
    requires 35 <= k < 42
    ensures var t := Instant(Date(2026, 2, 10), 0);
            var g := MonthGrid(t, 1, now, posts);
            Key(MonthWindow(t).end) < Key(g[k].date)
  {
    var t := Instant(Date(2026, 2, 10), 0);
    FebruaryTrailsTwoWeeks(now, posts);
    assert MonthLength(t) == 28;
    MonthWindowAgainstMonthGrid(t, 1, now, posts, k);
  }
}
