/** `ReportsController` of the mobile API: one account's metrics and
    audience over the last `period` days, with their totals. Times are
    seconds on one clock (`Dates.Key`-style), `now` is a parameter, and a
    metric's or audience row's `date` is the second its day starts. */
module ReportsController {
  import opened Wrappers
  import opened JsonValues
  import opened Text
  import opened ServerModels
  import opened Sorting

  /** A `mixpost_metrics` row; a null `data` column reads as empty. */
  datatype MetricRow = MetricRow(id: int, accountId: int, date: int, data: map<string, Json>)

  /** A `mixpost_audience` row. */
  datatype AudienceRow = AudienceRow(accountId: int, date: int, total: int)

  /** One element of `audience.history`. */
  datatype HistoryEntry = HistoryEntry(date: int, count: int)

  /** Amounts PHP rounds with `round(x, 2)` are carried as whole hundredths. */
  datatype Summary = Summary(
    totalPosts: int,
    totalImpressions: int,
    totalReach: int,
    totalEngagement: int,
    averageEngagementHundredths: int,
    followerGrowth: int,
    followerGrowthPercentageHundredths: int)

  datatype Audience = Audience(current: int, previous: int, change: int, changePercentageHundredths: int, history: seq<HistoryEntry>)

  datatype ReportsReply =
    | Report(account: ServerAccount, metrics: seq<MetricRow>, summary: Summary, audience: Audience)
    | Message(message: string)

  // ---------------------------------------------------------------------
  // Request checks

  /** `Account::forCurrentUser()->find($accountId)`: the caller's first
      account whose id the key spells in decimal digits. */
  function FindAccount(rows: seq<ServerAccount>, userId: int, key: string): (r: Option<ServerAccount>)
    ensures r.Some? ==> r.value in rows && r.value.userId == userId && AllDigits(key) && r.value.id == ParseDigits(key)
    ensures r.None? ==> forall a :: a in rows && a.userId == userId ==> !(AllDigits(key) && a.id == ParseDigits(key))
  {
    if rows == [] then None
    else if rows[0].userId == userId && AllDigits(key) && rows[0].id == ParseDigits(key) then Some(rows[0])
    else
      assert forall a :: a in rows ==> a == rows[0] || a in rows[1..];
      FindAccount(rows[1..], userId, key)
  }

  /** The app sends an account id in decimal, which finds the account when
      it is the caller's. */
  lemma DecimalIdFindsOwnAccount(rows: seq<ServerAccount>, userId: int, a: ServerAccount)
    requires a in rows && a.userId == userId && a.id >= 0
    ensures FindAccount(rows, userId, Decimal(a.id)).Some?
    ensures FindAccount(rows, userId, Decimal(a.id)).value.id == a.id
  {
    ParseDecimal(a.id);
  }

  /** `$request->get('period', 30)`. */
  function PeriodDays(period: Option<int>): int {
    period.GetOr(30)
  }

  /** `now()->subDays($period)`. */
  function WindowStart(now: int, period: Option<int>): (start: int)
    ensures period.None? ==> start == now - 30 * 86400
    ensures period.Some? ==> start == now - period.value * 86400
  {
    now - PeriodDays(period) * 86400
  }

  /** `whereBetween('date', [$start, $end])`, both ends included. */
  predicate InWindow(date: int, start: int, end: int) {
    start <= date <= end
  }

  // ---------------------------------------------------------------------
  // Selection and order

  predicate MetricDateLeq(a: MetricRow, b: MetricRow) {
    a.date <= b.date
  }

  predicate AudienceDateLeq(a: AudienceRow, b: AudienceRow) {
    a.date <= b.date
  }

  lemma DateOrdersArePreorders()
    ensures TotalPreorder(MetricDateLeq) && TotalPreorder(AudienceDateLeq)
  {
  }

  /** `Metric::where('account_id', $id)->whereBetween(...)`, table order. */
  function MetricsOf(rows: seq<MetricRow>, accountId: int, start: int, end: int): (r: seq<MetricRow>)
    ensures forall m :: m in r <==> m in rows && m.accountId == accountId && InWindow(m.date, start, end)
    ensures |r| <= |rows|
  {
    if rows == [] then []
    else
      (if rows[0].accountId == accountId && InWindow(rows[0].date, start, end) then [rows[0]] else [])
      + MetricsOf(rows[1..], accountId, start, end)
  }

  /** The same selection of audience rows. */
  function AudienceOf(rows: seq<AudienceRow>, accountId: int, start: int, end: int): (r: seq<AudienceRow>)
    ensures forall a :: a in r <==> a in rows && a.accountId == accountId && InWindow(a.date, start, end)
    ensures |r| <= |rows|
  {
    if rows == [] then []
    else
      (if rows[0].accountId == accountId && InWindow(rows[0].date, start, end) then [rows[0]] else [])
      + AudienceOf(rows[1..], accountId, start, end)
  }

  /** `->map(fn ($audience) => ['date' => ..., 'count' => $audience->total])`. */
  function History(rows: seq<AudienceRow>): (h: seq<HistoryEntry>)
    ensures |h| == |rows|
    ensures forall i :: 0 <= i < |rows| ==> h[i] == HistoryEntry(rows[i].date, rows[i].total)
  {
    if rows == [] then [] else [HistoryEntry(rows[0].date, rows[0].total)] + History(rows[1..])
  }

  // ---------------------------------------------------------------------
  // Totals

  /** `$m['data'][$key] ?? 0` for a numeric field. */
  function NumberOr0(data: map<string, Json>, key: string): int {
    if key in data && data[key].JNum? then data[key].n else 0
  }

  /** `$metrics->sum(fn ($m) => $m['data'][$key] ?? 0)`. */
  function SumField(metrics: seq<MetricRow>, key: string): int
    decreases |metrics|
  {
    if metrics == [] then 0
    else SumField(metrics[..|metrics| - 1], key) + NumberOr0(metrics[|metrics| - 1].data, key)
  }

  /** A sum splits over a concatenation: each metric counts once. */
  lemma {:induction false} SumFieldAppend(a: seq<MetricRow>, b: seq<MetricRow>, key: string)
    ensures SumField(a + b, key) == SumField(a, key) + SumField(b, key)
    decreases |b|
  {
    if b == [] {
      assert a + b == a;
    } else {
      var b' := b[..|b| - 1];
      assert (a + b)[..|a + b| - 1] == a + b';
      SumFieldAppend(a, b', key);
    }
  }

  /** Metrics without the field add nothing, and with no negative values the
      total is not negative. */
  lemma {:induction false} SumFieldBounds(metrics: seq<MetricRow>, key: string)
    ensures (forall i :: 0 <= i < |metrics| ==> key !in metrics[i].data) ==> SumField(metrics, key) == 0
    ensures (forall i :: 0 <= i < |metrics| ==> NumberOr0(metrics[i].data, key) >= 0) ==> SumField(metrics, key) >= 0
    decreases |metrics|
  {
    if metrics != [] {
      var init := metrics[..|metrics| - 1];
      assert forall i :: 0 <= i < |init| ==> init[i] == metrics[i];
      SumFieldBounds(init, key);
    }
  }

  /** Taking one metric out of the list takes its value out of the sum. */
  lemma SumFieldRemove(b: seq<MetricRow>, i: nat, key: string)
    requires i < |b|
    ensures SumField(b, key) == SumField(b[..i] + b[i + 1..], key) + NumberOr0(b[i].data, key)
  {
    assert b == b[..i] + ([b[i]] + b[i + 1..]);
    SumFieldAppend(b[..i], [b[i]] + b[i + 1..], key);
    SumFieldAppend([b[i]], b[i + 1..], key);
    SumFieldAppend(b[..i], b[i + 1..], key);
    assert [b[i]][..0] == [];
  }

  lemma MultisetRemove(b: seq<MetricRow>, i: nat)
    requires i < |b|
    ensures multiset(b[..i] + b[i + 1..]) == multiset(b) - multiset{b[i]}
  {
    assert b == b[..i] + [b[i]] + b[i + 1..];
  }

  /** The sum does not depend on the order of the metrics. */
  lemma {:induction false} SumFieldPermutation(a: seq<MetricRow>, b: seq<MetricRow>, key: string)
    requires multiset(a) == multiset(b)
    ensures SumField(a, key) == SumField(b, key)
    decreases |a|
  {
    if a == [] {
      assert |b| == |multiset(b)| == 0;
    } else {
      var x := a[|a| - 1];
      var init := a[..|a| - 1];
      MultisetRemove(a, |a| - 1);
      assert a[..|a| - 1] + a[|a|..] == init;
      assert x in multiset(b);
      var i :| 0 <= i < |b| && b[i] == x;
      MultisetRemove(b, i);
      SumFieldPermutation(init, b[..i] + b[i + 1..], key);
      SumFieldRemove(b, i, key);
    }
  }

  /** `round($num / $den, 2)` in hundredths, halves away from zero. */
  function RoundHundredths(num: int, den: int): (r: int)
    requires den > 0
    ensures 2 * (r * den - 100 * num) <= den && -den <= 2 * (r * den - 100 * num)
    ensures num >= 0 ==> r >= 0
    ensures num <= 0 ==> r <= 0
  {
    if num >= 0 then HalfUp(100 * num, den) else -HalfUp(-100 * num, den)
  }

  /** The nearest whole number to `a / d` for `a >= 0`, halves rounded up. */
  function HalfUp(a: int, d: int): (q: int)
    requires a >= 0 && d > 0
    ensures q >= 0
    ensures -d < 2 * (q * d - a) <= d
  {
    var q := (2 * a + d) / (2 * d);
    DivBounds(2 * a + d, 2 * d);
    q
  }

  lemma DivBounds(n: int, d: int)
    requires n >= 0 && d > 0
    ensures (n / d) * d <= n < (n / d) * d + d
    ensures n / d >= 0
  {
  }

  /** `average_engagement`: 0 without metrics. */
  function AverageEngagement(metrics: seq<MetricRow>): (r: int)
    ensures |metrics| == 0 ==> r == 0
  {
    if |metrics| > 0 then RoundHundredths(SumField(metrics, "engagement"), |metrics|) else 0
  }

  /** With metrics, the average is the engagement total over their number,
      to the nearest hundredth. */
  lemma AverageEngagementRounds(metrics: seq<MetricRow>)
    requires |metrics| > 0
    ensures -|metrics| <= 2 * (AverageEngagement(metrics) * |metrics| - 100 * SumField(metrics, "engagement")) <= |metrics|
  {
  }

  // ---------------------------------------------------------------------
  // Audience

  /** The audience summary the controller evidently means: the latest and
      the earliest count of the window, 0 without history. */
  function AudienceSummary(history: seq<HistoryEntry>): (a: Audience)
    ensures a.history == history
    ensures |history| == 0 ==> a.current == 0 && a.previous == 0
    ensures |history| > 0 ==> a.current == history[|history| - 1].count && a.previous == history[0].count
    ensures a.change == a.current - a.previous
    ensures a.previous <= 0 ==> a.changePercentageHundredths == 0
    ensures a.previous > 0 ==>
      -a.previous <= 2 * (a.changePercentageHundredths * a.previous - 10000 * a.change) <= a.previous
  {
    var current := if |history| > 0 then history[|history| - 1].count else 0;
    var previous := if |history| > 0 then history[0].count else 0;
    var change := current - previous;
    Audience(current, previous, change, if previous > 0 then RoundHundredths(100 * change, previous) else 0, history)
  }

  /** The PHP values the audience lines handle: `map` turns each row into an
      array, and `?->` reads properties of objects only. */
  datatype PhpValue = PNull | PInt(n: int) | PArray(entries: map<string, PhpValue>) | PObject(props: map<string, PhpValue>)

  /** `->map(fn ($audience) => [...])`: each entry as a PHP array. */
  function HistoryArrays(history: seq<HistoryEntry>): (r: seq<PhpValue>)
    ensures |r| == |history|
    ensures forall i :: 0 <= i < |r| ==> r[i].PArray? && "count" in r[i].entries && r[i].entries["count"] == PInt(history[i].count)
  {
    if history == [] then []
    else [PArray(map["date" := PInt(history[0].date), "count" := PInt(history[0].count)])] + HistoryArrays(history[1..])
  }

  /** `first()` and `last()`: null on an empty collection. */
  function FirstValue(s: seq<PhpValue>): PhpValue {
    if s == [] then PNull else s[0]
  }

  function LastValue(s: seq<PhpValue>): PhpValue {
    if s == [] then PNull else s[|s| - 1]
  }

  /** `$v?->name`: null for null, and for an array too, whose property read
      gives null (its warning silenced by the `??` that follows). */
  function NullsafeProperty(v: PhpValue, name: string): PhpValue {
    match v
    case PObject(props) => if name in props then props[name] else PNull
    case _ => PNull
  }

  /** `$x ?? 0` for an integer. */
  function IntOr0(v: PhpValue): int {
    if v.PInt? then v.n else 0
  }

  /** `$audienceHistory->last()?->count ?? 0` and the same with `first()`:
      the current and previous audience as the controller computes them. */
  function AudienceCountsAsWritten(history: seq<HistoryEntry>): (int, int) {
    var arrays := HistoryArrays(history);
    (IntOr0(NullsafeProperty(LastValue(arrays), "count")), IntOr0(NullsafeProperty(FirstValue(arrays), "count")))
  }

  /** As written, both counts are 0 whatever the history, so the follower
      growth it reports is always 0. */
  lemma AudienceCountsAsWrittenAlwaysZero(history: seq<HistoryEntry>)
    ensures AudienceCountsAsWritten(history) == (0, 0)
  {
    var arrays := HistoryArrays(history);
    if history != [] {
      assert LastValue(arrays).PArray? && FirstValue(arrays).PArray?;
    }
  }

  /** A window whose audience went from 100 to 150 reports a growth of 0 as
      written, where 50 is meant. */
  lemma AudienceGrowthCounterexample()
    ensures var h := [HistoryEntry(0, 100), HistoryEntry(86400, 150)];
      && AudienceCountsAsWritten(h).0 - AudienceCountsAsWritten(h).1 == 0
      && AudienceSummary(h).change == 50
  {
    AudienceCountsAsWrittenAlwaysZero([HistoryEntry(0, 100), HistoryEntry(86400, 150)]);
  }

  /** Read as an object property, as the code intends, the counts are the
      ones the corrected summary uses. */
  lemma ObjectReadGivesCount(history: seq<HistoryEntry>)
    requires |history| > 0
    ensures IntOr0(NullsafeProperty(PObject(map["count" := PInt(history[|history| - 1].count)]), "count"))
      == AudienceSummary(history).current
  {
  }

  // ---------------------------------------------------------------------
  // The endpoint

  /** The report for an account found for the caller: that account, its
      metrics from the window in date order, totals over exactly those
      metrics whatever their order, and an audience change equal to the
      reported follower growth. */
  function ReportFor(account: ServerAccount, metricRows: seq<MetricRow>, audienceRows: seq<AudienceRow>, start: int, end: int): (r: ReportsReply)
    ensures r.Report? && r.account == account
    ensures SortedBy(r.metrics, MetricDateLeq)
    ensures forall m :: m in r.metrics <==> m in metricRows && m.accountId == account.id && InWindow(m.date, start, end)
    ensures r.summary.totalPosts == SumField(MetricsOf(metricRows, account.id, start, end), "posts")
    ensures r.summary.totalImpressions == SumField(MetricsOf(metricRows, account.id, start, end), "impressions")
    ensures r.summary.totalReach == SumField(MetricsOf(metricRows, account.id, start, end), "reach")
    ensures r.summary.totalEngagement == SumField(MetricsOf(metricRows, account.id, start, end), "engagement")
    ensures r.summary.averageEngagementHundredths == AverageEngagement(MetricsOf(metricRows, account.id, start, end))
    ensures r.audience == AudienceSummary(History(SortBy(AudienceOf(audienceRows, account.id, start, end), AudienceDateLeq)))
    ensures r.summary.followerGrowth == r.audience.change
    ensures r.summary.followerGrowthPercentageHundredths == r.audience.changePercentageHundredths
    ensures forall e :: e in r.audience.history ==> InWindow(e.date, start, end)
  {
    var metrics := SortBy(MetricsOf(metricRows, account.id, start, end), MetricDateLeq);
    var history := History(SortBy(AudienceOf(audienceRows, account.id, start, end), AudienceDateLeq));
    ReportMetrics(account.id, metricRows, start, end);
    ReportHistoryInWindow(account.id, audienceRows, start, end);
    var audience := AudienceSummary(history);
    assert audience.history == history;
    var engagement := SumField(metrics, "engagement");
    Report(account, metrics,
      Summary(SumField(metrics, "posts"), SumField(metrics, "impressions"), SumField(metrics, "reach"), engagement,
              AverageEngagement(metrics), audience.change, audience.changePercentageHundredths),
      audience)
  }

  /** `__invoke`: 422 without a (truthy) account id, 404 when it is not one
      of the caller's accounts, and otherwise the report over the last
      `period` days up to `now`. */
  function Reports(userId: int, accounts: seq<ServerAccount>, accountId: Option<string>, period: Option<int>,
                   now: int, metricRows: seq<MetricRow>, audienceRows: seq<AudienceRow>): (r: (int, ReportsReply))
    ensures accountId.None? || !PhpTruthy(accountId.value) <==> r == (422, Message("Account ID is required"))
    ensures accountId.Some? && PhpTruthy(accountId.value) && FindAccount(accounts, userId, accountId.value).None? <==>
      r == (404, Message("Account not found"))
    ensures r.0 == 200 <==> accountId.Some? && PhpTruthy(accountId.value) && FindAccount(accounts, userId, accountId.value).Some?
    ensures r.0 == 200 ==> r.1 == ReportFor(FindAccount(accounts, userId, accountId.value).value, metricRows, audienceRows, WindowStart(now, period), now)
  {
    if accountId.None? || !PhpTruthy(accountId.value) then (422, Message("Account ID is required"))
    else
      var found := FindAccount(accounts, userId, accountId.value);
      if found.None? then (404, Message("Account not found"))
      else (200, ReportFor(found.value, metricRows, audienceRows, WindowStart(now, period), now))
  }

  /** The metrics a report lists: exactly the account's metrics from the
      window, in date order, with the engagement total taken over them. */
  lemma ReportMetrics(accountId: int, metricRows: seq<MetricRow>, start: int, end: int)
    ensures var metrics := SortBy(MetricsOf(metricRows, accountId, start, end), MetricDateLeq);
      && SortedBy(metrics, MetricDateLeq)
      && (forall m :: m in metrics <==> m in metricRows && m.accountId == accountId && InWindow(m.date, start, end))
      && |metrics| == |MetricsOf(metricRows, accountId, start, end)|
      && SumField(metrics, "posts") == SumField(MetricsOf(metricRows, accountId, start, end), "posts")
      && SumField(metrics, "impressions") == SumField(MetricsOf(metricRows, accountId, start, end), "impressions")
      && SumField(metrics, "reach") == SumField(MetricsOf(metricRows, accountId, start, end), "reach")
      && SumField(metrics, "engagement") == SumField(MetricsOf(metricRows, accountId, start, end), "engagement")
      && AverageEngagement(metrics) == AverageEngagement(MetricsOf(metricRows, accountId, start, end))
  {
    var selected := MetricsOf(metricRows, accountId, start, end);
    var metrics := SortBy(selected, MetricDateLeq);
    DateOrdersArePreorders();
    SortBySorted(selected, MetricDateLeq);
    assert forall m :: m in metrics <==> m in multiset(selected);
    assert |metrics| == |multiset(metrics)| == |multiset(selected)| == |selected|;
    SumFieldPermutation(metrics, selected, "posts");
    SumFieldPermutation(metrics, selected, "impressions");
    SumFieldPermutation(metrics, selected, "reach");
    SumFieldPermutation(metrics, selected, "engagement");
  }

  /** Every audience entry of a report lies in the window. */
  lemma ReportHistoryInWindow(accountId: int, audienceRows: seq<AudienceRow>, start: int, end: int)
    ensures forall e :: e in History(SortBy(AudienceOf(audienceRows, accountId, start, end), AudienceDateLeq)) ==>
      InWindow(e.date, start, end)
  {
    var rows := AudienceOf(audienceRows, accountId, start, end);
    var sortedRows := SortBy(rows, AudienceDateLeq);
    var h := History(sortedRows);
    forall i | 0 <= i < |sortedRows|
      ensures InWindow(sortedRows[i].date, start, end)
    {
      assert sortedRows[i] in multiset(rows);
    }
    forall e | e in h
      ensures InWindow(e.date, start, end)
    {
      var i :| 0 <= i < |h| && h[i] == e;
    }
  }

  /** The audience history is in date order, so `previous` is the earliest
      count of the window and `current` the latest. */
  lemma HistoryInDateOrder(account: ServerAccount, audienceRows: seq<AudienceRow>, start: int, end: int)
    ensures var h := History(SortBy(AudienceOf(audienceRows, account.id, start, end), AudienceDateLeq));
      forall i, j :: 0 <= i < j < |h| ==> h[i].date <= h[j].date
  {
    var rows := AudienceOf(audienceRows, account.id, start, end);
    DateOrdersArePreorders();
    SortBySorted(rows, AudienceDateLeq);
  }
}
