/** The rows the mobile API controllers read and write, and the query
    conditions their Eloquent builders accumulate before `get()`. */
module ServerModels {
  import opened Wrappers
  import opened Dates
  import opened JsonValues
  import opened Text
  import opened PostModels
  import Sorting

  /** A connected account row (`mixpost_accounts`). */
  datatype ServerAccount = ServerAccount(
    id: int,
    userId: int,
    name: string,
    username: Option<string>,
    provider: string,
    imageUrl: Option<string>,
    data: map<string, Json>,
    createdAt: int)

  /** A tag row (`mixpost_tags`). */
  datatype ServerTag = ServerTag(id: int, userId: int, name: string, hexColor: string)

  /** A version row: `content` is the decoded JSON column and `contentText`
      the column's stored text, which `LIKE` matches against. */
  datatype ServerVersion = ServerVersion(accountId: int, isOriginal: bool, content: Json, contentText: string, media: seq<int>)

  /** A post row with its loaded relations; `createdAt` orders `latest()`. */
  datatype ServerPost = ServerPost(
    id: int,
    userId: int,
    status: PostStatus,
    scheduledAt: Option<Instant>,
    publishedAt: Option<Instant>,
    createdAt: int,
    accounts: seq<ServerAccount>,
    tags: seq<ServerTag>,
    versions: seq<ServerVersion>)

  /** One `where…` call on the post query builder. */
  datatype Condition =
    | OwnedBy(userId: int)
    | StatusCodeIs(code: int)
    | ScheduledNotNull
    | ScheduledOrPublishedBetween(from: Instant, to: Instant)
    | HasAccount(accountId: int)
    | HasTag(tagId: int)
    | ContentLike(keyword: string)

  /** `whereBetween`: both bounds inclusive; a null column is never between. */
  predicate Between(t: Option<Instant>, from: Instant, to: Instant) {
    t.Some? && ValidDate(t.value.date) && ValidDate(from.date) && ValidDate(to.date)
    && Key(from) <= Key(t.value) <= Key(to)
  }

  predicate AttachedAccount(p: ServerPost, accountId: int) {
    exists i :: 0 <= i < |p.accounts| && p.accounts[i].id == accountId
  }

  predicate AttachedTag(p: ServerPost, tagId: int) {
    exists i :: 0 <= i < |p.tags| && p.tags[i].id == tagId
  }

  /** `whereHas('versions', content like %keyword%)`, as a plain substring. */
  predicate SomeVersionContains(p: ServerPost, keyword: string) {
    exists i :: 0 <= i < |p.versions| && Contains(p.versions[i].contentText, keyword)
  }

  predicate Holds(c: Condition, p: ServerPost) {
    match c
    case OwnedBy(u) => p.userId == u
    case StatusCodeIs(n) => StatusCode(p.status) == n
    case ScheduledNotNull => p.scheduledAt.Some?
    case ScheduledOrPublishedBetween(from, to) => Between(p.scheduledAt, from, to) || Between(p.publishedAt, from, to)
    case HasAccount(a) => AttachedAccount(p, a)
    case HasTag(t) => AttachedTag(p, t)
    case ContentLike(k) => SomeVersionContains(p, k)
  }

  /** A row is selected when it meets every condition of the builder. */
  predicate HoldsAll(conds: seq<Condition>, p: ServerPost) {
    forall i :: 0 <= i < |conds| ==> Holds(conds[i], p)
  }

  /** One more condition: a row meets all of them exactly when it met the
      earlier ones and meets the new one. */
  lemma HoldsAllAppend(conds: seq<Condition>, c: Condition)
    ensures forall p :: HoldsAll(conds + [c], p) <==> HoldsAll(conds, p) && Holds(c, p)
  {
    forall p
      ensures HoldsAll(conds + [c], p) <==> HoldsAll(conds, p) && Holds(c, p)
    {
      assert (conds + [c])[|conds|] == c;
      assert forall i :: 0 <= i < |conds| ==> (conds + [c])[i] == conds[i];
    }
  }

  /** The rows of `rows` that meet every condition, in table order. */
  function Where(rows: seq<ServerPost>, conds: seq<Condition>): (r: seq<ServerPost>)
    ensures |r| <= |rows|
    ensures forall p :: p in r <==> p in rows && HoldsAll(conds, p)
  {
    if rows == [] then []
    else
      var init := rows[..|rows| - 1];
      var last := rows[|rows| - 1];
      assert rows == init + [last];
      Where(init, conds) + (if HoldsAll(conds, last) then [last] else [])
  }

  /** Adding a condition can only drop rows: exactly those that fail the new
      condition. */
  lemma {:induction false} WhereNarrows(rows: seq<ServerPost>, conds: seq<Condition>, c: Condition)
    ensures multiset(Where(rows, conds + [c])) <= multiset(Where(rows, conds))
    ensures forall p :: p in Where(rows, conds + [c]) <==> p in Where(rows, conds) && Holds(c, p)
  {
    if rows != [] {
      var init := rows[..|rows| - 1];
      var last := rows[|rows| - 1];
      WhereNarrows(init, conds, c);
      assert HoldsAll(conds + [c], last) <==> HoldsAll(conds, last) && Holds(c, last) by {
        if HoldsAll(conds, last) && Holds(c, last) {
          forall i | 0 <= i < |conds + [c]|
            ensures Holds((conds + [c])[i], last)
          {
            if i < |conds| {
              assert (conds + [c])[i] == conds[i];
            }
          }
        }
        if HoldsAll(conds + [c], last) {
          assert (conds + [c])[|conds|] == c;
          forall i | 0 <= i < |conds|
            ensures Holds(conds[i], last)
          {
            assert (conds + [c])[i] == conds[i];
          }
        }
      }
      forall p
        ensures p in Where(rows, conds + [c]) <==> p in Where(rows, conds) && Holds(c, p)
      {
        forall i | 0 <= i < |conds + [c]|
          ensures (conds + [c])[i] == if i < |conds| then conds[i] else c
        {
        }
      }
    }
  }

  /** The rows of `rows` that `keep` accepts, in table order: the reference a
      controller's intended selection is stated against. */
  function Filter(rows: seq<ServerPost>, keep: ServerPost -> bool): (r: seq<ServerPost>)
    ensures |r| <= |rows|
    ensures forall p :: p in r <==> p in rows && keep(p)
  {
    if rows == [] then []
    else
      var init := rows[..|rows| - 1];
      var last := rows[|rows| - 1];
      assert rows == init + [last];
      Filter(init, keep) + (if keep(last) then [last] else [])
  }

  /** Conditions that hold exactly where `keep` does select exactly the rows
      `keep` accepts, in the same order. */
  lemma {:induction false} WhereIsFilter(rows: seq<ServerPost>, conds: seq<Condition>, keep: ServerPost -> bool)
    requires forall p :: HoldsAll(conds, p) <==> keep(p)
    ensures Where(rows, conds) == Filter(rows, keep)
  {
    if rows != [] {
      WhereIsFilter(rows[..|rows| - 1], conds, keep);
    }
  }

  /** `get()`: one pass over the table keeping the rows that meet every
      condition. */
  method Get(rows: seq<ServerPost>, conds: seq<Condition>) returns (result: seq<ServerPost>)
    ensures result == Where(rows, conds)
  {
    result := [];
    var i := 0;
    while i < |rows|
      invariant 0 <= i <= |rows|
      invariant result == Where(rows[..i], conds)
    {
      assert rows[..i + 1][..i] == rows[..i];
      if HoldsAll(conds, rows[i]) {
        result := result + [rows[i]];
      }
      i := i + 1;
    }
    assert rows[..|rows|] == rows;
  }

  /** The sort key of a nullable instant column; rows always hold valid dates. */
  function InstantKey(t: Instant): int {
    if ValidDate(t.date) then Key(t) else 0
  }

  /** `orderBy('scheduled_at')`: ascending, nulls first. */
  predicate ScheduledLeq(a: ServerPost, b: ServerPost) {
    a.scheduledAt.None? || (b.scheduledAt.Some? && InstantKey(a.scheduledAt.value) <= InstantKey(b.scheduledAt.value))
  }

  /** `latest()`: by creation time, newest first. */
  predicate LatestLeq(a: ServerPost, b: ServerPost) {
    a.createdAt >= b.createdAt
  }

  lemma PostOrdersArePreorders()
    ensures Sorting.TotalPreorder(ScheduledLeq)
    ensures Sorting.TotalPreorder(LatestLeq)
  {
  }
}
