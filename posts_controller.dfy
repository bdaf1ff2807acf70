/** `PostsController` of the mobile API, as operations on an in-memory table
    of posts (each with its owner, versions and attached accounts and tags).
    Route-model binding is taken to find a post only among the caller's own
    (the route itself does not scope `{post}` to its owner; that scoping is
    an assumption of the model); a miss is a 404. Deletion is soft: a
    deleted post leaves the table and every query, but its id stays in
    `trashedIds`, which the `exists:mixpost_posts,id` rule still sees. */
module PostsController {
  import opened Wrappers
  import opened Dates
  import opened JsonValues
  import opened Text
  import opened PostModels
  import opened ServerModels
  import opened Sorting
  import opened Pagination
  import opened Validation
  import opened PhpValues
  import opened ApiClient
  import opened CalendarView
  import opened CalendarController
  import AccountModels
  import MediaModels
  import TagModels
  import PostComposer

  // ---------------------------------------------------------------------------
  // index

  /** The query string as the controller reads it; `None` is an absent key. */
  datatype IndexQuery = IndexQuery(
    status: Option<int>,
    tagId: Option<int>,
    accountId: Option<int>,
    keyword: Option<string>,
    page: Option<Json>,
    perPage: Option<Json>)

  function NumberParam(params: map<string, Json>, key: string): Option<int> {
    if key in params && params[key].JNum? then Some(params[key].n) else None
  }

  /** Reading the request: numbers for the ids and the status code, text
      for the keyword, the raw values of `page` and `per_page` for the
      paginator; a null status is no status. */
  function IndexQueryFrom(params: map<string, Json>): IndexQuery {
    IndexQuery(
      NumberParam(params, "status"),
      NumberParam(params, "tag_id"),
      NumberParam(params, "account_id"),
      if "keyword" in params && params["keyword"].JStr? then Some(params["keyword"].s) else None,
      if "page" in params then Some(params["page"]) else None,
      if "per_page" in params then Some(params["per_page"]) else None)
  }

  /** The rows `index` lists: the caller's, then each filter that is given;
      the keyword only when PHP's `empty` does not reject it. */
  predicate IndexMatch(p: ServerPost, userId: int, q: IndexQuery) {
    && p.userId == userId
    && (q.status.Some? ==> StatusCode(p.status) == q.status.value)
    && (q.tagId.Some? ==> AttachedTag(p, q.tagId.value))
    && (q.accountId.Some? ==> AttachedAccount(p, q.accountId.value))
    && (q.keyword.Some? && PhpTruthy(q.keyword.value) ==> SomeVersionContains(p, q.keyword.value))
  }

  function IndexKeep(userId: int, q: IndexQuery): ServerPost -> bool {
    (p: ServerPost) => IndexMatch(p, userId, q)
  }

  /** The page size: 20 by default, `None` where the paginator throws. */
  function PerPage(q: IndexQuery): (r: Option<int>)
    ensures q.perPage.None? ==> r == Some(20)
    ensures r.Some? ==> r.value != 0
  {
    ResolvePerPage(q.perPage)
  }

  /** The paginator's page: the requested one when the integer filter reads
      it as a positive number, else 1. */
  function CurrentPage(q: IndexQuery): (n: nat)
    ensures n >= 1
    ensures q.page.Some? && IntegerValue(q.page.value).Some? && IntegerValue(q.page.value).value >= 1 ==>
      n == IntegerValue(q.page.value).value
  {
    ResolveCurrentPage(q.page)
  }

  /** The builder: ownership, then one `where` per filter given. */
  method IndexConditions(userId: int, q: IndexQuery) returns (conds: seq<Condition>)
    ensures forall p :: HoldsAll(conds, p) <==> IndexMatch(p, userId, q)
  {
    conds := [OwnedBy(userId)];
    assert forall p :: HoldsAll(conds, p) <==> p.userId == userId by {
      forall p ensures HoldsAll(conds, p) <==> p.userId == userId {
        assert conds[0] == OwnedBy(userId);
      }
    }
    if q.status.Some? {
      HoldsAllAppend(conds, StatusCodeIs(q.status.value));
      conds := conds + [StatusCodeIs(q.status.value)];
    }
    if q.tagId.Some? {
      HoldsAllAppend(conds, HasTag(q.tagId.value));
      conds := conds + [HasTag(q.tagId.value)];
    }
    if q.accountId.Some? {
      HoldsAllAppend(conds, HasAccount(q.accountId.value));
      conds := conds + [HasAccount(q.accountId.value)];
    }
    if q.keyword.Some? && PhpTruthy(q.keyword.value) {
      HoldsAllAppend(conds, ContentLike(q.keyword.value));
      conds := conds + [ContentLike(q.keyword.value)];
    }
  }

  datatype IndexResponse = IndexResponse(data: seq<ServerPost>, meta: Meta)

  /** The page of a list sorted newest first is itself sorted newest first. */
  lemma PageOfSorted(rows: seq<ServerPost>, page: nat, perPage: int)
    requires page >= 1 && perPage != 0 && SortedBy(rows, LatestLeq)
    ensures SortedBy(Page(rows, page, perPage), LatestLeq)
  {
    var r := Page(rows, page, perPage);
    if perPage > 0 {
      forall i, j | 0 <= i < j < |r|
        ensures LatestLeq(r[i], r[j])
      {
        assert r[i] == rows[(page - 1) * perPage + i] && r[j] == rows[(page - 1) * perPage + j];
      }
    }
  }

  /** A page of the filtered rows sorted newest first holds only rows of
      the table that pass the filter, newest first. */
  lemma PageOfSortedFilter(rows: seq<ServerPost>, keep: ServerPost -> bool, page: nat, perPage: int)
    requires page >= 1 && perPage != 0
    ensures var r := Page(SortBy(Filter(rows, keep), LatestLeq), page, perPage);
      && SortedBy(r, LatestLeq)
      && forall p :: p in r ==> p in rows && keep(p)
  {
    var selected := Filter(rows, keep);
    var ordered := SortBy(selected, LatestLeq);
    PostOrdersArePreorders();
    SortBySorted(selected, LatestLeq);
    PageOfSorted(ordered, page, perPage);
    var r := Page(ordered, page, perPage);
    forall p | p in r
      ensures p in rows && keep(p)
    {
      var i :| 0 <= i < |r| && r[i] == p;
      if perPage > 0 {
        assert p == ordered[(page - 1) * perPage + i];
      }
      assert p in multiset(ordered);
      assert p in multiset(selected);
    }
  }

  // ---------------------------------------------------------------------------
  // store / update validation

  /** `versions.*`: an object whose `account_id` is a number, whose
      `content` is a non-empty array, and whose `media`, when present, is an
      array. */
  predicate VersionValid(x: Json) {
    && x.JObj?
    && "account_id" in x.fields && Required(x.fields["account_id"]) && IntegerValue(x.fields["account_id"]).Some?
    && "content" in x.fields && Required(x.fields["content"]) && IsArray(x.fields["content"])
    && ("media" in x.fields ==> Skipped(x.fields["media"]) || IsArray(x.fields["media"]))
  }

  predicate YmdFormat(s: string) {
    ParseYmd(s).Some?
  }

  predicate HmFormat(s: string) {
    ParseHm(s).Some?
  }

  /** The rules of `update`. `exists` is checked against every row of the
      accounts and tags tables, whoever owns it. */
  predicate UpdateValid(body: Json, knownAccounts: set<int>, knownTags: set<int>) {
    && RequiredArray(body, "accounts", ExistingId(knownAccounts))
    && RequiredArray(body, "versions", VersionValid)
    && OptionalArray(body, "tags", ExistingId(knownTags))
  }

  /** The rules of `store`: those of `update`, plus an optional date and time. */
  predicate StoreValid(body: Json, knownAccounts: set<int>, knownTags: set<int>) {
    && UpdateValid(body, knownAccounts, knownTags)
    && NullableFormat(body, "date", YmdFormat)
    && NullableFormat(body, "time", HmFormat)
  }

  /** `store`'s status: 422 on a failed rule, 201 otherwise (creating the
      post is the `CreatePost` action, not part of this model). */
  function StoreStatus(body: Json, knownAccounts: set<int>, knownTags: set<int>): (status: int)
    ensures status == 201 || status == 422
    ensures status == 201 <==> StoreValid(body, knownAccounts, knownTags)
  {
    if StoreValid(body, knownAccounts, knownTags) then 201 else 422
  }

  /** `update` checks the same rules but not the date and time: a body that
      passes `store` passes `update`, and `update` ignores whatever `date`
      and `time` hold. */
  lemma UpdateIsStoreWithoutSchedule(body: map<string, Json>, knownAccounts: set<int>, knownTags: set<int>, date: Json, time: Json)
    ensures StoreValid(JObj(body), knownAccounts, knownTags) ==> UpdateValid(JObj(body), knownAccounts, knownTags)
    ensures UpdateValid(JObj(body["date" := date]["time" := time]), knownAccounts, knownTags) <==> UpdateValid(JObj(body), knownAccounts, knownTags)
  {
    var b' := body["date" := date]["time" := time];
    assert Field(JObj(b'), "accounts") == Field(JObj(body), "accounts");
    assert Field(JObj(b'), "versions") == Field(JObj(body), "versions");
    assert Field(JObj(b'), "tags") == Field(JObj(body), "tags");
  }

  // ---------------------------------------------------------------------------
  // The table

  /** The first row with that id among `userId`'s posts. */
  function Resolve(rows: seq<ServerPost>, userId: int, id: int): (r: Option<nat>)
    ensures r.Some? ==> r.value < |rows| && rows[r.value].id == id && rows[r.value].userId == userId
    ensures r.None? ==> forall i :: 0 <= i < |rows| ==> !(rows[i].id == id && rows[i].userId == userId)
  {
    if rows == [] then None
    else if rows[0].id == id && rows[0].userId == userId then Some(0)
    else
      var r := Resolve(rows[1..], userId, id);
      assert forall i :: 1 <= i < |rows| ==> rows[i] == rows[1..][i - 1];
      if r.Some? then Some(r.value + 1) else None
  }

  /** `replicate()` of a post as `duplicate` adjusts it: a draft without
      dates, a fresh id and creation time, the same owner, accounts, tags and
      versions. */
  function DuplicateOf(p: ServerPost, newId: int, createdAt: int): ServerPost {
    p.(id := newId, status := Draft, scheduledAt := None, publishedAt := None, createdAt := createdAt)
  }

  /** What survives `bulkDestroy`: every row not both the caller's and listed. */
  function SurvivesBulk(userId: int, ids: set<int>): ServerPost -> bool {
    (p: ServerPost) => !(p.userId == userId && p.id in ids)
  }

  function PostIds(rows: seq<ServerPost>): set<int> {
    set i | 0 <= i < |rows| :: rows[i].id
  }

  /** The ids of `userId`'s rows. */
  function OwnedIds(rows: seq<ServerPost>, userId: int): set<int> {
    set i | 0 <= i < |rows| && rows[i].userId == userId :: rows[i].id
  }

  class PostsTable {
    var posts: seq<ServerPost>
    /** The ids of soft-deleted posts: gone from every query, but still rows
        of `mixpost_posts`. */
    var trashedIds: set<int>
    var accountIds: set<int>
    var tagIds: set<int>
    var nextId: int

    /** Ids, live or trashed, are below the next one the table hands out, and
        live ids are distinct. */
    ghost predicate Valid()
      reads this
    {
      && (forall i :: 0 <= i < |posts| ==> posts[i].id < nextId)
      && (forall t :: t in trashedIds ==> t < nextId)
      && (forall i, j :: 0 <= i < j < |posts| ==> posts[i].id != posts[j].id)
    }

    constructor(accounts: set<int>, tags: set<int>)
      ensures Valid() && posts == [] && trashedIds == {} && accountIds == accounts && tagIds == tags && nextId == 1
    {
      posts := [];
      trashedIds := {};
      accountIds := accounts;
      tagIds := tags;
      nextId := 1;
    }

    /** `index`: the matching rows newest first, cut into pages; `None` is
        the 500 of a `per_page` the paginator cannot work with. A negative
        page size lists every matching row. */
    method Index(userId: int, q: IndexQuery) returns (r: Option<IndexResponse>)
      ensures r.None? <==> PerPage(q).None?
      ensures r.Some? ==>
        var rows := SortBy(Filter(posts, IndexKeep(userId, q)), LatestLeq);
        && r.value.data == Page(rows, CurrentPage(q), PerPage(q).value)
        && r.value.meta == MetaFor(|rows|, CurrentPage(q), PerPage(q).value)
      ensures r.Some? ==> forall p :: p in r.value.data ==> p in posts && IndexMatch(p, userId, q)
      ensures r.Some? ==> SortedBy(r.value.data, LatestLeq)
      ensures r.Some? && PerPage(q).value > 0 ==> |r.value.data| <= PerPage(q).value
      ensures r.Some? && PerPage(q).value < 0 ==> multiset(r.value.data) == multiset(Filter(posts, IndexKeep(userId, q)))
    {
      var perPage := PerPage(q);
      if perPage.None? {
        return None;
      }
      var conds := IndexConditions(userId, q);
      var selected := ServerModels.Get(posts, conds);
      WhereIsFilter(posts, conds, IndexKeep(userId, q));
      var ordered := SortBy(selected, LatestLeq);
      var page := CurrentPage(q);
      r := Some(IndexResponse(Page(ordered, page, perPage.value), MetaFor(|ordered|, page, perPage.value)));
      PageOfSortedFilter(posts, IndexKeep(userId, q), page, perPage.value);
    }

    /** `schedule`: with a parseable `scheduled_at` the caller's post becomes
        scheduled at that instant; there is no check that it lies ahead.
        `parse` is the date parser behind the `date` rule and the cast. */
    method Schedule(userId: int, id: int, scheduledAt: Option<string>, parse: string -> Option<Instant>) returns (status: int)
      requires Valid()
      modifies this
      ensures Valid() && accountIds == old(accountIds) && tagIds == old(tagIds) && nextId == old(nextId)
      ensures trashedIds == old(trashedIds)
      ensures Resolve(old(posts), userId, id).None? ==> status == 404 && posts == old(posts)
      ensures Resolve(old(posts), userId, id).Some? && (scheduledAt.None? || IsBlank(scheduledAt.value) || parse(scheduledAt.value).None?) ==>
        status == 422 && posts == old(posts)
      ensures status == 200 ==>
        var i := Resolve(old(posts), userId, id).value;
        posts == old(posts)[i := old(posts)[i].(status := Scheduled, scheduledAt := parse(scheduledAt.value))]
      ensures Resolve(old(posts), userId, id).Some? && scheduledAt.Some? && !IsBlank(scheduledAt.value) && parse(scheduledAt.value).Some? ==>
        status == 200
      ensures status != 200 ==> posts == old(posts)
      ensures status in {200, 404, 422}
    {
      var found := Resolve(posts, userId, id);
      if found.None? {
        return 404;
      }
      if scheduledAt.None? || IsBlank(scheduledAt.value) || parse(scheduledAt.value).None? {
        return 422;
      }
      var i := found.value;
      posts := posts[i := posts[i].(status := Scheduled, scheduledAt := parse(scheduledAt.value))];
      status := 200;
    }

    /** `duplicate`: a copy of the caller's post goes to the end of the
        table under the next id; each version is replicated with its media. */
    method Duplicate(userId: int, id: int, now: int) returns (status: int, newId: Option<int>)
      requires Valid()
      modifies this
      ensures Valid() && accountIds == old(accountIds) && tagIds == old(tagIds) && trashedIds == old(trashedIds)
      ensures Resolve(old(posts), userId, id).None? ==> status == 404 && newId.None? && posts == old(posts) && nextId == old(nextId)
      ensures Resolve(old(posts), userId, id).Some? ==>
        && status == 201 && newId == Some(old(nextId)) && nextId == old(nextId) + 1
        && posts == old(posts) + [DuplicateOf(old(posts)[Resolve(old(posts), userId, id).value], old(nextId), now)]
    {
      var found := Resolve(posts, userId, id);
      if found.None? {
        return 404, None;
      }
      var source := posts[found.value];
      var copied: seq<ServerVersion> := [];
      for k := 0 to |source.versions|
        invariant copied == source.versions[..k]
      {
        var v := source.versions[k];
        copied := copied + [ServerVersion(v.accountId, v.isOriginal, v.content, v.contentText, v.media)];
      }
      assert source.versions[..|source.versions|] == source.versions;
      var copy := ServerPost(nextId, source.userId, Draft, None, None, now, source.accounts, source.tags, copied);
      assert copy == DuplicateOf(source, nextId, now);
      posts := posts + [copy];
      newId := Some(nextId);
      nextId := nextId + 1;
      status := 201;
    }

    /** `destroy`: the caller's post leaves the table and is trashed. */
    method Destroy(userId: int, id: int) returns (status: int)
      requires Valid()
      modifies this
      ensures Valid() && accountIds == old(accountIds) && tagIds == old(tagIds) && nextId == old(nextId)
      ensures Resolve(old(posts), userId, id).None? ==> status == 404 && posts == old(posts) && trashedIds == old(trashedIds)
      ensures Resolve(old(posts), userId, id).Some? ==>
        var i := Resolve(old(posts), userId, id).value;
        status == 200 && posts == old(posts)[..i] + old(posts)[i + 1..] && trashedIds == old(trashedIds) + {id}
    {
      var found := Resolve(posts, userId, id);
      if found.None? {
        return 404;
      }
      var i := found.value;
      RemoveAtKeepsIds(posts, i, nextId);
      posts := posts[..i] + posts[i + 1..];
      trashedIds := trashedIds + {id};
      status := 200;
    }

    /** `bulkDestroy`: `posts` must be a non-empty array of ids of rows of
        `mixpost_posts` (anyone's, trashed ones included); only the caller's
        listed live posts are deleted, and so trashed. */
    method BulkDestroy(userId: int, body: Json) returns (status: int)
      requires Valid()
      modifies this
      ensures Valid() && accountIds == old(accountIds) && tagIds == old(tagIds) && nextId == old(nextId)
      ensures status == 422 <==> !RequiredArray(body, "posts", ExistingId(PostIds(old(posts)) + old(trashedIds)))
      ensures status == 422 ==> posts == old(posts) && trashedIds == old(trashedIds)
      ensures status != 422 ==>
        && status == 200 && posts == Filter(old(posts), SurvivesBulk(userId, IdValues(body.fields["posts"])))
        && trashedIds == old(trashedIds) + (IdValues(body.fields["posts"]) * OwnedIds(old(posts), userId))
    {
      if !RequiredArray(body, "posts", ExistingId(PostIds(posts) + trashedIds)) {
        return 422;
      }
      RemoveOwned(userId, IdValues(body.fields["posts"]));
      status := 200;
    }

    /** The deletion behind `bulkDestroy`: the caller's rows with a listed id
        leave the table and their ids are trashed. */
    method RemoveOwned(userId: int, ids: set<int>)
      requires Valid()
      modifies this
      ensures Valid() && accountIds == old(accountIds) && tagIds == old(tagIds) && nextId == old(nextId)
      ensures posts == Filter(old(posts), SurvivesBulk(userId, ids))
      ensures trashedIds == old(trashedIds) + ids * OwnedIds(old(posts), userId)
    {
      var kept := Filter(posts, SurvivesBulk(userId, ids));
      var gone := ids * OwnedIds(posts, userId);
      OwnedIdsBelow(posts, userId, nextId);
      FilterKeepsDistinctIds(posts, SurvivesBulk(userId, ids));
      FilterStaysBelow(posts, SurvivesBulk(userId, ids), nextId);
      assert forall t :: t in trashedIds + gone ==> t < nextId;
      posts, trashedIds := kept, trashedIds + gone;
    }
  }

  /** Removing one row keeps the ids distinct and below their bound. */
  lemma RemoveAtKeepsIds(rows: seq<ServerPost>, i: nat, bound: int)
    requires i < |rows|
    requires forall k :: 0 <= k < |rows| ==> rows[k].id < bound
    requires forall a, b :: 0 <= a < b < |rows| ==> rows[a].id != rows[b].id
    ensures var r := rows[..i] + rows[i + 1..];
      && (forall k :: 0 <= k < |r| ==> r[k].id < bound)
      && (forall a, b :: 0 <= a < b < |r| ==> r[a].id != r[b].id)
  {
    var r := rows[..i] + rows[i + 1..];
    forall k | 0 <= k < |r|
      ensures r[k] == rows[if k < i then k else k + 1]
    {
    }
  }

  /** Every id a table's rows carry is below a bound they all keep. */
  lemma OwnedIdsBelow(rows: seq<ServerPost>, userId: int, bound: int)
    requires forall i :: 0 <= i < |rows| ==> rows[i].id < bound
    ensures forall t :: t in OwnedIds(rows, userId) ==> t < bound
  {
  }

  /** A filtered table keeps every bound on its ids. */
  lemma FilterStaysBelow(rows: seq<ServerPost>, keep: ServerPost -> bool, bound: int)
    requires forall i :: 0 <= i < |rows| ==> rows[i].id < bound
    ensures forall i :: 0 <= i < |Filter(rows, keep)| ==> Filter(rows, keep)[i].id < bound
  {
    forall i | 0 <= i < |Filter(rows, keep)|
      ensures Filter(rows, keep)[i].id < bound
    {
      assert Filter(rows, keep)[i] in rows;
    }
  }

  /** A filtered table keeps distinct ids. */
  lemma {:induction false} FilterKeepsDistinctIds(rows: seq<ServerPost>, keep: ServerPost -> bool)
    requires forall i, j :: 0 <= i < j < |rows| ==> rows[i].id != rows[j].id
    ensures forall i, j :: 0 <= i < j < |Filter(rows, keep)| ==> Filter(rows, keep)[i].id != Filter(rows, keep)[j].id
  {
    if rows != [] {
      var init := rows[..|rows| - 1];
      var last := rows[|rows| - 1];
      FilterKeepsDistinctIds(init, keep);
      var f := Filter(init, keep);
      var r := Filter(rows, keep);
      assert r == f + (if keep(last) then [last] else []);
      forall i, j | 0 <= i < j < |r|
        ensures r[i].id != r[j].id
      {
        if j == |f| {
          assert r[i] == f[i] && f[i] in init;
          var k :| 0 <= k < |init| && init[k] == f[i];
          assert rows[k] == r[i] && rows[|rows| - 1] == r[j];
        } else {
          assert r[i] == f[i] && r[j] == f[j];
        }
      }
    }
  }

  // ---------------------------------------------------------------------------
  // Cross-checks with the app

  /** The parameters `getPosts` sends reach `index` as the same filters: the
      status by its code, the tag, the account, the keyword and the page; no
      `per_page` is sent, so pages hold 20 posts. */
  lemma AppQueryReachesIndex(q: PostsQuery, userId: int, p: ServerPost)
    ensures var iq := IndexQueryFrom(PostsParameters(q));
      && iq.page == Some(JNum(q.page)) && iq.perPage.None? && PerPage(iq) == Some(20)
      && (q.page >= 1 ==> CurrentPage(iq) == q.page)
      && (IndexMatch(p, userId, iq) <==>
            && p.userId == userId
            && (q.status.Some? ==> p.status == q.status.value)
            && (q.tagId.Some? ==> AttachedTag(p, q.tagId.value))
            && (q.accountId.Some? ==> AttachedAccount(p, q.accountId.value))
            && (q.keyword.Some? && PhpTruthy(q.keyword.value) ==> SomeVersionContains(p, q.keyword.value)))
  {
    PostsParametersRoundTrip(q);
    if q.status.Some? {
      StatusCodeRoundTrip(p.status, StatusCode(q.status.value));
    }
  }

  /** A search for "0" is not a search: PHP's `empty` drops it, so the list
      shows every post of the caller whatever their text. */
  lemma ZeroKeywordIsNoFilter(userId: int, p: ServerPost)
    requires p.userId == userId
    ensures IndexMatch(p, userId, IndexQueryFrom(PostsParameters(PostsQuery(1, None, None, None, Some("0")))))
  {
    PostsParametersRoundTrip(PostsQuery(1, None, None, None, Some("0")));
  }

  /** An id list sent as a JSON array passes `integer|exists` element by
      element exactly when every id is known. */
  lemma IntArrayExisting(ids: seq<int>, known: set<int>)
    ensures IsArray(IntArray(ids)) && (Required(IntArray(ids)) <==> ids != [])
    ensures EveryItem(IntArray(ids), ExistingId(known)) <==> forall k :: 0 <= k < |ids| ==> ids[k] in known
  {
    var j := IntArray(ids);
    if forall k :: 0 <= k < |ids| ==> ids[k] in known {
      forall i | 0 <= i < |j.items|
        ensures ExistingId(known)(j.items[i])
      {
        assert j.items[i] == JNum(ids[i]);
      }
    }
    if EveryItem(j, ExistingId(known)) {
      forall k | 0 <= k < |ids|
        ensures ids[k] in known
      {
        assert ExistingId(known)(j.items[k]);
      }
    }
  }

  /** Deleting a post again is no validation error: its id is trashed, not
      gone, so `exists:mixpost_posts,id` still finds it and a second
      `bulkDestroy` listing it passes (and removes nothing more). */
  lemma TrashedIdStillExists(live: seq<ServerPost>, trashed: set<int>, id: int)
    requires id in trashed
    ensures RequiredArray(JObj(map["posts" := IntArray([id])]), "posts", ExistingId(PostIds(live) + trashed))
  {
    IntArrayExisting([id], PostIds(live) + trashed);
  }

  /** Every version the app sends passes the version rules when each has
      some content. */
  lemma VersionsValid(vs: seq<VersionRequest>)
    requires forall k :: 0 <= k < |vs| ==> |vs[k].content| > 0
    ensures EveryItem(JArr(seq(|vs|, i requires 0 <= i < |vs| => VersionToJson(vs[i]))), VersionValid)
  {
    var versions := JArr(seq(|vs|, i requires 0 <= i < |vs| => VersionToJson(vs[i])));
    forall k | 0 <= k < |vs|
      ensures VersionValid(versions.items[k])
    {
      VersionJsonShape(vs[k]);
    }
  }

  /** The fields of the app's request body that the rules look at. */
  lemma RequestFields(r: PostRequest)
    ensures RequestToJson(r).JObj?
    ensures "accounts" in RequestToJson(r).fields && RequestToJson(r).fields["accounts"] == IntArray(r.accounts)
    ensures "tags" in RequestToJson(r).fields && RequestToJson(r).fields["tags"] == IntArray(r.tags)
    ensures "versions" in RequestToJson(r).fields
    ensures RequestToJson(r).fields["versions"] == JArr(seq(|r.versions|, i requires 0 <= i < |r.versions| => VersionToJson(r.versions[i])))
    ensures "date" in RequestToJson(r).fields <==> r.date.Some?
    ensures r.date.Some? ==> RequestToJson(r).fields["date"] == JStr(r.date.value)
    ensures "time" in RequestToJson(r).fields <==> r.time.Some?
    ensures r.time.Some? ==> RequestToJson(r).fields["time"] == JStr(r.time.value)
  {
  }

  /** `store`'s rules on a body with the fields of an app request. */
  lemma StoreValidByFields(body: Json, r: PostRequest, knownAccounts: set<int>, knownTags: set<int>)
    requires body.JObj? && "accounts" in body.fields && "tags" in body.fields && "versions" in body.fields
    requires body.fields["accounts"] == IntArray(r.accounts) && body.fields["tags"] == IntArray(r.tags)
    requires body.fields["versions"].JArr? && |body.fields["versions"].items| == |r.versions|
    requires EveryItem(body.fields["versions"], VersionValid)
    requires "date" in body.fields ==> body.fields["date"].JStr? && ParseYmd(body.fields["date"].s).Some?
    requires "time" in body.fields ==> body.fields["time"].JStr? && ParseHm(body.fields["time"].s).Some?
    ensures StoreValid(body, knownAccounts, knownTags) <==>
      && r.accounts != [] && r.versions != []
      && (forall k :: 0 <= k < |r.accounts| ==> r.accounts[k] in knownAccounts)
      && (forall k :: 0 <= k < |r.tags| ==> r.tags[k] in knownTags)
  {
    IntArrayExisting(r.accounts, knownAccounts);
    IntArrayExisting(r.tags, knownTags);
  }

  /** The body `savePost` sends passes `store` whenever at least one account
      is selected and every selected account and tag exists; with no account
      selected it is refused. The same body passes `update`. */
  lemma AppRequestPassesStore(r: PostRequest, knownAccounts: set<int>, knownTags: set<int>)
    requires forall k :: 0 <= k < |r.versions| ==> |r.versions[k].content| > 0
    requires r.date.Some? ==> ParseYmd(r.date.value).Some?
    requires r.time.Some? ==> ParseHm(r.time.value).Some?
    ensures StoreValid(RequestToJson(r), knownAccounts, knownTags) <==>
      && r.accounts != [] && r.versions != []
      && (forall k :: 0 <= k < |r.accounts| ==> r.accounts[k] in knownAccounts)
      && (forall k :: 0 <= k < |r.tags| ==> r.tags[k] in knownTags)
    ensures StoreValid(RequestToJson(r), knownAccounts, knownTags) ==> UpdateValid(RequestToJson(r), knownAccounts, knownTags)
  {
    RequestFields(r);
    VersionsValid(r.versions);
    StoreValidByFields(RequestToJson(r), r, knownAccounts, knownTags);
  }

  /** The app's own request, built from the composer with at least one
      account: one version per account, each with one text block, so the
      only reasons `store` can refuse it are unknown account or tag ids. */
  lemma ComposerRequestPassesStore(content: string, accounts: seq<AccountModels.Account>, media: seq<MediaModels.Media>, tags: seq<TagModels.Tag>,
                                   when: Option<Instant>, knownAccounts: set<int>, knownTags: set<int>)
    requires when.Some? ==> ValidInstant(when.value) && 1 <= when.value.date.year <= 9999
    ensures var r := PostComposer.BuildRequest(content, accounts, media, tags, when);
      StoreValid(RequestToJson(r), knownAccounts, knownTags) <==>
        && accounts != []
        && (forall k :: 0 <= k < |accounts| ==> accounts[k].id in knownAccounts)
        && (forall k :: 0 <= k < |tags| ==> tags[k].id in knownTags)
  {
    var r := PostComposer.BuildRequest(content, accounts, media, tags, when);
    if when.Some? {
      FormatParseYmd(when.value.date);
      FormatParseHm(when.value);
    }
    AppRequestPassesStore(r, knownAccounts, knownTags);
  }

  /** The app's bulk delete body is accepted exactly when it lists at least
      one id and every id exists, and it asks for exactly those ids. */
  lemma AppBulkDeleteBody(ids: seq<int>, existing: set<int>)
    ensures var body := JObj(DeleteParameters("posts", ids));
      && (RequiredArray(body, "posts", ExistingId(existing)) <==> ids != [] && forall k :: 0 <= k < |ids| ==> ids[k] in existing)
      && IdValues(body.fields["posts"]) == set k | 0 <= k < |ids| :: ids[k]
  {
    var v := IntArray(ids);
    assert DeleteParameters("posts", ids)["posts"] == v;
    assert forall k :: k in IdValues(v) <==> exists i :: 0 <= i < |ids| && ids[i] == k;
  }

  /** `bulkDestroy` never touches another user's post, and deletes every
      listed post of the caller. */
  lemma BulkDestroyScope(rows: seq<ServerPost>, userId: int, ids: set<int>, p: ServerPost)
    requires p in rows
    ensures p.userId != userId ==> p in Filter(rows, SurvivesBulk(userId, ids))
    ensures p.userId == userId && p.id in ids ==> p !in Filter(rows, SurvivesBulk(userId, ids))
    ensures p.id !in ids ==> p in Filter(rows, SurvivesBulk(userId, ids))
  {
  }

  /** A duplicate is a draft with the source's owner, accounts, tags and
      version texts, so it is found by the same account, tag and keyword
      filters, and it has no date, so the calendar never shows it. */
  lemma DuplicateMatchesLikeSource(p: ServerPost, newId: int, now: int, c: Condition, userId: int, w: Window, q: CalendarQuery)
    requires !c.StatusCodeIs? && !c.ScheduledNotNull? && !c.ScheduledOrPublishedBetween?
    ensures Holds(c, DuplicateOf(p, newId, now)) <==> Holds(c, p)
    ensures DuplicateOf(p, newId, now).status == Draft
    ensures !CalendarMatch(DuplicateOf(p, newId, now), userId, w, q)
  {
    var d := DuplicateOf(p, newId, now);
    assert d.accounts == p.accounts && d.tags == p.tags && d.versions == p.versions;
  }

  /** The app puts a duplicate first; so does `index` when the copy is the
      newest row. */
  lemma DuplicateListedFirst(rows: seq<ServerPost>, d: ServerPost)
    requires SortedBy(rows, LatestLeq)
    requires forall i :: 0 <= i < |rows| ==> rows[i].createdAt <= d.createdAt
    ensures SortedBy([d] + rows, LatestLeq)
  {
    var r := [d] + rows;
    forall i, j | 0 <= i < j < |r|
      ensures LatestLeq(r[i], r[j])
    {
      if i > 0 {
        assert r[i] == rows[i - 1] && r[j] == rows[j - 1];
      } else {
        assert r[j] == rows[j - 1];
      }
    }
  }

  /** A post scheduled through `schedule` shows up in the calendar the app
      asks for on that day, in either view, when no account or tag filter
      is set. */
  lemma ScheduledPostInCalendar(p: ServerPost, t: Instant, kind: string)
    requires ValidInstant(t)
    ensures CalendarMatch(p.(status := Scheduled, scheduledAt := Some(t)), p.userId, WindowFor(t, kind), CalendarQuery(None, None, None, None))
  {
    var w := WindowFor(t, kind);
    var first := FirstOfMonth(t);
    assert DayNumber(t.date) == DayNumber(first) + t.date.day - 1;
    var day := DayNumber(t.date);
    var startDay := DayNumber(w.start.date);
    var endDay := DayNumber(w.end.date);
    assert startDay <= day <= endDay;
    assert Key(w.start) == startDay * SecondsPerDay + w.start.second;
    assert Key(w.end) == endDay * SecondsPerDay + w.end.second;
    assert Key(t) == day * SecondsPerDay + t.second;
    assert Key(w.start) <= Key(t) <= Key(w.end);
  }
}
