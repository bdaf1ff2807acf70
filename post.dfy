/** Posts, their per-account versions and the create/update request body
    (`Models/Post.swift`). */
module PostModels {
  import opened Wrappers
  import opened Dates
  import opened JsonValues
  import opened MediaModels
  import opened AccountModels
  import opened TagModels
  import opened Pagination

  datatype PostStatus = Draft | Scheduled | Published | Failed

  /** The integer each status travels as. */
  function StatusCode(s: PostStatus): int {
    match s
    case Draft => 0
    case Scheduled => 1
    case Published => 2
    case Failed => 3
  }

  function StatusFromCode(n: int): (r: Option<PostStatus>) {
    if n == 0 then Some(Draft)
    else if n == 1 then Some(Scheduled)
    else if n == 2 then Some(Published)
    else if n == 3 then Some(Failed)
    else None
  }

  /** The codes are 0..3, decode back to their status, and nothing else decodes. */
  lemma StatusCodeRoundTrip(s: PostStatus, n: int)
    ensures 0 <= StatusCode(s) <= 3
    ensures StatusFromCode(StatusCode(s)) == Some(s)
    ensures StatusFromCode(n).Some? <==> 0 <= n <= 3
    ensures StatusFromCode(n) == Some(s) ==> StatusCode(s) == n
  {
  }

  function StatusDisplayName(s: PostStatus): string {
    match s
    case Draft => "Draft"
    case Scheduled => "Scheduled"
    case Published => "Published"
    case Failed => "Failed"
  }

  function StatusColor(s: PostStatus): string {
    match s
    case Draft => "gray"
    case Scheduled => "blue"
    case Published => "green"
    case Failed => "red"
  }

  /** Names and colours tell the statuses apart. */
  lemma StatusLabelsDistinct(s: PostStatus, t: PostStatus)
    ensures StatusDisplayName(s) == StatusDisplayName(t) ==> s == t
    ensures StatusColor(s) == StatusColor(t) ==> s == t
  {
  }

  datatype PostScheduleStatus = Pending | Processing | Processed

  function ScheduleStatusCode(s: PostScheduleStatus): int {
    match s
    case Pending => 0
    case Processing => 1
    case Processed => 2
  }

  function ScheduleStatusFromCode(n: int): (r: Option<PostScheduleStatus>) {
    if n == 0 then Some(Pending)
    else if n == 1 then Some(Processing)
    else if n == 2 then Some(Processed)
    else None
  }

  lemma ScheduleStatusCodeRoundTrip(s: PostScheduleStatus, n: int)
    ensures ScheduleStatusFromCode(ScheduleStatusCode(s)) == Some(s)
    ensures ScheduleStatusFromCode(n).Some? <==> 0 <= n <= 2
    ensures ScheduleStatusFromCode(n) == Some(s) ==> ScheduleStatusCode(s) == n
  {
  }

  datatype PostContent = PostContent(kind: string, value: string)

  /** `PostContent(value:)`, whose type defaults to "text". */
  function TextContent(value: string): PostContent {
    PostContent("text", value)
  }

  datatype PostVersion = PostVersion(
    id: int,
    postId: int,
    accountId: int,
    isOriginal: bool,
    content: Option<seq<PostContent>>,
    media: Option<seq<Media>>)

  /** A post; creation/update/deletion timestamps are left out (display only). */
  datatype Post = Post(
    id: int,
    userId: Option<int>,
    status: PostStatus,
    scheduleStatus: PostScheduleStatus,
    scheduledAt: Option<Instant>,
    publishedAt: Option<Instant>,
    versions: Option<seq<PostVersion>>,
    accounts: Option<seq<Account>>,
    tags: Option<seq<Tag>>)

  /** `Post(id:)` with every default: a pending draft with nothing else set. */
  function DefaultPost(id: int): (p: Post) {
    Post(id, None, Draft, Pending, None, None, None, None, None)
  }

  lemma DefaultPostIsEmptyDraft(id: int)
    ensures var p := DefaultPost(id);
      p.id == id && p.status == Draft && p.scheduleStatus == Pending
      && p.userId.None? && p.scheduledAt.None? && p.publishedAt.None?
      && p.versions.None? && p.accounts.None? && p.tags.None?
      && PrimaryContent(p).None? && AllMedia(p) == []
  {
  }

  /** `==` on posts: identity by id (and `hash` combines only the id). */
  predicate SamePost(a: Post, b: Post) {
    a.id == b.id
  }

  function PostHash(p: Post): int {
    p.id
  }

  lemma PostEqualityById(a: Post, b: Post, c: Post)
    ensures SamePost(a, a)
    ensures SamePost(a, b) ==> SamePost(b, a) && PostHash(a) == PostHash(b)
    ensures SamePost(a, b) && SamePost(b, c) ==> SamePost(a, c)
    ensures SamePost(a, a.(status := b.status, versions := b.versions, scheduledAt := b.scheduledAt))
  {
  }

  /** `primaryContent`: the first block of the first version. */
  function PrimaryContent(p: Post): Option<string> {
    if p.versions.Some? && |p.versions.value| > 0
       && p.versions.value[0].content.Some? && |p.versions.value[0].content.value| > 0
    then Some(p.versions.value[0].content.value[0].value)
    else None
  }

  /** The primary content is missing exactly when there is no version, or the
      first version has no content blocks; otherwise it is that block's text. */
  lemma PrimaryContentCases(p: Post)
    ensures PrimaryContent(p).None? <==>
      (p.versions.None? || p.versions.value == []
       || p.versions.value[0].content.None? || p.versions.value[0].content.value == [])
    ensures PrimaryContent(p).Some? ==>
      exists c :: c in p.versions.value[0].content.value && c.value == PrimaryContent(p).value
  {
    if PrimaryContent(p).Some? {
      assert p.versions.value[0].content.value[0] in p.versions.value[0].content.value;
    }
  }

  function MediaOf(v: PostVersion): seq<Media> {
    if v.media.Some? then v.media.value else []
  }

  function FlatMedia(vs: seq<PostVersion>): seq<Media> {
    if vs == [] then [] else MediaOf(vs[0]) + FlatMedia(vs[1..])
  }

  /** `allMedia`: every version's media in version order (nil counts as empty). */
  function AllMedia(p: Post): seq<Media> {
    if p.versions.Some? then FlatMedia(p.versions.value) else []
  }

  function CountMedia(vs: seq<PostVersion>): nat {
    if vs == [] then 0 else |MediaOf(vs[0])| + CountMedia(vs[1..])
  }

  /** All media has as many items as the versions have together, and an item
      is in it exactly when some version carries it. */
  lemma {:induction false} FlatMediaContents(vs: seq<PostVersion>)
    ensures |FlatMedia(vs)| == CountMedia(vs)
    ensures forall m :: m in FlatMedia(vs) <==> exists i :: 0 <= i < |vs| && m in MediaOf(vs[i])
  {
    if vs != [] {
      FlatMediaContents(vs[1..]);
      forall m
        ensures m in FlatMedia(vs) <==> exists i :: 0 <= i < |vs| && m in MediaOf(vs[i])
      {
        if m in FlatMedia(vs[1..]) {
          var i :| 0 <= i < |vs[1..]| && m in MediaOf(vs[1..][i]);
          assert m in MediaOf(vs[i + 1]);
        }
        if exists i :: 0 <= i < |vs| && m in MediaOf(vs[i]) {
          var i :| 0 <= i < |vs| && m in MediaOf(vs[i]);
          if i > 0 {
            assert m in MediaOf(vs[1..][i - 1]);
          }
        }
      }
    }
  }

  /** `PostsResponse`: one page of posts and, when sent, its `meta` block
      (`PaginationMeta`); the `links` block is display only. */
  datatype PostsResponse = PostsResponse(data: seq<Post>, meta: Option<Meta>)

  // ---------------------------------------------------------------------------
  // Request bodies

  /** `CreatePostVersionRequest`: content blocks are string dictionaries. */
  datatype VersionRequest = VersionRequest(accountId: int, content: seq<map<string, string>>, media: seq<int>)

  /** `CreatePostRequest`. */
  datatype PostRequest = PostRequest(
    date: Option<string>,
    time: Option<string>,
    accounts: seq<int>,
    versions: seq<VersionRequest>,
    tags: seq<int>)

  function IntArray(ids: seq<int>): (j: Json)
    ensures j.JArr? && |j.items| == |ids|
    ensures forall i :: 0 <= i < |ids| ==> j.items[i] == JNum(ids[i])
  {
    JArr(seq(|ids|, i requires 0 <= i < |ids| => JNum(ids[i])))
  }

  /** The ids back out of an array of numbers; `None` for anything else. */
  function IdsOf(j: Json): (r: Option<seq<int>>)
    ensures r.Some? ==> j.JArr? && |r.value| == |j.items|
  {
    if j.JArr? && forall i :: 0 <= i < |j.items| ==> j.items[i].JNum? then
      Some(seq(|j.items|, i requires 0 <= i < |j.items| => j.items[i].n))
    else None
  }

  lemma IdsRoundTrip(ids: seq<int>)
    ensures IdsOf(IntArray(ids)) == Some(ids)
  {
    var j := IntArray(ids);
    assert forall i :: 0 <= i < |j.items| ==> j.items[i].JNum?;
    assert IdsOf(j).value == ids;
  }

  function StringDict(m: map<string, string>): Json {
    JObj(map k | k in m :: JStr(m[k]))
  }

  /** `CreatePostVersionRequest.toDictionary()`. */
  function VersionToJson(v: VersionRequest): (j: Json) {
    JObj(map[
      "account_id" := JNum(v.accountId),
      "content" := JArr(seq(|v.content|, i requires 0 <= i < |v.content| => StringDict(v.content[i]))),
      "media" := IntArray(v.media)])
  }

  /** `CreatePostRequest.toDictionary()`. */
  function RequestToJson(r: PostRequest): (j: Json) {
    var base := map[
      "accounts" := IntArray(r.accounts),
      "tags" := IntArray(r.tags),
      "versions" := JArr(seq(|r.versions|, i requires 0 <= i < |r.versions| => VersionToJson(r.versions[i])))];
    var withDate := if r.date.Some? then base["date" := JStr(r.date.value)] else base;
    JObj(if r.time.Some? then withDate["time" := JStr(r.time.value)] else withDate)
  }

  /** A version body has exactly the keys account_id, content and media, and
      the account and media ids read back unchanged. */
  lemma VersionJsonShape(v: VersionRequest)
    ensures VersionToJson(v).JObj? && VersionToJson(v).fields.Keys == {"account_id", "content", "media"}
    ensures VersionToJson(v).fields["account_id"] == JNum(v.accountId)
    ensures IdsOf(VersionToJson(v).fields["media"]) == Some(v.media)
    ensures |VersionToJson(v).fields["content"].items| == |v.content|
  {
    IdsRoundTrip(v.media);
  }

  /** A request body always has accounts, tags and versions; it has date (time)
      exactly when the request has one; the ids and strings read back unchanged. */
  lemma RequestJsonShape(r: PostRequest)
    ensures RequestToJson(r).JObj?
    ensures RequestToJson(r).fields.Keys ==
      {"accounts", "tags", "versions"} + (if r.date.Some? then {"date"} else {}) + (if r.time.Some? then {"time"} else {})
    ensures IdsOf(RequestToJson(r).fields["accounts"]) == Some(r.accounts)
    ensures IdsOf(RequestToJson(r).fields["tags"]) == Some(r.tags)
    ensures |RequestToJson(r).fields["versions"].items| == |r.versions|
    ensures forall i :: 0 <= i < |r.versions| ==> RequestToJson(r).fields["versions"].items[i] == VersionToJson(r.versions[i])
    ensures r.date.Some? ==> RequestToJson(r).fields["date"] == JStr(r.date.value)
    ensures r.time.Some? ==> RequestToJson(r).fields["time"] == JStr(r.time.value)
  {
    IdsRoundTrip(r.accounts);
    IdsRoundTrip(r.tags);
  }
}
