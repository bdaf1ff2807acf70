/** `DashboardController` of the mobile API: the caller's accounts, post
    counts by status and five most recent posts, over in-memory tables. */
module DashboardController {
  import opened Wrappers
  import opened PostModels
  import opened ServerModels
  import opened Sorting
  import AccountsController

  /** `Post::forCurrentUser()`. */
  function OwnedPost(userId: int): ServerPost -> bool {
    (p: ServerPost) => p.userId == userId
  }

  /** `Post::forCurrentUser()->where('status', $status)`. */
  function OwnedWithStatus(userId: int, status: PostStatus): ServerPost -> bool {
    (p: ServerPost) => p.userId == userId && p.status == status
  }

  /** `->count()` of that query. */
  function StatusCount(rows: seq<ServerPost>, userId: int, status: PostStatus): (n: nat)
    ensures n <= |rows|
  {
    |Filter(rows, OwnedWithStatus(userId, status))|
  }

  /** The four statuses split the caller's posts: each post is counted under
      its own status only. */
  lemma {:induction false} StatusCountsPartition(rows: seq<ServerPost>, userId: int)
    ensures StatusCount(rows, userId, Draft) + StatusCount(rows, userId, Scheduled)
          + StatusCount(rows, userId, Published) + StatusCount(rows, userId, Failed)
         == |Filter(rows, OwnedPost(userId))|
    decreases |rows|
  {
    if rows != [] {
      StatusCountsPartition(rows[..|rows| - 1], userId);
    }
  }

  /** The dashboard's three counts leave out drafts, so together they never
      exceed the caller's posts, and they reach that number exactly when the
      caller has no draft. */
  lemma DashboardCountsBound(rows: seq<ServerPost>, userId: int)
    ensures StatusCount(rows, userId, Scheduled) + StatusCount(rows, userId, Published) + StatusCount(rows, userId, Failed)
         <= |Filter(rows, OwnedPost(userId))|
    ensures (StatusCount(rows, userId, Scheduled) + StatusCount(rows, userId, Published) + StatusCount(rows, userId, Failed)
             == |Filter(rows, OwnedPost(userId))|) <==> StatusCount(rows, userId, Draft) == 0
  {
    StatusCountsPartition(rows, userId);
  }

  /** `->take(n)`. */
  function Take<T>(s: seq<T>, n: nat): (r: seq<T>)
    ensures |r| <= n && |r| <= |s|
    ensures r == s[..|r|]
    ensures |s| >= n ==> |r| == n
  {
    if |s| <= n then s else s[..n]
  }

  /** `Post::forCurrentUser()->latest()->take(5)->get()`. */
  function RecentPosts(rows: seq<ServerPost>, userId: int): seq<ServerPost> {
    Take(SortBy(Filter(rows, OwnedPost(userId)), LatestLeq), 5)
  }

  /** The first `n` of a list sorted by a total preorder: whatever of the
      list they leave out comes no earlier than the last one taken. */
  lemma TakeOfSorted<T(!new)>(s: seq<T>, n: nat, leq: (T, T) -> bool, x: T)
    requires n > 0 && TotalPreorder(leq) && SortedBy(SortBy(s, leq), leq)
    requires x in s && x !in Take(SortBy(s, leq), n)
    ensures |Take(SortBy(s, leq), n)| == n && leq(Take(SortBy(s, leq), n)[n - 1], x)
  {
    var sorted := SortBy(s, leq);
    assert x in multiset(sorted);
    var j :| 0 <= j < |sorted| && sorted[j] == x;
    assert j >= n;
    assert leq(sorted[n - 1], sorted[j]);
  }

  /** At most five of the caller's posts, newest first. */
  lemma RecentPostsAreOwned(rows: seq<ServerPost>, userId: int)
    ensures |RecentPosts(rows, userId)| <= 5
    ensures forall p :: p in RecentPosts(rows, userId) ==> p in rows && p.userId == userId
    ensures SortedBy(RecentPosts(rows, userId), LatestLeq)
  {
    var owned := Filter(rows, OwnedPost(userId));
    var sorted := SortBy(owned, LatestLeq);
    var r := Take(sorted, 5);
    PostOrdersArePreorders();
    SortBySorted(owned, LatestLeq);
    forall p | p in r
      ensures p in rows && p.userId == userId
    {
      assert p in multiset(sorted);
      assert p in owned;
    }
  }

  /** No post of the caller that the dashboard leaves out is newer than the
      oldest one it lists. */
  lemma RecentPostsAreNewest(rows: seq<ServerPost>, userId: int, p: ServerPost)
    requires p in rows && p.userId == userId && p !in RecentPosts(rows, userId)
    ensures |RecentPosts(rows, userId)| == 5 && RecentPosts(rows, userId)[4].createdAt >= p.createdAt
  {
    var owned := Filter(rows, OwnedPost(userId));
    PostOrdersArePreorders();
    SortBySorted(owned, LatestLeq);
    assert OwnedPost(userId)(p);
    TakeOfSorted(owned, 5, LatestLeq, p);
  }

  /** The dashboard's answer. */
  datatype Dashboard = Dashboard(
    accounts: seq<ServerAccount>,
    recentPosts: seq<ServerPost>,
    scheduledCount: nat,
    publishedCount: nat,
    failedCount: nat)

  /** `__invoke`: the caller's accounts newest first, the counts of their
      scheduled, published and failed posts, and their five latest posts. */
  function DashboardFor(userId: int, accounts: seq<ServerAccount>, posts: seq<ServerPost>): (d: Dashboard)
    ensures forall a :: a in d.accounts <==> a in accounts && a.userId == userId
    ensures SortedBy(d.accounts, AccountsController.AccountLatestLeq)
    ensures d.scheduledCount + d.publishedCount + d.failedCount <= |Filter(posts, OwnedPost(userId))|
    ensures |d.recentPosts| <= 5
    ensures forall p :: p in d.recentPosts ==> p in posts && p.userId == userId
    ensures d.scheduledCount == StatusCount(posts, userId, Scheduled)
    ensures d.publishedCount == StatusCount(posts, userId, Published)
    ensures d.failedCount == StatusCount(posts, userId, Failed)
    ensures d.recentPosts == RecentPosts(posts, userId) && SortedBy(d.recentPosts, LatestLeq)
    ensures forall p :: p in posts && p.userId == userId && p !in d.recentPosts ==>
      |d.recentPosts| == 5 && d.recentPosts[4].createdAt >= p.createdAt
  {
    var owned := AccountsController.OwnedAccounts(accounts, userId);
    var sortedAccounts := SortBy(owned, AccountsController.AccountLatestLeq);
    AccountsController.AccountLatestIsPreorder();
    SortBySorted(owned, AccountsController.AccountLatestLeq);
    assert forall a :: a in sortedAccounts <==> a in multiset(owned);
    DashboardCountsBound(posts, userId);
    RecentPostsAreOwned(posts, userId);
    forall p | p in posts && p.userId == userId && p !in RecentPosts(posts, userId)
      ensures |RecentPosts(posts, userId)| == 5 && RecentPosts(posts, userId)[4].createdAt >= p.createdAt
    {
      RecentPostsAreNewest(posts, userId, p);
    }
    Dashboard(sortedAccounts, RecentPosts(posts, userId),
      StatusCount(posts, userId, Scheduled), StatusCount(posts, userId, Published), StatusCount(posts, userId, Failed))
  }
}
