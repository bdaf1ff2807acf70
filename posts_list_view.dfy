/** `PostsListViewModel` (`Views/Posts/PostsListView.swift`): a list that
    loads page 1 on every filter change and appends the following pages on
    demand. Each fetch is an input: the response, or the error it raised. */
module PostsListView {
  import opened Wrappers
  import opened Pagination
  import opened AccountModels
  import opened TagModels
  import opened PostModels
  import opened Selection
  import opened ApiClient

  /** An empty search field is no keyword. */
  function KeywordParameter(keyword: string): (r: Option<string>)
    ensures r.None? <==> keyword == ""
    ensures r.Some? ==> r.value == keyword
  {
    if keyword == "" then None else Some(keyword)
  }

  /** The `getPosts` call for `page` under the current filters. */
  function QueryFor(page: int, status: Option<PostStatus>, tag: Option<Tag>, account: Option<Account>, keyword: string): (q: PostsQuery) {
    PostsQuery(page, status,
               if tag.Some? then Some(tag.value.id) else None,
               if account.Some? then Some(account.value.id) else None,
               KeywordParameter(keyword))
  }

  /** `lastPage = response.meta?.lastPage ?? 1`. */
  function LastPageOf(response: PostsResponse): int {
    if response.meta.Some? then response.meta.value.lastPage else 1
  }

  /** The status a tap on a chip selects: tapping the selected chip clears
      the filter, tapping another selects it. */
  function ChipTap(current: Option<PostStatus>, tapped: PostStatus): (r: Option<PostStatus>)
    ensures r == Some(tapped) <==> current != Some(tapped)
    ensures r.Some? ==> r.value == tapped
  {
    if current == Some(tapped) then None else Some(tapped)
  }

  /** Tapping the same chip twice brings the filter back when it was empty
      or on that status; from another status it ends cleared. */
  lemma ChipTapTwice(current: Option<PostStatus>, tapped: PostStatus)
    ensures ChipTap(ChipTap(current, tapped), tapped) == (if current == Some(tapped) then current else None)
  {
  }

  function WithPostId(id: int): Post -> bool {
    (p: Post) => p.id == id
  }

  class PostsListViewModel {
    var posts: seq<Post>
    var statusFilter: Option<PostStatus>
    var tagFilter: Option<Tag>
    var accountFilter: Option<Account>
    var searchKeyword: string
    var isLoading: bool
    var errorMessage: Option<string>
    var currentPage: int
    var lastPage: int

    /** Pages count from 1. */
    ghost predicate Valid()
      reads this
    {
      currentPage >= 1
    }

    constructor()
      ensures Valid() && posts == [] && currentPage == 1 && lastPage == 1
      ensures statusFilter.None? && tagFilter.None? && accountFilter.None? && searchKeyword == ""
      ensures !isLoading && errorMessage.None?
    {
      posts := [];
      statusFilter := None;
      tagFilter := None;
      accountFilter := None;
      searchKeyword := "";
      isLoading := false;
      errorMessage := None;
      currentPage := 1;
      lastPage := 1;
    }

    predicate HasMorePages()
      reads this
    {
      currentPage < lastPage
    }

    /** The call the current filters make for `page`. */
    function Query(page: int): PostsQuery
      reads this
    {
      QueryFor(page, statusFilter, tagFilter, accountFilter, searchKeyword)
    }

    /** `loadPosts`: page 1 under the current filters replaces the list. */
    method LoadPosts(response: Result<PostsResponse, string>) returns (sent: PostsQuery)
      modifies this
      ensures Valid() && currentPage == 1 && !isLoading
      ensures sent == Query(1)
      ensures response.Success? ==> posts == response.value.data && lastPage == LastPageOf(response.value) && errorMessage == old(errorMessage)
      ensures response.Failure? ==> posts == old(posts) && lastPage == old(lastPage) && errorMessage == Some(response.error)
      ensures statusFilter == old(statusFilter) && tagFilter == old(tagFilter)
      ensures accountFilter == old(accountFilter) && searchKeyword == old(searchKeyword)
    {
      currentPage := 1;
      isLoading := true;
      sent := Query(currentPage);
      if response.Success? {
        posts := response.value.data;
        lastPage := LastPageOf(response.value);
      } else {
        errorMessage := Some(response.error);
      }
      isLoading := false;
    }

    /** `loadMorePosts`: nothing without a further page or while loading;
        otherwise the next page is appended. The page counter moves on even
        when the fetch fails. */
    method LoadMorePosts(response: Result<PostsResponse, string>) returns (sent: Option<PostsQuery>)
      requires Valid()
      modifies this
      ensures Valid()
      ensures sent.None? <==> !old(HasMorePages()) || old(isLoading)
      ensures sent.None? ==> posts == old(posts) && currentPage == old(currentPage) && lastPage == old(lastPage)
                             && isLoading == old(isLoading) && errorMessage == old(errorMessage)
      ensures sent.Some? ==> currentPage == old(currentPage) + 1 && sent.value == Query(currentPage)
                             && sent.value.page <= old(lastPage) && !isLoading
      ensures sent.Some? && response.Success? ==>
        posts == old(posts) + response.value.data && lastPage == LastPageOf(response.value) && errorMessage == old(errorMessage)
      ensures sent.Some? && response.Failure? ==>
        posts == old(posts) && lastPage == old(lastPage) && errorMessage == Some(response.error)
      ensures statusFilter == old(statusFilter) && tagFilter == old(tagFilter)
      ensures accountFilter == old(accountFilter) && searchKeyword == old(searchKeyword)
    {
      if !HasMorePages() || isLoading {
        return None;
      }
      currentPage := currentPage + 1;
      isLoading := true;
      sent := Some(Query(currentPage));
      if response.Success? {
        posts := posts + response.value.data;
        lastPage := LastPageOf(response.value);
      } else {
        errorMessage := Some(response.error);
      }
      isLoading := false;
    }

    /** `filterByStatus`: set the filter and reload. */
    method FilterByStatus(status: Option<PostStatus>, response: Result<PostsResponse, string>) returns (sent: PostsQuery)
      modifies this
      ensures statusFilter == status && sent.status == status && sent.page == 1
      ensures sent == Query(1) && Valid() && currentPage == 1
      ensures response.Success? ==> posts == response.value.data && lastPage == LastPageOf(response.value) && errorMessage == old(errorMessage)
      ensures response.Failure? ==> posts == old(posts) && lastPage == old(lastPage) && errorMessage == Some(response.error)
      ensures !isLoading
      ensures tagFilter == old(tagFilter) && accountFilter == old(accountFilter) && searchKeyword == old(searchKeyword)
    {
      statusFilter := status;
      sent := LoadPosts(response);
    }

    /** A tap on a status chip. */
    method TapStatusChip(status: PostStatus, response: Result<PostsResponse, string>) returns (sent: PostsQuery)
      modifies this
      ensures statusFilter == ChipTap(old(statusFilter), status) && sent == Query(1)
      ensures Valid() && currentPage == 1
      ensures response.Success? ==> posts == response.value.data && lastPage == LastPageOf(response.value) && errorMessage == old(errorMessage)
      ensures response.Failure? ==> posts == old(posts) && lastPage == old(lastPage) && errorMessage == Some(response.error)
      ensures !isLoading
      ensures tagFilter == old(tagFilter) && accountFilter == old(accountFilter) && searchKeyword == old(searchKeyword)
    {
      sent := FilterByStatus(if statusFilter == Some(status) then None else Some(status), response);
    }

    /** `clearFilters`: no filter and no keyword, then reload. */
    method ClearFilters(response: Result<PostsResponse, string>) returns (sent: PostsQuery)
      modifies this
      ensures statusFilter.None? && tagFilter.None? && accountFilter.None? && searchKeyword == ""
      ensures sent == PostsQuery(1, None, None, None, None)
      ensures Valid() && currentPage == 1
      ensures response.Success? ==> posts == response.value.data && lastPage == LastPageOf(response.value) && errorMessage == old(errorMessage)
      ensures response.Failure? ==> posts == old(posts) && lastPage == old(lastPage) && errorMessage == Some(response.error)
      ensures !isLoading
    {
      statusFilter := None;
      tagFilter := None;
      accountFilter := None;
      searchKeyword := "";
      sent := LoadPosts(response);
    }

    /** `deletePost`: on success every post with that id leaves the list. */
    method DeletePost(post: Post, failure: Option<string>)
      modifies this
      ensures failure.None? ==> posts == RemoveAll(old(posts), WithPostId(post.id)) && errorMessage == old(errorMessage)
      ensures failure.Some? ==> posts == old(posts) && errorMessage == failure
      ensures currentPage == old(currentPage) && lastPage == old(lastPage) && isLoading == old(isLoading)
      ensures statusFilter == old(statusFilter) && tagFilter == old(tagFilter)
      ensures accountFilter == old(accountFilter) && searchKeyword == old(searchKeyword)
    {
      if failure.None? {
        posts := RemoveAll(posts, WithPostId(post.id));
      } else {
        errorMessage := failure;
      }
    }

    /** `duplicatePost`: on success the new post goes first. */
    method DuplicatePost(post: Post, response: Result<Post, string>)
      modifies this
      ensures response.Success? ==> posts == [response.value] + old(posts) && errorMessage == old(errorMessage)
      ensures response.Failure? ==> posts == old(posts) && errorMessage == Some(response.error)
      ensures currentPage == old(currentPage) && lastPage == old(lastPage) && isLoading == old(isLoading)
      ensures statusFilter == old(statusFilter) && tagFilter == old(tagFilter)
      ensures accountFilter == old(accountFilter) && searchKeyword == old(searchKeyword)
    {
      if response.Success? {
        posts := [response.value] + posts;
      } else {
        errorMessage := Some(response.error);
      }
    }
  }

  function PostIdOf(p: Post): int { p.id }

  /** After a delete no post with that id is listed and every other post
      stays: the listed ids lose exactly that id. */
  lemma DeleteRemovesExactlyThatPost(posts: seq<Post>, id: int, q: Post)
    ensures q in RemoveAll(posts, WithPostId(id)) <==> q in posts && q.id != id
    ensures IdSet(RemoveAll(posts, WithPostId(id)), PostIdOf) == IdSet(posts, PostIdOf) - {id}
  {
    RemoveAllIdSet(posts, PostIdOf, id, WithPostId(id));
  }

  /** With the server's pages of `perPage` rows, loading page 1 and then
      pages 2 to `n` leaves the list holding exactly the first `n` pages'
      rows, in the server's order, and more pages are offered exactly while
      rows remain. */
  lemma LoadedPagesArePrefix(rows: seq<Post>, n: nat, perPage: nat)
    requires n >= 1 && perPage > 0
    ensures FirstPages(rows, n, perPage) == rows[..if n * perPage <= |rows| then n * perPage else |rows|]
    ensures n < LastPage(|rows|, perPage) <==> n * perPage < |rows|
  {
    FirstPagesArePrefix(rows, n, perPage);
    MorePagesIffRowsRemain(|rows|, n, perPage);
  }
}
