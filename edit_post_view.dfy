/** `EditPostViewModel` (`Views/Posts/EditPostView.swift`): the editor keeps a
    snapshot of what the post held when it opened and reports a change when
    the text or the id set of a selection differs from it. */
module EditPostView {
  import opened Wrappers
  import opened Dates
  import opened AccountModels
  import opened MediaModels
  import opened TagModels
  import opened PostModels
  import opened Selection
  import opened PostComposer

  /** The `original…` values taken at `init`. */
  datatype Snapshot = Snapshot(content: string, accountIds: set<int>, mediaIds: set<int>, tagIds: set<int>)

  /** `hasChanges`: the text differs, or a selection differs as a set of ids. */
  predicate Changed(original: Snapshot, content: string, accounts: seq<Account>, media: seq<Media>, tags: seq<Tag>) {
    || content != original.content
    || IdSet(accounts, AccountIdOf) != original.accountIds
    || IdSet(media, MediaIdOf) != original.mediaIds
    || IdSet(tags, TagIdOf) != original.tagIds
  }

  /** The snapshot of a selection. */
  function SnapshotOf(content: string, accounts: seq<Account>, media: seq<Media>, tags: seq<Tag>): Snapshot {
    Snapshot(content, IdSet(accounts, AccountIdOf), IdSet(media, MediaIdOf), IdSet(tags, TagIdOf))
  }

  /** A selection is unchanged against its own snapshot, and reordering the
      selected accounts, media or tags is not a change. */
  lemma ReorderingIsNoChange(original: Snapshot, content: string,
                             accounts: seq<Account>, media: seq<Media>, tags: seq<Tag>,
                             accounts': seq<Account>, media': seq<Media>, tags': seq<Tag>)
    requires multiset(accounts) == multiset(accounts') && multiset(media) == multiset(media') && multiset(tags) == multiset(tags')
    ensures !Changed(SnapshotOf(content, accounts, media, tags), content, accounts, media, tags)
    ensures Changed(original, content, accounts, media, tags) == Changed(original, content, accounts', media', tags')
  {
    IdSetOfPermutation(accounts, accounts', AccountIdOf);
    IdSetOfPermutation(media, media', MediaIdOf);
    IdSetOfPermutation(tags, tags', TagIdOf);
  }

  /** From an unchanged editor, toggling any account (the selection being free
      of duplicates) is a change, and toggling it back undoes the change. */
  lemma ToggleAccountIsChange(original: Snapshot, content: string, accounts: seq<Account>, media: seq<Media>, tags: seq<Tag>, a: Account)
    requires !Changed(original, content, accounts, media, tags)
    requires DistinctBy(accounts, SameAccount)
    ensures Changed(original, content, Toggle(accounts, a, SameAccount), media, tags)
    ensures IndexOfSame(accounts, a, SameAccount) == |accounts| ==>
      !Changed(original, content, Toggle(Toggle(accounts, a, SameAccount), a, SameAccount), media, tags)
  {
    ToggleIdSet(accounts, a, SameAccount, AccountIdOf);
    if IndexOfSame(accounts, a, SameAccount) == |accounts| {
      ToggleTwiceRestores(accounts, a, SameAccount);
    }
  }

  /** From an unchanged editor, removing media the post had is a change:
      exactly that id leaves the media id set. */
  lemma RemoveOriginalMediaIsChange(original: Snapshot, content: string, accounts: seq<Account>, media: seq<Media>, tags: seq<Tag>, m: Media)
    requires !Changed(original, content, accounts, media, tags)
    requires m.id in original.mediaIds
    ensures IdSet(RemoveAll(media, WithMediaId(m.id)), MediaIdOf) == original.mediaIds - {m.id}
    ensures Changed(original, content, accounts, RemoveAll(media, WithMediaId(m.id)), tags)
  {
    RemoveAllIdSet(media, MediaIdOf, m.id, WithMediaId(m.id));
  }

  /** "Retry Publishing" is offered for failed posts only. */
  predicate ShowsRetry(status: PostStatus) {
    status == Failed
  }

  /** "Change" next to a set date, for scheduled and draft posts. */
  predicate ShowsChange(date: Option<Instant>, status: PostStatus) {
    date.Some? && (status == Scheduled || status == Draft)
  }

  /** "Schedule for later" when no date is set, for drafts. */
  predicate ShowsScheduleForLater(date: Option<Instant>, status: PostStatus) {
    date.None? && status == Draft
  }

  /** The schedule section offers at most one of its buttons, a published or
      failed post can never be rescheduled from it, and only a failed post
      can be retried. */
  lemma ScheduleSectionChoices(date: Option<Instant>, status: PostStatus)
    ensures !(ShowsChange(date, status) && ShowsScheduleForLater(date, status))
    ensures (status == Published || status == Failed) ==>
      !ShowsChange(date, status) && !ShowsScheduleForLater(date, status)
    ensures ShowsRetry(status) ==> !ShowsChange(date, status) && !ShowsScheduleForLater(date, status)
    ensures status == Draft ==> ShowsChange(date, status) || ShowsScheduleForLater(date, status)
  {
  }

  class EditPostViewModel {
    const post: Post
    var content: string
    var accounts: seq<Account>
    var selectedAccounts: seq<Account>
    var selectedMedia: seq<Media>
    var availableTags: seq<Tag>
    var selectedTags: seq<Tag>
    var scheduledDate: Option<Instant>
    var isLoading: bool
    var errorMessage: Option<string>
    var originalContent: string
    var originalAccountIds: set<int>
    var originalMediaIds: set<int>
    var originalTagIds: set<int>

    function Original(): Snapshot
      reads this
    {
      Snapshot(originalContent, originalAccountIds, originalMediaIds, originalTagIds)
    }

    predicate HasChanges()
      reads this
    {
      Changed(Original(), content, selectedAccounts, selectedMedia, selectedTags)
    }

    predicate IsOverCharacterLimit(count: string -> nat)
      reads this
    {
      OverLimit(content, selectedAccounts, count)
    }

    /** `init(post:)`: the selection is the post's, and so is the snapshot. */
    constructor(p: Post)
      ensures post == p
      ensures content == PrimaryContent(p).GetOr("")
      ensures scheduledDate == p.scheduledAt
      ensures selectedMedia == AllMedia(p)
      ensures selectedTags == p.tags.GetOr([]) && selectedAccounts == p.accounts.GetOr([])
      ensures accounts == [] && availableTags == [] && !isLoading && errorMessage.None?
      ensures Original() == SnapshotOf(content, selectedAccounts, selectedMedia, selectedTags)
      ensures !HasChanges()
    {
      post := p;
      content := PrimaryContent(p).GetOr("");
      originalContent := PrimaryContent(p).GetOr("");
      scheduledDate := p.scheduledAt;
      selectedMedia := AllMedia(p);
      originalMediaIds := IdSet(AllMedia(p), MediaIdOf);
      selectedTags := p.tags.GetOr([]);
      originalTagIds := IdSet(p.tags.GetOr([]), TagIdOf);
      selectedAccounts := p.accounts.GetOr([]);
      originalAccountIds := IdSet(p.accounts.GetOr([]), AccountIdOf);
      accounts := [];
      availableTags := [];
      isLoading := false;
      errorMessage := None;
    }

    /** `loadData`: tags are fetched only after the accounts arrived; the
        first failure becomes the error message. */
    method LoadData(accountsResponse: Result<seq<Account>, string>, tagsResponse: Result<seq<Tag>, string>)
      modifies this
      ensures accounts == if accountsResponse.Success? then accountsResponse.value else old(accounts)
      ensures availableTags == if accountsResponse.Success? && tagsResponse.Success? then tagsResponse.value else old(availableTags)
      ensures errorMessage ==
        if accountsResponse.Failure? then Some(accountsResponse.error)
        else if tagsResponse.Failure? then Some(tagsResponse.error)
        else old(errorMessage)
      ensures content == old(content) && selectedAccounts == old(selectedAccounts) && selectedMedia == old(selectedMedia)
      ensures selectedTags == old(selectedTags) && scheduledDate == old(scheduledDate) && isLoading == old(isLoading)
      ensures Original() == old(Original())
    {
      if accountsResponse.Failure? {
        errorMessage := Some(accountsResponse.error);
        return;
      }
      accounts := accountsResponse.value;
      if tagsResponse.Failure? {
        errorMessage := Some(tagsResponse.error);
        return;
      }
      availableTags := tagsResponse.value;
    }

    method ToggleAccount(account: Account)
      modifies this
      ensures selectedAccounts == Toggle(old(selectedAccounts), account, SameAccount)
      ensures selectedMedia == old(selectedMedia) && selectedTags == old(selectedTags) && content == old(content)
      ensures accounts == old(accounts) && availableTags == old(availableTags) && scheduledDate == old(scheduledDate)
      ensures isLoading == old(isLoading) && errorMessage == old(errorMessage) && Original() == old(Original())
    {
      var i := IndexOfSame(selectedAccounts, account, SameAccount);
      if i < |selectedAccounts| {
        selectedAccounts := selectedAccounts[..i] + selectedAccounts[i + 1..];
      } else {
        selectedAccounts := selectedAccounts + [account];
      }
    }

    method ToggleTag(tag: Tag)
      modifies this
      ensures selectedTags == Toggle(old(selectedTags), tag, SameTag)
      ensures selectedAccounts == old(selectedAccounts) && selectedMedia == old(selectedMedia) && content == old(content)
      ensures accounts == old(accounts) && availableTags == old(availableTags) && scheduledDate == old(scheduledDate)
      ensures isLoading == old(isLoading) && errorMessage == old(errorMessage) && Original() == old(Original())
    {
      var i := IndexOfSame(selectedTags, tag, SameTag);
      if i < |selectedTags| {
        selectedTags := selectedTags[..i] + selectedTags[i + 1..];
      } else {
        selectedTags := selectedTags + [tag];
      }
    }

    method RemoveMedia(media: Media)
      modifies this
      ensures selectedMedia == RemoveAll(old(selectedMedia), WithMediaId(media.id))
      ensures selectedAccounts == old(selectedAccounts) && selectedTags == old(selectedTags) && content == old(content)
      ensures accounts == old(accounts) && availableTags == old(availableTags) && scheduledDate == old(scheduledDate)
      ensures isLoading == old(isLoading) && errorMessage == old(errorMessage) && Original() == old(Original())
    {
      selectedMedia := RemoveAll(selectedMedia, WithMediaId(media.id));
    }

    /** `saveChanges`: the update request for `post.id`, never with a date or
        a time (rescheduling is a separate call). */
    method SaveChanges(failure: Option<string>) returns (id: int, sent: PostRequest)
      modifies this
      ensures id == post.id
      ensures sent == BuildRequest(content, selectedAccounts, selectedMedia, selectedTags, None)
      ensures sent.date.None? && sent.time.None?
      ensures !isLoading && errorMessage == if failure.Some? then failure else old(errorMessage)
      ensures content == old(content) && selectedAccounts == old(selectedAccounts) && selectedMedia == old(selectedMedia)
      ensures selectedTags == old(selectedTags) && scheduledDate == old(scheduledDate) && Original() == old(Original())
      ensures accounts == old(accounts) && availableTags == old(availableTags)
    {
      isLoading := true;
      id := post.id;
      sent := BuildRequest(content, selectedAccounts, selectedMedia, selectedTags, None);
      if failure.Some? {
        errorMessage := failure;
      }
      isLoading := false;
    }

    /** `reschedule`: without a date nothing happens; otherwise the date is
        sent for `post.id` (returned as `sent`). */
    method Reschedule(failure: Option<string>) returns (sent: Option<(int, Instant)>)
      modifies this
      ensures sent.None? <==> scheduledDate.None?
      ensures sent.Some? ==> sent.value == (post.id, scheduledDate.value)
      ensures sent.None? ==> isLoading == old(isLoading)
      ensures sent.Some? ==> !isLoading
      ensures errorMessage == if sent.Some? && failure.Some? then failure else old(errorMessage)
      ensures content == old(content) && selectedAccounts == old(selectedAccounts) && selectedMedia == old(selectedMedia)
      ensures selectedTags == old(selectedTags) && scheduledDate == old(scheduledDate) && Original() == old(Original())
      ensures accounts == old(accounts) && availableTags == old(availableTags)
    {
      if scheduledDate.None? {
        return None;
      }
      isLoading := true;
      sent := Some((post.id, scheduledDate.value));
      if failure.Some? {
        errorMessage := failure;
      }
      isLoading := false;
    }

    /** `retryPublish`: reschedules for the current instant. */
    method RetryPublish(now: Instant, failure: Option<string>) returns (sent: Option<(int, Instant)>)
      modifies this
      ensures scheduledDate == Some(now) && sent == Some((post.id, now))
      ensures !isLoading && errorMessage == if failure.Some? then failure else old(errorMessage)
      ensures content == old(content) && selectedAccounts == old(selectedAccounts) && selectedMedia == old(selectedMedia)
      ensures selectedTags == old(selectedTags) && Original() == old(Original())
      ensures accounts == old(accounts) && availableTags == old(availableTags)
    {
      scheduledDate := Some(now);
      sent := Reschedule(failure);
    }

    /** `duplicatePost`: asks the server to copy `post.id`; the editor's own
        selection and snapshot stay as they are. */
    method DuplicatePost(failure: Option<string>) returns (id: int)
      modifies this
      ensures id == post.id
      ensures !isLoading && errorMessage == if failure.Some? then failure else old(errorMessage)
      ensures content == old(content) && selectedAccounts == old(selectedAccounts) && selectedMedia == old(selectedMedia)
      ensures selectedTags == old(selectedTags) && scheduledDate == old(scheduledDate) && Original() == old(Original())
      ensures accounts == old(accounts) && availableTags == old(availableTags)
    {
      isLoading := true;
      id := post.id;
      if failure.Some? {
        errorMessage := failure;
      }
      isLoading := false;
    }

    /** `deletePost`: asks the server to delete `post.id`. */
    method DeletePost(failure: Option<string>) returns (id: int)
      modifies this
      ensures id == post.id
      ensures !isLoading && errorMessage == if failure.Some? then failure else old(errorMessage)
      ensures content == old(content) && selectedAccounts == old(selectedAccounts) && selectedMedia == old(selectedMedia)
      ensures selectedTags == old(selectedTags) && scheduledDate == old(scheduledDate) && Original() == old(Original())
      ensures accounts == old(accounts) && availableTags == old(availableTags)
    {
      isLoading := true;
      id := post.id;
      if failure.Some? {
        errorMessage := failure;
      }
      isLoading := false;
    }
  }
}
