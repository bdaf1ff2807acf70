/** `CreatePostViewModel` (`Views/Posts/CreatePostView.swift`): the
    selection state of the composer and the request its save actions send.
    The network call is an input: `failure` is the error it raised, if any. */
module CreatePostView {
  import opened Wrappers
  import opened Dates
  import opened AccountModels
  import opened MediaModels
  import opened TagModels
  import opened PostModels
  import opened Selection
  import opened PostComposer

  class CreatePostViewModel {
    var content: string
    var accounts: seq<Account>
    var selectedAccounts: seq<Account>
    var selectedMedia: seq<Media>
    var availableTags: seq<Tag>
    var selectedTags: seq<Tag>
    var scheduledDate: Option<Instant>
    var isLoading: bool
    var errorMessage: Option<string>

    /** A scheduled date is a real instant. */
    ghost predicate Valid()
      reads this
    {
      scheduledDate.Some? ==> ValidInstant(scheduledDate.value)
    }

    constructor()
      ensures Valid()
      ensures content == "" && accounts == [] && selectedAccounts == [] && selectedMedia == []
      ensures availableTags == [] && selectedTags == [] && scheduledDate.None?
      ensures !isLoading && errorMessage.None?
    {
      content := "";
      accounts := [];
      selectedAccounts := [];
      selectedMedia := [];
      availableTags := [];
      selectedTags := [];
      scheduledDate := None;
      isLoading := false;
      errorMessage := None;
    }

    /** `characterLimit` / `isOverCharacterLimit`. */
    predicate IsOverCharacterLimit(count: string -> nat)
      reads this
    {
      OverLimit(content, selectedAccounts, count)
    }

    /** `loadAccounts`: the list on success, the error message otherwise. */
    method LoadAccounts(response: Result<seq<Account>, string>)
      modifies this
      ensures response.Success? ==> accounts == response.value && errorMessage == old(errorMessage)
      ensures response.Failure? ==> accounts == old(accounts) && errorMessage == Some(response.error)
      ensures selectedAccounts == old(selectedAccounts) && selectedMedia == old(selectedMedia) && selectedTags == old(selectedTags)
      ensures content == old(content) && availableTags == old(availableTags) && scheduledDate == old(scheduledDate)
      ensures isLoading == old(isLoading)
    {
      if response.Success? {
        accounts := response.value;
      } else {
        errorMessage := Some(response.error);
      }
    }

    /** `loadTags`: a failure is ignored, since tags are optional. */
    method LoadTags(response: Result<seq<Tag>, string>)
      modifies this
      ensures availableTags == if response.Success? then response.value else old(availableTags)
      ensures errorMessage == old(errorMessage) && accounts == old(accounts)
      ensures selectedAccounts == old(selectedAccounts) && selectedMedia == old(selectedMedia) && selectedTags == old(selectedTags)
      ensures content == old(content) && scheduledDate == old(scheduledDate) && isLoading == old(isLoading)
    {
      if response.Success? {
        availableTags := response.value;
      }
    }

    /** `toggleAccount`: accounts compare by id. */
    method ToggleAccount(account: Account)
      modifies this
      ensures selectedAccounts == Toggle(old(selectedAccounts), account, SameAccount)
      ensures selectedMedia == old(selectedMedia) && selectedTags == old(selectedTags) && content == old(content)
      ensures accounts == old(accounts) && availableTags == old(availableTags) && scheduledDate == old(scheduledDate)
      ensures isLoading == old(isLoading) && errorMessage == old(errorMessage)
    {
      var i := IndexOfSame(selectedAccounts, account, SameAccount);
      if i < |selectedAccounts| {
        selectedAccounts := selectedAccounts[..i] + selectedAccounts[i + 1..];
      } else {
        selectedAccounts := selectedAccounts + [account];
      }
    }

    /** `toggleTag`: tags compare by every field. */
    method ToggleTag(tag: Tag)
      modifies this
      ensures selectedTags == Toggle(old(selectedTags), tag, SameTag)
      ensures selectedAccounts == old(selectedAccounts) && selectedMedia == old(selectedMedia) && content == old(content)
      ensures accounts == old(accounts) && availableTags == old(availableTags) && scheduledDate == old(scheduledDate)
      ensures isLoading == old(isLoading) && errorMessage == old(errorMessage)
    {
      var i := IndexOfSame(selectedTags, tag, SameTag);
      if i < |selectedTags| {
        selectedTags := selectedTags[..i] + selectedTags[i + 1..];
      } else {
        selectedTags := selectedTags + [tag];
      }
    }

    /** `removeMedia`: every item with that id goes. */
    method RemoveMedia(media: Media)
      modifies this
      ensures selectedMedia == RemoveAll(old(selectedMedia), WithMediaId(media.id))
      ensures selectedAccounts == old(selectedAccounts) && selectedTags == old(selectedTags) && content == old(content)
      ensures accounts == old(accounts) && availableTags == old(availableTags) && scheduledDate == old(scheduledDate)
      ensures isLoading == old(isLoading) && errorMessage == old(errorMessage)
    {
      selectedMedia := RemoveAll(selectedMedia, WithMediaId(media.id));
    }

    /** `savePost(schedule:)`: returns the request it sends. The date and time
        go along only when scheduling with a date set. */
    method SavePost(schedule: bool, failure: Option<string>) returns (sent: PostRequest)
      requires Valid()
      modifies this
      ensures Valid()
      ensures sent == BuildRequest(content, selectedAccounts, selectedMedia, selectedTags, if schedule then scheduledDate else None)
      ensures !isLoading && errorMessage == if failure.Some? then failure else old(errorMessage)
      ensures selectedAccounts == old(selectedAccounts) && selectedMedia == old(selectedMedia) && selectedTags == old(selectedTags)
      ensures content == old(content) && accounts == old(accounts) && availableTags == old(availableTags)
      ensures scheduledDate == old(scheduledDate)
    {
      isLoading := true;
      sent := BuildRequest(content, selectedAccounts, selectedMedia, selectedTags, if schedule then scheduledDate else None);
      if failure.Some? {
        errorMessage := failure;
      }
      isLoading := false;
    }

    /** `saveDraft`: never sends a date or a time. */
    method SaveDraft(failure: Option<string>) returns (sent: PostRequest)
      requires Valid()
      modifies this
      ensures Valid() && sent.date.None? && sent.time.None?
      ensures sent == BuildRequest(content, selectedAccounts, selectedMedia, selectedTags, None)
      ensures !isLoading && errorMessage == if failure.Some? then failure else old(errorMessage)
      ensures selectedAccounts == old(selectedAccounts) && selectedMedia == old(selectedMedia) && selectedTags == old(selectedTags)
      ensures content == old(content) && scheduledDate == old(scheduledDate)
      ensures accounts == old(accounts) && availableTags == old(availableTags)
    {
      sent := SavePost(false, failure);
    }

    /** `schedulePost`: sends the date and time exactly when one is set. */
    method SchedulePost(failure: Option<string>) returns (sent: PostRequest)
      requires Valid()
      modifies this
      ensures Valid() && (sent.date.Some? <==> scheduledDate.Some?)
      ensures sent == BuildRequest(content, selectedAccounts, selectedMedia, selectedTags, scheduledDate)
      ensures !isLoading && errorMessage == if failure.Some? then failure else old(errorMessage)
      ensures selectedAccounts == old(selectedAccounts) && selectedMedia == old(selectedMedia) && selectedTags == old(selectedTags)
      ensures content == old(content) && scheduledDate == old(scheduledDate)
      ensures accounts == old(accounts) && availableTags == old(availableTags)
    {
      sent := SavePost(true, failure);
    }

    /** `publishNow`: schedules for the current instant. */
    method PublishNow(now: Instant, failure: Option<string>) returns (sent: PostRequest)
      requires ValidInstant(now)
      modifies this
      ensures Valid() && scheduledDate == Some(now)
      ensures sent == BuildRequest(content, selectedAccounts, selectedMedia, selectedTags, Some(now))
      ensures sent.date == Some(FormatYmd(now.date)) && sent.time == Some(FormatHm(now))
      ensures !isLoading && errorMessage == if failure.Some? then failure else old(errorMessage)
      ensures selectedAccounts == old(selectedAccounts) && selectedMedia == old(selectedMedia) && selectedTags == old(selectedTags)
      ensures content == old(content) && accounts == old(accounts) && availableTags == old(availableTags)
    {
      scheduledDate := Some(now);
      sent := SavePost(true, failure);
    }
  }
}
