/** What the post editors share (`CreatePostViewModel` and
    `EditPostViewModel`): the character limit of the selected accounts and
    the request body built from the selection. */
module PostComposer {
  import opened Wrappers
  import opened Dates
  import opened JsonValues
  import opened AccountModels
  import opened MediaModels
  import opened TagModels
  import opened PostModels
  import opened Selection

  /** `selectedAccounts.map { $0.provider.characterLimit }.min()`. */
  function MinCharacterLimit(accounts: seq<Account>): (r: Option<int>)
    ensures r.None? <==> accounts == []
    ensures r.Some? ==> exists i :: 0 <= i < |accounts| && r.value == CharacterLimit(accounts[i].provider)
    ensures r.Some? ==> forall i :: 0 <= i < |accounts| ==> r.value <= CharacterLimit(accounts[i].provider)
  {
    if accounts == [] then None
    else
      var rest := MinCharacterLimit(accounts[1..]);
      var here := CharacterLimit(accounts[0].provider);
      if rest.Some? && rest.value < here then
        var i :| 0 <= i < |accounts[1..]| && rest.value == CharacterLimit(accounts[1..][i].provider);
        assert accounts[1..][i] == accounts[i + 1];
        assert forall j :: 1 <= j < |accounts| ==> accounts[j] == accounts[1..][j - 1];
        rest
      else
        assert forall j :: 1 <= j < |accounts| ==> accounts[j] == accounts[1..][j - 1];
        Some(here)
  }

  /** `isOverCharacterLimit`: false when no account is selected. `count` is
      Swift's `String.count`, the number of user-perceived characters
      (grapheme clusters), which is at most the number of scalars. */
  predicate OverLimit(content: string, accounts: seq<Account>, count: string -> nat) {
    var limit := MinCharacterLimit(accounts);
    limit.Some? && count(content) > limit.value
  }

  /** The text is over the limit exactly when it is too long for at least one
      selected account; with Twitter/X selected the limit is 280. */
  lemma OverLimitIff(content: string, accounts: seq<Account>, count: string -> nat)
    ensures OverLimit(content, accounts, count) <==>
      exists i :: 0 <= i < |accounts| && count(content) > CharacterLimit(accounts[i].provider)
    ensures (exists i :: 0 <= i < |accounts| && accounts[i].provider == Twitter) ==>
      MinCharacterLimit(accounts) == Some(280)
  {
    if exists i :: 0 <= i < |accounts| && accounts[i].provider == Twitter {
      var i :| 0 <= i < |accounts| && accounts[i].provider == Twitter;
      var j :| 0 <= j < |accounts| && MinCharacterLimit(accounts).value == CharacterLimit(accounts[j].provider);
      CapabilityTable(accounts[j].provider);
    }
  }

  /** A text within every limit when each scalar is counted as a character is
      within it when characters are counted, since a character holds at
      least one scalar; and a text of single-scalar characters is judged
      alike either way. */
  lemma ScalarsBoundCharacters(content: string, accounts: seq<Account>, count: string -> nat)
    requires count(content) <= |content|
    ensures !OverLimit(content, accounts, s => |s|) ==> !OverLimit(content, accounts, count)
    ensures count(content) == |content| ==> (OverLimit(content, accounts, count) <==> OverLimit(content, accounts, s => |s|))
  {
  }

  /** `Tag`'s synthesized `==`: every field, the timestamps included. */
  predicate SameTag(a: Tag, b: Tag) {
    a == b
  }

  /** The same tag fetched again after an edit has a new `updatedAt`, so it
      is another tag to the selection: toggling it adds it beside the old
      copy rather than removing that copy. */
  lemma RefetchedTagIsAnother(a: Tag, b: Tag)
    requires a.id == b.id && a.updatedAt != b.updatedAt
    ensures !SameTag(a, b)
    ensures Toggle([a], b, SameTag) == [a, b]
  {
    assert IndexOfSame([a], b, SameTag) == 1;
  }

  /** The `removeAll` condition of `removeMedia`. */
  function WithMediaId(id: int): Media -> bool {
    (m: Media) => m.id == id
  }

  function AccountIdOf(a: Account): int { a.id }
  function MediaIdOf(m: Media): int { m.id }
  function TagIdOf(t: Tag): int { t.id }

  /** The one content block each version carries. */
  function TextBlock(content: string): map<string, string> {
    map["type" := "text", "value" := content]
  }

  function AccountIds(accounts: seq<Account>): (r: seq<int>)
    ensures |r| == |accounts| && forall k :: 0 <= k < |accounts| ==> r[k] == accounts[k].id
  {
    seq(|accounts|, k requires 0 <= k < |accounts| => accounts[k].id)
  }

  function MediaIds(media: seq<Media>): (r: seq<int>)
    ensures |r| == |media| && forall k :: 0 <= k < |media| ==> r[k] == media[k].id
  {
    seq(|media|, k requires 0 <= k < |media| => media[k].id)
  }

  function TagIds(tags: seq<Tag>): (r: seq<int>)
    ensures |r| == |tags| && forall k :: 0 <= k < |tags| ==> r[k] == tags[k].id
  {
    seq(|tags|, k requires 0 <= k < |tags| => tags[k].id)
  }

  /** One version per selected account, in selection order, each with the
      same text and every selected media id. */
  function VersionsFor(content: string, accounts: seq<Account>, media: seq<Media>): (r: seq<VersionRequest>)
    ensures |r| == |accounts|
    ensures forall k :: 0 <= k < |accounts| ==>
      r[k] == VersionRequest(accounts[k].id, [TextBlock(content)], MediaIds(media))
  {
    var r := seq(|accounts|, k requires 0 <= k < |accounts| => VersionRequest(accounts[k].id, [TextBlock(content)], MediaIds(media)));
    assert forall k :: 0 <= k < |accounts| ==> r[k] == VersionRequest(accounts[k].id, [TextBlock(content)], MediaIds(media));
    r
  }

  /** The request `savePost` / `saveChanges` send; `when` is the scheduled
      date when one is to be sent. */
  function BuildRequest(content: string, accounts: seq<Account>, media: seq<Media>, tags: seq<Tag>, when: Option<Instant>): (r: PostRequest)
    requires when.Some? ==> ValidInstant(when.value)
    ensures r.versions == VersionsFor(content, accounts, media)
    ensures r.accounts == AccountIds(accounts) && r.tags == TagIds(tags)
    ensures r.date.Some? <==> when.Some?
    ensures r.time.Some? <==> when.Some?
  {
    var base := PostRequest(None, None, AccountIds(accounts), VersionsFor(content, accounts, media), TagIds(tags));
    if when.Some? then base.(date := Some(FormatYmd(when.value.date)), time := Some(FormatHm(when.value)))
    else base
  }

  /** Through its JSON body the request hands the server the selected account
      and tag ids in order, per version the account and media ids and a text
      block whose `value` is the content, and a date and time that read back
      as the scheduled day, hour and minute. */
  lemma RequestBodyCarriesSelection(content: string, accounts: seq<Account>, media: seq<Media>, tags: seq<Tag>, when: Option<Instant>, k: int)
    requires when.Some? ==> ValidInstant(when.value) && 1 <= when.value.date.year <= 9999
    requires 0 <= k < |accounts|
    ensures var body := RequestToJson(BuildRequest(content, accounts, media, tags, when));
      && IdsOf(body.fields["accounts"]) == Some(AccountIds(accounts))
      && IdsOf(body.fields["tags"]) == Some(TagIds(tags))
      && |body.fields["versions"].items| == |accounts|
      && body.fields["versions"].items[k].fields["account_id"] == JNum(accounts[k].id)
      && IdsOf(body.fields["versions"].items[k].fields["media"]) == Some(MediaIds(media))
      && body.fields["versions"].items[k].fields["content"] == JArr([StringDict(TextBlock(content))])
    ensures var r := BuildRequest(content, accounts, media, tags, when);
      when.Some? ==> ParseYmd(r.date.value) == Some(when.value.date)
                     && ParseHm(r.time.value) == Some((HourOf(when.value), MinuteOf(when.value)))
  {
    var r := BuildRequest(content, accounts, media, tags, when);
    RequestJsonShape(r);
    VersionJsonShape(r.versions[k]);
    var c := VersionToJson(r.versions[k]).fields["content"];
    assert c.items == [StringDict(TextBlock(content))];
    if when.Some? {
      FormatParseYmd(when.value.date);
      FormatParseHm(when.value);
    }
  }
}
