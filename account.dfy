/** Social providers and connected accounts (`Models/Account.swift`). */
module AccountModels {
  import opened Wrappers
  import opened MediaModels

  datatype SocialProvider = Twitter | FacebookPage | FacebookGroup | Mastodon

  /** `SocialProvider.allCases`, in declaration order. */
  const AllProviders: seq<SocialProvider> := [Twitter, FacebookPage, FacebookGroup, Mastodon]

  /** The wire value of a provider. */
  function RawValue(p: SocialProvider): string {
    match p
    case Twitter => "twitter"
    case FacebookPage => "facebook_page"
    case FacebookGroup => "facebook_group"
    case Mastodon => "mastodon"
  }

  /** Decoding a provider from its wire value; unknown values do not decode. */
  function ProviderFromRaw(s: string): (r: Option<SocialProvider>) {
    if s == "twitter" then Some(Twitter)
    else if s == "facebook_page" then Some(FacebookPage)
    else if s == "facebook_group" then Some(FacebookGroup)
    else if s == "mastodon" then Some(Mastodon)
    else None
  }

  /** Encoding and decoding are inverse, so the raw values are distinct. */
  lemma RawValueRoundTrip(p: SocialProvider, s: string)
    ensures ProviderFromRaw(RawValue(p)) == Some(p)
    ensures ProviderFromRaw(s) == Some(p) ==> RawValue(p) == s
  {
  }

  lemma RawValuesDistinct(p: SocialProvider, q: SocialProvider)
    ensures RawValue(p) == RawValue(q) ==> p == q
  {
    RawValueRoundTrip(p, "");
    RawValueRoundTrip(q, "");
  }

  /** `allCases` lists every provider exactly once. */
  lemma AllProvidersComplete(p: SocialProvider)
    ensures p in AllProviders
    ensures forall i, j :: 0 <= i < j < |AllProviders| ==> AllProviders[i] != AllProviders[j]
  {
  }

  function DisplayName(p: SocialProvider): string {
    match p
    case Twitter => "Twitter/X"
    case FacebookPage => "Facebook Page"
    case FacebookGroup => "Facebook Group"
    case Mastodon => "Mastodon"
  }

  function IconName(p: SocialProvider): string {
    match p
    case Twitter => "bird"
    case FacebookPage => "person.2"
    case FacebookGroup => "person.2"
    case Mastodon => "globe"
  }

  function CharacterLimit(p: SocialProvider): int {
    match p
    case Twitter => 280
    case FacebookPage => 5000
    case FacebookGroup => 5000
    case Mastodon => 500
  }

  function MaxPhotos(p: SocialProvider): int {
    match p
    case Twitter => 4
    case FacebookPage => 10
    case FacebookGroup => 10
    case Mastodon => 4
  }

  function MaxVideos(p: SocialProvider): int {
    1
  }

  function MaxGifs(p: SocialProvider): int {
    1
  }

  function SupportsSimultaneousPosting(p: SocialProvider): bool {
    match p
    case Twitter => false
    case _ => true
  }

  /** The capability table: Twitter/X has the tightest text limit, both Facebook
      kinds share limits, every provider takes at most one video and one GIF and
      at least as many photos, and only Twitter/X refuses simultaneous posting. */
  lemma CapabilityTable(p: SocialProvider)
    ensures CharacterLimit(Twitter) <= CharacterLimit(p) <= 5000
    ensures CharacterLimit(FacebookPage) == CharacterLimit(FacebookGroup) && MaxPhotos(FacebookPage) == MaxPhotos(FacebookGroup)
    ensures MaxVideos(p) == 1 && MaxGifs(p) == 1 && MaxPhotos(p) >= 4
    ensures !SupportsSimultaneousPosting(p) <==> p == Twitter
    ensures CharacterLimit(p) == 280 <==> p == Twitter
    ensures CharacterLimit(p) == 500 <==> p == Mastodon
  {
  }

  datatype AccountData = AccountData(followers: Option<int>, following: Option<int>, posts: Option<int>)

  /** A connected social account; timestamps are left out (display only). */
  datatype Account = Account(
    id: int,
    userId: Option<int>,
    name: string,
    username: Option<string>,
    provider: SocialProvider,
    providerId: Option<string>,
    media: Option<Media>,
    data: Option<AccountData>,
    authorized: bool)

  /** `==` on accounts: identity by id only (and `hash` combines only the id). */
  predicate SameAccount(a: Account, b: Account) {
    a.id == b.id
  }

  function AccountHash(a: Account): int {
    a.id
  }

  /** Account equality is an equivalence that ignores every field but the id,
      and equal accounts hash alike. */
  lemma AccountEqualityById(a: Account, b: Account, c: Account)
    ensures SameAccount(a, a)
    ensures SameAccount(a, b) ==> SameAccount(b, a) && AccountHash(a) == AccountHash(b)
    ensures SameAccount(a, b) && SameAccount(b, c) ==> SameAccount(a, c)
    ensures SameAccount(a, a.(name := b.name, username := b.username, provider := b.provider, authorized := b.authorized))
  {
  }

  /** `displayNameWithUsername`. */
  function DisplayNameWithUsername(a: Account): (s: string) {
    if a.username.Some? && a.username.value != [] then a.name + " (@" + a.username.value + ")"
    else a.name
  }

  /** The name always comes first; it is followed by " (@username)" exactly when
      a non-empty username is known. */
  lemma DisplayNameShape(a: Account)
    ensures |DisplayNameWithUsername(a)| >= |a.name| && DisplayNameWithUsername(a)[..|a.name|] == a.name
    ensures DisplayNameWithUsername(a) == a.name <==> a.username.None? || a.username.value == []
    ensures a.username.Some? && a.username.value != [] ==>
      DisplayNameWithUsername(a)[|a.name|..] == " (@" + a.username.value + ")"
  {
    if a.username.Some? && a.username.value != [] {
      assert |DisplayNameWithUsername(a)| > |a.name|;
    }
  }

  /** `profileImageURL`: the avatar's URL when there is one and it parses;
      this is the avatar media's own full URL. */
  function ProfileImageURL(a: Account, parses: string -> bool): (r: Option<string>)
    ensures a.media.None? ==> r.None?
    ensures a.media.Some? ==> r == FullURL(a.media.value, parses)
  {
    if a.media.Some? && a.media.value.url.Some? && parses(a.media.value.url.value) then a.media.value.url
    else None
  }
}
