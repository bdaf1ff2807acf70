/** The accounts screen (`Views/Accounts/AccountsView.swift`): the list of
    connected accounts kept by `AccountsViewModel`, and the add-account
    sheet's provider list. */
module AccountsView {
  import opened Wrappers
  import opened AccountModels
  import opened Selection
  import AccountsController
  import ApiClient

  /** One row of the add-account sheet: a provider with its icon and tint. */
  datatype ProviderItem = ProviderItem(provider: SocialProvider, icon: string, color: string)

  /** `AddAccountView.providers`. */
  const ProviderItems: seq<ProviderItem> := [
    ProviderItem(Twitter, "bird", "blue"),
    ProviderItem(FacebookPage, "person.2.fill", "indigo"),
    ProviderItem(FacebookGroup, "person.3.fill", "indigo"),
    ProviderItem(Mastodon, "globe", "purple")
  ]

  /** The sheet offers every provider, and each exactly once, so the rows'
      `id: \.provider` identities are unique. */
  lemma ProviderItemsOfferEachOnce(p: SocialProvider)
    ensures exists i :: 0 <= i < |ProviderItems| && ProviderItems[i].provider == p
    ensures forall i, j :: 0 <= i < j < |ProviderItems| ==> ProviderItems[i].provider != ProviderItems[j].provider
    ensures forall i :: 0 <= i < |ProviderItems| ==> ProviderItems[i].provider == AllProviders[i]
  {
    match p
    case Twitter => assert ProviderItems[0].provider == p;
    case FacebookPage => assert ProviderItems[1].provider == p;
    case FacebookGroup => assert ProviderItems[2].provider == p;
    case Mastodon => assert ProviderItems[3].provider == p;
  }

  /** `getProviderDescription`: one line of text per provider. */
  function ProviderDescription(p: SocialProvider): string {
    match p
    case Twitter => "Post tweets and threads"
    case FacebookPage => "Manage your Facebook Pages"
    case FacebookGroup => "Post to Facebook Groups"
    case Mastodon => "Connect to any Mastodon instance"
  }

  /** Every provider has a description, and no two share one. */
  lemma ProviderDescriptionsDistinct(p: SocialProvider, q: SocialProvider)
    ensures ProviderDescription(p) != ""
    ensures ProviderDescription(p) == ProviderDescription(q) ==> p == q
  {
    if p != q {
      var dp, dq := ProviderDescription(p), ProviderDescription(q);
      assert dp[0] != dq[0] || dp[1] != dq[1] || dp[10] != dq[10];
    }
  }

  /** The accounts whose id is `id`. */
  function WithAccountId(id: int): Account -> bool {
    (a: Account) => a.id == id
  }

  function AccountIdOf(a: Account): int { a.id }

  /** `AccountsViewModel`: the connected accounts shown on the screen. */
  class AccountsViewModel {
    var accounts: seq<Account>
    var isLoading: bool
    var errorMessage: Option<string>

    constructor()
      ensures accounts == [] && !isLoading && errorMessage.None?
    {
      accounts := [];
      isLoading := false;
      errorMessage := None;
    }

    /** `loadAccounts`: the list is replaced on success and kept on error;
        `isLoading` is cleared by the `defer` either way. */
    method LoadAccounts(response: Result<seq<Account>, string>)
      modifies this
      ensures response.Success? ==> accounts == response.value && errorMessage == old(errorMessage)
      ensures response.Failure? ==> accounts == old(accounts) && errorMessage == Some(response.error)
      ensures !isLoading
    {
      isLoading := true;
      if response.Success? {
        accounts := response.value;
      } else {
        errorMessage := Some(response.error);
      }
      isLoading := false;
    }

    /** `refreshAccount`: the server's updated account takes the place of the
        first listed account with the same id; nothing changes when none is
        listed or the call fails. */
    method RefreshAccount(account: Account, response: Result<Account, string>)
      modifies this
      ensures response.Success? ==>
        accounts == ReplaceFirst(old(accounts), WithAccountId(account.id), response.value) &&
        errorMessage == old(errorMessage)
      ensures response.Failure? ==> accounts == old(accounts) && errorMessage == Some(response.error)
      ensures isLoading == old(isLoading)
    {
      if response.Success? {
        accounts := ReplaceFirst(accounts, WithAccountId(account.id), response.value);
      } else {
        errorMessage := Some(response.error);
      }
    }

    /** `deleteAccount`: on success every account with that id leaves the
        list. */
    method DeleteAccount(account: Account, failure: Option<string>)
      modifies this
      ensures failure.None? ==> accounts == RemoveAll(old(accounts), WithAccountId(account.id)) && errorMessage == old(errorMessage)
      ensures failure.Some? ==> accounts == old(accounts) && errorMessage == failure
      ensures isLoading == old(isLoading)
    {
      if failure.None? {
        accounts := RemoveAll(accounts, WithAccountId(account.id));
      } else {
        errorMessage := failure;
      }
    }
  }

  /** A refresh keeps the list's length and every entry but the first one
      with that id, and when the server returns the same account id the
      listed ids do not change. */
  lemma RefreshKeepsIds(accounts: seq<Account>, id: int, updated: Account)
    requires updated.id == id
    ensures |ReplaceFirst(accounts, WithAccountId(id), updated)| == |accounts|
    ensures IdSet(ReplaceFirst(accounts, WithAccountId(id), updated), AccountIdOf) == IdSet(accounts, AccountIdOf)
    ensures id !in IdSet(accounts, AccountIdOf) ==> ReplaceFirst(accounts, WithAccountId(id), updated) == accounts
  {
    var r := ReplaceFirst(accounts, WithAccountId(id), updated);
    forall i | 0 <= i < |accounts|
      ensures AccountIdOf(r[i]) == AccountIdOf(accounts[i])
    {
    }
    forall k
      ensures k in IdSet(r, AccountIdOf) <==> k in IdSet(accounts, AccountIdOf)
    {
      if k in IdSet(r, AccountIdOf) {
        var i :| 0 <= i < |r| && AccountIdOf(r[i]) == k;
        assert AccountIdOf(accounts[i]) == k;
      }
      if k in IdSet(accounts, AccountIdOf) {
        var i :| 0 <= i < |accounts| && AccountIdOf(accounts[i]) == k;
        assert AccountIdOf(r[i]) == k;
      }
    }
  }

  /** After a delete no account with that id is listed and every other
      account stays: the listed ids lose exactly that id. */
  lemma DeleteRemovesExactlyThatAccount(accounts: seq<Account>, id: int, a: Account)
    ensures a in RemoveAll(accounts, WithAccountId(id)) <==> a in accounts && a.id != id
    ensures IdSet(RemoveAll(accounts, WithAccountId(id)), AccountIdOf) == IdSet(accounts, AccountIdOf) - {id}
  {
    RemoveAllIdSet(accounts, AccountIdOf, id, WithAccountId(id));
  }

  /** `AddAccountView`'s state while it asks the server for an OAuth URL. */
  class AddAccountSheet {
    var isLoading: bool
    var errorMessage: Option<string>
    var dismissed: bool

    constructor()
      ensures !isLoading && errorMessage.None? && !dismissed
    {
      isLoading := false;
      errorMessage := None;
      dismissed := false;
    }

    /** `connectAccount`: asks for the provider's OAuth URL by its raw value;
        on success the sheet is dismissed (opening the URL is left out), on
        failure the error is shown; loading ends either way. */
    method ConnectAccount(provider: SocialProvider, response: Result<string, string>) returns (sent: string)
      modifies this
      ensures sent == RawValue(provider)
      ensures response.Success? ==> dismissed && errorMessage == old(errorMessage)
      ensures response.Failure? ==> dismissed == old(dismissed) && errorMessage == Some(response.error)
      ensures !isLoading
    {
      isLoading := true;
      sent := RawValue(provider);
      if response.Success? {
        dismissed := true;
      } else {
        errorMessage := Some(response.error);
      }
      isLoading := false;
    }
  }

  /** The text the sheet shows for a failed call: `localizedDescription` of
      the `APIError` that `mapError` made of the reply's status. */
  function ShownError(status: int): string {
    ApiClient.ErrorDescription(ApiClient.MapError(Some(status), ""))
  }

  /** When the provider fails to produce an OAuth URL or its entities, the
      server answers 500 with the provider's message, and the app turns that
      status into its fixed server-error text: the provider's message never
      reaches the user. A generated URL comes back with 200. */
  lemma ProviderFailureShowsServerErrorText(provider: string, message: string, state: Option<string>, url: string)
    ensures AccountsController.GetOAuthUrl(provider, Success(url), state).0 == 200
    ensures var reply := AccountsController.GetOAuthUrl(provider, Failure(message), state);
      reply.1.OAuthError? && reply.1.error == message &&
      ShownError(reply.0) == "A server error occurred. Please try again later."
    ensures var reply := AccountsController.GetEntities(provider, Failure(message));
      reply.1.Error? && reply.1.error == message &&
      ShownError(reply.0) == "A server error occurred. Please try again later."
  {
  }
}
