/** `AuthManager` (`API/AuthManager.swift`): the session's tokens live in a
    key store (the keychain), the signed-in user in a second store (user
    defaults), and two published flags mirror them. Both stores are maps
    here; their I/O failures, which the source ignores with `try?`, are not
    modelled. */
module AuthManager {
  import opened Wrappers
  import opened ApiClient

  /** The fields of `User` the session keeps. */
  datatype User = User(id: int, name: string, email: string)

  datatype AuthResponse = AuthResponse(accessToken: string, refreshToken: Option<string>, csrfToken: Option<string>, user: Option<User>)

  const AccessTokenKey := "access_token"
  const RefreshTokenKey := "refresh_token"
  const CsrfTokenKey := "csrf_token"

  /** `keychain.get(key)`. */
  function Lookup(store: map<string, string>, key: string): (v: Option<string>)
    ensures v.Some? <==> key in store
    ensures v.Some? ==> v.value == store[key]
  {
    if key in store then Some(store[key]) else None
  }

  /** A token property's setter: a value is stored, `nil` removes the key. */
  function SetKey(store: map<string, string>, key: string, v: Option<string>): (r: map<string, string>) {
    if v.Some? then store[key := v.value] else store - {key}
  }

  /** Reading a key back after the setter gives what was set, and no other
      key changes. */
  lemma SetKeyThenLookup(store: map<string, string>, key: string, v: Option<string>, other: string)
    ensures Lookup(SetKey(store, key, v), key) == v
    ensures other != key ==> Lookup(SetKey(store, key, v), other) == Lookup(store, other)
    ensures key !in SetKey(store, key, None)
  {
  }

  /** The keychain after `saveAuthResponse`: all three tokens overwritten. */
  function SavedTokens(store: map<string, string>, r: AuthResponse): (s: map<string, string>) {
    SetKey(SetKey(SetKey(store, AccessTokenKey, Some(r.accessToken)), RefreshTokenKey, r.refreshToken), CsrfTokenKey, r.csrfToken)
  }

  /** After saving a response the store holds exactly its tokens: a missing
      refresh or CSRF token removes the stored one. */
  lemma SavedTokensAreTheResponse(store: map<string, string>, r: AuthResponse)
    ensures Lookup(SavedTokens(store, r), AccessTokenKey) == Some(r.accessToken)
    ensures Lookup(SavedTokens(store, r), RefreshTokenKey) == r.refreshToken
    ensures Lookup(SavedTokens(store, r), CsrfTokenKey) == r.csrfToken
  {
    var s1 := SetKey(store, AccessTokenKey, Some(r.accessToken));
    var s2 := SetKey(s1, RefreshTokenKey, r.refreshToken);
    SetKeyThenLookup(store, AccessTokenKey, Some(r.accessToken), RefreshTokenKey);
    SetKeyThenLookup(s1, RefreshTokenKey, r.refreshToken, AccessTokenKey);
    SetKeyThenLookup(s2, CsrfTokenKey, r.csrfToken, AccessTokenKey);
    SetKeyThenLookup(s2, CsrfTokenKey, r.csrfToken, RefreshTokenKey);
  }

  /** The next request after a save carries the response's access token as
      its bearer token, and a CSRF header exactly when the response had a
      CSRF token. */
  lemma SavedTokensReachHeaders(store: map<string, string>, r: AuthResponse)
    ensures var s := SavedTokens(store, r);
      var h := AuthHeaders(Lookup(s, AccessTokenKey), Lookup(s, CsrfTokenKey));
      && BearerToken(h) == Some(r.accessToken)
      && ("X-CSRF-TOKEN" in h <==> r.csrfToken.Some?)
  {
    SavedTokensAreTheResponse(store, r);
    var s := SavedTokens(store, r);
    AuthHeadersCarryTokens(Lookup(s, AccessTokenKey), Lookup(s, CsrfTokenKey));
  }

  class Session {
    var keychain: map<string, string>
    var storedUser: Option<User>
    var isAuthenticated: bool
    var currentUser: Option<User>

    /** `init` with whatever the stores hold from an earlier launch:
        `checkAuthState` runs once. */
    constructor(keychain0: map<string, string>, storedUser0: Option<User>)
      ensures keychain == keychain0 && storedUser == storedUser0
      ensures isAuthenticated <==> HasUsableToken(keychain0)
      ensures currentUser == (if HasUsableToken(keychain0) then storedUser0 else None)
    {
      keychain := keychain0;
      storedUser := storedUser0;
      isAuthenticated := false;
      currentUser := None;
      new;
      CheckAuthState();
    }

    function AccessToken(): Option<string>
      reads this
    {
      Lookup(keychain, AccessTokenKey)
    }

    function RefreshToken(): Option<string>
      reads this
    {
      Lookup(keychain, RefreshTokenKey)
    }

    function CsrfToken(): Option<string>
      reads this
    {
      Lookup(keychain, CsrfTokenKey)
    }

    /** The `accessToken` setter. */
    method SetAccessToken(v: Option<string>)
      modifies this
      ensures keychain == SetKey(old(keychain), AccessTokenKey, v) && AccessToken() == v
      ensures storedUser == old(storedUser) && isAuthenticated == old(isAuthenticated) && currentUser == old(currentUser)
    {
      keychain := SetKey(keychain, AccessTokenKey, v);
    }

    /** `checkAuthState`: a present, non-empty access token signs the user
        in and restores the stored user, if any; nothing ever signs out. */
    method CheckAuthState()
      modifies this
      ensures keychain == old(keychain) && storedUser == old(storedUser)
      ensures HasUsableToken(keychain) ==> isAuthenticated && currentUser == (if storedUser.Some? then storedUser else old(currentUser))
      ensures !HasUsableToken(keychain) ==> isAuthenticated == old(isAuthenticated) && currentUser == old(currentUser)
      ensures old(isAuthenticated) ==> isAuthenticated
    {
      var token := AccessToken();
      if token.Some? && token.value != "" {
        isAuthenticated := true;
        if storedUser.Some? {
          currentUser := storedUser;
        }
      }
    }

    /** `saveUser`. */
    method SaveUser(user: User)
      modifies this
      ensures currentUser == Some(user) && storedUser == Some(user)
      ensures keychain == old(keychain) && isAuthenticated == old(isAuthenticated)
    {
      currentUser := Some(user);
      storedUser := Some(user);
    }

    /** `saveAuthResponse`: the three tokens are overwritten, the user saved
        when the response carries one, and the session is signed in. */
    method SaveAuthResponse(r: AuthResponse)
      modifies this
      ensures keychain == SavedTokens(old(keychain), r)
      ensures r.user.Some? ==> currentUser == r.user && storedUser == r.user
      ensures r.user.None? ==> currentUser == old(currentUser) && storedUser == old(storedUser)
      ensures isAuthenticated
    {
      keychain := SetKey(keychain, AccessTokenKey, Some(r.accessToken));
      keychain := SetKey(keychain, RefreshTokenKey, r.refreshToken);
      keychain := SetKey(keychain, CsrfTokenKey, r.csrfToken);
      if r.user.Some? {
        SaveUser(r.user.value);
      }
      isAuthenticated := true;
    }

    /** `clearSession`. */
    method ClearSession()
      modifies this
      ensures AccessToken().None? && RefreshToken().None? && CsrfToken().None?
      ensures keychain == old(keychain) - {AccessTokenKey, RefreshTokenKey, CsrfTokenKey}
      ensures currentUser.None? && storedUser.None? && !isAuthenticated
    {
      keychain := SetKey(keychain, AccessTokenKey, None);
      keychain := SetKey(keychain, RefreshTokenKey, None);
      keychain := SetKey(keychain, CsrfTokenKey, None);
      currentUser := None;
      isAuthenticated := false;
      storedUser := None;
    }

    /** `refreshAccessToken`: without a refresh token it fails with
        `unauthorized` before any request; otherwise `response` is the
        refresh call's outcome, saved on success and rethrown on failure. */
    method RefreshAccessToken(response: Result<AuthResponse, ApiError>) returns (requested: bool, outcome: Option<ApiError>)
      modifies this
      ensures old(RefreshToken()).None? ==> !requested && outcome == Some(Unauthorized)
      ensures old(RefreshToken()).Some? ==> requested
      ensures requested && response.Success? ==> outcome.None? && keychain == SavedTokens(old(keychain), response.value) && isAuthenticated
      ensures requested && response.Success? && response.value.user.Some? ==>
        currentUser == response.value.user && storedUser == response.value.user
      ensures requested && response.Success? && response.value.user.None? ==>
        currentUser == old(currentUser) && storedUser == old(storedUser)
      ensures outcome.Some? ==> keychain == old(keychain) && isAuthenticated == old(isAuthenticated) && currentUser == old(currentUser)
      ensures outcome.Some? ==> storedUser == old(storedUser)
      ensures requested && response.Failure? ==> outcome == Some(response.error)
    {
      if RefreshToken().None? {
        return false, Some(Unauthorized);
      }
      requested := true;
      if response.Failure? {
        return true, Some(response.error);
      }
      SaveAuthResponse(response.value);
      outcome := None;
    }
  }

  /** The condition `checkAuthState` tests. */
  predicate HasUsableToken(keychain: map<string, string>) {
    AccessTokenKey in keychain && keychain[AccessTokenKey] != ""
  }

  /** A session cleared and relaunched stays signed out; one saved from a
      response and relaunched is signed in again, since the access token
      the response carries is stored. */
  lemma RelaunchAfterClearOrSave(keychain: map<string, string>, r: AuthResponse)
    ensures !HasUsableToken(keychain - {AccessTokenKey, RefreshTokenKey, CsrfTokenKey})
    ensures HasUsableToken(SavedTokens(keychain, r)) <==> r.accessToken != ""
  {
    SavedTokensAreTheResponse(keychain, r);
  }
}
