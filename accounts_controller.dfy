/** `AccountsController` of the mobile API over an in-memory table of
    account rows. The social provider (OAuth URL, account data, entities) is
    outside the model: each call's outcome is a parameter, a `Failure`
    standing for the exception it throws. Route-model binding is taken to
    find an account only among the caller's own (the route does not scope
    `{account}` to its owner; the scoping is an assumption of the model); a
    miss is a 404. */
module AccountsController {
  import opened Wrappers
  import opened JsonValues
  import opened ServerModels
  import opened Sorting

  /** `latest()`: by creation time, newest first. */
  predicate AccountLatestLeq(a: ServerAccount, b: ServerAccount) {
    a.createdAt >= b.createdAt
  }

  lemma AccountLatestIsPreorder()
    ensures TotalPreorder(AccountLatestLeq)
  {
  }

  /** `forCurrentUser()`: the caller's rows, in table order. */
  function OwnedAccounts(rows: seq<ServerAccount>, userId: int): (r: seq<ServerAccount>)
    ensures forall a :: a in r <==> a in rows && a.userId == userId
    ensures |r| <= |rows|
  {
    if rows == [] then []
    else (if rows[0].userId == userId then [rows[0]] else []) + OwnedAccounts(rows[1..], userId)
  }

  /** The first of the caller's accounts with that id. */
  function ResolveAccount(rows: seq<ServerAccount>, userId: int, id: int): (r: Option<nat>)
    ensures r.Some? ==> r.value < |rows| && rows[r.value].id == id && rows[r.value].userId == userId
    ensures r.None? ==> forall i :: 0 <= i < |rows| ==> !(rows[i].id == id && rows[i].userId == userId)
  {
    if rows == [] then None
    else if rows[0].id == id && rows[0].userId == userId then Some(0)
    else
      var r := ResolveAccount(rows[1..], userId, id);
      assert forall i :: 1 <= i < |rows| ==> rows[i] == rows[1..][i - 1];
      if r.Some? then Some(r.value + 1) else None
  }

  /** `array_merge` of two string-keyed arrays: the keys of both, the value
      from `newer` wherever it has the key. */
  function MergeData(older: map<string, Json>, newer: map<string, Json>): (r: map<string, Json>)
    ensures r.Keys == older.Keys + newer.Keys
    ensures forall k :: k in newer ==> r[k] == newer[k]
    ensures forall k :: k in older && k !in newer ==> r[k] == older[k]
  {
    map k | k in older.Keys + newer.Keys :: if k in newer then newer[k] else older[k]
  }

  /** Merging nothing in keeps the data, merging into nothing gives the new
      data, and merging the same data twice is merging it once. */
  lemma MergeDataLaws(older: map<string, Json>, newer: map<string, Json>)
    ensures MergeData(older, map[]) == older
    ensures MergeData(map[], newer) == newer
    ensures MergeData(MergeData(older, newer), newer) == MergeData(older, newer)
  {
  }

  /** `$accountData[key] ?? $fallback` for a string column. */
  function StringOr(fields: map<string, Json>, key: string, fallback: string): string {
    if key in fields && fields[key].JStr? then fields[key].s else fallback
  }

  /** The same for a nullable string column. */
  function OptionalStringOr(fields: map<string, Json>, key: string, fallback: Option<string>): Option<string> {
    if key in fields && fields[key].JStr? then Some(fields[key].s) else fallback
  }

  /** `$accountData['data'] ?? []`. */
  function DataOf(fields: map<string, Json>): map<string, Json> {
    if "data" in fields && fields["data"].JObj? then fields["data"].fields else map[]
  }

  /** `if ($accountData)`: PHP treats null and the empty array as false. */
  predicate HasAccountData(accountData: Option<map<string, Json>>) {
    accountData.Some? && |accountData.value| > 0
  }

  /** The row `update` writes: the provider's name and username where it
      gave them, the old ones otherwise, and the merged data. */
  function Refreshed(a: ServerAccount, fields: map<string, Json>): (r: ServerAccount)
    ensures r.id == a.id && r.userId == a.userId && r.provider == a.provider
    ensures r.imageUrl == a.imageUrl && r.createdAt == a.createdAt
    ensures "name" in fields && fields["name"].JStr? ==> r.name == fields["name"].s
    ensures !("name" in fields && fields["name"].JStr?) ==> r.name == a.name
    ensures "username" in fields && fields["username"].JStr? ==> r.username == Some(fields["username"].s)
    ensures !("username" in fields && fields["username"].JStr?) ==> r.username == a.username
    ensures r.data.Keys == a.data.Keys + DataOf(fields).Keys
  {
    a.(name := StringOr(fields, "name", a.name),
       username := OptionalStringOr(fields, "username", a.username),
       data := MergeData(a.data, DataOf(fields)))
  }

  /** Refreshing with what the provider sent changes nothing more when the
      same answer comes a second time. */
  lemma RefreshIdempotent(a: ServerAccount, fields: map<string, Json>)
    ensures Refreshed(Refreshed(a, fields), fields) == Refreshed(a, fields)
  {
    MergeDataLaws(a.data, DataOf(fields));
  }

  /** `getOAuthUrl`'s answer. */
  datatype OAuthReply = OAuthUrl(url: string, state: Option<string>) | OAuthError(message: string, error: string)

  /** `getOAuthUrl`: the provider's URL with the session's state, or 500. */
  function GetOAuthUrl(provider: string, connect: Result<string, string>, sessionState: Option<string>): (r: (int, OAuthReply))
    ensures connect.Success? ==> r.0 == 200 && r.1 == OAuthUrl(connect.value, sessionState)
    ensures connect.Failure? ==> r.0 == 500 && r.1 == OAuthError("Failed to generate OAuth URL", connect.error)
  {
    if connect.Success? then (200, OAuthUrl(connect.value, sessionState))
    else (500, OAuthError("Failed to generate OAuth URL", connect.error))
  }

  /** `$request->get('entities', [])`: the field when present (even null),
      else an empty list. */
  function Entities(body: Json): (r: Json)
    ensures !Has(body, "entities") ==> r == JArr([])
    ensures Has(body, "entities") ==> Field(body, "entities") == Some(r)
  {
    if Has(body, "entities") then body.fields["entities"] else JArr([])
  }

  /** The reply of `update`, `getEntities` and `storeEntities`. */
  datatype Reply<T> = Ok(value: T) | Error(message: string, error: string) | NotFound

  /** `getEntities`: the provider's entities, or 500. */
  function GetEntities(provider: string, fetched: Result<Json, string>): (r: (int, Reply<Json>))
    ensures fetched.Success? ==> r == (200, Ok(fetched.value))
    ensures fetched.Failure? ==> r == (500, Error("Failed to get entities", fetched.error))
  {
    if fetched.Success? then (200, Ok(fetched.value))
    else (500, Error("Failed to get entities", fetched.error))
  }

  class AccountsTable {
    var accounts: seq<ServerAccount>

    constructor()
      ensures accounts == []
    {
      accounts := [];
    }

    /** `index`: the caller's accounts, newest first. */
    method Index(userId: int) returns (r: seq<ServerAccount>)
      ensures r == SortBy(OwnedAccounts(accounts, userId), AccountLatestLeq)
      ensures SortedBy(r, AccountLatestLeq)
      ensures forall a :: a in r <==> a in accounts && a.userId == userId
      ensures multiset(r) == multiset(OwnedAccounts(accounts, userId))
    {
      var owned := OwnedAccounts(accounts, userId);
      r := SortBy(owned, AccountLatestLeq);
      AccountLatestIsPreorder();
      SortBySorted(owned, AccountLatestLeq);
      assert forall a :: a in r <==> a in multiset(owned);
    }

    /** `update`: with the provider's account data, the row takes the new
        name, username and merged data; without any it is left as it was;
        any exception gives 500 and writes nothing. */
    method Update(userId: int, id: int, accountData: Result<Option<map<string, Json>>, string>)
      returns (status: int, reply: Reply<ServerAccount>)
      modifies this
      ensures ResolveAccount(old(accounts), userId, id).None? ==> status == 404 && reply == NotFound && accounts == old(accounts)
      ensures ResolveAccount(old(accounts), userId, id).Some? && accountData.Failure? ==>
        status == 500 && reply == Error("Failed to refresh account", accountData.error) && accounts == old(accounts)
      ensures ResolveAccount(old(accounts), userId, id).Some? && accountData.Success? ==>
        var i := ResolveAccount(old(accounts), userId, id).value;
        && status == 200
        && (HasAccountData(accountData.value) ==>
             accounts == old(accounts)[i := Refreshed(old(accounts)[i], accountData.value.value)])
        && (!HasAccountData(accountData.value) ==> accounts == old(accounts))
        && reply == Ok(accounts[i])
    {
      var found := ResolveAccount(accounts, userId, id);
      if found.None? {
        return 404, NotFound;
      }
      if accountData.Failure? {
        return 500, Error("Failed to refresh account", accountData.error);
      }
      var i := found.value;
      if HasAccountData(accountData.value) {
        accounts := accounts[i := Refreshed(accounts[i], accountData.value.value)];
      }
      status, reply := 200, Ok(accounts[i]);
    }

    /** `destroy`: the caller's account leaves the table. */
    method Destroy(userId: int, id: int) returns (status: int)
      modifies this
      ensures ResolveAccount(old(accounts), userId, id).None? ==> status == 404 && accounts == old(accounts)
      ensures ResolveAccount(old(accounts), userId, id).Some? ==>
        var i := ResolveAccount(old(accounts), userId, id).value;
        status == 200 && accounts == old(accounts)[..i] + old(accounts)[i + 1..]
    {
      var found := ResolveAccount(accounts, userId, id);
      if found.None? {
        return 404;
      }
      var i := found.value;
      accounts := accounts[..i] + accounts[i + 1..];
      status := 200;
    }

    /** `storeEntities`: hands the provider the requested entities (an empty
        list when none were sent) and appends the accounts it stored, or
        answers 500 and stores nothing. */
    method StoreEntities(provider: string, body: Json, stored: Result<seq<ServerAccount>, string>)
      returns (status: int, sent: Json, reply: Reply<seq<ServerAccount>>)
      modifies this
      ensures sent == Entities(body)
      ensures stored.Success? ==> status == 200 && reply == Ok(stored.value) && accounts == old(accounts) + stored.value
      ensures stored.Failure? ==>
        status == 500 && reply == Error("Failed to store entities", stored.error) && accounts == old(accounts)
    {
      sent := Entities(body);
      if stored.Failure? {
        return 500, sent, Error("Failed to store entities", stored.error);
      }
      accounts := accounts + stored.value;
      status, reply := 200, Ok(stored.value);
    }
  }

  /** A refresh keeps the row's id and owner, so the caller's account list
      keeps its ids; every other row is untouched. */
  lemma RefreshKeepsOwnership(rows: seq<ServerAccount>, i: nat, fields: map<string, Json>, userId: int)
    requires i < |rows|
    ensures var r := rows[i := Refreshed(rows[i], fields)];
      && (forall k :: 0 <= k < |rows| && k != i ==> r[k] == rows[k])
      && (forall id :: ResolveAccount(r, userId, id) == ResolveAccount(rows, userId, id))
  {
    var r := rows[i := Refreshed(rows[i], fields)];
    forall id
      ensures ResolveAccount(r, userId, id) == ResolveAccount(rows, userId, id)
    {
      ResolveSameKeys(rows, r, userId, id);
    }
  }

  /** Tables whose rows agree on id and owner resolve every id alike. */
  lemma {:induction false} ResolveSameKeys(a: seq<ServerAccount>, b: seq<ServerAccount>, userId: int, id: int)
    requires |a| == |b|
    requires forall k :: 0 <= k < |a| ==> a[k].id == b[k].id && a[k].userId == b[k].userId
    ensures ResolveAccount(a, userId, id) == ResolveAccount(b, userId, id)
  {
    if a != [] {
      ResolveSameKeys(a[1..], b[1..], userId, id);
    }
  }
}
