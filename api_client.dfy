/** The app's side of the wire (`API/APIClient.swift`): the parameters each
    call sends, how they are encoded, the headers that carry the session, and
    how a failed response becomes an `APIError` and its message. The HTTP
    session itself is not modelled. */
module ApiClient {
  import opened Wrappers
  import opened Dates
  import opened JsonValues
  import opened Text
  import opened PostModels
  import opened CalendarView

  datatype HttpMethod = Get | Post | Put | Delete

  datatype ParameterEncoding = UrlEncoded | JsonBody

  /** `request`: a GET sends its parameters in the query string, every other
      method as a JSON body. */
  function EncodingFor(m: HttpMethod): (e: ParameterEncoding) {
    if m == Get then UrlEncoded else JsonBody
  }

  lemma EncodingByMethod(m: HttpMethod)
    ensures EncodingFor(m) == UrlEncoded <==> m == Get
    ensures EncodingFor(m) == JsonBody <==> m == HttpMethod.Post || m == Put || m == Delete
  {
  }

  // ---------------------------------------------------------------------------
  // Errors

  datatype ApiError =
    | Unauthorized
    | Forbidden
    | NotFound
    | ValidationError(message: string)
    | RateLimited
    | ServerError
    | NetworkError(message: string)
    | DecodingError(message: string)

  /** `mapError`: `status` is the response's status code (None without a
      response) and `description` the transport error's own text. */
  function MapError(status: Option<int>, description: string): (e: ApiError) {
    if status == Some(401) then Unauthorized
    else if status == Some(403) then Forbidden
    else if status == Some(404) then NotFound
    else if status == Some(422) then ValidationError("Validation failed")
    else if status == Some(429) then RateLimited
    else if status.Some? && 500 <= status.value <= 599 then ServerError
    else NetworkError(description)
  }

  /** Every server status in 500..599 is a server error; a missing status and
      every status outside the table is a network error carrying the
      transport's text; a decoding error never comes from a response. */
  lemma MapErrorClassifies(status: Option<int>, description: string)
    ensures MapError(status, description) == ServerError <==> status.Some? && 500 <= status.value <= 599
    ensures MapError(status, description).NetworkError? <==>
      status.None? || (status.value !in {401, 403, 404, 422, 429} && !(500 <= status.value <= 599))
    ensures MapError(status, description).NetworkError? ==> MapError(status, description).message == description
    ensures MapError(status, description).ValidationError? <==> status == Some(422)
    ensures MapError(status, description).ValidationError? ==> MapError(status, description).message == "Validation failed"
    ensures !MapError(status, description).DecodingError?
  {
  }

  /** `errorDescription`. */
  function ErrorDescription(e: ApiError): string {
    match e
    case Unauthorized => "Your session has expired. Please log in again."
    case Forbidden => "You don't have permission to perform this action."
    case NotFound => "The requested resource was not found."
    case ValidationError(m) => m
    case RateLimited => "Too many requests. Please try again later."
    case ServerError => "A server error occurred. Please try again later."
    case NetworkError(m) => "Network error: " + m
    case DecodingError(m) => "Failed to process response: " + m
  }

  predicate FixedText(e: ApiError) {
    e.Unauthorized? || e.Forbidden? || e.NotFound? || e.RateLimited? || e.ServerError?
  }

  /** The message shown for a validation error is the one it carries, and
      the payload of a network or decoding error follows a fixed prefix. */
  lemma ErrorDescriptionsCarryPayload(e: ApiError)
    ensures e.ValidationError? ==> ErrorDescription(e) == e.message
    ensures e.NetworkError? ==> ErrorDescription(e)[..15] == "Network error: " && ErrorDescription(e)[15..] == e.message
    ensures e.DecodingError? ==> ErrorDescription(e)[..28] == "Failed to process response: " && ErrorDescription(e)[28..] == e.message
  {
  }

  /** The five cases without a payload show five different fixed texts,
      which already differ in length. */
  lemma FixedErrorTextsDistinct(e: ApiError, f: ApiError)
    requires FixedText(e) && FixedText(f) && e != f
    ensures ErrorDescription(e) != ErrorDescription(f)
  {
    FixedTextLength(e);
    FixedTextLength(f);
  }

  lemma FixedTextLength(e: ApiError)
    requires FixedText(e)
    ensures |ErrorDescription(e)| == match e
      case Unauthorized => 46
      case Forbidden => 49
      case NotFound => 37
      case RateLimited => 42
      case _ => 48
  {
    match e
    case Unauthorized =>
    case Forbidden =>
    case NotFound =>
    case RateLimited =>
    case ServerError =>
  }

  // ---------------------------------------------------------------------------
  // Headers

  /** `authHeaders`: the fixed headers, a bearer token when one is stored and
      the CSRF token when one is stored. */
  function AuthHeaders(accessToken: Option<string>, csrfToken: Option<string>): (h: map<string, string>) {
    var base := map["Accept" := "application/json", "Content-Type" := "application/json", "X-Requested-With" := "XMLHttpRequest"];
    var withToken := if accessToken.Some? then base["Authorization" := "Bearer " + accessToken.value] else base;
    if csrfToken.Some? then withToken["X-CSRF-TOKEN" := csrfToken.value] else withToken
  }

  /** How the server reads the token back: the text after "Bearer ". */
  function BearerToken(headers: map<string, string>): (t: Option<string>) {
    if "Authorization" in headers && |headers["Authorization"]| >= 7 && headers["Authorization"][..7] == "Bearer "
    then Some(headers["Authorization"][7..])
    else None
  }

  /** The server finds exactly the stored access token in the headers, the
      CSRF header exactly when a CSRF token is stored, and the fixed headers
      always. */
  lemma AuthHeadersCarryTokens(accessToken: Option<string>, csrfToken: Option<string>)
    ensures BearerToken(AuthHeaders(accessToken, csrfToken)) == accessToken
    ensures "X-CSRF-TOKEN" in AuthHeaders(accessToken, csrfToken) <==> csrfToken.Some?
    ensures csrfToken.Some? ==> AuthHeaders(accessToken, csrfToken)["X-CSRF-TOKEN"] == csrfToken.value
    ensures AuthHeaders(accessToken, csrfToken)["Accept"] == "application/json"
    ensures AuthHeaders(accessToken, csrfToken)["X-Requested-With"] == "XMLHttpRequest"
  {
    var h := AuthHeaders(accessToken, csrfToken);
    if accessToken.Some? {
      assert h["Authorization"] == "Bearer " + accessToken.value;
      assert ("Bearer " + accessToken.value)[7..] == accessToken.value;
    }
  }

  // ---------------------------------------------------------------------------
  // Parameters

  /** The arguments of `getPosts(page:status:tagId:accountId:keyword:)`. */
  datatype PostsQuery = PostsQuery(page: int, status: Option<PostStatus>, tagId: Option<int>, accountId: Option<int>, keyword: Option<string>)

  /** `getPosts`: the page always, each filter only when given; the status as
      its integer code. */
  function PostsParameters(q: PostsQuery): (p: map<string, Json>) {
    var p0 := map["page" := JNum(q.page)];
    var p1 := if q.status.Some? then p0["status" := JNum(StatusCode(q.status.value))] else p0;
    var p2 := if q.tagId.Some? then p1["tag_id" := JNum(q.tagId.value)] else p1;
    var p3 := if q.accountId.Some? then p2["account_id" := JNum(q.accountId.value)] else p2;
    if q.keyword.Some? then p3["keyword" := JStr(q.keyword.value)] else p3
  }

  /** Reading the parameters back gives the query: the status through its
      code, every other filter as sent, and no key that was not given. */
  lemma PostsParametersRoundTrip(q: PostsQuery)
    ensures var p := PostsParameters(q);
      && p.Keys <= {"page", "status", "tag_id", "account_id", "keyword"}
      && p["page"] == JNum(q.page)
      && ("status" in p <==> q.status.Some?)
      && (q.status.Some? ==> p["status"].JNum? && StatusFromCode(p["status"].n) == q.status)
      && ("tag_id" in p <==> q.tagId.Some?) && (q.tagId.Some? ==> p["tag_id"] == JNum(q.tagId.value))
      && ("account_id" in p <==> q.accountId.Some?) && (q.accountId.Some? ==> p["account_id"] == JNum(q.accountId.value))
      && ("keyword" in p <==> q.keyword.Some?) && (q.keyword.Some? ==> p["keyword"] == JStr(q.keyword.value))
  {
    if q.status.Some? {
      StatusCodeRoundTrip(q.status.value, StatusCode(q.status.value));
    }
  }

  function ViewTypeRaw(t: CalendarViewType): string {
    match t
    case Month => "month"
    case Week => "week"
  }

  /** `getCalendar`: the day as yyyy-MM-dd, the view type, and the optional
      account and tag. */
  function CalendarParameters(date: Instant, viewType: CalendarViewType, accountId: Option<int>, tagId: Option<int>): (p: map<string, Json>)
    requires ValidDate(date.date)
  {
    var p0 := map["date" := JStr(FormatYmd(date.date)), "type" := JStr(ViewTypeRaw(viewType))];
    var p1 := if accountId.Some? then p0["account_id" := JNum(accountId.value)] else p0;
    if tagId.Some? then p1["tag_id" := JNum(tagId.value)] else p1
  }

  /** The calendar parameters name the same day and view type the app shows:
      the date reads back as the day, "week" exactly for the week view. */
  lemma CalendarParametersRoundTrip(date: Instant, viewType: CalendarViewType, accountId: Option<int>, tagId: Option<int>)
    requires ValidDate(date.date) && 1 <= date.date.year <= 9999
    ensures var p := CalendarParameters(date, viewType, accountId, tagId);
      && p["date"].JStr? && ParseYmd(p["date"].s) == Some(date.date)
      && (p["type"] == JStr("week") <==> viewType == Week)
      && p["type"] in {JStr("week"), JStr("month")}
      && ("account_id" in p <==> accountId.Some?) && (accountId.Some? ==> p["account_id"] == JNum(accountId.value))
      && ("tag_id" in p <==> tagId.Some?) && (tagId.Some? ==> p["tag_id"] == JNum(tagId.value))
  {
    FormatParseYmd(date.date);
  }

  /** `deletePosts(ids:)` sends `posts`, `deleteMedia(ids:)` sends `media`. */
  function DeleteParameters(key: string, ids: seq<int>): (p: map<string, Json>) {
    map[key := IntArray(ids)]
  }

  /** The bulk delete body carries exactly the ids, in order. */
  lemma DeleteParametersRoundTrip(key: string, ids: seq<int>)
    ensures DeleteParameters(key, ids).Keys == {key}
    ensures IdsOf(DeleteParameters(key, ids)[key]) == Some(ids)
  {
    IdsRoundTrip(ids);
  }
}
