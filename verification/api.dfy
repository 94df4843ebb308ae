/**
 * The pure parts of the HTTP client (src/lib/api.ts): the request
 * interceptor that attaches the bearer token, the query parameters of
 * `getMessages`, the headers of the event-stream request, and the error
 * message chosen by `handleAPIError`.
 *
 * Browser storage is a map from keys to strings; `getItem` of a missing key
 * is `null`, and a token is attached only when it is truthy, that is present
 * and non-empty.
 */
module Api {
  import opened Types
  import opened Strings

  /** The storage key the access token lives under. */
  const TokenKey: string := "access_token"

  const AuthorizationName: string := "Authorization"
  const BearerPrefix: string := "Bearer "

  /** Request headers, by name. */
  type Headers = map<string, string>

  /** `localStorage.getItem(key)`: the stored value, or `null` when there is none. */
  function GetItem(storage: map<string, string>, key: string): Option<string> {
    if key in storage then Some(storage[key]) else None
  }

  /** A token that JavaScript treats as truthy: stored and non-empty. */
  predicate HasToken(storage: map<string, string>): (r: bool)
    ensures r <==> GetItem(storage, TokenKey) !in {None, Some("")}
  {
    TokenKey in storage && storage[TokenKey] != ""
  }

  /** The `Authorization` value the interceptor would attach, if any. */
  function BearerFor(storage: map<string, string>): (r: Option<string>)
    ensures r.Some? <==> HasToken(storage)
    ensures r.Some? ==> r.value == BearerPrefix + storage[TokenKey]
  {
    if HasToken(storage) then Some(BearerPrefix + storage[TokenKey]) else None
  }

  /** The token carried by an `Authorization` value, if it is a bearer value. */
  function TokenOf(value: string): Option<string> {
    if StartsWith(value, BearerPrefix)
    then Some(value[|BearerPrefix|..])
    else None
  }

  /**
   * The request interceptor: with a stored token, `Authorization` is set to
   * `Bearer <token>`, replacing any value the caller put there; otherwise
   * the headers pass unchanged.
   */
  function Intercept(storage: map<string, string>, headers: Headers): (r: Headers)
    ensures HasToken(storage) ==> AuthorizationName in r && TokenOf(r[AuthorizationName]) == Some(storage[TokenKey])
    ensures !HasToken(storage) ==> r == headers
    ensures forall name :: name in headers && name != AuthorizationName ==> name in r && r[name] == headers[name]
    ensures r.Keys == headers.Keys + (if HasToken(storage) then {AuthorizationName} else {})
  {
    match BearerFor(storage)
    case Some(value) =>
      assert value[..|BearerPrefix|] == BearerPrefix && value[|BearerPrefix|..] == storage[TokenKey];
      headers[AuthorizationName := value]
    case None => headers
  }

  /**
   * For a request the caller sent without an `Authorization` header, the
   * interceptor adds one exactly when a token is stored, and it names that
   * token.
   */
  lemma AttachedIffStored(storage: map<string, string>, headers: Headers)
    requires AuthorizationName !in headers
    ensures AuthorizationName in Intercept(storage, headers) <==> HasToken(storage)
    ensures AuthorizationName in Intercept(storage, headers) ==>
      TokenOf(Intercept(storage, headers)[AuthorizationName]) == Some(storage[TokenKey])
  {
  }

  /** Running the interceptor twice is the same as running it once. */
  lemma InterceptIdempotent(storage: map<string, string>, headers: Headers)
    ensures Intercept(storage, Intercept(storage, headers)) == Intercept(storage, headers)
  {
    var once := Intercept(storage, headers);
    if HasToken(storage) {
      assert once[AuthorizationName] == BearerPrefix + storage[TokenKey];
      assert once[AuthorizationName := BearerPrefix + storage[TokenKey]] == once;
    }
  }

  /** The headers of the event-stream request. */
  function StreamHeaders(storage: map<string, string>): (r: Headers)
    ensures "Accept" in r && r["Accept"] == "text/event-stream"
    ensures AuthorizationName in r <==> HasToken(storage)
  {
    var accept := map["Accept" := "text/event-stream"];
    match BearerFor(storage)
    case Some(value) => accept[AuthorizationName := value]
    case None => accept
  }

  /** The stream request carries the same credentials as an intercepted one. */
  lemma StreamHeadersAsIntercepted(storage: map<string, string>)
    ensures StreamHeaders(storage) == Intercept(storage, map["Accept" := "text/event-stream"])
  {
  }

  /** A query-parameter value: `Record<string, string | number>`. */
  datatype Param = Text(text: string) | Number(number: int)

  /** The default page size of `getMessages`. */
  const DefaultLimit: int := 50

  /**
   * The query of `getMessages`: source, target and limit always, and
   * `before_uid` only when `beforeUid` is given and non-empty.
   */
  function MessagesQuery(
    sourceUid: string, targetUid: string, beforeUid: Option<string>, limit: int := DefaultLimit
  ): (r: map<string, Param>)
    ensures "source_uid" in r && r["source_uid"] == Text(sourceUid)
    ensures "target_uid" in r && r["target_uid"] == Text(targetUid)
    ensures "limit" in r && r["limit"] == Number(limit)
    ensures "before_uid" in r <==> beforeUid.Some? && beforeUid.value != ""
    ensures "before_uid" in r ==> r["before_uid"] == Text(beforeUid.value)
    ensures |r.Keys| == if "before_uid" in r then 4 else 3
  {
    var params := map["source_uid" := Text(sourceUid), "target_uid" := Text(targetUid), "limit" := Number(limit)];
    assert params.Keys == {"source_uid", "target_uid", "limit"};
    if beforeUid.Some? && beforeUid.value != "" then
      var r := params["before_uid" := Text(beforeUid.value)];
      assert r.Keys == {"source_uid", "target_uid", "limit", "before_uid"};
      r
    else
      params
  }

  /** What `handleAPIError` is given: an axios error or anything else. */
  datatype ApiError =
    | Axios(detail: Option<string>, message: string)
    | NotAxios

  const GenericAxiosMessage: string := "An error occurred"
  const UnexpectedMessage: string := "An unexpected error occurred"

  /**
   * The message shown for a failed call: the server's `detail`, else the
   * axios message, else a generic text; non-axios errors get their own
   * generic text. Empty strings count as missing.
   */
  function ErrorMessage(error: ApiError): (r: string)
    ensures r != ""
    ensures error.NotAxios? ==> r == UnexpectedMessage
    ensures error.Axios? && error.detail.Some? && error.detail.value != "" ==> r == error.detail.value
    ensures error.Axios? && (error.detail.None? || error.detail.value == "") ==>
      r == if error.message != "" then error.message else GenericAxiosMessage
  {
    match error
    case NotAxios => UnexpectedMessage
    case Axios(detail, message) =>
      if detail.Some? && detail.value != "" then detail.value
      else if message != "" then message
      else GenericAxiosMessage
  }
}
