/** The request wrapper of the page script (`apiFetch`, part4/scripts.js):
    every request it builds carries a JSON content type unless the caller
    names another, and the bearer token from the `token` cookie when there is
    one. It hands back whatever response arrives; there is no special case
    for status 401. */
module Gateway {
  import opened Basics
  import opened Cookie

  /** The JSON bodies the page script sends, before `JSON.stringify`. */
  datatype Body =
    | NoBody
    | Credentials(email: string, password: string)
    | NewReview(placeId: Option<string>, rating: Num, comment: string)

  /** The `options` argument of `apiFetch` (`method`, `headers`, `body`); absent `headers` are `{}`. */
  datatype Options = Options(verb: Option<string>, headers: map<string, string>, body: Body)

  const NoOptions := Options(None, map[], NoBody)

  /** A request as handed to `fetch`; an absent method is GET. */
  datatype Request = Request(path: string, verb: string, headers: map<string, string>, body: Body)

  const ContentType := "Content-Type"
  const Authorization := "Authorization"
  const JsonType := "application/json"

  /** The header object `apiFetch` builds: the JSON content type, then the
      caller's headers spread over it, then the bearer token when the token is
      non-empty (a string is truthy exactly when it is non-empty). */
  function Headers(caller: map<string, string>, token: string): (h: map<string, string>)
    ensures h.Keys == caller.Keys + {ContentType} + (if token != "" then {Authorization} else {})
    ensures h[ContentType] == (if ContentType in caller then caller[ContentType] else JsonType)
    ensures token != "" ==> h[Authorization] == "Bearer " + token
    ensures token == "" && Authorization in caller ==> h[Authorization] == caller[Authorization]
    ensures forall k :: k in caller && k != ContentType && k != Authorization ==> h[k] == caller[k]
  {
    var merged := map[ContentType := JsonType] + caller;
    if token != "" then merged[Authorization := "Bearer " + token] else merged
  }

  /** `apiFetch(path, options)` up to the call of `fetch`: the request it
      issues, given `token`, the value `getCookie("token")` returns at the
      time of the call. */
  function ApiFetch(token: string, path: string, options: Options): (req: Request)
    ensures req.path == path && req.body == options.body
    ensures req.verb == (if options.verb.Some? then options.verb.value else "GET")
    ensures req.headers == Headers(options.headers, token)
  {
    var verb := match options.verb
      case Some(m) => m
      case None => "GET";
    Request(path, verb, Headers(options.headers, token), options.body)
  }

  /** A call with no options is a GET whose only headers are the JSON
      content type and, when there is a token, the bearer token. */
  lemma PlainRequest(token: string, path: string)
    ensures ApiFetch(token, path, NoOptions)
            == Request(path, "GET",
                       if token != "" then map[ContentType := JsonType, Authorization := "Bearer " + token]
                       else map[ContentType := JsonType],
                       NoBody)
  {
    var h := ApiFetch(token, path, NoOptions).headers;
    var expected := if token != "" then map[ContentType := JsonType, Authorization := "Bearer " + token]
                    else map[ContentType := JsonType];
    assert h.Keys == expected.Keys;
    assert forall k :: k in h ==> h[k] == expected[k];
  }

  /** A request carries an Authorization header exactly when there is a
      token or the caller supplied one, and with a token it always names
      that token, whatever the caller put there. */
  lemma AuthorizationHeader(token: string, path: string, options: Options)
    ensures Authorization in ApiFetch(token, path, options).headers
            <==> token != "" || Authorization in options.headers
    ensures token != "" ==> ApiFetch(token, path, options).headers[Authorization] == "Bearer " + token
    ensures token == "" ==> ApiFetch(token, path, options).headers == map[ContentType := JsonType] + options.headers
  {
  }

  /** With the cookie text `token=<t>` for a plain, non-empty `t`, every
      request sends `Bearer <t>`. */
  lemma BearerFromCookie(t: string, path: string, options: Options)
    requires t != "" && '=' !in t && ';' !in t
    ensures GetCookie("token=" + t, "token") == t
    ensures ApiFetch(GetCookie("token=" + t, "token"), path, options).headers[Authorization] == "Bearer " + t
  {
    assert "token" + "=" + t == "token=" + t;
    SingleEntryReadsBack("token", t);
  }
}
