/**
 The request-authorization policy of the frontend's HTTP interceptor.

 For each outgoing request the interceptor classifies the URL by substring
 containment against two fixed pattern lists, lets the public list win
 outright, and otherwise attaches `Authorization: Bearer <token>` when the URL
 is protected and the stored token is truthy. The stored token is a parameter
 here (`None` is an absent entry), and the result is the request that is
 handed on down the pipeline, exactly once.
 */
module AuthInterceptor {
  import opened Substring

  datatype Option<T> = None | Some(value: T)

  /** An outgoing request as the interceptor sees it. Header names are exact
      map keys; the body and every other field are never touched, so they are
      not part of the model. */
  datatype Request = Request(url: string, headers: map<string, string>)

  const Authorization: string := "Authorization"

  /** URL fragments whose requests should carry the token. `/profile` has no
      trailing slash, so it also matches `/profiles-public/`. */
  const ProtectedPatterns: seq<string> := ["/admin/", "/customer/", "/client/", "/profile"]

  /** URL fragments whose requests must never carry the token. */
  const PublicPatterns: seq<string> :=
    ["/catalog/", "/auth/login", "/auth/register", "/auth/forgot-password", "/auth/reset-password"]

  /** Reference classification: some pattern of the list occurs in the URL. */
  ghost predicate MatchesSome(url: string, patterns: seq<string>)
  {
    exists k :: 0 <= k < |patterns| && IsSubstring(patterns[k], url)
  }

  /** `patterns[0]` included, or `patterns[1]` included, or ...: the
      short-circuit chain of `includes` calls, taken left to right. */
  function IncludesAny(url: string, patterns: seq<string>): (b: bool)
    ensures b <==> MatchesSome(url, patterns)
    decreases |patterns|
  {
    if |patterns| == 0 then
      false
    else
      var rest := IncludesAny(url, patterns[1..]);
      assert MatchesSome(url, patterns[1..]) ==> MatchesSome(url, patterns) by {
        if MatchesSome(url, patterns[1..]) {
          var k :| 0 <= k < |patterns[1..]| && IsSubstring(patterns[1..][k], url);
          assert patterns[k + 1] == patterns[1..][k];
        }
      }
      assert MatchesSome(url, patterns) ==> Includes(url, patterns[0]) || MatchesSome(url, patterns[1..]) by {
        if MatchesSome(url, patterns) {
          var k :| 0 <= k < |patterns| && IsSubstring(patterns[k], url);
          if k > 0 {
            assert patterns[1..][k - 1] == patterns[k];
          }
        }
      }
      Includes(url, patterns[0]) || rest
  }

  /** `requiresAuth`: the URL contains one of the protected fragments. */
  function RequiresAuth(url: string): (r: bool)
    ensures r <==> MatchesSome(url, ProtectedPatterns)
    ensures r <==> (IsSubstring("/admin/", url) || IsSubstring("/customer/", url)
                    || IsSubstring("/client/", url) || IsSubstring("/profile", url))
  {
    var r := IncludesAny(url, ProtectedPatterns);
    assert ProtectedPatterns[0] == "/admin/" && ProtectedPatterns[1] == "/customer/";
    assert ProtectedPatterns[2] == "/client/" && ProtectedPatterns[3] == "/profile";
    r
  }

  /** `isPublic`: the URL contains one of the public fragments. */
  function IsPublic(url: string): (r: bool)
    ensures r <==> MatchesSome(url, PublicPatterns)
    ensures r <==> (IsSubstring("/catalog/", url) || IsSubstring("/auth/login", url)
                    || IsSubstring("/auth/register", url) || IsSubstring("/auth/forgot-password", url)
                    || IsSubstring("/auth/reset-password", url))
  {
    var r := IncludesAny(url, PublicPatterns);
    assert PublicPatterns[0] == "/catalog/" && PublicPatterns[1] == "/auth/login";
    assert PublicPatterns[2] == "/auth/register" && PublicPatterns[3] == "/auth/forgot-password";
    assert PublicPatterns[4] == "/auth/reset-password";
    r
  }

  /** JavaScript truthiness of the stored token: an absent entry (`null`) and
      the empty string are both falsy, every other string is truthy. */
  predicate Truthy(token: Option<string>)
  {
    token.Some? && token.value != ""
  }

  /** The header value `Bearer <token>`, the credentials form of section 2.1
      of RFC 6750: the scheme, one space, then the token unchanged. */
  function BearerCredential(token: string): (v: string)
    ensures |v| == |token| + 7
    ensures v[..7] == "Bearer " && v[7..] == token
  {
    "Bearer " + token
  }

  /** Which branch the interceptor takes for a request. */
  datatype Route =
    | PublicRoute                 // a public fragment matched: forwarded as is
    | AttachToken(token: string)  // protected and a truthy token: cloned with the header
    | ProtectedWithoutToken       // protected but no usable token: forwarded as is
    | Unlisted                    // neither list matched: forwarded as is

  /** The branch decision: the public check first, then the token-and-protected
      check, then the (diagnostic only) protected-without-token case. */
  function Decide(url: string, token: Option<string>): (r: Route)
    ensures r.PublicRoute? <==> MatchesSome(url, PublicPatterns)
    ensures r.AttachToken? <==>
      !MatchesSome(url, PublicPatterns) && MatchesSome(url, ProtectedPatterns)
      && token.Some? && token.value != ""
    ensures r.AttachToken? ==> token == Some(r.token)
    ensures r.ProtectedWithoutToken? <==>
      !MatchesSome(url, PublicPatterns) && MatchesSome(url, ProtectedPatterns)
      && (token == None || token == Some(""))
    ensures r.Unlisted? <==> !MatchesSome(url, PublicPatterns) && !MatchesSome(url, ProtectedPatterns)
  {
    if IsPublic(url) then
      PublicRoute
    else if Truthy(token) && RequiresAuth(url) then
      AttachToken(token.value)
    else if RequiresAuth(url) then
      assert token == None || token == Some("");
      ProtectedWithoutToken
    else
      Unlisted
  }

  /** The request handed on to the next handler: a clone with `Authorization`
      set (overwriting any earlier value) on the attach branch, the original
      request on every other branch. */
  function Intercept(req: Request, token: Option<string>): (out: Request)
    ensures out.url == req.url
    ensures MatchesSome(req.url, PublicPatterns) ==> out == req
    ensures token == None || token == Some("") ==> out == req
    ensures !MatchesSome(req.url, ProtectedPatterns) ==> out == req
    ensures !MatchesSome(req.url, PublicPatterns) && MatchesSome(req.url, ProtectedPatterns)
            && token.Some? && token.value != "" ==>
              out.headers == req.headers[Authorization := "Bearer " + token.value]
    ensures out.headers.Keys == req.headers.Keys || out.headers.Keys == req.headers.Keys + {Authorization}
    ensures forall h :: h in req.headers && h != Authorization ==>
              h in out.headers && out.headers[h] == req.headers[h]
  {
    match Decide(req.url, token)
    case AttachToken(t) => req.(headers := req.headers[Authorization := BearerCredential(t)])
    case _ => req
  }

  /** The request changes exactly on the attach branch, and then only when the
      header did not already hold this very credential. */
  lemma ChangedOnlyWhenAttaching(req: Request, token: Option<string>)
    ensures Intercept(req, token) != req <==>
      && Decide(req.url, token).AttachToken?
      && (Authorization !in req.headers || req.headers[Authorization] != "Bearer " + token.value)
  {
  }

  /** Idempotence: the decision depends only on the URL, which is never
      altered, and setting the header a second time overwrites it with the same
      value. */
  lemma Idempotent(req: Request, token: Option<string>)
    ensures Intercept(Intercept(req, token), token) == Intercept(req, token)
  {
  }

  /** A set `Authorization` header is overwritten, never added twice: when the
      request already had one, the header map keeps its size. */
  lemma OverwriteNotDuplicate(req: Request, token: Option<string>)
    requires Authorization in req.headers
    ensures Intercept(req, token).headers.Keys == req.headers.Keys
    ensures |Intercept(req, token).headers| == |req.headers|
  {
  }

  /** Matching is not anchored: a URL that matches a list still matches it with
      anything put in front of it or after it (a host, a query string). */
  lemma {:induction false} MatchesInContext(url: string, patterns: seq<string>, before: string, after: string)
    requires MatchesSome(url, patterns)
    ensures MatchesSome(before + url + after, patterns)
  {
    var k :| 0 <= k < |patterns| && IsSubstring(patterns[k], url);
    OccursInContext(patterns[k], url, before, after);
  }

  /** Hence a public request stays public, and untouched, whatever is appended
      to its URL or put before it, and whatever the token. */
  lemma {:induction false} PublicInAnyContext(req: Request, before: string, after: string, token: Option<string>)
    requires MatchesSome(req.url, PublicPatterns)
    ensures var wide := req.(url := before + req.url + after);
            Decide(wide.url, token) == PublicRoute && Intercept(wide, token) == wide
  {
    MatchesInContext(req.url, PublicPatterns, before, after);
  }
}
