/**
 Example requests, proved about concrete URLs: typical customer, catalog and
 admin requests, the precedence of the public list, and the consequences of
 plain, case-sensitive, unanchored substring matching.

 A concrete URL is shown to contain a pattern by naming the window where it
 occurs, and to miss a pattern by naming a character of the pattern that the
 URL lacks. Each URL is a parameter pinned by the precondition, so that the
 outcome is derived from the contracts of `Decide` and `Intercept` rather
 than by unfolding them on a literal.
 */
module Scenarios {
  import opened Substring
  import opened AuthInterceptor

  /** A URL with no `g` and no `w` in it matches no public pattern: each of
      `/catalog/` and the four `/auth/...` patterns holds one of the two. */
  lemma NotPublicWithoutGOrW(url: string)
    requires 'g' !in url && 'w' !in url
    ensures !MatchesSome(url, PublicPatterns)
  {
    MissingCharacter("/catalog/", url, 'g');
    MissingCharacter("/auth/login", url, 'g');
    MissingCharacter("/auth/register", url, 'g');
    MissingCharacter("/auth/forgot-password", url, 'g');
    MissingCharacter("/auth/reset-password", url, 'w');
    assert !IsPublic(url);
  }

  /** `https://api.example.com/customer/orders` is protected and not public. */
  lemma CustomerOrdersIsProtected(url: string)
    requires url == "https://api.example.com/customer/orders"
    ensures !MatchesSome(url, PublicPatterns) && MatchesSome(url, ProtectedPatterns)
  {
    NotPublicWithoutGOrW(url);
    assert OccursAt("/customer/", url, 23);
    assert RequiresAuth(url);
  }

  /** Hence with a stored token it gets `Authorization: Bearer abc123`. */
  lemma CustomerOrdersWithToken(url: string)
    requires url == "https://api.example.com/customer/orders"
    ensures Decide(url, Some("abc123")) == AttachToken("abc123")
    ensures Intercept(Request(url, map[]), Some("abc123")).headers == map[Authorization := "Bearer abc123"]
  {
    CustomerOrdersIsProtected(url);
    assert "Bearer " + "abc123" == "Bearer abc123";
  }

  /** A catalog endpoint never gets the header, even with a stored token. */
  lemma CatalogItemsWithToken(url: string, headers: map<string, string>)
    requires url == "https://api.example.com/catalog/items"
    ensures Decide(url, Some("abc123")) == PublicRoute
    ensures Intercept(Request(url, headers), Some("abc123")) == Request(url, headers)
  {
    assert OccursAt("/catalog/", url, 23);
    assert IsPublic(url);
  }

  /** An admin endpoint without a stored token, or with an empty one, is
      forwarded unchanged on the protected-without-token branch. */
  lemma AdminUsersWithoutToken(url: string, headers: map<string, string>, token: Option<string>)
    requires url == "https://api.example.com/admin/users"
    requires token == None || token == Some("")
    ensures Decide(url, token) == ProtectedWithoutToken
    ensures Intercept(Request(url, headers), token) == Request(url, headers)
  {
    NotPublicWithoutGOrW(url);
    assert OccursAt("/admin/", url, 23);
    assert RequiresAuth(url);
  }

  /** `/catalog/admin/` is on both lists; the public list wins, whatever the token. */
  lemma CatalogAdminIsPublic(url: string, token: Option<string>)
    requires url == "/catalog/admin/"
    ensures MatchesSome(url, PublicPatterns) && MatchesSome(url, ProtectedPatterns)
    ensures Decide(url, token) == PublicRoute
    ensures Intercept(Request(url, map[]), token).headers == map[]
  {
    assert OccursAt("/catalog/", url, 0);
    assert OccursAt("/admin/", url, 8);
    assert IsPublic(url) && RequiresAuth(url);
  }

  /** `/profile` has no trailing slash, so `/profiles-public/` is protected,
      and it matches no public pattern. */
  lemma ProfilesPublicIsProtected(url: string)
    requires url == "/profiles-public/"
    ensures !MatchesSome(url, PublicPatterns) && MatchesSome(url, ProtectedPatterns)
  {
    NotPublicWithoutGOrW(url);
    assert OccursAt("/profile", url, 0);
    assert RequiresAuth(url);
  }

  /** Hence with any non-empty stored token it gets the header, and every
      other header is kept. */
  lemma ProfilesPublicWithToken(url: string, t: string, headers: map<string, string>)
    requires url == "/profiles-public/"
    requires t != ""
    ensures Decide(url, Some(t)) == AttachToken(t)
    ensures Intercept(Request(url, headers), Some(t)).headers == headers[Authorization := "Bearer " + t]
  {
    ProfilesPublicIsProtected(url);
  }

  /** Matching is not anchored to the path: a protected fragment in the query
      string is enough. */
  lemma ProtectedFragmentInQuery(url: string, t: string)
    requires url == "https://shop.example.com/orders?next=/admin/"
    requires t != ""
    ensures Decide(url, Some(t)) == AttachToken(t)
  {
    NotPublicWithoutGOrW(url);
    assert OccursAt("/admin/", url, 37);
    assert RequiresAuth(url);
  }

  /** Matching is case-sensitive: `/ADMIN/` is not `/admin/`, and no other
      protected pattern fits either. */
  lemma UpperCaseAdminNotProtected(url: string)
    requires url == "https://api.example.com/ADMIN/"
    ensures !MatchesSome(url, ProtectedPatterns)
  {
    assert !IsSubstring("/admin/", url) by { MissingCharacter("/admin/", url, 'd'); }
    assert !IsSubstring("/customer/", url) by { MissingCharacter("/customer/", url, 'u'); }
    assert !IsSubstring("/client/", url) by { MissingCharacter("/client/", url, 'n'); }
    assert !IsSubstring("/profile", url) by { MissingCharacter("/profile", url, 'f'); }
    assert !RequiresAuth(url);
  }

  /** Being on neither list, that URL keeps its headers, token or not. */
  lemma UpperCaseAdminPassesThrough(url: string, headers: map<string, string>, token: Option<string>)
    requires url == "https://api.example.com/ADMIN/"
    ensures Decide(url, token) == Unlisted
    ensures Intercept(Request(url, headers), token) == Request(url, headers)
  {
    NotPublicWithoutGOrW(url);
    UpperCaseAdminNotProtected(url);
  }
}
