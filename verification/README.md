# Bearer-token interceptor of the qorikusi frontend, in Dafny

The frontend runs every outgoing HTTP request through `authInterceptor`. The
interceptor decides whether to attach the stored JWT as an `Authorization`
header, and it decides this from the URL and the stored token:

1. The URL is classified by plain, case-sensitive, unanchored substring
   containment (`String.prototype.includes`) against two fixed lists:
   - public: `/catalog/`, `/auth/login`, `/auth/register`,
     `/auth/forgot-password`, `/auth/reset-password`;
   - protected: `/admin/`, `/customer/`, `/client/`, `/profile`.
2. A public URL is forwarded untouched, whatever the token.
3. Otherwise, when the URL is protected and the stored token is truthy, a
   clone of the request is forwarded with `Authorization: Bearer <token>`.
   This is the credentials form of section 2.1 of RFC 6750.
4. Every other request is forwarded untouched.

The model is three modules:

- `Substring` (`substring.dfy`): `IsSubstring`, a reference definition of
  "occurs somewhere", and `Includes`, a left-to-right scan proved equal to it.
- `AuthInterceptor` (`interceptor.dfy`): the request (URL plus an exact-key
  header map), the two pattern lists, the classification, the branch decision
  `Decide`, and the transform `Intercept`. The stored token is an
  `Option<string>` parameter, where `None` is an absent `localStorage` entry.
  The lemmas cover the branch on which the request changes, idempotence,
  overwrite without duplication, and unanchored matching.
- `Scenarios` (`scenarios.dfy`): example requests and the edge cases of the
  matching rule, proved about concrete URLs.

Where the code and its surrounding prose disagree, the model follows the code:

- The header comment of the interceptor (lines 6-9) names only `/admin/` and
  `/customer/` as protected, and says `/auth/` is public. The code also protects
  `/client/` and `/profile`. It makes only the four listed `/auth/...` endpoints
  public, so a URL such as `/auth/logout` is on neither list.
- The code tests JavaScript truthiness of the token, not mere presence. An
  empty stored string therefore counts as no token, and so does `null`.
- Both classifications are computed before any branch is taken. The public
  check still decides first, so this order changes nothing observable.

## Model

| member | source | states |
|---|---|---|
| Substring.Includes | qorikusi-frontend/src/app/interceptors/auth.interceptor.ts:17-28 | `url.includes(p)` holds exactly when some window of the URL equals `p`: plain, case-sensitive containment at any position |
| Substring.OccursInContext | qorikusi-frontend/src/app/interceptors/auth.interceptor.ts:17-28 | containment is not anchored: an occurrence survives any text before or after the string |
| AuthInterceptor.IncludesAny | qorikusi-frontend/src/app/interceptors/auth.interceptor.ts:16-28 | the short-circuit `includes(..) \|\| includes(..) \|\| ...` chain holds exactly when some pattern of the list occurs in the URL |
| AuthInterceptor.RequiresAuth | qorikusi-frontend/src/app/interceptors/auth.interceptor.ts:16-20 | `requiresAuth` holds exactly when one of `/admin/`, `/customer/`, `/client/`, `/profile` occurs in the URL |
| AuthInterceptor.IsPublic | qorikusi-frontend/src/app/interceptors/auth.interceptor.ts:23-28 | `isPublic` holds exactly when one of the five public fragments occurs in the URL |
| AuthInterceptor.BearerCredential | qorikusi-frontend/src/app/interceptors/auth.interceptor.ts:43 | the header value is `Bearer `, one space, then the token unchanged, so the token can be read back from position 7 |
| AuthInterceptor.Decide | qorikusi-frontend/src/app/interceptors/auth.interceptor.ts:31-57 | the public branch is taken exactly for public URLs, whatever else matches; the token is attached exactly for non-public protected URLs with a non-empty token; a protected URL with a `null` or empty token takes the without-token branch; a URL on neither list passes through |
| AuthInterceptor.Intercept | qorikusi-frontend/src/app/interceptors/auth.interceptor.ts:31-57 | the URL never changes; public URLs, unprotected URLs, and `null` or empty tokens leave the request as it was; on the attach branch the headers are the old ones with `Authorization` set to `Bearer <token>`; the key set grows by at most `Authorization`; every other header keeps its value |
| AuthInterceptor.ChangedOnlyWhenAttaching | qorikusi-frontend/src/app/interceptors/auth.interceptor.ts:37-57 | the forwarded request differs from the original if and only if the attach branch is taken and the header did not already hold that exact credential |
| AuthInterceptor.Idempotent | qorikusi-frontend/src/app/interceptors/auth.interceptor.ts:16-45 | running the interceptor on its own output, with the same token, gives the same request as running it once |
| AuthInterceptor.OverwriteNotDuplicate | qorikusi-frontend/src/app/interceptors/auth.interceptor.ts:41-45 | when the request already carries `Authorization`, the header is overwritten and the header map keeps its key set and size |
| AuthInterceptor.MatchesInContext | qorikusi-frontend/src/app/interceptors/auth.interceptor.ts:16-28 | a URL that matches a pattern list still matches it when a host is put in front or a query string is appended |
| AuthInterceptor.PublicInAnyContext | qorikusi-frontend/src/app/interceptors/auth.interceptor.ts:23-34 | a public URL stays public, and its request stays untouched, whatever is put around the URL and whatever the token |
| Scenarios.CustomerOrdersIsProtected | qorikusi-frontend/src/app/interceptors/auth.interceptor.ts:16-28 | `https://api.example.com/customer/orders` matches the protected list and no public pattern |
| Scenarios.CustomerOrdersWithToken | qorikusi-frontend/src/app/interceptors/auth.interceptor.ts:36-47 | `https://api.example.com/customer/orders` with token `abc123` is forwarded with exactly `Authorization: Bearer abc123` |
| Scenarios.CatalogItemsWithToken | qorikusi-frontend/src/app/interceptors/auth.interceptor.ts:30-34 | `https://api.example.com/catalog/items` is forwarded unchanged even though a token is stored |
| Scenarios.AdminUsersWithoutToken | qorikusi-frontend/src/app/interceptors/auth.interceptor.ts:50-57 | `https://api.example.com/admin/users` with a `null` or empty token takes the without-token branch and is forwarded unchanged |
| Scenarios.CatalogAdminIsPublic | qorikusi-frontend/src/app/interceptors/auth.interceptor.ts:30-37 | `/catalog/admin/` matches both lists and still takes the public branch, with no header added |
| Scenarios.ProfilesPublicIsProtected | qorikusi-frontend/src/app/interceptors/auth.interceptor.ts:16-28 | `/profile` has no trailing slash, so `/profiles-public/` matches the protected list, and it matches no public pattern |
| Scenarios.ProfilesPublicWithToken | qorikusi-frontend/src/app/interceptors/auth.interceptor.ts:36-47 | with any non-empty stored token `t` and any headers, `/profiles-public/` takes the attach branch and is forwarded with `Authorization` set to `Bearer t`, every other header kept |
| Scenarios.ProtectedFragmentInQuery | qorikusi-frontend/src/app/interceptors/auth.interceptor.ts:17 | `https://shop.example.com/orders?next=/admin/`, whose only `/admin/` is in the query string, takes the attach branch for any non-empty token |
| Scenarios.UpperCaseAdminNotProtected | qorikusi-frontend/src/app/interceptors/auth.interceptor.ts:16-20 | matching is case-sensitive: `/ADMIN/` matches no protected pattern |
| Scenarios.UpperCaseAdminPassesThrough | qorikusi-frontend/src/app/interceptors/auth.interceptor.ts:56-57 | `https://api.example.com/ADMIN/` is on neither list and is forwarded unchanged, whatever the token and headers |

## Left out

- Reading the token with `localStorage.getItem('token')` (line 13) is browser storage I/O. The token is an `Option<string>` parameter instead.
- The `console.log` tracing (lines 32, 38, 53) has no effect on the result. Only the branch it reports is modelled, as the `Route` value of `Decide`.
- Angular's `HttpInterceptorFn`, the `next` handler and its Observable (lines 1, 11, 33, 47, 57) are framework plumbing. The result of `Intercept` is the one request that would be passed to `next`.
- Angular's `HttpRequest.clone` and `HttpHeaders` internals are library code outside this repository. That covers case-insensitive header names and lazy header initialisation. Headers are an exact-key map, and `setHeaders` is a map update.
- The request body and the other request fields are never touched by the interceptor, so they are not in the model.
- AuthInterceptor.BearerCredential: does not check that the token fits the `b64token` syntax of section 2.1 of RFC 6750, because the interceptor sends whatever string is stored.
- Strings are Dafny strings, sequences of Unicode scalar values, while JavaScript strings are sequences of UTF-16 code units. URLs and tokens holding lone surrogates cannot be represented. No result changes for representable strings, since every pattern is ASCII.
