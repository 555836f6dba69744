# Mastodon list manager: request handlers in Dafny

This project models the serverless request handlers of the Mastodon list
manager (`handler.py`) and proves properties of that model. The handlers
are `info`, `auth`, `callback`, `add_to_list`, `remove_from_list`,
`create_list` and `delete_list`. Each one:

- reads the `list-manager-cookie` session cookie from the request's cookie
  list, except `callback`, which mints a new one;
- calls the Mastodon client;
- maps how those calls end to an HTTP-style response.

What the handlers compute is modelled, with the client and the session store
as inputs (see "## Left out" for the cases those inputs do not
cover):

- `parse_cookies`, including Python's `split` and the 2-tuple unpacking that raises;
- `get_all`, which drains a paginated endpoint, as a loop proved against a
  page-sequence model of the server;
- the follower/list membership join of `info`, as a loop. The Python code
  appends to follower records reached through a dict from id to record; the
  model keeps the dict as a map from id to record position and the appended
  `lists` as a sequence parallel to the followers;
- the output projection and `str(id)`, proved to read back as the same number;
- the redirect URL, the cookie options and the `Set-Cookie` header, proved
  to parse back to the minted session identifier;
- each handler's status branches, over an enumeration of the ways a client
  call can end.

Modules:

| file | module | what it holds |
|---|---|---|
| `wrappers.dfy` | `Wrappers` | `Option`, `Result` |
| `strings.dfy` | `Strings` | Python's `str.split` on one character, its inverse `Join`, `str(int)` and its inverse |
| `cookies.dfy` | `Cookies` | `parse_cookies` |
| `pagination.dfy` | `Pagination` | `get_all` against an `Endpoint`, a finite chain of pages |
| `followers.dfy` | `Followers` | the membership join, the `outpeople` projection, `meinfo` |
| `envelope.dfy` | `Remote`, `Http` | client calls and their outcomes; request, response, exceptions |
| `requests.dfy` | `Requests` | `make_redirect_url`, `make_cookie_options`, the `Set-Cookie` header |
| `handlers.dfy` | `Handlers` | the seven handlers |

A handler's result is a `Trace`: the response it returns, or the exception
it raises, together with the client calls it made in order. The client is
an input in four forms:

- an `Outcome` for each call that can fail;
- an `Endpoint` of pages for each paginated listing;
- the URL builder of `auth`, a function parameter;
- the result of `log_in` in `callback`, a token or a failure (`Handlers.LogInResult`).

The session store is an input too (`Option<Session>`), and so is the random
session identifier of `callback`.

Two behaviours of the code worth knowing:

- `parse_cookies` splits each cookie on every `=` and unpacks two values
  (unlike the first-`=` split of section 5.2 of RFC 6265), so a value that
  itself contains `=` makes the handler raise `ValueError`
  (`Cookies.ParseCookie`).
- Unlike `info`, which answers 403 to an unauthorized session, the mutation
  handlers:
  - answer 500 `"ERROR"` to a mutation the server rejects as unauthorized;
  - let an unauthorized `get_mastodon` escape;
  - let an illegal-argument error from the mutation call escape.

Client exceptions are classified after the Mastodon client library's
hierarchy:

- the unauthorized and internal-server errors derive from `MastodonAPIError`;
- the illegal-argument error does not (it derives from `ValueError`);
- network and rate-limit errors derive from `MastodonError` only.

So `except MastodonAPIError` in `auth` and the mutation handlers catches
every failing outcome except `IllegalArgument` and `NonApiError`
(`Remote.IsApiError`); a `NonApiError` escapes every handler.

## Model

| member | source | states |
|---|---|---|
| Strings.Split | handler.py:65-66 | `str.split` on one character: one more part than separators, no part holds the separator, the first part is the prefix up to the first separator |
| Strings.JoinSplit | handler.py:65-66 | joining the parts with the separator gives back the original string, so the split loses nothing |
| Strings.SplitJoin | handler.py:65-66 | splitting a join of separator-free parts gives back the parts |
| Strings.SplitAtFirst | handler.py:65 | a string cut at a first separator splits into the part before it followed by the split of the rest |
| Strings.SplitWhole | handler.py:65 | a string without the separator splits into itself alone |
| Strings.NatToDecimal | handler.py:150 | `str(id)` is a non-empty run of digits with no leading zero except for 0 itself |
| Strings.DecimalRoundTrip | handler.py:150 | reading the decimal string back as a number gives the id |
| Strings.DecimalInjective | handler.py:150 | distinct ids give distinct strings |
| Cookies.Segment | handler.py:65 | `cookie.split(";")[0]` is the prefix of the cookie before its first `;` |
| Cookies.ParseCookie | handler.py:65-66 | the unpacking succeeds exactly when the segment holds one `=`; then name and value are the text around it, and otherwise the error records how many pieces there were |
| Cookies.ParseCookies | handler.py:61-68 | the loop that fills `res` computes the left fold `Parsed`, which fails at the first cookie that does not unpack |
| Cookies.ParsedKeepsError | handler.py:64-66 | once a cookie fails to unpack, later cookies do not change the outcome |
| Cookies.ParsedFailsAtFirstBadCookie | handler.py:64-66 | the parse succeeds exactly when every cookie unpacks, and otherwise reports the first one that does not |
| Cookies.ParsedWellFormed | handler.py:61-68 | a successful parse means every cookie was well formed |
| Cookies.ParsedJarNames | handler.py:63-67 | a name is in the resulting dict exactly when some cookie carries it |
| Cookies.NamedInPrefix | handler.py:64-67 | a name other than the last cookie's is carried by the list exactly when it is carried by the list without that cookie |
| Cookies.ParsedJarLastWins | handler.py:67 | a name maps to the value of the last cookie that carries it |
| Cookies.NoCookiesEmptyJar | handler.py:63-68 | an empty cookie list gives an empty dict |
| Cookies.AttributesIgnored | handler.py:65 | whatever follows the first `;` does not affect the parse |
| Cookies.PairParses | handler.py:65-67 | `name=value;attributes` parses to `(name, value)` when neither part holds `=` or `;` |
| Http.Get | handler.py:184 | `d[key]` returns the value when the key is present, and raises `KeyError(key)` exactly when it is absent |
| Pagination.FetchNext | handler.py:91 | calling with the cursor of page `i` returns page `i + 1` |
| Pagination.AfterSkips | handler.py:91 | the page after the one naming a cursor is found from any earlier starting page |
| Pagination.GetAll | handler.py:83-96 | the loop returns `Drained` and makes the calls `Calls` |
| Pagination.StopFrom | handler.py:88-95 | the loop stops at the first page without a cursor |
| Pagination.DrainedIsConcatenation | handler.py:86-96 | the result is the concatenation, in fetch order, of the items of every page up to and including the first page without a cursor, empty pages included |
| Pagination.DrainFromIsConcatenation | handler.py:88-95 | the same, from any page on |
| Pagination.CallsFollowCursors | handler.py:87-95 | one call per fetched page: the first without a cursor, each later one with the previous page's cursor, which fetches the next page |
| Pagination.CursorsFromFollow | handler.py:88-95 | the same, from any page on |
| Pagination.AllPagesDrained | handler.py:86-96 | when only the last page lacks a cursor, every page is fetched, once, and all items are returned |
| Pagination.StopIsLast | handler.py:88-95 | with cursors on every page but the last, the loop stops at the last page |
| Pagination.ThreePages | handler.py:83-96 | three pages give their items in order after exactly three calls, carrying no cursor, then each earlier page's cursor |
| Followers.FollowerMap | handler.py:129 | the dict holds every follower's id, maps each id to a record with that id, and never to a record followed by another with the same id |
| Followers.ReachesRecord | handler.py:129-138 | a lookup of an id reaches record `k` exactly when the record has that id and no later record shares it |
| Followers.LastDuplicateWins | handler.py:129 | the dict reaches a record by its id exactly when no later record shares that id |
| Followers.AddMembers | handler.py:134-141 | one list's members append its id to each reachable record, once per matching member, and change nothing else |
| Followers.AddMembersStep | handler.py:135-138 | one pass of the inner loop appends the list id to the reached record and keeps the loop's invariant |
| Followers.GainedStep | handler.py:135-138 | one more member adds the list id to a record exactly when the member carries the record's id and the record is the one the dict keeps |
| Followers.CountIdStep | handler.py:135-137 | one more member raises an id's count exactly when it carries that id |
| Followers.Members | handler.py:134 | one drained membership per list |
| Followers.JoinedStep | handler.py:133-141 | taking one more list into the join appends what that list gives each record |
| Followers.JoinMemberships | handler.py:127-141 | the loop over lists computes `Joined`, and each list's members are fetched with the calls of `get_all` |
| Followers.ListsOfMembership | handler.py:133-141 | a list id is in an account's `lists` exactly when that list's membership contains the account |
| Followers.RepeatMembership | handler.py:138 | a list id repeated `n` times contains that id exactly when `n > 0` |
| Followers.CountIdIgnoresOthers | handler.py:137-141 | a member with another id does not change an account's count |
| Followers.ListsOfIgnoresOthers | handler.py:137-141 | a member with another id does not change an account's lists |
| Followers.UnfollowedMemberIgnored | handler.py:139-141 | a member who is not followed changes no follower's lists |
| Followers.DistinctFollowersAllJoined | handler.py:127-141 | with distinct ids, every follower's `lists` are the ids of the lists containing it, in list order, once per occurrence |
| Followers.Project | handler.py:148-160 | an output entry's `id` is `str(id)`: non-empty digits without a leading zero (except `"0"`) that read back as the account id; `lists` and the five other fields are copied |
| Followers.Projected | handler.py:148-162 | one entry per follower, entry `k` carrying follower `k`'s id as a canonical decimal string and the lists gathered for it |
| Followers.ProjectedFollowers | handler.py:148-162 | the output keeps the followers' number and order (entry `k` comes from follower `k`, with its id and lists), and two entries share an `id` exactly when their accounts do |
| Followers.Summary | handler.py:164-170 | `me` keeps the caller's username and display name, and `acct` is the handle, `@`, then the stored domain |
| Followers.SummaryHandle | handler.py:164-170 | `me` keeps the caller's names, and its `acct` splits at `@` into the caller's handle and the stored domain |
| Followers.JoinExample | handler.py:127-162 | followers A, B with lists L1 = {A, C}, L2 = {B}: A is on [L1], B on [L2], and C does not appear |
| Followers.LargeIdExample | handler.py:150 | id 123456789012345 is output as the string "123456789012345" |
| Requests.RedirectUrl | handler.py:182-187 | the local callback exactly when the origin is `http://localhost:3000`, the public callback otherwise |
| Requests.CookieOptions | handler.py:190-195 | the cross-site attributes exactly when the host ends in `amazonaws.com`, `Domain=localhost; ` otherwise |
| Requests.SetCookieHeader | handler.py:255-258 | the header is `list-manager-cookie=`, the identifier, `; `, the cookie options, then ` Max-Age=86400` |
| Requests.MaxAgeIsOneDay | handler.py:255 | the cookie lifetime `60*60*24` is written `86400` |
| Requests.SetCookieRoundTrip | handler.py:255-258 | the `Set-Cookie` value parses back, through `parse_cookies`, to exactly the session cookie with the minted identifier |
| Http.Respond | handler.py:175-179 | `response(body, statusCode)` is a dict of exactly that status code and body, with no headers |
| Cookies.SessionCookie | handler.py:105 | `cookies.get("list-manager-cookie", None)`: a value exactly when the dict holds the session name, and then the value stored under it |
| Handlers.SessionOf | handler.py:104-105 | session resolution raises `ValueError` exactly when some cookie does not unpack, and otherwise finds a session exactly when some cookie carries the session name |
| Handlers.NoSessionCookie | handler.py:104-105 | well-formed cookies without the session cookie resolve to no session |
| Handlers.MalformedCookieRaises | handler.py:104 | a cookie that does not unpack makes session resolution raise `ValueError` |
| Handlers.InfoSpec | handler.py:99-172 | `info` returns the bare body exactly when a session cookie is present and both `get_mastodon` and `me()` return; every dict it answers is a 403 or a 500; its first call, if any, builds the client |
| Handlers.Info | handler.py:99-172 | the handler, as straight-line code over `ParseCookies`, `GetAll` and `JoinMemberships`, computes `InfoSpec` |
| Handlers.InfoWithoutSessionCookie | handler.py:104-110 | without the session cookie, `info` answers 403 `no_cookie` and makes no client call |
| Handlers.InfoRemoteFailure | handler.py:112-121 | a rejected session is answered exactly like a request without cookies; illegal-argument or internal-server errors give 500 `"ERROR"`; other client errors escape |
| Handlers.InfoSuccess | handler.py:112-172 | success returns the bare JSON body with no status envelope, after calling the client, `me()`, the drained following list with its cursors, then `lists()`, then each list's members page by page |
| Handlers.InfoOutputContents | handler.py:143-171 | the body holds the lists unchanged, one entry per follower in order with its id as `str(id)` (canonical digits) and, for distinct ids, its list memberships, and `acct@domain` |
| Handlers.StartLogin | handler.py:217-231 | starting the login flow adds one URL request with the four scopes and the origin's redirect target, and answers 200 with that URL; without an `origin` header it raises `KeyError` first |
| Handlers.Auth | handler.py:198-231 | `auth` answers 200 whenever it answers at all |
| Handlers.AuthAlreadyLoggedIn | handler.py:203-211 | a live session gets 200 `{"status": "OK"}` after the client and `me()` calls alone, with no authorisation URL built |
| Handlers.AuthStartsLogin | handler.py:203-231 | with no session or one the server rejects, the answer equals the cookie-less answer: the URL for the redirect target the origin selects, after one URL request with the four fixed scopes |
| Handlers.AuthNonApiErrorEscapes | handler.py:206-215 | a client error outside `MastodonAPIError` while probing a session escapes `auth` without building a login URL |
| Handlers.Callback | handler.py:234-260 | a session is stored exactly when the handler answers a dict, and then it is a 200 with `Set-Cookie` storing the token under the new identifier; at most one call is made, `log_in`, whose error escapes |
| Handlers.CallbackEstablishesSession | handler.py:234-260 | a successful login stores the token under the new identifier with the default domain, calls `log_in` once with the code, redirect and scopes, and sets a cookie that resolves back to that identifier |
| Handlers.CrudAsWritten | handler.py:271-376 | the four mutation handlers as written: a request without cookies raises `KeyError("cookies")`; otherwise they answer 200, 403 or 500 when they answer, after at most two calls, the first building the client |
| Handlers.Crud | handler.py:271-376 | the corrected mutation handler (cookies read with `.get`; as written, line 271 raises `KeyError` on a request without cookies): it answers 200, 403 or 500 whenever it answers, and makes at most two calls, the first building the client |
| Handlers.CrudWithoutSessionCookie | handler.py:271-277 | in the corrected handler, without the session cookie, a mutation answers 403 `no_cookie` and makes no client call |
| Handlers.CrudPerformsOneMutation | handler.py:279-292 | with a session, exactly one mutation call is made with the query's identifiers; it answers 200 `"OK"` on success, 500 `"ERROR"` on an API error, and lets an illegal-argument or non-API client error escape |
| Handlers.CrudConnectFailure | handler.py:279-284 | when building the client fails, no mutation is made: illegal-argument and internal-server errors answer 500 `"ERROR"`, others escape |
| Handlers.CrudCookielessRequest | handler.py:271 | on a request without cookies, the handlers as written raise `KeyError` where the corrected ones answer 403; with cookies, the two agree |

## Left out

- The session store's I/O (DynamoDB `get_item`/`put_item`) is not modelled. The store's answer is an input, and `callback`'s write is returned as a value.
- The session expiry (`datetime.now`, `time.mktime`) is left out: it is wall-clock time.
- `uuid.uuid4()` is left out: it is randomness. The identifier is a parameter.
- The Mastodon client library is not part of this model. Its calls become recorded `Call`s with an `Outcome` or a page sequence.
- `json.dumps` is left out. Bodies are structured values, so `auth`'s `{"status": "OK"}` and `callback`'s literal `{"status":"OK"}` are the same value here although their spacing differs.
- `Config` secrets are not modelled.
- Building the client in `auth` and `callback` (the `Mastodon(...)` constructor) is taken to succeed.
- Client errors are an enumeration (`Remote.Outcome`): the named exceptions, any other `MastodonAPIError`, and one `NonApiError` standing for every client error outside that class (network, rate limit). Which concrete exception escapes is not distinguished further.
- In `info`, only `get_mastodon` and `me()` may fail. Failures of the later calls (`account_following`, `lists`, `list_accounts`) are not modelled.
- A `queryStringParameters` of `None` is not modelled: the query is always a map, possibly empty.
- `Pagination.GetAll`: an `AttributeError` raised inside the paged call itself would also end the Python loop; the model does not capture this.
- `Pagination.GetAll`: servers whose cursors repeat are excluded by `Endpoint.Valid`. On such a server the Python loop does not terminate.
- `Followers.JoinMemberships`: the in-place appends to aliased records are modelled as a sequence of membership lists parallel to the followers, not as shared mutable records.
- `Handlers.InfoOutputContents` ties each follower's `lists` to the list memberships only when follower ids are distinct. With duplicate ids, `Followers.LastDuplicateWins` says which record receives the appends.
- The tests under `test/` target a different version of the handler API and are not part of this model.

## Findings

| source | as written | input that shows it | evidently intended | confidence | as-written member | corrected member |
|---|---|---|---|---|---|---|
| handler.py:271, 303, 329, 355 | the four mutation handlers read `event["cookies"]` | a request that carries no cookies, whose event therefore has no `cookies` key: the handler raises `KeyError` (`Handlers.CrudCookielessRequest`) | read the list as `info` and `auth` do, with `event.get("cookies", [])`, and answer 403 `no_cookie` | medium, not executed | Handlers.CrudAsWritten | Handlers.Crud |
