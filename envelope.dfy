/**
 * What the handlers exchange with the outside: the Mastodon client's calls
 * and how each one ends, and the session the store keeps per cookie.
 */
module Remote {
  import opened Wrappers
  import opened Pagination
  import opened Followers

  /**
   * How a call through the Mastodon client ends: it returns, or it raises
   * one of the exceptions the handlers name, another `MastodonAPIError`, or
   * a client error outside that class (a network or rate-limit error).
   */
  datatype Outcome = Returned | Unauthorized | IllegalArgument | InternalServer | OtherApiError | NonApiError

  /** An outcome in which the call raised. */
  type Failure = o: Outcome | o != Returned witness Unauthorized

  /**
   * The outcomes that `except MastodonAPIError` catches. In the Mastodon
   * client library the unauthorized and internal-server errors derive from
   * it; the illegal-argument error derives from `ValueError` instead, and the
   * network and rate-limit errors from `MastodonError` alone.
   */
  predicate IsApiError(o: Outcome)
  {
    o == Unauthorized || o == InternalServer || o == OtherApiError
  }

  /** A call the handlers make on the client, with its arguments. */
  datatype Call =
    | Connect(cookie: string)   // get_mastodon(cookie): read the session, build a client
    | WhoAmI                    // me()
    | AccountFollowing(account: AccountId, maxId: Option<Cursor>)
    | Lists
    | ListAccounts(listId: ListId, maxId: Option<Cursor>)
    | AuthRequestUrl(scopes: seq<string>, redirect: string)
    | LogIn(code: string, redirect: string, scopes: seq<string>)
    | ListAccountsAdd(list: string, accounts: seq<string>)
    | ListAccountsDelete(list: string, accounts: seq<string>)
    | ListCreate(title: string)
    | ListDelete(list: string)

  /** What the store keeps under a cookie. */
  datatype Session = Session(token: string, domain: string)

  /** The domain `Database.set` stores when its caller names none. */
  const DefaultDomain := "hachyderm.io"
}

/** The serverless request and response envelopes. */
module Http {
  import opened Wrappers
  import opened Followers
  import opened Remote

  /**
   * A request: the `cookies` list (absent when the browser sent none), the
   * headers and the query-string parameters.
   */
  datatype Event = Event(cookies: Option<seq<string>>, headers: map<string, string>, query: map<string, string>)

  /** An exception that escapes a handler. */
  datatype Exception =
    | KeyError(key: string)       // a missing dict key
    | ValueError                  // a cookie that does not unpack
    | RemoteError(outcome: Failure) // a client exception nobody catches

  /** `d[key]`. */
  function Get(d: map<string, string>, key: string): (r: Result<string, Exception>)
    ensures r.Ok? <==> key in d
    ensures r.Ok? ==> r.value == d[key]
    ensures r.Err? ==> r.error == KeyError(key)
  {
    if key in d then Ok(d[key]) else Err(KeyError(key))
  }

  /** `event.get("cookies", [])`. */
  function RequestCookies(event: Event): seq<string>
  {
    event.cookies.GetOr([])
  }

  /** A response body, before JSON encoding. */
  datatype Body =
    | Status(status: string)   // {"status": status}
    | Text(text: string)       // a bare string such as "OK" or "ERROR"
    | AuthUrl(url: string)     // {"url": url}
    | InfoJson(lists: seq<ListInfo>, followers: seq<Person>, me: MeSummary)

  /** What a handler returns, or the exception it raises. */
  datatype Response =
    | Reply(statusCode: nat, headers: map<string, string>, body: Body)  // a dict with statusCode and body
    | Bare(body: Body)                                                 // the encoded body alone
    | Raised(exception: Exception)

  /** `response(body, statusCode=200)`: a dict of the status code and the body, with no headers. */
  function Respond(body: Body, statusCode: nat := 200): (r: Response)
    ensures r.Reply? && r.statusCode == statusCode && r.body == body && r.headers == map[]
  {
    Reply(statusCode, map[], body)
  }

  /** A handler's response together with the client calls it made, in order. */
  datatype Trace = Trace(response: Response, calls: seq<Call>)
}
