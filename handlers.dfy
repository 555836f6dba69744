/**
 * The request handlers: `info`, `auth`, `callback` and the four list
 * mutations. Each resolves the session cookie, calls the Mastodon client and
 * maps how those calls end to a response. The client, the session store, the
 * random session identifier and the OAuth URL builder are inputs.
 */
module Handlers {
  import opened Wrappers
  import opened Strings
  import opened Cookies
  import opened Pagination
  import opened Followers
  import opened Remote
  import opened Http
  import opened Requests

  /** 403 with `{"status": "no_cookie"}`: the caller is not authenticated. */
  const NoCookie := Respond(Status("no_cookie"), 403)

  /** 500 with the bare body `"ERROR"`. */
  const ServerError := Respond(Text("ERROR"), 500)

  /**
   * `parse_cookies(cookies).get("list-manager-cookie", None)`: it raises
   * `ValueError` exactly when some cookie does not unpack, and otherwise
   * finds a session exactly when some cookie carries the session name.
   */
  function SessionOf(cookies: seq<string>): (r: Result<Option<string>, Exception>)
    ensures r.Ok? <==> AllWellFormed(cookies)
    ensures r.Err? ==> r.error == ValueError
    ensures r.Ok? ==> (r.value.Some? <==> Named(cookies, SessionCookieName))
  {
    ParsedFailsAtFirstBadCookie(cookies);
    match Parsed(cookies)
    case Err(_) => Err(ValueError)
    case Ok(jar) =>
      ParsedJarNames(cookies, jar);
      Ok(SessionCookie(jar))
  }

  /** Well-formed cookies none of which is the session cookie resolve to no session. */
  lemma NoSessionCookie(cookies: seq<string>)
    requires AllWellFormed(cookies)
    requires forall i :: 0 <= i < |cookies| ==> NameOf(cookies[i]) != SessionCookieName
    ensures SessionOf(cookies) == Ok(None)
  {
    ParsedFailsAtFirstBadCookie(cookies);
    ParsedJarNames(cookies, Parsed(cookies).value);
  }

  /** A cookie that does not unpack makes the lookup raise `ValueError`. */
  lemma MalformedCookieRaises(cookies: seq<string>, i: nat)
    requires i < |cookies| && ParseCookie(cookies[i]).Err?
    ensures SessionOf(cookies) == Err(ValueError)
  {
    ParsedFailsAtFirstBadCookie(cookies);
  }

  // ---------------------------------------------------------------- info

  /** Everything the client answers during one `info` request. */
  datatype InfoRemote = InfoRemote(
    connect: Outcome,                  // get_mastodon(cookie)
    me: Outcome,                       // me()
    account: Me,                       // what me() returns
    following: Endpoint<Account>,      // account_following(me_id), page by page
    lists: seq<ListInfo>,              // lists()
    members: seq<Endpoint<Account>>)   // list_accounts(l["id"]) for each list, page by page
  {
    predicate Valid()
    {
      && following.Valid()
      && |members| == |lists|
      && forall j :: 0 <= j < |members| ==> members[j].Valid()
    }
  }

  /** How `info` answers when get_mastodon or me() raises. */
  function InfoFailure(o: Failure): Response
  {
    match o
    case Unauthorized => NoCookie
    case IllegalArgument => ServerError
    case InternalServer => ServerError
    case _ => Raised(RemoteError(o))
  }

  /** The domain stored with the session, or `""` when the store has none. */
  function Domain(session: Option<Session>): string
  {
    match session
    case None => ""
    case Some(s) => s.domain
  }

  function FollowingCalls(account: AccountId, cursors: seq<Option<Cursor>>): seq<Call>
  {
    seq(|cursors|, i requires 0 <= i < |cursors| => AccountFollowing(account, cursors[i]))
  }

  function ListAccountsCalls(listId: ListId, cursors: seq<Option<Cursor>>): seq<Call>
  {
    seq(|cursors|, i requires 0 <= i < |cursors| => ListAccounts(listId, cursors[i]))
  }

  /** The member-listing calls of the join, list after list. */
  function MemberCalls(lists: seq<ListInfo>, pageCalls: seq<seq<Option<Cursor>>>): seq<Call>
    requires |pageCalls| == |lists|
    decreases |lists|
  {
    if lists == [] then []
    else
      var n := |lists| - 1;
      MemberCalls(lists[..n], pageCalls[..n]) + ListAccountsCalls(lists[n].id, pageCalls[n])
  }

  function PageCalls(endpoints: seq<Endpoint<Account>>): (r: seq<seq<Option<Cursor>>>)
    requires forall j :: 0 <= j < |endpoints| ==> endpoints[j].Valid()
    ensures |r| == |endpoints|
  {
    seq(|endpoints|, j requires 0 <= j < |endpoints| => Calls(endpoints[j]))
  }

  /** The body of a successful `info`: lists, followers and `me`. */
  function InfoOutput(remote: InfoRemote, session: Option<Session>): Body
    requires remote.Valid()
  {
    var followers := Drained(remote.following);
    var memberOf := Joined(followers, remote.lists, Members(remote.members));
    InfoJson(remote.lists, Projected(followers, memberOf), Summary(remote.account, Domain(session)))
  }

  /** What `info` returns or raises, and the calls it makes. */
  function InfoSpec(event: Event, session: Option<Session>, remote: InfoRemote): (t: Trace)
    requires remote.Valid()
    ensures t.response.Bare? <==>
      SessionOf(RequestCookies(event)).Ok? && SessionOf(RequestCookies(event)).value.Some? &&
      remote.connect == Returned && remote.me == Returned
    ensures t.response.Reply? ==> t.response.statusCode in {403, 500} && t.response.headers == map[]
    ensures t.calls != [] ==> t.calls[0].Connect?
  {
    match SessionOf(RequestCookies(event))
    case Err(e) => Trace(Raised(e), [])
    case Ok(None) => Trace(NoCookie, [])
    case Ok(Some(cookie)) =>
      if remote.connect != Returned then Trace(InfoFailure(remote.connect), [Connect(cookie)])
      else if remote.me != Returned then Trace(InfoFailure(remote.me), [Connect(cookie), WhoAmI])
      else
        Trace(Bare(InfoOutput(remote, session)),
          [Connect(cookie), WhoAmI] + FollowingCalls(remote.account.id, Calls(remote.following))
          + [Lists] + MemberCalls(remote.lists, PageCalls(remote.members)))
  }

  /** The `info` handler. */
  method Info(event: Event, session: Option<Session>, remote: InfoRemote) returns (t: Trace)
    requires remote.Valid()
    ensures t == InfoSpec(event, session, remote)
  {
    var jar := ParseCookies(RequestCookies(event));
    if jar.Err? {
      return Trace(Raised(ValueError), []);
    }
    if SessionCookieName !in jar.value {
      return Trace(NoCookie, []);
    }
    var cookie := jar.value[SessionCookieName];
    if remote.connect != Returned {
      return Trace(InfoFailure(remote.connect), [Connect(cookie)]);
    }
    if remote.me != Returned {
      return Trace(InfoFailure(remote.me), [Connect(cookie), WhoAmI]);
    }
    var calls := [Connect(cookie), WhoAmI];
    var followers, cursors := GetAll(remote.following);
    calls := calls + FollowingCalls(remote.account.id, cursors) + [Lists];
    var memberOf, pageCalls := JoinMemberships(followers, remote.lists, remote.members);
    assert pageCalls == PageCalls(remote.members);
    calls := calls + MemberCalls(remote.lists, pageCalls);
    var body := InfoJson(remote.lists, Projected(followers, memberOf), Summary(remote.account, Domain(session)));
    t := Trace(Bare(body), calls);
  }

  /**
   * Without the session cookie (no cookies at all, or only others), `info`
   * answers 403 no_cookie and makes no client call.
   */
  lemma InfoWithoutSessionCookie(event: Event, session: Option<Session>, remote: InfoRemote)
    requires remote.Valid()
    requires AllWellFormed(RequestCookies(event))
    requires forall i :: 0 <= i < |RequestCookies(event)| ==> NameOf(RequestCookies(event)[i]) != SessionCookieName
    ensures InfoSpec(event, session, remote) == Trace(NoCookie, [])
  {
    NoSessionCookie(RequestCookies(event));
  }

  /**
   * When the client raises: a session the server rejects is answered exactly
   * like a request without cookies, an illegal-argument or internal-server
   * error gives 500 "ERROR", and any other client error escapes.
   */
  lemma InfoRemoteFailure(event: Event, session: Option<Session>, remote: InfoRemote)
    requires remote.Valid()
    requires SessionOf(RequestCookies(event)).Ok? && SessionOf(RequestCookies(event)).value.Some?
    requires remote.connect != Returned || remote.me != Returned
    ensures var failed := if remote.connect != Returned then remote.connect else remote.me;
      var r := InfoSpec(event, session, remote).response;
      && (failed == Unauthorized ==> r == InfoSpec(event.(cookies := None), session, remote).response)
      && (failed == IllegalArgument || failed == InternalServer ==> r == Respond(Text("ERROR"), 500))
      && (failed == OtherApiError || failed == NonApiError ==> r == Raised(RemoteError(failed)))
  {
    NoSessionCookie([]);
  }

  /**
   * A successful `info` returns the bare JSON body, unwrapped by any status
   * envelope, after calling get_mastodon and me(), then draining the
   * followed accounts, then lists(), then each list's members.
   */
  lemma InfoSuccess(event: Event, session: Option<Session>, remote: InfoRemote, cookie: string)
    requires remote.Valid()
    requires SessionOf(RequestCookies(event)) == Ok(Some(cookie))
    requires remote.connect == Returned && remote.me == Returned
    ensures var t := InfoSpec(event, session, remote);
      var n := |Calls(remote.following)|;
      && t.response == Bare(InfoOutput(remote, session))
      && t.calls[..2] == [Connect(cookie), WhoAmI]
      && (forall k :: 0 <= k < n ==> t.calls[2 + k] == AccountFollowing(remote.account.id, Calls(remote.following)[k]))
      && t.calls[2 + n] == Lists
      && t.calls[3 + n..] == MemberCalls(remote.lists, PageCalls(remote.members))
  {
    var following := FollowingCalls(remote.account.id, Calls(remote.following));
    var calls := [Connect(cookie), WhoAmI] + following + [Lists] + MemberCalls(remote.lists, PageCalls(remote.members));
    assert InfoSpec(event, session, remote) == Trace(Bare(InfoOutput(remote, session)), calls);
    assert calls[..2] == [Connect(cookie), WhoAmI];
    assert forall k :: 0 <= k < |following| ==> calls[2 + k] == following[k];
  }

  /**
   * The body of a successful `info`: the lists unchanged; one entry per
   * followed account, in order, whose `id` reads back as the account's id
   * and, when ids are distinct, whose `lists` are the ids of the lists the
   * account is on; and the caller's handle qualified by the stored domain.
   */
  lemma InfoOutputContents(remote: InfoRemote, session: Option<Session>)
    requires remote.Valid()
    ensures var body := InfoOutput(remote, session);
      var followers := Drained(remote.following);
      && body.InfoJson?
      && body.lists == remote.lists
      && |body.followers| == |followers|
      && (forall k :: 0 <= k < |followers| ==>
            && IsDigits(body.followers[k].id) && DecimalToNat(body.followers[k].id) == followers[k].id
            && |body.followers[k].id| > 0 && (body.followers[k].id[0] == '0' ==> |body.followers[k].id| == 1))
      && ((forall i, j :: 0 <= i < j < |followers| ==> followers[i].id != followers[j].id) ==>
            forall k :: 0 <= k < |followers| ==>
              body.followers[k].lists == ListsOf(followers[k].id, remote.lists, Members(remote.members)))
      && body.me.acct == remote.account.acct + "@" + Domain(session)
  {
    var followers := Drained(remote.following);
    var members := Members(remote.members);
    var memberOf := Joined(followers, remote.lists, members);
    var people := Projected(followers, memberOf);
    assert InfoOutput(remote, session) == InfoJson(remote.lists, people, Summary(remote.account, Domain(session)));
    forall k | 0 <= k < |followers|
      ensures IsDigits(people[k].id) && DecimalToNat(people[k].id) == followers[k].id
      ensures |people[k].id| > 0 && (people[k].id[0] == '0' ==> |people[k].id| == 1)
      ensures people[k].lists == memberOf[k]
    {
      assert people[k] == Project(followers[k], memberOf[k]);
    }
    if forall i, j :: 0 <= i < j < |followers| ==> followers[i].id != followers[j].id {
      DistinctFollowersAllJoined(followers, remote.lists, members);
    }
  }

  // ---------------------------------------------------------------- auth

  /** The scopes requested at login. */
  const Scopes := ["read:lists", "read:follows", "read:accounts", "write:lists"]

  /**
   * Start the OAuth flow: after the calls already made (`probes`), one URL
   * request with the fixed scopes and the redirect target the origin
   * selects, answered with 200 and the URL; without an `origin` header,
   * `KeyError` before any further call.
   */
  function StartLogin(event: Event, probes: seq<Call>, authRequestUrl: (seq<string>, string) -> string): (t: Trace)
    ensures "origin" !in event.headers ==> t == Trace(Raised(KeyError("origin")), probes)
    ensures "origin" in event.headers ==>
      var redirect := RedirectUrl(event.headers["origin"]);
      && t.response == Reply(200, map[], AuthUrl(authRequestUrl(Scopes, redirect)))
      && t.calls == probes + [AuthRequestUrl(Scopes, redirect)]
  {
    match RedirectFor(event)
    case Err(e) => Trace(Raised(e), probes)
    case Ok(redirect) =>
      Trace(Respond(AuthUrl(authRequestUrl(Scopes, redirect))), probes + [AuthRequestUrl(Scopes, redirect)])
  }

  /**
   * The `auth` handler. A session that the server still accepts is
   * acknowledged; otherwise the login flow starts. `authRequestUrl` is the
   * client's URL builder.
   */
  function Auth(event: Event, connect: Outcome, me: Outcome, authRequestUrl: (seq<string>, string) -> string): (t: Trace)
    ensures t.response.Reply? ==> t.response.statusCode == 200
  {
    match SessionOf(RequestCookies(event))
    case Err(e) => Trace(Raised(e), [])
    case Ok(None) => StartLogin(event, [], authRequestUrl)
    case Ok(Some(cookie)) =>
      if connect == Returned && me == Returned then
        Trace(Respond(Status("OK")), [Connect(cookie), WhoAmI])
      else
        var failed := if connect != Returned then connect else me;
        var probes := if connect != Returned then [Connect(cookie)] else [Connect(cookie), WhoAmI];
        if IsApiError(failed) then StartLogin(event, probes, authRequestUrl)
        else Trace(Raised(RemoteError(failed)), probes)
  }

  /** A live session is acknowledged with 200 `{"status": "OK"}`, without asking for a login URL. */
  lemma AuthAlreadyLoggedIn(event: Event, authRequestUrl: (seq<string>, string) -> string, cookie: string)
    requires SessionOf(RequestCookies(event)) == Ok(Some(cookie))
    ensures var t := Auth(event, Returned, Returned, authRequestUrl);
      && t.response == Reply(200, map[], Status("OK"))
      && t.calls == [Connect(cookie), WhoAmI]
      && forall c :: c in t.calls ==> !c.AuthRequestUrl?
  {
  }

  /**
   * Without a usable session the login flow starts: a session the server
   * rejects gives the same answer as no cookie at all, namely the URL built
   * for the redirect target the request's origin selects, after a single
   * URL request with the fixed scopes.
   */
  lemma AuthStartsLogin(event: Event, connect: Outcome, me: Outcome, authRequestUrl: (seq<string>, string) -> string)
    requires "origin" in event.headers
    requires SessionOf(RequestCookies(event)).Ok?
    requires SessionOf(RequestCookies(event)).value.Some? ==>
      (connect != Returned && IsApiError(connect)) || (connect == Returned && IsApiError(me))
    ensures var t := Auth(event, connect, me, authRequestUrl);
      var redirect := RedirectUrl(event.headers["origin"]);
      && t.response == Auth(event.(cookies := None), connect, me, authRequestUrl).response
      && t.response == Respond(AuthUrl(authRequestUrl(Scopes, redirect)))
      && t.calls[|t.calls| - 1] == AuthRequestUrl(Scopes, redirect)
      && (redirect == LocalCallback <==> event.headers["origin"] == LocalOrigin)
  {
    NoSessionCookie([]);
  }

  /**
   * A client error outside `MastodonAPIError` (the illegal-argument error, a
   * network or rate-limit error) while probing a session escapes `auth`
   * without starting the login flow.
   */
  lemma AuthNonApiErrorEscapes(event: Event, connect: Outcome, me: Outcome, authRequestUrl: (seq<string>, string) -> string, cookie: string)
    requires SessionOf(RequestCookies(event)) == Ok(Some(cookie))
    requires connect != Returned ==> !IsApiError(connect)
    requires connect == Returned ==> me != Returned && !IsApiError(me)
    ensures var t := Auth(event, connect, me, authRequestUrl);
      var failed := if connect != Returned then connect else me;
      && t.response == Raised(RemoteError(failed))
      && t.calls == (if connect != Returned then [Connect(cookie)] else [Connect(cookie), WhoAmI])
      && forall c :: c in t.calls ==> !c.AuthRequestUrl?
  {
  }

  // ---------------------------------------------------------------- callback

  /** How `log_in` ends: with an access token, or raising. */
  datatype LogInResult = Token(token: string) | LogInRaised(outcome: Failure)

  /** The callback's trace and the session it writes to the store, if any. */
  datatype CallbackResult = CallbackResult(trace: Trace, stored: Option<(string, Session)>)

  /**
   * The `callback` handler: exchange the code for a token, store it under
   * the fresh identifier `sessionId` and set the session cookie.
   */
  function Callback(event: Event, login: LogInResult, sessionId: string): (r: CallbackResult)
    ensures r.stored.Some? <==> r.trace.response.Reply?
    ensures r.stored.Some? ==>
      && login.Token?
      && r.stored.value == (sessionId, Session(login.token, DefaultDomain))
      && r.trace.response.statusCode == 200
      && "Set-Cookie" in r.trace.response.headers
    ensures |r.trace.calls| <= 1 && (r.trace.calls != [] ==> r.trace.calls[0].LogIn?)
    ensures login.LogInRaised? && r.trace.calls != [] ==> r.trace.response == Raised(RemoteError(login.outcome))
  {
    match Get(event.query, "code")
    case Err(e) => CallbackResult(Trace(Raised(e), []), None)
    case Ok(code) =>
      match RedirectFor(event)
      case Err(e) => CallbackResult(Trace(Raised(e), []), None)
      case Ok(redirect) =>
        match OptionsFor(event)
        case Err(e) => CallbackResult(Trace(Raised(e), []), None)
        case Ok(options) =>
          var calls := [LogIn(code, redirect, Scopes)];
          match login
          case LogInRaised(o) => CallbackResult(Trace(Raised(RemoteError(o)), calls), None)
          case Token(token) =>
            CallbackResult(
              Trace(Reply(200, map["Set-Cookie" := SetCookieHeader(sessionId, options)], Status("OK")), calls),
              Some((sessionId, Session(token, DefaultDomain))))
  }

  /**
   * A successful login stores the token under the new identifier with the
   * default domain, and the cookie it sets reads back, through the same
   * cookie parsing every handler uses, as exactly that identifier.
   */
  lemma CallbackEstablishesSession(event: Event, token: string, sessionId: string)
    requires "code" in event.query && "origin" in event.headers && "host" in event.headers
    requires ';' !in sessionId && '=' !in sessionId
    ensures var r := Callback(event, Token(token), sessionId);
      var header := SetCookieHeader(sessionId, CookieOptions(event.headers["host"]));
      && r.stored == Some((sessionId, Session(token, DefaultDomain)))
      && r.trace.response == Reply(200, map["Set-Cookie" := header], Status("OK"))
      && r.trace.calls == [LogIn(event.query["code"], RedirectUrl(event.headers["origin"]), Scopes)]
      && SessionOf([header]) == Ok(Some(sessionId))
  {
    SetCookieRoundTrip(sessionId, CookieOptions(event.headers["host"]));
  }

  // ---------------------------------------------------------------- list mutations

  /** The four list mutations. */
  datatype Mutation = AddToList | RemoveFromList | CreateList | DeleteList

  /** The query parameters a mutation reads. */
  predicate HasParams(op: Mutation, query: map<string, string>)
  {
    match op
    case AddToList => "list_id" in query && "account_id" in query
    case RemoveFromList => "list_id" in query && "account_id" in query
    case CreateList => "list_name" in query
    case DeleteList => "list_id" in query
  }

  /** The mutation's client call, reading the query parameters in the handler's order. */
  function MutationCall(op: Mutation, query: map<string, string>): Result<Call, Exception>
  {
    match op
    case CreateList =>
      (match Get(query, "list_name")
       case Err(e) => Err(e)
       case Ok(name) => Ok(ListCreate(name)))
    case _ =>
      match Get(query, "list_id")
      case Err(e) => Err(e)
      case Ok(lid) =>
        if op == DeleteList then Ok(ListDelete(lid))
        else
          match Get(query, "account_id")
          case Err(e) => Err(e)
          case Ok(aid) =>
            Ok(if op == AddToList then ListAccountsAdd(lid, [aid]) else ListAccountsDelete(lid, [aid]))
  }

  /** How a mutation handler answers when get_mastodon raises. */
  function ConnectFailure(o: Failure): Response
  {
    if o == IllegalArgument || o == InternalServer then ServerError else Raised(RemoteError(o))
  }

  /** How a mutation handler answers the outcome of its one mutation call. */
  function MutationResponse(o: Outcome): Response
  {
    if o == Returned then Respond(Text("OK"))
    else if IsApiError(o) then Respond(Text("ERROR"), 500)
    else Raised(RemoteError(o))
  }

  /** A mutation handler, given the request's cookie list. */
  function CrudWith(op: Mutation, cookies: seq<string>, event: Event, connect: Outcome, mutation: Outcome): Trace
  {
    match SessionOf(cookies)
    case Err(e) => Trace(Raised(e), [])
    case Ok(None) => Trace(NoCookie, [])
    case Ok(Some(cookie)) =>
      if connect != Returned then Trace(ConnectFailure(connect), [Connect(cookie)])
      else
        match MutationCall(op, event.query)
        case Err(e) => Trace(Raised(e), [Connect(cookie)])
        case Ok(call) => Trace(MutationResponse(mutation), [Connect(cookie), call])
  }

  /** The mutation handlers as written: `event["cookies"]` raises when the request has no cookies. */
  function CrudAsWritten(op: Mutation, event: Event, connect: Outcome, mutation: Outcome): (t: Trace)
    ensures event.cookies.None? ==> t == Trace(Raised(KeyError("cookies")), [])
    ensures t.response.Reply? ==> t.response.statusCode in {200, 403, 500}
    ensures |t.calls| <= 2 && (|t.calls| > 0 ==> t.calls[0].Connect?)
  {
    match event.cookies
    case None => Trace(Raised(KeyError("cookies")), [])
    case Some(cookies) => CrudWith(op, cookies, event, connect, mutation)
  }

  /**
   * The mutation handlers with the cookie list read as `info` and `auth`
   * read it. They answer 200, 403 or 500 when they answer at all, and make
   * at most two calls: get_mastodon and the mutation.
   */
  function Crud(op: Mutation, event: Event, connect: Outcome, mutation: Outcome): (t: Trace)
    ensures t.response.Reply? ==> t.response.statusCode in {200, 403, 500}
    ensures |t.calls| <= 2 && (|t.calls| > 0 ==> t.calls[0].Connect?)
  {
    CrudWith(op, RequestCookies(event), event, connect, mutation)
  }

  /** Without the session cookie, a mutation answers 403 no_cookie and calls nothing. */
  lemma CrudWithoutSessionCookie(op: Mutation, event: Event, connect: Outcome, mutation: Outcome)
    requires AllWellFormed(RequestCookies(event))
    requires forall i :: 0 <= i < |RequestCookies(event)| ==> NameOf(RequestCookies(event)[i]) != SessionCookieName
    ensures Crud(op, event, connect, mutation) == Trace(NoCookie, [])
  {
    NoSessionCookie(RequestCookies(event));
  }

  /**
   * With a session and its parameters, a mutation handler makes exactly one
   * mutation call, with the caller's identifiers, and answers 200 "OK" when
   * it returns and 500 "ERROR" when the server rejects it.
   */
  lemma CrudPerformsOneMutation(op: Mutation, event: Event, mutation: Outcome, cookie: string)
    requires SessionOf(RequestCookies(event)) == Ok(Some(cookie))
    requires HasParams(op, event.query)
    ensures var t := Crud(op, event, Returned, mutation);
      var q := event.query;
      && t.calls == [Connect(cookie),
           match op
           case AddToList => ListAccountsAdd(q["list_id"], [q["account_id"]])
           case RemoveFromList => ListAccountsDelete(q["list_id"], [q["account_id"]])
           case CreateList => ListCreate(q["list_name"])
           case DeleteList => ListDelete(q["list_id"])]
      && (mutation == Returned ==> t.response == Reply(200, map[], Text("OK")))
      && (IsApiError(mutation) ==> t.response == Reply(500, map[], Text("ERROR")))
      && (mutation == IllegalArgument ==> t.response == Raised(RemoteError(IllegalArgument)))
      && (mutation == NonApiError ==> t.response == Raised(RemoteError(NonApiError)))
  {
  }

  /** When building the client fails, a mutation handler answers 500 "ERROR" or lets the error escape, and mutates nothing. */
  lemma CrudConnectFailure(op: Mutation, event: Event, connect: Outcome, mutation: Outcome, cookie: string)
    requires SessionOf(RequestCookies(event)) == Ok(Some(cookie))
    requires connect != Returned
    ensures var t := Crud(op, event, connect, mutation);
      && t.calls == [Connect(cookie)]
      && (connect == IllegalArgument || connect == InternalServer ==> t.response == ServerError)
      && (connect == Unauthorized || connect == OtherApiError || connect == NonApiError ==> t.response == Raised(RemoteError(connect)))
  {
  }

  /**
   * The handlers as written differ from the corrected ones only on a
   * request without cookies: there they raise `KeyError` where the
   * corrected handlers answer 403 no_cookie.
   */
  lemma CrudCookielessRequest(op: Mutation, event: Event, connect: Outcome, mutation: Outcome)
    ensures event.cookies.None? ==>
      && CrudAsWritten(op, event, connect, mutation) == Trace(Raised(KeyError("cookies")), [])
      && Crud(op, event, connect, mutation) == Trace(NoCookie, [])
    ensures event.cookies.Some? ==> CrudAsWritten(op, event, connect, mutation) == Crud(op, event, connect, mutation)
  {
    NoSessionCookie([]);
  }
}
