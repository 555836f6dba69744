/**
 * Strings the handlers derive from the request: the OAuth redirect target,
 * the cookie attributes, and the `Set-Cookie` header of the login callback.
 */
module Requests {
  import opened Wrappers
  import opened Strings
  import opened Cookies
  import opened Http

  const LocalOrigin := "http://localhost:3000"
  const LocalCallback := "http://localhost:3000/callback"
  const PublicCallback := "https://acbeers.github.io/mastodonlm/callback"

  /**
   * `make_redirect_url`: the local callback exactly when the request comes
   * from the local development origin, the public callback otherwise.
   */
  function RedirectUrl(origin: string): (url: string)
    ensures url == LocalCallback <==> origin == LocalOrigin
    ensures url == PublicCallback <==> origin != LocalOrigin
  {
    if origin == LocalOrigin then LocalCallback else PublicCallback
  }

  /** `make_redirect_url(event)`, which raises when there is no `origin` header. */
  function RedirectFor(event: Event): Result<string, Exception>
  {
    match Get(event.headers, "origin")
    case Err(e) => Err(e)
    case Ok(origin) => Ok(RedirectUrl(origin))
  }

  const AwsSuffix := "amazonaws.com"
  const AwsOptions := "Domain=amazonaws.com; SameSite=None; Secure; "
  const LocalOptions := "Domain=localhost; "

  /** Python's `s[-n:]` for `n > 0`: the last `n` characters, or all of a shorter string. */
  function LastChars(s: string, n: nat): string
  {
    if |s| >= n then s[|s| - n..] else s
  }

  predicate EndsWith(s: string, suffix: string)
  {
    |suffix| <= |s| && s[|s| - |suffix|..] == suffix
  }

  /**
   * `make_cookie_options`: the cross-site attributes for the cloud
   * provider's domain exactly when the host ends in `amazonaws.com`; a
   * host shorter than that suffix never matches.
   */
  function CookieOptions(host: string): (options: string)
    ensures options == AwsOptions <==> EndsWith(host, AwsSuffix)
    ensures options == LocalOptions <==> !EndsWith(host, AwsSuffix)
  {
    if LastChars(host, 13) == AwsSuffix then AwsOptions else LocalOptions
  }

  /** `make_cookie_options(event)`, which raises when there is no `host` header. */
  function OptionsFor(event: Event): Result<string, Exception>
  {
    match Get(event.headers, "host")
    case Err(e) => Err(e)
    case Ok(host) => Ok(CookieOptions(host))
  }

  /** `60*60*24`: one day, in seconds. */
  const MaxAge: nat := 60 * 60 * 24

  /**
   * The `Set-Cookie` header value of the login callback: the session cookie
   * with the identifier, then the options, ending in a one-day lifetime.
   */
  function SetCookieHeader(sessionId: string, options: string): (h: string)
    ensures SessionCookieName + "=" + sessionId + "; " <= h
    ensures EndsWith(h, " Max-Age=86400")
    ensures h == SessionCookieName + "=" + sessionId + "; " + options + " Max-Age=86400"
  {
    MaxAgeIsOneDay();
    SessionCookieName + "=" + sessionId + "; " + options + " Max-Age=" + NatToDecimal(MaxAge)
  }

  /** The header's lifetime reads `Max-Age=86400`. */
  lemma MaxAgeIsOneDay()
    ensures NatToDecimal(MaxAge) == "86400"
  {
    assert MaxAge == 86400;
    assert NatToDecimal(8) == "8";
    assert NatToDecimal(86) == NatToDecimal(8) + "6";
    assert NatToDecimal(864) == NatToDecimal(86) + "4";
    assert NatToDecimal(8640) == NatToDecimal(864) + "0";
    assert NatToDecimal(86400) == NatToDecimal(8640) + "0";
  }

  /**
   * The header round-trips through `parse_cookies`: reading it back yields
   * exactly the session cookie with the minted identifier, whatever the
   * attributes, provided the identifier holds no `;` or `=`.
   */
  lemma SetCookieRoundTrip(sessionId: string, options: string)
    requires ';' !in sessionId && '=' !in sessionId
    ensures Parsed([SetCookieHeader(sessionId, options)]) == Ok(map[SessionCookieName := sessionId])
    ensures SessionCookie(map[SessionCookieName := sessionId]) == Some(sessionId)
  {
    var attributes := " " + options + " Max-Age=" + NatToDecimal(MaxAge);
    assert SetCookieHeader(sessionId, options) == SessionCookieName + "=" + sessionId + ";" + attributes;
    assert '=' !in SessionCookieName && ';' !in SessionCookieName;
    PairParses(SessionCookieName, sessionId, attributes);
    var cs := [SetCookieHeader(sessionId, options)];
    assert cs[..0] == [];
  }
}
