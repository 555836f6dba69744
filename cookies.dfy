/**
 * `parse_cookies`: turn the request's list of cookie strings into a
 * name-to-value map. Each string is cut at its first `;` and the part before
 * it is unpacked as exactly two pieces of a split on `=`; a later cookie of
 * the same name overwrites an earlier one. This is a narrower form of the
 * cookie-string parsing of section 5.2 of RFC 6265: no whitespace is trimmed
 * and a value holding `=` is refused rather than kept.
 */
module Cookies {
  import opened Wrappers
  import opened Strings

  /** The one cookie the handlers look for. */
  const SessionCookieName := "list-manager-cookie"

  /**
   * The `ValueError` raised by `(name, val) = ...`: cookie number `index`
   * split into `pieces` pieces on `=` instead of two.
   */
  datatype UnpackError = UnpackError(index: nat, pieces: nat)

  /** `cookie.split(";")[0]`: the text before the first `;`, or all of it. */
  function Segment(cookie: string): (seg: string)
    ensures seg <= cookie && ';' !in seg
    ensures |seg| < |cookie| ==> cookie[|seg|] == ';'
  {
    Split(cookie, ';')[0]
  }

  /**
   * One step of the loop: the `(name, val)` pair of a cookie string, or the
   * number of pieces that made the unpacking fail.
   */
  function ParseCookie(cookie: string): (r: Result<(string, string), nat>)
    ensures r.Ok? <==> Count(Segment(cookie), '=') == 1
    ensures r.Ok? ==> Segment(cookie) == r.value.0 + "=" + r.value.1
    ensures r.Ok? ==> '=' !in r.value.0 && '=' !in r.value.1
    ensures r.Err? ==> r.error == Count(Segment(cookie), '=') + 1 != 2
  {
    var pieces := Split(Segment(cookie), '=');
    if |pieces| == 2 then
      JoinSplit(Segment(cookie), '=');
      Ok((pieces[0], pieces[1]))
    else
      Err(|pieces|)
  }

  /** Name of a well-formed cookie string. */
  function NameOf(cookie: string): string
    requires ParseCookie(cookie).Ok?
  {
    ParseCookie(cookie).value.0
  }

  /** Value of a well-formed cookie string. */
  function ValueOf(cookie: string): string
    requires ParseCookie(cookie).Ok?
  {
    ParseCookie(cookie).value.1
  }

  /** What `parse_cookies(cookies)` returns or raises, as a fold from the left. */
  function Parsed(cookies: seq<string>): Result<map<string, string>, UnpackError>
    decreases |cookies|
  {
    if cookies == [] then Ok(map[])
    else
      var n := |cookies| - 1;
      match Parsed(cookies[..n])
      case Err(e) => Err(e)
      case Ok(jar) =>
        match ParseCookie(cookies[n])
        case Err(pieces) => Err(UnpackError(n, pieces))
        case Ok(pair) => Ok(jar[pair.0 := pair.1])
  }

  /** The loop of `parse_cookies`, filling `res` one cookie at a time. */
  method ParseCookies(cookies: seq<string>) returns (r: Result<map<string, string>, UnpackError>)
    ensures r == Parsed(cookies)
  {
    var res := map[];
    for i := 0 to |cookies|
      invariant Parsed(cookies[..i]) == Ok(res)
    {
      assert cookies[..i + 1][..i] == cookies[..i];
      var p := ParseCookie(cookies[i]);
      if p.Err? {
        ParsedKeepsError(cookies, i + 1);
        return Err(UnpackError(i, p.error));
      }
      res := res[p.value.0 := p.value.1];
    }
    assert cookies[..|cookies|] == cookies;
    r := Ok(res);
  }

  /** Once a prefix raises, the whole list raises the same error. */
  lemma {:induction false} ParsedKeepsError(cookies: seq<string>, k: nat)
    requires k <= |cookies| && Parsed(cookies[..k]).Err?
    ensures Parsed(cookies) == Parsed(cookies[..k])
    decreases |cookies| - k
  {
    if k < |cookies| {
      assert cookies[..k + 1][..k] == cookies[..k];
      ParsedKeepsError(cookies, k + 1);
    } else {
      assert cookies[..k] == cookies;
    }
  }

  /**
   * `parse_cookies` raises exactly when some cookie's text before its first
   * `;` does not hold exactly one `=`, and then at the first such cookie.
   */
  lemma {:induction false} ParsedFailsAtFirstBadCookie(cookies: seq<string>)
    ensures Parsed(cookies).Ok? <==> forall i :: 0 <= i < |cookies| ==> ParseCookie(cookies[i]).Ok?
    ensures Parsed(cookies).Err? ==>
      var e := Parsed(cookies).error;
      && e.index < |cookies|
      && e.pieces == Count(Segment(cookies[e.index]), '=') + 1 != 2
      && forall j :: 0 <= j < e.index ==> Count(Segment(cookies[j]), '=') == 1
    decreases |cookies|
  {
    if cookies != [] {
      var n := |cookies| - 1;
      var prefix := cookies[..n];
      ParsedFailsAtFirstBadCookie(prefix);
      assert forall i :: 0 <= i < n ==> prefix[i] == cookies[i];
    }
  }

  /** Every cookie string of the list unpacks into a pair. */
  predicate AllWellFormed(cookies: seq<string>)
  {
    forall i :: 0 <= i < |cookies| ==> ParseCookie(cookies[i]).Ok?
  }

  /** A list that parses without raising is well formed. */
  lemma ParsedWellFormed(cookies: seq<string>)
    requires Parsed(cookies).Ok?
    ensures AllWellFormed(cookies)
  {
    ParsedFailsAtFirstBadCookie(cookies);
  }

  /** Some cookie of the list carries the name. */
  predicate Named(cookies: seq<string>, name: string)
    requires AllWellFormed(cookies)
  {
    exists i :: 0 <= i < |cookies| && NameOf(cookies[i]) == name
  }

  /** The map `parse_cookies` builds holds exactly the names of the cookies. */
  lemma {:induction false} ParsedJarNames(cookies: seq<string>, jar: map<string, string>)
    requires Parsed(cookies) == Ok(jar)
    ensures AllWellFormed(cookies)
    ensures forall name :: name in jar <==> Named(cookies, name)
    decreases |cookies|
  {
    ParsedWellFormed(cookies);
    if cookies != [] {
      var n := |cookies| - 1;
      var prefix := cookies[..n];
      var jar' := Parsed(prefix).value;
      ParsedJarNames(prefix, jar');
      assert jar == jar'[NameOf(cookies[n]) := ValueOf(cookies[n])];
      forall name
        ensures name in jar <==> Named(cookies, name)
      {
        if name != NameOf(cookies[n]) {
          NamedInPrefix(cookies, name);
        }
      }
    }
  }

  lemma NamedInPrefix(cookies: seq<string>, name: string)
    requires cookies != [] && AllWellFormed(cookies)
    requires name != NameOf(cookies[|cookies| - 1])
    ensures AllWellFormed(cookies[..|cookies| - 1])
    ensures Named(cookies, name) <==> Named(cookies[..|cookies| - 1], name)
  {
    var prefix := cookies[..|cookies| - 1];
    assert forall i :: 0 <= i < |prefix| ==> prefix[i] == cookies[i];
    if Named(cookies, name) {
      var i :| 0 <= i < |cookies| && NameOf(cookies[i]) == name;
      assert NameOf(prefix[i]) == name;
    }
  }

  /** A later cookie of the same name overwrites an earlier one: the last one wins. */
  lemma {:induction false} ParsedJarLastWins(cookies: seq<string>, jar: map<string, string>, i: nat)
    requires Parsed(cookies) == Ok(jar)
    requires i < |cookies| && AllWellFormed(cookies)
    requires forall j :: i < j < |cookies| ==> NameOf(cookies[j]) != NameOf(cookies[i])
    ensures NameOf(cookies[i]) in jar && jar[NameOf(cookies[i])] == ValueOf(cookies[i])
    decreases |cookies|
  {
    var n := |cookies| - 1;
    var prefix := cookies[..n];
    var jar' := Parsed(prefix).value;
    assert jar == jar'[NameOf(cookies[n]) := ValueOf(cookies[n])];
    if i < n {
      assert forall j :: 0 <= j < n ==> prefix[j] == cookies[j];
      ParsedJarLastWins(prefix, jar', i);
    }
  }

  /** An empty cookie list gives an empty map. */
  lemma NoCookiesEmptyJar()
    ensures Parsed([]) == Ok(map[])
  {
  }

  /** Attributes after the first `;` never matter. */
  lemma AttributesIgnored(pair: string, attributes: string)
    requires ';' !in pair
    ensures ParseCookie(pair + ";" + attributes) == ParseCookie(pair)
  {
    SplitAtFirst(pair, attributes, ';');
    SplitWhole(pair, ';');
  }

  /** A `name=value` pair with no `=` or `;` inside parses back to its parts. */
  lemma {:induction false} PairParses(name: string, value: string, attributes: string)
    requires '=' !in name && '=' !in value && ';' !in name && ';' !in value
    ensures ParseCookie(name + "=" + value + ";" + attributes) == Ok((name, value))
  {
    var pair := name + "=" + value;
    assert ';' !in pair by {
      assert forall i :: 0 <= i < |pair| ==> pair[i] == (if i < |name| then name[i] else if i == |name| then '=' else value[i - |name| - 1]);
    }
    AttributesIgnored(pair, attributes);
    SplitWhole(pair, ';');
    SplitAtFirst(name, value, '=');
    SplitWhole(value, '=');
  }

  /** `cookies.get("list-manager-cookie", None)`. */
  function SessionCookie(jar: map<string, string>): (r: Option<string>)
    ensures r.Some? <==> SessionCookieName in jar
    ensures r.Some? ==> r.value == jar[SessionCookieName]
  {
    if SessionCookieName in jar then Some(jar[SessionCookieName]) else None
  }
}
