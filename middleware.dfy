/**
 * The request gate: a pure decision from the request path and the value of
 * the `museum_auth` cookie, plus the path matcher the framework applies
 * before calling it.
 */
module Middleware {
  import opened Wrappers
  import Text

  datatype Decision = Redirect(location: string) | Next

  const AuthCookieValue := "authenticated"
  const ProtectedPrefixes: seq<string> := ["/hallway", "/room", "/admin"]

  /** `authCookie?.value === 'authenticated'`; `None` is a request without the cookie. */
  predicate IsAuthenticated(cookie: Option<string>) {
    cookie == Some(AuthCookieValue)
  }

  function IsProtectedRoute(path: string): (r: bool)
    ensures r <==> exists k :: 0 <= k < |ProtectedPrefixes| && |ProtectedPrefixes[k]| <= |path| && path[..|ProtectedPrefixes[k]|] == ProtectedPrefixes[k]
  {
    var b0 := Text.StartsWith(path, ProtectedPrefixes[0]);
    var b1 := Text.StartsWith(path, ProtectedPrefixes[1]);
    var b2 := Text.StartsWith(path, ProtectedPrefixes[2]);
    b0 || b1 || b2
  }

  function Decide(path: string, cookie: Option<string>): (d: Decision)
    ensures d.Redirect? <==> IsProtectedRoute(path) && !IsAuthenticated(cookie)
    ensures d.Redirect? ==> d.location == "/"
  {
    if IsProtectedRoute(path) && !IsAuthenticated(cookie) then Redirect("/") else Next
  }

  /** `config.matcher`: `/hallway/:path*`, `/room/:path*` and `/admin/:path*`. */
  predicate MatcherSelects(path: string) {
    exists k :: 0 <= k < |ProtectedPrefixes| && (path == ProtectedPrefixes[k] || Text.StartsWith(path, ProtectedPrefixes[k] + "/"))
  }

  /** Every path the matcher hands to the gate is a protected route. */
  lemma MatchedPathsAreProtected(path: string)
    requires MatcherSelects(path)
    ensures IsProtectedRoute(path)
  {
    var k :| 0 <= k < |ProtectedPrefixes| && (path == ProtectedPrefixes[k] || Text.StartsWith(path, ProtectedPrefixes[k] + "/"));
    var p := ProtectedPrefixes[k];
    if path != p {
      assert path[..|p|] == (p + "/")[..|p|] == p;
    }
  }

  /** `startsWith('/room')` also covers `/rooms` and anything after it. */
  lemma RoomsPathIsProtected(rest: string)
    ensures IsProtectedRoute("/rooms" + rest)
  {
    var path := "/rooms" + rest;
    assert path[..|"/room"|] == "/room";
  }

  /** A request carrying the cookie passes through on every path. */
  lemma AuthenticatedPasses(path: string)
    ensures Decide(path, Some(AuthCookieValue)) == Next
  {
  }

  /** A string that differs from `p` at index `i` does not start with `p`. */
  lemma NotPrefixAt(s: string, p: string, i: nat)
    requires i < |s| && i < |p| && s[i] != p[i]
    ensures !Text.StartsWith(s, p)
  {
    if |p| <= |s| {
      assert s[..|p|][i] != p[i];
    }
  }

  /** The gatekeeper page and the API routes are never redirected. */
  lemma UnprotectedPaths(cookie: Option<string>, rest: string)
    ensures Decide("/", cookie) == Next
    ensures Decide("/api/" + rest, cookie) == Next
  {
    var api := "/api/" + rest;
    assert api[1] == 'a' && api[2] == 'p';
    NotPrefixAt(api, ProtectedPrefixes[0], 1);
    NotPrefixAt(api, ProtectedPrefixes[1], 1);
    NotPrefixAt(api, ProtectedPrefixes[2], 2);
  }

  /** A request without the cookie, or with any other value, is sent to `/` from a protected path. */
  lemma UnauthenticatedRedirected(path: string, cookie: Option<string>)
    requires IsProtectedRoute(path)
    requires cookie.None? || cookie.value != AuthCookieValue
    ensures Decide(path, cookie) == Redirect("/")
  {
  }
}
