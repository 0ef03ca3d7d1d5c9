/** The route guard of src/proxy.ts: every navigational request is classified
    by its pathname (auth-only page, protected page, anything else) and by
    whether its session cookie verifies, and is then redirected to the login
    page, redirected home, or let through. The token verifier is a parameter. */
module Proxy {
  import opened Common
  import opened Credentials

  /** Paths that send an already signed-in user home. */
  const AuthRoutes: seq<string> := ["/login", "/register"]

  /** `routes.some(route => pathname.startsWith(route))`. */
  predicate AnyPrefix(routes: seq<string>, pathname: string) {
    if routes == [] then false
    else StartsWith(pathname, routes[0]) || AnyPrefix(routes[1..], pathname)
  }

  function IsAuthRoute(pathname: string): (r: bool)
    ensures r <==> StartsWith(pathname, "/login") || StartsWith(pathname, "/register")
  {
    assert AuthRoutes[0] == "/login" && AuthRoutes[1..] == ["/register"];
    assert AnyPrefix(["/register"], pathname) == StartsWith(pathname, "/register") by {
      assert ["/register"][1..] == [];
    }
    AnyPrefix(AuthRoutes, pathname)
  }

  function IsProtectedRoute(pathname: string): (r: bool)
    ensures r ==> !IsAuthRoute(pathname)
    ensures r <==> !IsAuthRoute(pathname) && (pathname == "/" || StartsWith(pathname, "/profile"))
  {
    !IsAuthRoute(pathname) && (pathname == "/" || StartsWith(pathname, "/profile"))
  }

  /** A cookie value that is present, non-empty and accepted by the verifier. */
  function IsAuthenticated(token: Option<string>, verify: string -> Option<Payload>): (r: bool)
    ensures r ==> token.Some? && token.value != ""
    ensures !Truthy(token) ==> !r
    ensures Truthy(token) ==> (r <==> verify(token.value).Some?)
  {
    if Truthy(token) then verify(token.value).Some? else false
  }

  /** The guard's three outcomes. `RedirectLogin` carries the value of the
      `redirect` query parameter of the login URL. */
  datatype Decision = RedirectLogin(redirect: string) | RedirectHome | Next

  /** The decision for a pathname, given whether the request is authenticated. */
  function Decide(pathname: string, authenticated: bool): (d: Decision)
    ensures d.RedirectLogin? <==> IsProtectedRoute(pathname) && !authenticated
    ensures d.RedirectLogin? ==> d.redirect == pathname
    ensures d.RedirectHome? <==> IsAuthRoute(pathname) && authenticated
    ensures d.Next? <==> !(IsProtectedRoute(pathname) && !authenticated) && !(IsAuthRoute(pathname) && authenticated)
  {
    if IsProtectedRoute(pathname) && !authenticated then RedirectLogin(pathname)
    else if IsAuthRoute(pathname) && authenticated then RedirectHome
    else Next
  }

  /** `proxy(request)`: the cookie value is read, verified when present, and
      the pathname decides. */
  function Guard(pathname: string, token: Option<string>, verify: string -> Option<Payload>): Decision {
    Decide(pathname, IsAuthenticated(token, verify))
  }

  /** A missing cookie, an empty one and one the verifier rejects are treated
      alike. */
  lemma {:induction false} MissingAndInvalidTokenAgree(pathname: string, token: string, verify: string -> Option<Payload>)
    requires verify(token).None?
    ensures Guard(pathname, Some(token), verify) == Guard(pathname, None, verify)
    ensures Guard(pathname, Some(""), verify) == Guard(pathname, None, verify)
  {
  }

  /** Example outcomes: a signed-out visit to "/" is sent to the login page
      remembering "/"; a signed-in visit to "/login" is sent home; a signed-out
      visit to "/login", a signed-in one to "/profile" and any visit to
      "/about" pass. The prefix match also covers "/login-help". */
  lemma GuardExamples(auth: bool)
    ensures Decide("/", false) == RedirectLogin("/")
    ensures Decide("/login", true) == RedirectHome
    ensures Decide("/login", false) == Next
    ensures Decide("/profile", true) == Next
    ensures Decide("/about", auth) == Next
    ensures IsAuthRoute("/login-help") && !IsProtectedRoute("/login-help")
  {
    assert "/login"[..|"/login"|] == "/login";
    assert "/login-help"[..6] == "/login";
    assert "/profile"[..8] == "/profile";
    assert !StartsWith("/about", "/login") by { assert "/about"[1] != "/login"[1]; }
    assert !StartsWith("/about", "/register") by { assert "/about"[1] != "/register"[1]; }
    assert !StartsWith("/about", "/profile") by { assert "/about"[1] != "/profile"[1]; }
  }

  /** Following a redirect with the same authentication status is let through:
      the login page is an auth route, so a signed-out visitor stays on it, and
      home is protected, so a signed-in visitor stays there. */
  lemma NoRedirectLoop(pathname: string, authenticated: bool)
    ensures Decide(pathname, authenticated).RedirectLogin? ==> Decide("/login", authenticated) == Next
    ensures Decide(pathname, authenticated).RedirectHome? ==> Decide("/", authenticated) == Next
  {
    assert "/login"[..|"/login"|] == "/login";
    assert !StartsWith("/", "/login");
  }

  // ---------------------------------------------------------------------------
  // config.matcher: '/((?!api|_next/static|_next/image|favicon.ico).*)'

  /** The alternatives of the negative look-ahead.  */
  const ExcludedPatterns: seq<string> := ["api", "_next/static", "_next/image", "favicon.ico"]

  /** Whether `s` begins with a match of the regular-expression literal `pat`,
      in which '.' stands for any single character. */
  predicate RegexPrefix(s: string, pat: string) {
    |pat| <= |s| && forall i :: 0 <= i < |pat| ==> pat[i] == '.' || s[i] == pat[i]
  }

  predicate ExcludedAt(rest: string) {
    exists k :: 0 <= k < |ExcludedPatterns| && RegexPrefix(rest, ExcludedPatterns[k])
  }

  /** Whether the guard runs for a pathname: a leading '/' and, after it, none
      of the excluded alternatives. */
  function GuardRuns(pathname: string): (r: bool)
    ensures r ==> |pathname| >= 1 && pathname[0] == '/'
    ensures StartsWith(pathname, "/api") ==> !r
    ensures StartsWith(pathname, "/_next/static") ==> !r
    ensures StartsWith(pathname, "/_next/image") ==> !r
    ensures StartsWith(pathname, "/favicon.ico") ==> !r
  {
    if |pathname| >= 1 && pathname[0] == '/' then
      var rest := pathname[1..];
      assert StartsWith(pathname, "/api") ==> RegexPrefix(rest, ExcludedPatterns[0]) by {
        if StartsWith(pathname, "/api") {
          forall i | 0 <= i < 3 ensures rest[i] == "api"[i] { StartsWithChar(pathname, "/api", i + 1); }
        }
      }
      assert StartsWith(pathname, "/_next/static") ==> RegexPrefix(rest, ExcludedPatterns[1]) by {
        if StartsWith(pathname, "/_next/static") {
          forall i | 0 <= i < 12 ensures rest[i] == "_next/static"[i] { StartsWithChar(pathname, "/_next/static", i + 1); }
        }
      }
      assert StartsWith(pathname, "/_next/image") ==> RegexPrefix(rest, ExcludedPatterns[2]) by {
        if StartsWith(pathname, "/_next/image") {
          forall i | 0 <= i < 11 ensures rest[i] == "_next/image"[i] { StartsWithChar(pathname, "/_next/image", i + 1); }
        }
      }
      assert StartsWith(pathname, "/favicon.ico") ==> RegexPrefix(rest, ExcludedPatterns[3]) by {
        if StartsWith(pathname, "/favicon.ico") {
          forall i | 0 <= i < 11 ensures rest[i] == "favicon.ico"[i] { StartsWithChar(pathname, "/favicon.ico", i + 1); }
        }
      }
      !ExcludedAt(rest)
    else
      false
  }

  /** The '.' in "favicon.ico" is a wildcard, so "/favicon-ico" is excluded too. */
  lemma FaviconDotIsWildcard()
    ensures !GuardRuns("/favicon-ico")
  {
    assert RegexPrefix("favicon-ico", ExcludedPatterns[3]);
  }

  /** The guard runs on every page it protects or redirects away from. */
  lemma GuardRunsOnGuardedPages(pathname: string)
    requires IsProtectedRoute(pathname) || IsAuthRoute(pathname)
    ensures GuardRuns(pathname)
  {
    var rest := pathname[1..];
    if pathname != "/" {
      var c := pathname[1];
      if StartsWith(pathname, "/profile") {
        StartsWithChar(pathname, "/profile", 1);
      } else if StartsWith(pathname, "/login") {
        StartsWithChar(pathname, "/login", 1);
      } else {
        StartsWithChar(pathname, "/register", 1);
      }
      assert rest[0] == c;
      assert c == 'p' || c == 'l' || c == 'r';
      forall k | 0 <= k < |ExcludedPatterns| ensures !RegexPrefix(rest, ExcludedPatterns[k]) {
        assert ExcludedPatterns[k][0] != '.' && ExcludedPatterns[k][0] != c;
      }
    } else {
      StartsWithChar(pathname, "/", 0);
    }
  }
}
