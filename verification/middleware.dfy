/**
 * The route guard (middleware.ts): which requests the guard runs on, and what it
 * answers given whether the request carries a session.
 */
module Middleware {

  /** Let the request through, or send the browser elsewhere. */
  datatype Response = Next | Redirect(target: string)

  const Dashboard: string := "/dashboard"
  const Login: string := "/login"

  /** The login and register pages, decided by a prefix test on the pathname. */
  predicate IsAuthPage(path: string)
    ensures IsAuthPage(path) ==> |path| >= 6 && path[0] == '/' && path != "/"
  {
    "/login" <= path || "/register" <= path
  }

  /** Where a user of the given status belongs. */
  function HomeOf(loggedIn: bool): string {
    if loggedIn then Dashboard else Login
  }

  /** The guard's decision. It redirects exactly when the login status agrees
      with being on an auth page (a signed-in user on an auth page, a signed-out
      user elsewhere), except on the root page, and always to the status's home. */
  function Decide(loggedIn: bool, path: string): (r: Response)
    ensures r.Redirect? <==> loggedIn == IsAuthPage(path) && path != "/"
    ensures r.Redirect? ==> r.target == HomeOf(loggedIn)
  {
    if IsAuthPage(path) && loggedIn then Redirect(Dashboard)
    else if !loggedIn && !IsAuthPage(path) && path != "/" then Redirect(Login)
    else Next
  }

  /** The regular-expression group `favicon.ico`: its unescaped dot matches any one character. */
  predicate FaviconLike(rest: string) {
    |rest| >= 11 && rest[..7] == "favicon" && rest[8..11] == "ico"
  }

  /** The negative lookahead of the matcher, tried right after the leading slash. */
  predicate ExcludedRest(rest: string) {
    "api" <= rest || "_next/static" <= rest || "_next/image" <= rest || FaviconLike(rest)
  }

  /** The matcher `/((?!api|_next/static|_next/image|favicon.ico).*)`, anchored at both ends. */
  predicate Matches(path: string)
    ensures Matches(path) ==> |path| >= 1 && path[0] == '/'
  {
    |path| >= 1 && path[0] == '/' && !ExcludedRest(path[1..])
  }

  /** What a request meets: the guard's decision where the matcher selects it, otherwise nothing. */
  function Route(loggedIn: bool, path: string): (r: Response)
    ensures !Matches(path) ==> r == Next
    ensures Matches(path) ==> r == Decide(loggedIn, path)
    ensures r.Redirect? ==> r.target == HomeOf(loggedIn) && Matches(path) && path != "/"
  {
    if Matches(path) then Decide(loggedIn, path) else Next
  }

  /** Two strings that differ at a position both have are not prefix-related. */
  lemma DifferAt(i: nat, x: string, s: string)
    requires i < |x| && i < |s| && x[i] != s[i]
    ensures !(x <= s)
  {
  }

  /** The dashboard is guarded. */
  lemma DashboardMatches()
    ensures Matches("/dashboard")
  {
    var rest := "/dashboard"[1..];
    assert rest == "dashboard";
    DifferAt(0, "api", rest);
    DifferAt(0, "_next/static", rest);
    DifferAt(0, "_next/image", rest);
    assert rest[..7] != "favicon" by { assert rest[0] != 'f'; }
  }

  /** Testing a prefix after the leading slash is testing the slash-prefixed prefix on the path. */
  lemma SlashPrefix(x: string, path: string)
    requires |path| >= 1 && path[0] == '/'
    ensures x <= path[1..] <==> "/" + x <= path
  {
  }

  /** The guard runs on a slash-led path exactly when it starts with none of
      `/api`, `/_next/static`, `/_next/image` and is not `/favicon` + any
      character + `ico` followed by anything. */
  lemma MatchesIffNoExcludedPrefix(path: string)
    requires |path| >= 1 && path[0] == '/'
    ensures Matches(path) <==>
      && !("/api" <= path)
      && !("/_next/static" <= path)
      && !("/_next/image" <= path)
      && !FaviconLike(path[1..])
  {
  }

  /** No path under the API, the static assets, the image optimiser or the icon is guarded. */
  lemma ExcludedPrefixesUnguarded(path: string)
    requires "/api" <= path || "/_next/static" <= path || "/_next/image" <= path || "/favicon.ico" <= path
    ensures !Matches(path)
  {
    if |path| >= 1 && path[0] == '/' {
      SlashPrefix("api", path);
      SlashPrefix("_next/static", path);
      SlashPrefix("_next/image", path);
      assert "/" + "api" == "/api" && "/" + "_next/static" == "/_next/static" && "/" + "_next/image" == "/_next/image";
      if "/favicon.ico" <= path {
        assert path[1..][..7] == path[1..8] == "/favicon.ico"[1..8] == "favicon";
        assert path[1..][8..11] == path[9..12] == "/favicon.ico"[9..12] == "ico";
      }
    }
  }

  /** An auth page never lies under the dashboard, so the dashboard redirect cannot land on one. */
  lemma AuthPageNotUnderDashboard(path: string)
    requires IsAuthPage(path)
    ensures !("/dashboard" <= path)
  {
    assert path[1] == 'l' || path[1] == 'r';
    assert "/dashboard"[1] == 'd';
  }

  /** Concretely: API routes, static assets and the icon bypass the guard. */
  lemma ExcludedPathsBypassGuard(loggedIn: bool)
    ensures Route(loggedIn, "/api/auth/session") == Next
    ensures Route(loggedIn, "/_next/static/chunk.js") == Next
    ensures Route(loggedIn, "/_next/image") == Next
    ensures Route(loggedIn, "/favicon.ico") == Next
    ensures Route(false, "/apiary") == Next
    ensures Route(false, "/favicon-ico") == Next
    ensures Matches("/dashboard") && Matches("/")
  {
    assert "api" <= "/api/auth/session"[1..];
    assert "_next/static" <= "/_next/static/chunk.js"[1..];
    assert "_next/image" <= "/_next/image"[1..];
    assert FaviconLike("/favicon.ico"[1..]);
    assert "api" <= "/apiary"[1..];
    assert FaviconLike("/favicon-ico"[1..]);
    DashboardMatches();
  }

  /** A signed-in request for an auth page is sent to the dashboard. */
  lemma SignedInAuthPageGoesToDashboard(path: string)
    requires IsAuthPage(path)
    ensures Decide(true, path) == Redirect("/dashboard")
  {
  }

  /** A signed-out request for anything but the root and the auth pages is sent to login. */
  lemma SignedOutProtectedGoesToLogin(path: string)
    requires !IsAuthPage(path) && path != "/"
    ensures Decide(false, path) == Redirect("/login")
  {
  }

  /** A signed-out request for the root or an auth page passes. */
  lemma SignedOutPublicPasses(path: string)
    requires path == "/" || IsAuthPage(path)
    ensures Decide(false, path) == Next
  {
  }

  /** A signed-in request for anything but an auth page passes. */
  lemma SignedInElsewherePasses(path: string)
    requires !IsAuthPage(path)
    ensures Decide(true, path) == Next
  {
  }

  /** The auth-page test looks at a prefix only, not at whole path segments. */
  lemma AuthPageIsPrefixTest()
    ensures IsAuthPage("/login/x") && IsAuthPage("/registered") && IsAuthPage("/loginhelp")
    ensures !IsAuthPage("/") && !IsAuthPage("/dashboard") && !IsAuthPage("/Login")
  {
    assert "/login" <= "/login/x";
    assert "/register" <= "/registered";
    assert "/login" <= "/loginhelp";
    DifferAt(1, "/login", "/dashboard");
    DifferAt(1, "/register", "/dashboard");
    DifferAt(1, "/login", "/Login");
    DifferAt(1, "/register", "/Login");
  }

  /** Following a redirect under the same login status is let through: no loops. */
  lemma NoRedirectLoop(loggedIn: bool, path: string)
    requires Route(loggedIn, path).Redirect?
    ensures Route(loggedIn, Route(loggedIn, path).target) == Next
  {
  }
}
