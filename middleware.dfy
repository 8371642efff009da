/** The route guard that runs before every matched request: root redirect,
    public-route check, session check, auth-page redirect. The request's
    session (what `auth()` returns) is an input: `hasSession` says whether
    it is present. */
module Middleware {
  import opened Wrappers
  import opened JsText

  /** What the guard answers: let the request through, or redirect it.
      A sign-in redirect carries the requested path as `callbackUrl`. */
  datatype Response = Next | Redirect(path: string, callbackUrl: Option<string>)

  /** The routes that need no session, in the order they are listed. */
  const PublicRoutes: seq<string> :=
    ["/", "/auth/signin", "/auth/register", "/auth/role-selection", "/api/auth"]

  /** One test of the `some` callback: prefix or exact match. */
  predicate MatchesRoute(pathname: string, route: string) {
    StartsWith(pathname, route) || pathname == route
  }

  /** `routes.some(route => ...)`, scanning left to right. */
  function AnyRouteMatches(routes: seq<string>, pathname: string): bool {
    if routes == [] then false
    else MatchesRoute(pathname, routes[0]) || AnyRouteMatches(routes[1..], pathname)
  }

  predicate IsPublicRoute(pathname: string) {
    AnyRouteMatches(PublicRoutes, pathname)
  }

  /** The guard as written. */
  function Middleware(pathname: string, hasSession: bool): Response {
    if pathname == "/" then Redirect("/landing", None)
    else if IsPublicRoute(pathname) then Next
    else if !hasSession then Redirect("/auth/signin", Some(pathname))
    else if StartsWith(pathname, "/auth/signin") || StartsWith(pathname, "/auth/register") then
      Redirect("/dashboard", None)
    else Next
  }

  /** The scan of `some` finds a match exactly when some listed route matches. */
  lemma {:induction false} AnyRouteMatchesExists(routes: seq<string>, pathname: string)
    ensures AnyRouteMatches(routes, pathname)
        <==> exists i :: 0 <= i < |routes| && MatchesRoute(pathname, routes[i])
  {
    if routes != [] {
      AnyRouteMatchesExists(routes[1..], pathname);
      if AnyRouteMatches(routes[1..], pathname) {
        var i :| 0 <= i < |routes[1..]| && MatchesRoute(pathname, routes[1..][i]);
        assert MatchesRoute(pathname, routes[i + 1]);
      }
      if exists i :: 0 <= i < |routes| && MatchesRoute(pathname, routes[i]) {
        var i :| 0 <= i < |routes| && MatchesRoute(pathname, routes[i]);
        if i > 0 {
          assert MatchesRoute(pathname, routes[1..][i - 1]);
        }
      }
    }
  }

  /** A path is public exactly when it starts with, or equals, one of the
      five listed routes. */
  lemma PublicRouteIff(pathname: string)
    ensures IsPublicRoute(pathname)
        <==> exists i :: 0 <= i < |PublicRoutes| && MatchesRoute(pathname, PublicRoutes[i])
  {
    AnyRouteMatchesExists(PublicRoutes, pathname);
  }

  /** The root path always goes to the landing page, session or not. */
  lemma RootGoesToLanding(hasSession: bool)
    ensures Middleware("/", hasSession) == Redirect("/landing", None)
  {
  }

  /** Public paths other than the root go through without a session check. */
  lemma PublicPathProceeds(pathname: string, hasSession: bool)
    requires pathname != "/" && IsPublicRoute(pathname)
    ensures Middleware(pathname, hasSession) == Next
  {
  }

  /** Because `'/'` is listed and matching is by prefix, every path that
      starts with `/`, other than `/` itself, is public and goes through. */
  lemma EveryRootedPathProceeds(pathname: string, hasSession: bool)
    requires |pathname| >= 1 && pathname[0] == '/' && pathname != "/"
    ensures IsPublicRoute(pathname)
    ensures Middleware(pathname, hasSession) == Next
  {
    assert MatchesRoute(pathname, PublicRoutes[0]);
  }

  /** A non-public path without a session goes to sign-in, carrying the
      requested path as `callbackUrl`. */
  lemma MissingSessionGoesToSignIn(pathname: string)
    requires pathname != "/" && !IsPublicRoute(pathname)
    ensures Middleware(pathname, false) == Redirect("/auth/signin", Some(pathname))
  {
  }

  /** The sign-in redirect is reached only by paths that do not start with `/`. */
  lemma SignInRedirectOnlyOffRoot(pathname: string, hasSession: bool)
    requires Middleware(pathname, hasSession).Redirect?
    requires Middleware(pathname, hasSession).path == "/auth/signin"
    ensures !hasSession
    ensures pathname == [] || pathname[0] != '/'
  {
    if |pathname| >= 1 && pathname[0] == '/' && pathname != "/" {
      EveryRootedPathProceeds(pathname, hasSession);
    }
  }

  /** The auth-page redirect to the dashboard is dead code: a path that
      starts with `/auth/signin` or `/auth/register` is public. */
  lemma DashboardRedirectUnreachable(pathname: string, hasSession: bool)
    ensures Middleware(pathname, hasSession) != Redirect("/dashboard", None)
  {
    if StartsWith(pathname, "/auth/signin") {
      assert MatchesRoute(pathname, PublicRoutes[1]);
    }
    if StartsWith(pathname, "/auth/register") {
      assert MatchesRoute(pathname, PublicRoutes[2]);
    }
  }

  /** The checks apply in a fixed order (root, public, session, auth page,
      proceed) and the first that applies decides the one response. */
  lemma DecisionOrder(pathname: string, hasSession: bool)
    ensures pathname == "/" ==> Middleware(pathname, hasSession) == Redirect("/landing", None)
    ensures pathname != "/" && IsPublicRoute(pathname) ==> Middleware(pathname, hasSession) == Next
    ensures pathname != "/" && !IsPublicRoute(pathname) && !hasSession
            ==> Middleware(pathname, hasSession) == Redirect("/auth/signin", Some(pathname))
    ensures pathname != "/" && !IsPublicRoute(pathname) && hasSession
            ==> Middleware(pathname, hasSession) == Next
  {
    DashboardRedirectUnreachable(pathname, hasSession);
  }

  // ---------------------------------------------------------------------
  // The guard with the root route matched exactly
  // ---------------------------------------------------------------------

  /** The public-route test with `'/'` matched only exactly, which is what
      the root entry of the list is evidently for. */
  predicate IsPublicRouteIntended(pathname: string) {
    pathname == "/" || AnyRouteMatches(PublicRoutes[1..], pathname)
  }

  /** The guard with `'/'` matched exactly; otherwise the same checks in the
      same order. */
  function MiddlewareIntended(pathname: string, hasSession: bool): Response {
    if pathname == "/" then Redirect("/landing", None)
    else if IsPublicRouteIntended(pathname) then Next
    else if !hasSession then Redirect("/auth/signin", Some(pathname))
    else if StartsWith(pathname, "/auth/signin") || StartsWith(pathname, "/auth/register") then
      Redirect("/dashboard", None)
    else Next
  }

  /** As written, the dashboard is served to a request without a session. */
  lemma DashboardUnguarded()
    ensures Middleware("/dashboard", false) == Next
  {
    EveryRootedPathProceeds("/dashboard", false);
  }

  /** With `'/'` matched exactly, a request without a session for any path
      outside the other four public prefixes is sent to sign-in with the
      path as `callbackUrl`; a request with a session goes through. */
  lemma IntendedGuardsProtectedPaths(pathname: string, hasSession: bool)
    requires pathname != "/"
    requires forall i :: 1 <= i < |PublicRoutes| ==> !MatchesRoute(pathname, PublicRoutes[i])
    ensures !hasSession ==> MiddlewareIntended(pathname, hasSession) == Redirect("/auth/signin", Some(pathname))
    ensures hasSession ==> MiddlewareIntended(pathname, hasSession) == Next
  {
    AnyRouteMatchesExists(PublicRoutes[1..], pathname);
    assert forall i :: 0 <= i < |PublicRoutes[1..]| ==> PublicRoutes[1..][i] == PublicRoutes[i + 1];
    assert !MatchesRoute(pathname, PublicRoutes[1]) && !MatchesRoute(pathname, PublicRoutes[2]);
  }

  /** The corrected guard protects the dashboard. */
  lemma IntendedGuardsDashboard()
    ensures MiddlewareIntended("/dashboard", false) == Redirect("/auth/signin", Some("/dashboard"))
    ensures MiddlewareIntended("/dashboard", true) == Next
  {
    var p := "/dashboard";
    assert p[1] == 'd' && !StartsWith(p, "/api/auth");
    assert forall i :: 1 <= i < |PublicRoutes| ==> !MatchesRoute(p, PublicRoutes[i]);
    IntendedGuardsProtectedPaths("/dashboard", false);
    IntendedGuardsProtectedPaths("/dashboard", true);
  }
}
