/** The `ProtectedRoute` wrapper: from the loading flag, the authenticated
    flag, the user's role and the required role it decides what its effect
    does (go to login, remembering the path; go to the dashboard; nothing)
    and what it renders (a spinner, nothing, the children). */
module ProtectedRoute {
  import opened Wrappers
  import opened JsText
  import opened NextSession
  import opened UseAuthHook

  /** The effect's action. `ToLogin` carries the path stored as
      `redirectAfterLogin`, if one is stored. */
  datatype Effect = NoEffect | ToLogin(remembered: Option<string>) | ToDashboard

  datatype View = Spinner | Nothing | Children

  /** `requiredRole && user?.role !== requiredRole` */
  predicate RoleMismatch(userRole: Option<string>, requiredRole: Option<string>) {
    Truthy(requiredRole) && userRole != requiredRole
  }

  /** The effect, with `currentPath` standing for `window.location.pathname`. */
  function RouteEffect(loading: bool, isAuthenticated: bool, userRole: Option<string>,
                       requiredRole: Option<string>, currentPath: string): Effect
  {
    if !loading && !isAuthenticated then
      ToLogin(if currentPath != "/auth/login" then Some(currentPath) else None)
    else if !loading && RoleMismatch(userRole, requiredRole) then ToDashboard
    else NoEffect
  }

  /** What is rendered. */
  function RouteView(loading: bool, isAuthenticated: bool, userRole: Option<string>, requiredRole: Option<string>): View {
    if loading then Spinner
    else if !isAuthenticated then Nothing
    else if RoleMismatch(userRole, requiredRole) then Nothing
    else Children
  }

  /** Unauthenticated and settled: go to login, remembering the path unless
      it is the login page; this wins over the role check. */
  lemma UnauthenticatedGoesToLogin(isAuthenticated: bool, userRole: Option<string>,
                                   requiredRole: Option<string>, currentPath: string)
    requires !isAuthenticated
    ensures RouteEffect(false, isAuthenticated, userRole, requiredRole, currentPath).ToLogin?
    ensures currentPath != "/auth/login"
            ==> RouteEffect(false, isAuthenticated, userRole, requiredRole, currentPath) == ToLogin(Some(currentPath))
    ensures RouteEffect(false, isAuthenticated, userRole, requiredRole, "/auth/login") == ToLogin(None)
  {
  }

  /** Authenticated and settled with a required role the user does not
      have: go to the dashboard. */
  lemma WrongRoleGoesToDashboard(userRole: Option<string>, requiredRole: Option<string>, currentPath: string)
    requires RoleMismatch(userRole, requiredRole)
    ensures RouteEffect(false, true, userRole, requiredRole, currentPath) == ToDashboard
  {
  }

  /** The children render exactly when settled, authenticated and either
      no role is required or the user has it; and once settled the effect
      does nothing exactly when the children render. */
  lemma ChildrenIff(loading: bool, isAuthenticated: bool, userRole: Option<string>,
                    requiredRole: Option<string>, currentPath: string)
    ensures RouteView(loading, isAuthenticated, userRole, requiredRole) == Children
        <==> !loading && isAuthenticated && (!Truthy(requiredRole) || userRole == requiredRole)
    ensures !loading ==> (RouteView(loading, isAuthenticated, userRole, requiredRole) == Children
                          <==> RouteEffect(loading, isAuthenticated, userRole, requiredRole, currentPath) == NoEffect)
    ensures loading ==> (RouteView(loading, isAuthenticated, userRole, requiredRole) == Spinner
                         && RouteEffect(loading, isAuthenticated, userRole, requiredRole, currentPath) == NoEffect)
  {
  }

  /** The required roles are written in lower case and the stored roles in
      upper case, so an authenticated user with a stored role never matches
      a required role and is sent to the dashboard. */
  lemma StoredRolesNeverMatch(role: string, requiredRole: string, currentPath: string)
    requires role == Tenant || role == Manager
    requires requiredRole == "tenant" || requiredRole == "manager"
    ensures RouteEffect(false, true, Some(role), Some(requiredRole), currentPath) == ToDashboard
    ensures RouteView(false, true, Some(role), Some(requiredRole)) == Nothing
  {
    assert role[0] != requiredRole[0];
  }

  // ---------------------------------------------------------------------
  // the component as wired to useAuth
  // ---------------------------------------------------------------------

  /** What the wired component does in one state: the push of the hook's
      own effect (`useAuth()` is called with `requireAuth = true`), the
      component's effect, and what is rendered. */
  datatype Wiring = Wiring(hookRedirect: Option<string>, effect: Effect, view: View)

  /** The path the component's effect pushes, if any. */
  function EffectTarget(effect: Effect): Option<string> {
    match effect
    case NoEffect => None
    case ToLogin(_) => Some("/auth/login")
    case ToDashboard => Some("/dashboard")
  }

  /** The pushes in the order the effects run: the hook's effect is
      declared first, by the `useAuth()` call, then the component's. */
  function Pushes(w: Wiring): seq<string> {
    (if w.hookRedirect.Some? then [w.hookRedirect.value] else [])
    + (if EffectTarget(w.effect).Some? then [EffectTarget(w.effect).value] else [])
  }

  /** The component as written: it reads `loading` from `useAuth()`, which
      returns no such field, so the flag is always undefined (false). */
  function WiredAsWritten(session: Option<Session>, status: Status, requiredRole: Option<string>, currentPath: string): Wiring {
    var auth := UseAuth(session, status);
    var role := if auth.user.Some? then auth.user.value.role else None;
    Wiring(auth.redirect,
           RouteEffect(false, auth.isAuthenticated, role, requiredRole, currentPath),
           RouteView(false, auth.isAuthenticated, role, requiredRole))
  }

  /** The component reading the hook's `isLoading`. */
  function WiredIntended(session: Option<Session>, status: Status, requiredRole: Option<string>, currentPath: string): Wiring {
    var auth := UseAuth(session, status);
    var role := if auth.user.Some? then auth.user.value.role else None;
    Wiring(auth.redirect,
           RouteEffect(auth.isLoading, auth.isAuthenticated, role, requiredRole, currentPath),
           RouteView(auth.isLoading, auth.isAuthenticated, role, requiredRole))
  }

  /** As written, the spinner is never shown, and while the session is still
      loading the visitor is sent to login (and the path remembered) by the
      component alone, since the hook does not push while loading. */
  lemma AsWrittenRedirectsWhileLoading(session: Option<Session>, requiredRole: Option<string>, currentPath: string)
    requires currentPath != "/auth/login"
    ensures WiredAsWritten(session, Loading, requiredRole, currentPath).effect == ToLogin(Some(currentPath))
    ensures Pushes(WiredAsWritten(session, Loading, requiredRole, currentPath)) == ["/auth/login"]
    ensures forall status: Status :: WiredAsWritten(session, status, requiredRole, currentPath).view != Spinner
  {
  }

  /** Reading `isLoading`, the component waits while the session loads
      (spinner, no navigation) and otherwise decides as before. Signed out,
      two pushes follow each other: the hook's to `/auth/signin`, then the
      component's to `/auth/login`, which remembers the path. */
  lemma IntendedWaitsWhileLoading(session: Option<Session>, status: Status, requiredRole: Option<string>, currentPath: string)
    ensures status == Loading ==> WiredIntended(session, status, requiredRole, currentPath) == Wiring(None, NoEffect, Spinner)
    ensures status == Loading ==> Pushes(WiredIntended(session, status, requiredRole, currentPath)) == []
    ensures status != Loading ==> WiredIntended(session, status, requiredRole, currentPath)
                                  == WiredAsWritten(session, status, requiredRole, currentPath)
    ensures status == Unauthenticated && currentPath != "/auth/login"
            ==> WiredIntended(session, status, requiredRole, currentPath)
                == Wiring(Some("/auth/signin"), ToLogin(Some(currentPath)), Nothing)
    ensures status == Unauthenticated
            ==> Pushes(WiredIntended(session, status, requiredRole, currentPath)) == ["/auth/signin", "/auth/login"]
  {
  }

  /** Once the session is known, only a signed-out visitor is pushed by the
      hook; a signed-in one is pushed at most once, to the dashboard, and
      exactly when the children are not shown. */
  lemma SignedInPushesOnlyOnMismatch(session: Option<Session>, requiredRole: Option<string>, currentPath: string)
    ensures WiredIntended(session, Authenticated, requiredRole, currentPath).hookRedirect.None?
    ensures Pushes(WiredIntended(session, Authenticated, requiredRole, currentPath)) == []
        <==> WiredIntended(session, Authenticated, requiredRole, currentPath).view == Children
    ensures Pushes(WiredIntended(session, Authenticated, requiredRole, currentPath)) != []
        ==> Pushes(WiredIntended(session, Authenticated, requiredRole, currentPath)) == ["/dashboard"]
  {
  }
}
