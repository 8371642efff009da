/** The `useAuth` hook and its two variants: the flags derived from the
    session status, and the redirect to sign-in its effect performs. */
module UseAuthHook {
  import opened Wrappers
  import opened NextSession

  /** What the hook returns, together with the navigation its effect makes
      (`None` when it does not navigate). */
  datatype AuthView = AuthView(
    session: Option<Session>,
    status: Status,
    isLoading: bool,
    isAuthenticated: bool,
    user: Option<SessionUser>,
    redirect: Option<string>)

  /** `useAuth(requireAuth = true)` */
  function UseAuth(session: Option<Session>, status: Status, requireAuth: bool := true): AuthView {
    AuthView(
      session,
      status,
      status == Loading,
      status == Authenticated,
      UserOf(session),
      if requireAuth && status == Unauthenticated then Some("/auth/signin") else None)
  }

  /** `useRequireAuth()` */
  function UseRequireAuth(session: Option<Session>, status: Status): AuthView {
    UseAuth(session, status, true)
  }

  /** `useOptionalAuth()` */
  function UseOptionalAuth(session: Option<Session>, status: Status): AuthView {
    UseAuth(session, status, false)
  }

  /** The flags are tests of the status: loading and authenticated are
      never both set, and exactly one of loading, authenticated and
      unauthenticated holds. The user is the session's user, and the status
      and session are passed through. */
  lemma UseAuthFlags(session: Option<Session>, status: Status, requireAuth: bool)
    ensures UseAuth(session, status, requireAuth).isLoading <==> status == Loading
    ensures UseAuth(session, status, requireAuth).isAuthenticated <==> status == Authenticated
    ensures !(UseAuth(session, status, requireAuth).isLoading && UseAuth(session, status, requireAuth).isAuthenticated)
    ensures UseAuth(session, status, requireAuth).isLoading
         || UseAuth(session, status, requireAuth).isAuthenticated
         || status == Unauthenticated
    ensures UseAuth(session, status, requireAuth).user == UserOf(session)
    ensures UseAuth(session, status, requireAuth).session == session
    ensures UseAuth(session, status, requireAuth).status == status
  {
  }

  /** The hook navigates, and only to sign-in, exactly when sign-in is
      required and the status is unauthenticated. */
  lemma UseAuthRedirect(session: Option<Session>, status: Status, requireAuth: bool)
    ensures UseAuth(session, status, requireAuth).redirect.Some? <==> requireAuth && status == Unauthenticated
    ensures UseAuth(session, status, requireAuth).redirect.Some?
            ==> UseAuth(session, status, requireAuth).redirect == Some("/auth/signin")
  {
  }

  /** The required variant is the default call; the optional variant has
      the same flags and never navigates. */
  lemma VariantsAgree(session: Option<Session>, status: Status)
    ensures UseRequireAuth(session, status) == UseAuth(session, status)
    ensures UseOptionalAuth(session, status).redirect.None?
    ensures UseOptionalAuth(session, status) == UseRequireAuth(session, status).(redirect := None)
  {
  }
}
