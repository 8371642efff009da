/** The next-auth session objects that the pages, hooks and the API layer
    read (`auth()` on the server, `useSession()` in the browser). */
module NextSession {
  import opened Wrappers

  /** `session.user`: every field may be missing. `needsRoleSelection`
      is read only for its truthiness, so an absent flag is `false`. */
  datatype SessionUser = SessionUser(
    id: Option<string>,
    name: Option<string>,
    email: Option<string>,
    image: Option<string>,
    role: Option<string>,
    provider: Option<string>,
    providerId: Option<string>,
    needsRoleSelection: bool)

  /** A session object; `user` may be missing. */
  datatype Session = Session(user: Option<SessionUser>)

  /** The `status` reported by `useSession()`. */
  datatype Status = Loading | Authenticated | Unauthenticated

  /** The role names the application stores on its users. */
  const Tenant: string := "TENANT"
  const Manager: string := "MANAGER"

  /** `session?.user` */
  function UserOf(session: Option<Session>): Option<SessionUser> {
    if session.Some? then session.value.user else None
  }
}
