/** The browser-side `AuthService` singleton: a token and a user held in
    memory, set by login, register and `setAuth`, cleared by `clearAuth`,
    `logout` and a failed token check. The backend's replies are inputs;
    the copies kept in `localStorage` and the cookie are not modelled. */
module AuthService {
  import opened Wrappers
  import opened JsText

  /** The user as the service stores it. */
  datatype ServiceUser = ServiceUser(userId: string, email: string, role: string, name: Option<string>)

  /** `data.user` in the backend's login and register replies. */
  datatype ReplyUser = ReplyUser(id: string, email: string, role: string, name: Option<string>)

  /** What the login or register request came to: the fetch threw, the
      backend refused (with an optional message), or it accepted. */
  datatype AuthReply =
    | Threw(reason: string)
    | Refused(message: Option<string>)
    | Accepted(token: string, user: ReplyUser)

  /** What `/auth/me` came to when validating the token. */
  datatype ProbeReply = ProbeOk | ProbeNotOk | ProbeThrew

  /** The `{ user, token }` a successful login or register returns. */
  datatype SignedIn = SignedIn(user: ServiceUser, token: string)

  /** The stored user built from the reply: `userId` from `id`, the other
      fields copied. */
  function UserFromReply(u: ReplyUser): (r: ServiceUser)
    ensures r.userId == u.id && r.email == u.email && r.role == u.role && r.name == u.name
  {
    ServiceUser(u.id, u.email, u.role, u.name)
  }

  class AuthServiceState {
    var token: Option<string>
    var user: Option<ServiceUser>

    /** Whether the service holds a non-empty token and a user. */
    predicate Authenticated()
      reads this
    {
      Truthy(token) && user.Some?
    }

    /** The singleton's construction, from what was stored in the browser
        (a missing entry, or a user entry that failed to parse, is `None`). */
    constructor (storedToken: Option<string>, storedUser: Option<ServiceUser>)
      ensures token == storedToken && user == storedUser
    {
      token := storedToken;
      user := storedUser;
    }

    method SetAuth(t: string, u: ServiceUser)
      modifies this
      ensures token == Some(t) && user == Some(u)
      ensures Authenticated() <==> t != ""
    {
      token := Some(t);
      user := Some(u);
    }

    /** `setAuthData(user, token)` has exactly the effect of `setAuth(token, user)`. */
    method SetAuthData(u: ServiceUser, t: string)
      modifies this
      ensures token == Some(t) && user == Some(u)
    {
      SetAuth(t, u);
    }

    method GetToken() returns (t: Option<string>)
      ensures t == token
    {
      t := token;
    }

    method GetUser() returns (u: Option<ServiceUser>)
      ensures u == user
    {
      u := user;
    }

    method ClearAuth()
      modifies this
      ensures token.None? && user.None?
      ensures !Authenticated()
    {
      token := None;
      user := None;
    }

    method Logout()
      modifies this
      ensures token.None? && user.None?
      ensures !Authenticated()
    {
      ClearAuth();
    }

    /** `isAuthenticated()`: true exactly when the token is present and
        non-empty and a user is stored. */
    method IsAuthenticated() returns (b: bool)
      ensures b <==> token.Some? && token.value != "" && user.Some?
    {
      b := token.Some? && token.value != "" && user.Some?;
    }

    /** `validateToken()`: without a token it answers false and changes
        nothing; otherwise only an ok reply keeps the session, and a
        refused or failed check clears it. */
    method ValidateToken(reply: ProbeReply) returns (valid: bool)
      modifies this
      ensures !old(Truthy(token)) ==> !valid && token == old(token) && user == old(user)
      ensures old(Truthy(token)) ==> (valid <==> reply == ProbeOk)
      ensures old(Truthy(token)) && reply == ProbeOk ==> token == old(token) && user == old(user)
      ensures old(Truthy(token)) && reply != ProbeOk ==> token.None? && user.None?
    {
      if !Truthy(token) {
        return false;
      }
      if reply == ProbeOk {
        valid := true;
      } else {
        ClearAuth();
        valid := false;
      }
    }

    /** The shared tail of `login` and `register`: a refused request throws
        its message or `fallback`, a thrown fetch error is passed on, and an
        accepted one stores and returns the token and the user. */
    method Complete(reply: AuthReply, fallback: string) returns (r: Result<SignedIn, string>)
      modifies this
      ensures reply.Threw? ==> r == Err(reply.reason) && token == old(token) && user == old(user)
      ensures reply.Refused? ==> r == Err(OrElse(reply.message, fallback)) && token == old(token) && user == old(user)
      ensures reply.Accepted? ==> r == Ok(SignedIn(UserFromReply(reply.user), reply.token))
                                  && token == Some(reply.token) && user == Some(UserFromReply(reply.user))
    {
      match reply {
        case Threw(reason) =>
          r := Err(reason);
        case Refused(message) =>
          r := Err(OrElse(message, fallback));
        case Accepted(t, u) =>
          var stored := UserFromReply(u);
          SetAuth(t, stored);
          r := Ok(SignedIn(stored, t));
      }
    }

    method Login(reply: AuthReply) returns (r: Result<SignedIn, string>)
      modifies this
      ensures reply.Threw? ==> r == Err(reply.reason) && token == old(token) && user == old(user)
      ensures reply.Refused? ==> r == Err(OrElse(reply.message, "Login failed")) && token == old(token) && user == old(user)
      ensures reply.Accepted? ==> r == Ok(SignedIn(UserFromReply(reply.user), reply.token))
                                  && token == Some(reply.token) && user == Some(UserFromReply(reply.user))
    {
      r := Complete(reply, "Login failed");
    }

    method Register(reply: AuthReply) returns (r: Result<SignedIn, string>)
      modifies this
      ensures reply.Threw? ==> r == Err(reply.reason) && token == old(token) && user == old(user)
      ensures reply.Refused? ==> r == Err(OrElse(reply.message, "Registration failed")) && token == old(token) && user == old(user)
      ensures reply.Accepted? ==> r == Ok(SignedIn(UserFromReply(reply.user), reply.token))
                                  && token == Some(reply.token) && user == Some(UserFromReply(reply.user))
    {
      r := Complete(reply, "Registration failed");
    }
  }
}
