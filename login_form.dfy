/** The `LoginForm` component: the emptiness check in `handleLogin`, the
    credentials sign-in request, and the mapping of its result to an error
    message or a navigation. `signIn` is not called: its reply is an input
    and the requests are recorded. */
module LoginForm {
  import opened Wrappers
  import opened JsText

  /** The request `signIn('credentials', { ... })` is made with. */
  datatype SignInRequest = SignInRequest(provider: string, email: string, password: string, role: string, redirect: bool)

  /** What `signIn` came to: no result, a result with an optional error,
      or a thrown error with an optional message. */
  datatype SignInReply = NoResult | SignInResult(error: Option<string>) | Threw(message: Option<string>)

  /** What one submit ends with: the error shown, and whether it goes to
      the dashboard. */
  datatype LoginOutcome = LoginOutcome(error: string, toDashboard: bool)

  /** `!email || !password` */
  predicate MissingCredentials(email: string, password: string) {
    email == "" || password == ""
  }

  /** The outcome of a submit. */
  function LoginResult(email: string, password: string, reply: SignInReply): LoginOutcome {
    if MissingCredentials(email, password) then LoginOutcome("Please enter both email and password", false)
    else match reply
      case NoResult => LoginOutcome("", true)
      case SignInResult(error) => if Truthy(error) then LoginOutcome("Invalid credentials", false) else LoginOutcome("", true)
      case Threw(message) => LoginOutcome(OrElse(message, "Login failed"), false)
  }

  /** The request a complete form sends. */
  function Request(email: string, password: string, role: string): SignInRequest {
    SignInRequest("credentials", email, password, role, false)
  }

  /** Missing credentials are reported without a sign-in; a result carrying
      an error always shows "Invalid credentials", whatever the error says;
      a thrown error shows its message or "Login failed"; and the form goes
      to the dashboard exactly when credentials were given and the sign-in
      neither threw nor reported an error. */
  lemma LoginResultCases(email: string, password: string, reply: SignInReply)
    ensures MissingCredentials(email, password)
            ==> LoginResult(email, password, reply) == LoginOutcome("Please enter both email and password", false)
    ensures !MissingCredentials(email, password) && reply.SignInResult? && Truthy(reply.error)
            ==> LoginResult(email, password, reply).error == "Invalid credentials"
    ensures !MissingCredentials(email, password) && reply.Threw?
            ==> LoginResult(email, password, reply).error == OrElse(reply.message, "Login failed")
    ensures LoginResult(email, password, reply).toDashboard
        <==> !MissingCredentials(email, password) && !reply.Threw? && !(reply.SignInResult? && Truthy(reply.error))
    ensures LoginResult(email, password, reply).toDashboard <==> LoginResult(email, password, reply).error == ""
  {
  }

  /** The message for a rejected sign-in does not depend on the reason. */
  lemma InvalidCredentialsHidesReason(email: string, password: string, e1: string, e2: string)
    requires e1 != "" && e2 != ""
    ensures LoginResult(email, password, SignInResult(Some(e1))) == LoginResult(email, password, SignInResult(Some(e2)))
  {
  }

  class LoginFormState {
    var email: string
    var password: string
    var role: string
    var isLoading: bool
    var error: string
    var signInRequests: seq<SignInRequest>
    var navigations: seq<string>

    constructor ()
      ensures email == "" && password == "" && role == "TENANT"
      ensures !isLoading && error == "" && signInRequests == [] && navigations == []
    {
      email := "";
      password := "";
      role := "TENANT";
      isLoading := false;
      error := "";
      signInRequests := [];
      navigations := [];
    }

    /** `handleLogin(e)`; `reply` is what `signIn` came to when called.
        The previous error plays no part in the new one. */
    method HandleLogin(reply: SignInReply)
      modifies this
      ensures email == old(email) && password == old(password) && role == old(role)
      ensures error == LoginResult(email, password, reply).error
      ensures !isLoading
      ensures signInRequests == old(signInRequests)
              + (if MissingCredentials(email, password) then [] else [Request(email, password, role)])
      ensures navigations == old(navigations)
              + (if LoginResult(email, password, reply).toDashboard then ["/dashboard"] else [])
    {
      isLoading := true;
      error := "";
      if email == "" || password == "" {
        error := "Please enter both email and password";
        isLoading := false;
        return;
      }
      signInRequests := signInRequests + [Request(email, password, role)];
      match reply {
        case NoResult =>
          navigations := navigations + ["/dashboard"];
        case SignInResult(err) =>
          if Truthy(err) {
            error := "Invalid credentials";
          } else {
            navigations := navigations + ["/dashboard"];
          }
        case Threw(message) =>
          error := OrElse(message, "Login failed");
      }
      isLoading := false;
    }
  }
}
