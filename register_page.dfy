/** The e-mail registration page: its form state, the password checks run
    before the register thunk is dispatched, the payload sent, and the
    navigations to the dashboard. Toasts are recorded as the messages shown;
    the thunk's network call is not modelled, its outcome is an input. */
module RegisterPage {
  import opened Wrappers
  import opened AuthSlice

  /** The page's form. */
  datatype RegisterForm = RegisterForm(
    email: string,
    password: string,
    confirmPassword: string,
    name: string,
    phoneNumber: string,
    role: string)

  /** The fields `handleInputChange` is called with. */
  datatype Field = Email | Password | ConfirmPassword | Name | PhoneNumber | Role

  /** What `registerUser` is dispatched with. */
  datatype RegisterPayload = RegisterPayload(email: string, password: string, name: string, phoneNumber: string, role: string)

  /** A toast: an error or a success message. */
  datatype Toast = ErrorToast(message: string) | SuccessToast(message: string)

  const InitialForm: RegisterForm := RegisterForm("", "", "", "", "", "TENANT")

  function FieldValue(form: RegisterForm, field: Field): string {
    match field
    case Email => form.email
    case Password => form.password
    case ConfirmPassword => form.confirmPassword
    case Name => form.name
    case PhoneNumber => form.phoneNumber
    case Role => form.role
  }

  /** `{ ...prev, [field]: value }` */
  function WithField(form: RegisterForm, field: Field, value: string): RegisterForm {
    match field
    case Email => form.(email := value)
    case Password => form.(password := value)
    case ConfirmPassword => form.(confirmPassword := value)
    case Name => form.(name := value)
    case PhoneNumber => form.(phoneNumber := value)
    case Role => form.(role := value)
  }

  /** Changing a field sets that field and leaves every other field. */
  lemma WithFieldOnlyThatField(form: RegisterForm, field: Field, value: string)
    ensures FieldValue(WithField(form, field, value), field) == value
    ensures forall other :: other != field ==> FieldValue(WithField(form, field, value), other) == FieldValue(form, other)
  {
  }

  /** The checks before dispatching, in order: the two passwords must
      match, then the password must have at least 6 characters. The result
      is the message shown, or `None` when both pass. */
  function Validate(form: RegisterForm): Option<string> {
    if form.password != form.confirmPassword then Some("Passwords do not match")
    else if |form.password| < 6 then Some("Password must be at least 6 characters")
    else None
  }

  /** A form passes exactly when the passwords match and have at least six
      characters; a mismatch is reported before the length. */
  lemma ValidateCases(form: RegisterForm)
    ensures Validate(form).None? <==> form.password == form.confirmPassword && |form.password| >= 6
    ensures form.password != form.confirmPassword ==> Validate(form) == Some("Passwords do not match")
    ensures form.password == form.confirmPassword && |form.password| < 6
            ==> Validate(form) == Some("Password must be at least 6 characters")
  {
  }

  /** Six characters is enough and five is not. */
  lemma PasswordLengthBoundary(form: RegisterForm)
    requires form.password == form.confirmPassword
    ensures |form.password| == 6 ==> Validate(form).None?
    ensures |form.password| == 5 ==> Validate(form) == Some("Password must be at least 6 characters")
  {
  }

  /** The payload: the form without `confirmPassword`. */
  function Payload(form: RegisterForm): RegisterPayload {
    RegisterPayload(form.email, form.password, form.name, form.phoneNumber, form.role)
  }

  /** The payload carries every field but the confirmation, unchanged, so
      two forms that differ only in the confirmation send the same payload. */
  lemma PayloadDropsConfirmation(form: RegisterForm, confirmation: string)
    ensures Payload(form.(confirmPassword := confirmation)) == Payload(form)
    ensures Payload(form).email == form.email && Payload(form).password == form.password
    ensures Payload(form).name == form.name && Payload(form).phoneNumber == form.phoneNumber
    ensures Payload(form).role == form.role
  {
  }

  /** The effect on `isAuthenticated`: go to the dashboard when set. */
  function AuthenticatedNavigation(isAuthenticated: bool): Option<string> {
    if isAuthenticated then Some("/dashboard") else None
  }

  /** Which slice actions make the `isAuthenticated` effect redirect: from
      a signed-out state only storing a user does; the register thunk's
      pending, fulfilled and rejected actions never do (the redirect after a
      fulfilled registration is the handler's own), nor do clearing the
      user or logging out. */
  lemma SliceDrivesNavigation(s: AuthState, u: AuthUser, message: string)
    requires !s.isAuthenticated
    ensures AuthenticatedNavigation(Reduce(s, SetUser(Some(u))).isAuthenticated) == Some("/dashboard")
    ensures AuthenticatedNavigation(Reduce(s, RegisterPending).isAuthenticated).None?
    ensures AuthenticatedNavigation(Reduce(s, RegisterFulfilled).isAuthenticated).None?
    ensures AuthenticatedNavigation(Reduce(s, RegisterRejected(message)).isAuthenticated).None?
    ensures AuthenticatedNavigation(Reduce(s, SetUser(None)).isAuthenticated).None?
    ensures AuthenticatedNavigation(Reduce(s, LogoutFulfilled).isAuthenticated).None?
  {
  }

  /** The page's effect on the slice's `error`: when set it is shown and
      `clearError` is dispatched. */
  function ErrorEffect(s: AuthState): (Option<Toast>, AuthState) {
    if s.error.Some? && s.error.value != "" then (Some(ErrorToast(s.error.value)), Reduce(s, ClearError))
    else (None, s)
  }

  /** A rejected registration's message is shown once: the effect shows it
      and clears it, and after that the effect shows nothing. */
  lemma RejectionShownOnce(s: AuthState, message: string)
    requires message != ""
    ensures ErrorEffect(Reduce(s, RegisterRejected(message))).0 == Some(ErrorToast(message))
    ensures ErrorEffect(ErrorEffect(Reduce(s, RegisterRejected(message))).1).0.None?
    ensures ErrorEffect(Reduce(s, RegisterRejected(message))).1.user == s.user
  {
  }

  /** The page's state. */
  class RegisterPageState {
    var form: RegisterForm
    var dispatched: seq<RegisterPayload>
    var toasts: seq<Toast>
    var navigations: seq<string>

    constructor ()
      ensures form == InitialForm && dispatched == [] && toasts == [] && navigations == []
    {
      form := InitialForm;
      dispatched := [];
      toasts := [];
      navigations := [];
    }

    /** `handleInputChange(field, value)` */
    method HandleInputChange(field: Field, value: string)
      modifies this
      ensures form == WithField(old(form), field, value)
      ensures dispatched == old(dispatched) && toasts == old(toasts) && navigations == old(navigations)
    {
      form := WithField(form, field, value);
    }

    /** `handleEmailRegister`: a failed check shows its message and
      dispatches nothing; otherwise the payload is dispatched, and a
      fulfilled registration shows success and goes to the dashboard.
      `fulfilled` is what the thunk came to. */
    method HandleEmailRegister(fulfilled: bool)
      modifies this
      ensures form == old(form)
      ensures Validate(form).Some?
              ==> dispatched == old(dispatched) && navigations == old(navigations)
                  && toasts == old(toasts) + [ErrorToast(Validate(form).value)]
      ensures Validate(form).None? ==> dispatched == old(dispatched) + [Payload(form)]
      ensures Validate(form).None? && fulfilled
              ==> navigations == old(navigations) + ["/dashboard"]
                  && toasts == old(toasts) + [SuccessToast("Registration successful!")]
      ensures Validate(form).None? && !fulfilled ==> navigations == old(navigations) && toasts == old(toasts)
    {
      var problem := Validate(form);
      if problem.Some? {
        toasts := toasts + [ErrorToast(problem.value)];
        return;
      }
      dispatched := dispatched + [Payload(form)];
      if fulfilled {
        toasts := toasts + [SuccessToast("Registration successful!")];
        navigations := navigations + ["/dashboard"];
      }
    }
  }
}
