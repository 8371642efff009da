/** The `RegisterForm` component: its form state, the emptiness check in
    `handleSubmit`, the call to the auth provider's `register`, and the
    error it shows. `register` is not modelled; what it came to is an input. */
module RegisterFormComponent {
  import opened Wrappers
  import opened JsText

  datatype FormData = FormData(email: string, password: string, name: string, phoneNumber: string, role: string)

  /** The inputs `handleChange` is called from, by their `name`. */
  datatype Field = Email | Password | Name | PhoneNumber | Role

  /** What `register(formData)` came to: success, or a thrown error with an
      optional message. */
  datatype RegisterOutcome = Registered | Failed(message: Option<string>)

  const InitialData: FormData := FormData("", "", "", "", "tenant")

  function FieldValue(data: FormData, field: Field): string {
    match field
    case Email => data.email
    case Password => data.password
    case Name => data.name
    case PhoneNumber => data.phoneNumber
    case Role => data.role
  }

  /** `{ ...formData, [e.target.name]: e.target.value }` */
  function WithField(data: FormData, field: Field, value: string): FormData {
    match field
    case Email => data.(email := value)
    case Password => data.(password := value)
    case Name => data.(name := value)
    case PhoneNumber => data.(phoneNumber := value)
    case Role => data.(role := value)
  }

  /** `!email || !password || !name || !phoneNumber` */
  predicate MissingField(data: FormData) {
    data.email == "" || data.password == "" || data.name == "" || data.phoneNumber == ""
  }

  /** The error a submit leaves: the emptiness message, nothing after a
      successful registration, or the thrown message (or the fallback). */
  function SubmitError(data: FormData, outcome: RegisterOutcome): string {
    if MissingField(data) then "Please fill in all fields"
    else match outcome
      case Registered => ""
      case Failed(message) => OrElse(message, "Registration failed")
  }

  /** Whether a submit calls `register`. */
  predicate SubmitCallsRegister(data: FormData) {
    !MissingField(data)
  }

  /** Changing a field sets that field and leaves every other field. */
  lemma WithFieldOnlyThatField(data: FormData, field: Field, value: string)
    ensures FieldValue(WithField(data, field, value), field) == value
    ensures forall other :: other != field ==> FieldValue(WithField(data, field, value), other) == FieldValue(data, other)
  {
  }

  /** The check asks for every field but the role: a form is incomplete
      exactly when one of the four text fields is empty, whatever the role. */
  lemma RoleNotChecked(data: FormData, role: string)
    ensures MissingField(data.(role := role)) == MissingField(data)
    ensures MissingField(data) <==> exists f :: f != Role && FieldValue(data, f) == ""
  {
    if MissingField(data) {
      if data.email == "" { assert FieldValue(data, Email) == ""; }
      else if data.password == "" { assert FieldValue(data, Password) == ""; }
      else if data.name == "" { assert FieldValue(data, Name) == ""; }
      else { assert FieldValue(data, PhoneNumber) == ""; }
    }
  }

  /** An incomplete form gets the fill-in message and no call; a complete
      one calls `register` and ends with no error after success, and with
      the thrown message or "Registration failed" after a failure. */
  lemma SubmitErrorCases(data: FormData, outcome: RegisterOutcome)
    ensures MissingField(data) ==> SubmitError(data, outcome) == "Please fill in all fields" && !SubmitCallsRegister(data)
    ensures !MissingField(data) ==> SubmitCallsRegister(data)
    ensures !MissingField(data) && outcome.Registered? ==> SubmitError(data, outcome) == ""
    ensures !MissingField(data) && outcome.Failed? && Truthy(outcome.message)
            ==> SubmitError(data, outcome) == outcome.message.value
    ensures !MissingField(data) && outcome.Failed? && !Truthy(outcome.message)
            ==> SubmitError(data, outcome) == "Registration failed"
    ensures SubmitError(data, outcome) == "" <==> !MissingField(data) && outcome.Registered?
  {
  }

  class RegisterFormState {
    var formData: FormData
    var isLoading: bool
    var error: string
    /** The forms `register` was called with, oldest first. */
    var registerCalls: seq<FormData>

    constructor ()
      ensures formData == InitialData && !isLoading && error == "" && registerCalls == []
    {
      formData := InitialData;
      isLoading := false;
      error := "";
      registerCalls := [];
    }

    /** `handleChange(e)` for the input named `field`. */
    method HandleChange(field: Field, value: string)
      modifies this
      ensures formData == WithField(old(formData), field, value)
      ensures isLoading == old(isLoading) && error == old(error) && registerCalls == old(registerCalls)
    {
      formData := WithField(formData, field, value);
    }

    /** `handleSubmit(e)`; `outcome` is what `register` came to when called. */
    method HandleSubmit(outcome: RegisterOutcome)
      modifies this
      ensures formData == old(formData)
      ensures error == SubmitError(formData, outcome)
      ensures registerCalls == old(registerCalls) + (if SubmitCallsRegister(formData) then [formData] else [])
      ensures !isLoading
    {
      isLoading := true;
      error := "";
      if MissingField(formData) {
        error := "Please fill in all fields";
        isLoading := false;
        return;
      }
      registerCalls := registerCalls + [formData];
      match outcome {
        case Registered =>
        case Failed(message) =>
          error := OrElse(message, "Registration failed");
      }
      isLoading := false;
    }
  }
}
