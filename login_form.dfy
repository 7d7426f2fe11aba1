/** The login form: email and password only, checked by the same rules as registration,
    and submitted only when both pass. */
module LoginForm {
  import opened Wrappers
  import opened Validation
  import opened FormRules

  datatype LoginState = LoginState(email: string, password: string)

  datatype TextField = EmailInput | PasswordInput

  function Name(f: TextField): string
  {
    match f
    case EmailInput => "email"
    case PasswordInput => "password"
  }

  function Text(s: LoginState, f: TextField): string
  {
    match f
    case EmailInput => s.email
    case PasswordInput => s.password
  }

  /** `{...prevState, [name]: value}`. */
  function SetText(s: LoginState, f: TextField, value: string): (r: LoginState)
    ensures Text(r, f) == value
    ensures forall g :: g != f ==> Text(r, g) == Text(s, g)
  {
    match f
    case EmailInput => s.(email := value)
    case PasswordInput => s.(password := value)
  }

  /** The error map of `validateForm`: both fields checked, each on its own. */
  function Errors(s: LoginState): map<string, string>
  {
    Entry(Entry(map[], "email", EmailEntry(s.email)), "password", PasswordEntry(s.password))
  }

  /** The entries are exactly the failing fields; no display-name entry is ever made. */
  lemma ErrorsEntries(s: LoginState)
    ensures Errors(s).Keys <= {"email", "password"}
    ensures "displayName" !in Errors(s)
    ensures "email" in Errors(s) <==> !IsValidEmail(s.email)
    ensures "email" in Errors(s) ==> Some(Errors(s)["email"]) == EmailEntry(s.email)
    ensures "password" in Errors(s) <==> !IsStrongPassword(s.password)
    ensures "password" in Errors(s) ==> Some(Errors(s)["password"]) == PasswordEntry(s.password)
  {
  }

  lemma ErrorsEmptyIff(s: LoginState)
    ensures Errors(s) == map[] <==> IsValidEmail(s.email) && IsStrongPassword(s.password)
  {
    ErrorsEntries(s);
    if Errors(s) == map[] {
      assert "email" !in Errors(s) && "password" !in Errors(s);
    }
  }

  /** The strength rule applies at login too: a well-formed email with a password the
      server would not have registered is stopped on the client. */
  lemma WeakPasswordBlocked(email: string, password: string)
    requires IsValidEmail(email) && !IsStrongPassword(password)
    ensures Errors(LoginState(email, password)) == map["password" := PasswordEntry(password).value]
  {
  }

  class Form {
    var state: LoginState
    var validationErrors: map<string, string>

    constructor()
      ensures state == LoginState("", "")
      ensures validationErrors == map[]
    {
      state := LoginState("", "");
      validationErrors := map[];
    }

    /** `inputChangeHandler`. */
    method InputChange(f: TextField, value: string)
      modifies this
      ensures state == SetText(old(state), f, value)
      ensures validationErrors == ClearError(old(validationErrors), Name(f))
    {
      state := SetText(state, f, value);
      if Name(f) in validationErrors && validationErrors[Name(f)] != "" {
        validationErrors := validationErrors[Name(f) := ""];
      }
    }

    /** `validateForm`. */
    method ValidateForm() returns (ok: bool)
      modifies this
      ensures state == old(state)
      ensures validationErrors == Errors(state)
      ensures ok <==> IsValidEmail(state.email) && IsStrongPassword(state.password)
    {
      var s := state;
      var errors: map<string, string> := map[];
      if s.email == "" {
        errors := errors["email" := EmailRequiredMessage];
      } else if !IsValidEmail(s.email) {
        errors := errors["email" := EmailFormatMessage];
      }
      assert errors == Entry(map[], "email", EmailEntry(s.email));
      if s.password == "" {
        errors := errors["password" := PasswordRequiredMessage];
      } else if !IsStrongPassword(s.password) {
        errors := errors["password" := WeakPasswordMessage];
      }
      validationErrors := errors;
      ErrorsEmptyIff(s);
      ok := errors == map[];
    }

    /** `submitFormHandler`: the credentials are dispatched only when `validateForm` passes. */
    method Submit() returns (dispatched: Option<LoginState>)
      modifies this
      ensures state == old(state)
      ensures validationErrors == Errors(state)
      ensures dispatched.Some? <==> IsValidEmail(state.email) && IsStrongPassword(state.password)
      ensures dispatched.Some? ==> dispatched.value == state
    {
      var ok := ValidateForm();
      if !ok {
        return None;
      }
      dispatched := Some(state);
    }
  }
}
