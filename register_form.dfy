/** The registration form: its state, the error map `validateForm` builds, the change
    handlers, the submit gate, and `getFieldError`, which reads the server's rejection. */
module RegisterForm {
  import opened Wrappers
  import opened Validation
  import opened JsValues
  import opened FormRules
  import UsersRouter
  import UserModel

  datatype RegisterState = RegisterState(email: string, password: string, displayName: string, avatar: Option<File>)

  /** The text inputs of the form, by their `name` attribute. */
  datatype TextField = EmailInput | PasswordInput | DisplayNameInput

  function Name(f: TextField): string
  {
    match f
    case EmailInput => "email"
    case PasswordInput => "password"
    case DisplayNameInput => "displayName"
  }

  function Text(s: RegisterState, f: TextField): string
  {
    match f
    case EmailInput => s.email
    case PasswordInput => s.password
    case DisplayNameInput => s.displayName
  }

  /** `{...prevState, [name]: value}`. */
  function SetText(s: RegisterState, f: TextField, value: string): (r: RegisterState)
    ensures Text(r, f) == value
    ensures forall g :: g != f ==> Text(r, g) == Text(s, g)
    ensures r.avatar == s.avatar
  {
    match f
    case EmailInput => s.(email := value)
    case PasswordInput => s.(password := value)
    case DisplayNameInput => s.(displayName := value)
  }

  /** `files && files[0] ? files[0] : null`; `None` for `files` is an input without a list.
      The contract is this definition; `Form.FileInputChange` builds on it. */
  function FirstFile(files: Option<seq<File>>): (r: Option<File>)
    ensures r.Some? <==> files.Some? && |files.value| > 0
    ensures r.Some? ==> r.value == files.value[0]
  {
    if files.Some? && |files.value| > 0 then Some(files.value[0]) else None
  }

  /** The error map of `validateForm`: every field is checked, none stops the others. */
  function Errors(s: RegisterState): map<string, string>
  {
    Entry(Entry(map[], "email", EmailEntry(s.email)), "displayName", NameEntry(s.displayName)) +
      Entry(map[], "password", PasswordEntry(s.password))
  }

  function NameEntry(displayName: string): (r: Option<string>)
    ensures r.None? <==> displayName != ""
  {
    if displayName == "" then Some(DisplayNameRequiredMessage) else None
  }

  /** Each field's entry depends on that field alone, and is there exactly when it fails. */
  lemma ErrorsEntries(s: RegisterState)
    ensures Errors(s).Keys <= {"email", "displayName", "password"}
    ensures "email" in Errors(s) <==> !IsValidEmail(s.email)
    ensures "email" in Errors(s) ==> Some(Errors(s)["email"]) == EmailEntry(s.email)
    ensures "displayName" in Errors(s) <==> s.displayName == ""
    ensures "displayName" in Errors(s) ==> Errors(s)["displayName"] == DisplayNameRequiredMessage
    ensures "password" in Errors(s) <==> !IsStrongPassword(s.password)
    ensures "password" in Errors(s) ==> Some(Errors(s)["password"]) == PasswordEntry(s.password)
  {
  }

  /** The form is valid exactly when all three fields pass. */
  lemma ErrorsEmptyIff(s: RegisterState)
    ensures Errors(s) == map[] <==> IsValidEmail(s.email) && s.displayName != "" && IsStrongPassword(s.password)
  {
    ErrorsEntries(s);
    if Errors(s) == map[] {
      assert "email" !in Errors(s) && "displayName" !in Errors(s) && "password" !in Errors(s);
    }
  }

  /** `error?.errors[fieldName].message` inside `try`: every `TypeError` reads as `undefined`. */
  function FieldError(error: JsValue, field: string): JsValue
  {
    if IsNullish(error) then Undefined
    else match Prop(error, "errors")
      case None => Undefined
      case Some(errors) =>
        match Prop(errors, field)
        case None => Undefined
        case Some(entry) =>
          match Prop(entry, "message")
          case None => Undefined
          case Some(message) => message
  }

  /** `getFieldError` answers the message at `error.errors[field].message` when that path
      exists and `undefined` otherwise; it never throws. */
  lemma FieldErrorPath(error: JsValue, field: string)
    ensures FieldError(error, field) != Undefined <==>
      error.Obj? && "errors" in error.fields && error.fields["errors"].Obj?
      && field in error.fields["errors"].fields && error.fields["errors"].fields[field].Obj?
      && "message" in error.fields["errors"].fields[field].fields
      && error.fields["errors"].fields[field].fields["message"] != Undefined
    ensures FieldError(error, field) != Undefined ==>
      FieldError(error, field) == error.fields["errors"].fields[field].fields["message"]
  {
  }

  /** The JSON of a body the server sends with a 400. */
  function ErrorJson(body: UsersRouter.Body): (j: JsValue)
    requires !body.Session?
    ensures j.Obj? && j.fields.Keys == {"error"}
  {
    match body
    case ErrorText(e) => Obj(map["error" := Str(e)])
    case ErrorFields(errors) => Obj(map["error" := Obj(map k | k in errors :: Str(errors[k]))])
  }

  /** As written, `getFieldError` finds nothing in any rejection the server sends: the
      server names its map `error` and its values are strings. */
  lemma FieldErrorMissesServerErrors(body: UsersRouter.Body, field: string)
    requires !body.Session?
    ensures FieldError(ErrorJson(body), field) == Undefined
  {
    FieldErrorPath(ErrorJson(body), field);
  }

  /** A duplicate registration's field message, shown by the corrected reader and lost by
      the one as written. */
  lemma DuplicateEmailShownOnlyWhenCorrected()
    ensures var body := UsersRouter.ErrorFields(map["email" := UserModel.DuplicateEmailMessage]);
      FieldError(ErrorJson(body), "email") == Undefined
      && ServerFieldError(ErrorJson(body), "email") == Str(UserModel.DuplicateEmailMessage)
  {
    var body := UsersRouter.ErrorFields(map["email" := UserModel.DuplicateEmailMessage]);
    FieldErrorMissesServerErrors(body, "email");
  }

  /** The corrected reader, `error?.error?.[fieldName]`, for the body the server sends. */
  function ServerFieldError(error: JsValue, field: string): JsValue
  {
    if IsNullish(error) then Undefined
    else match Prop(error, "error")
      case None => Undefined
      case Some(errors) =>
        if IsNullish(errors) then Undefined
        else match Prop(errors, field)
          case None => Undefined
          case Some(message) => message
  }

  /** The corrected reader gives each failing field's message and nothing for the others. */
  lemma ServerFieldErrorReadsMessages(body: UsersRouter.Body, field: string)
    requires !body.Session?
    ensures body.ErrorFields? && field in body.errors ==> ServerFieldError(ErrorJson(body), field) == Str(body.errors[field])
    ensures body.ErrorFields? && field !in body.errors ==> ServerFieldError(ErrorJson(body), field) == Undefined
    ensures body.ErrorText? ==> ServerFieldError(ErrorJson(body), field) == Undefined
  {
  }

  class Form {
    var state: RegisterState
    var validationErrors: map<string, string>

    constructor()
      ensures state == RegisterState("", "", "", None)
      ensures validationErrors == map[]
    {
      state := RegisterState("", "", "", None);
      validationErrors := map[];
    }

    /** `inputChangeHandler`. */
    method InputChange(f: TextField, value: string)
      modifies this
      ensures state == SetText(old(state), f, value)
      ensures validationErrors == ClearError(old(validationErrors), Name(f))
    {
      state := SetText(state, f, value);
      if Name(f) in validationErrors && validationErrors[Name(f)] != "" {
        validationErrors := validationErrors[Name(f) := ""];
      }
    }

    /** `fileInputChangeHandler` of the `avatar` input. */
    method FileInputChange(files: Option<seq<File>>)
      modifies this
      ensures state == old(state).(avatar := FirstFile(files))
      ensures validationErrors == old(validationErrors)
    {
      state := state.(avatar := FirstFile(files));
    }

    /** `validateForm`: fills the error map field by field, stores it, and answers whether
        it has no keys. */
    method ValidateForm() returns (ok: bool)
      modifies this
      ensures state == old(state)
      ensures validationErrors == Errors(state)
      ensures ok <==> IsValidEmail(state.email) && state.displayName != "" && IsStrongPassword(state.password)
    {
      var s := state;
      var errors: map<string, string> := map[];
      if s.email == "" {
        errors := errors["email" := EmailRequiredMessage];
      } else if !IsValidEmail(s.email) {
        errors := errors["email" := EmailFormatMessage];
      }
      assert errors == Entry(map[], "email", EmailEntry(s.email));
      if s.displayName == "" {
        errors := errors["displayName" := DisplayNameRequiredMessage];
      }
      assert errors == Entry(Entry(map[], "email", EmailEntry(s.email)), "displayName", NameEntry(s.displayName));
      var before := errors;
      if s.password == "" {
        errors := errors["password" := PasswordRequiredMessage];
      } else if !IsStrongPassword(s.password) {
        errors := errors["password" := WeakPasswordMessage];
      }
      assert errors == before + Entry(map[], "password", PasswordEntry(s.password));
      validationErrors := errors;
      ErrorsEmptyIff(s);
      ok := errors == map[];
    }

    /** `submitFormHandler`: the form's state is dispatched as the registration only when
        `validateForm` passes. */
    method Submit() returns (dispatched: Option<RegisterState>)
      modifies this
      ensures state == old(state)
      ensures validationErrors == Errors(state)
      ensures dispatched.Some? <==> IsValidEmail(state.email) && state.displayName != "" && IsStrongPassword(state.password)
      ensures dispatched.Some? ==> dispatched.value == state
    {
      var ok := ValidateForm();
      if !ok {
        return None;
      }
      dispatched := Some(state);
    }
  }
}
