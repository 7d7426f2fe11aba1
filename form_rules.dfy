/** The field rules the registration and login forms share: the email and password
    checks the server applies too, and the messages the forms show. */
module FormRules {
  import opened Wrappers
  import opened Validation

  const EmailRequiredMessage := "Email is required"
  const DisplayNameRequiredMessage := "Display name is required"
  const PasswordRequiredMessage := "Password is required"
  const WeakPasswordMessage := "Password must be at least 8 characters with letters and numbers"

  /** The email entry of a form's errors: required first, then the format the server's
      regular expression accepts. */
  function EmailEntry(email: string): (r: Option<string>)
    ensures r.None? <==> IsValidEmail(email)
    ensures r == Some(EmailRequiredMessage) <==> email == ""
    ensures r.Some? && email != "" ==> r.value == EmailFormatMessage
  {
    if email == "" then Some(EmailRequiredMessage)
    else if !IsValidEmail(email) then Some(EmailFormatMessage)
    else None
  }

  /** The password entry: required first, then the server's strength rule. */
  function PasswordEntry(password: string): (r: Option<string>)
    ensures r.None? <==> IsStrongPassword(password)
    ensures r == Some(PasswordRequiredMessage) <==> password == ""
    ensures r.Some? && password != "" ==> r.value == WeakPasswordMessage
  {
    if password == "" then Some(PasswordRequiredMessage)
    else if !IsStrongPassword(password) then Some(WeakPasswordMessage)
    else None
  }

  /** `errors.<key> = message` when the field's rule gives one. */
  function Entry(errors: map<string, string>, key: string, message: Option<string>): map<string, string>
  {
    if message.Some? then errors[key := message.value] else errors
  }

  /** `if (errors[name]) errors = {...errors, [name]: ''}`: a set message is blanked. */
  function ClearError(errors: map<string, string>, name: string): map<string, string>
  {
    if name in errors && errors[name] != "" then errors[name := ""] else errors
  }

  /** Clearing changes at most the named entry, to `''`, and only when it held a message. */
  lemma ClearOnlyNamedError(errors: map<string, string>, name: string)
    ensures ClearError(errors, name).Keys == errors.Keys
    ensures forall k :: k in errors && k != name ==> ClearError(errors, name)[k] == errors[k]
    ensures name in errors ==> ClearError(errors, name)[name] == ""
    ensures name !in errors || errors[name] == "" ==> ClearError(errors, name) == errors
  {
  }
}
