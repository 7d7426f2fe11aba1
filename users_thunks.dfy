/** The client's three request thunks and logout: the registration form data, the token
    kept in `localStorage` on success, and the split between a 400 rejection, whose body
    becomes the rejected value, and every other error, which is rethrown. The answer of
    each request is handed in. */
module UsersThunks {
  import opened Wrappers
  import opened Text
  import opened JsValues
  import opened ClientSession
  import RegisterForm
  import LoginForm
  import UsersRouter
  import UserModel
  import Multer

  datatype FormValue = TextValue(text: string) | FileValue(file: File)

  /** One `formData.append(name, value)`. */
  datatype FormEntry = FormEntry(name: string, value: FormValue)

  /** The session data of a successful answer. */
  datatype AuthData = AuthData(token: string, user: JsValue)

  datatype HttpResponse = HttpResponse(status: int, data: JsValue)

  /** An error thrown by the request: an Axios error with or without a response, or any
      other error. */
  datatype RequestError = AxiosError(response: Option<HttpResponse>) | OtherError(message: string)

  /** The answer of `axiosApi.post`. */
  datatype Answer = Answered(data: AuthData) | Failed(error: RequestError)

  /** How a thunk settles. */
  datatype Settled = Fulfilled(data: AuthData) | RejectedWithValue(payload: JsValue) | Thrown(error: RequestError)

  /** The JSON body of the login request. */
  datatype LoginRequest = LoginRequest(email: string, password: string)

  datatype GoogleRequest = GoogleRequest(credential: string)

  /** `displayName || email.split('@')[0]`. */
  function DisplayNameToSend(m: RegisterForm.RegisterState): string
  {
    if m.displayName != "" then m.displayName else BeforeFirst(m.email, '@')
  }

  function RegisterEntries(m: RegisterForm.RegisterState): seq<FormEntry>
  {
    [FormEntry("email", TextValue(m.email)), FormEntry("password", TextValue(m.password)),
     FormEntry("displayName", TextValue(DisplayNameToSend(m)))]
      + (if m.avatar.Some? then [FormEntry("avatar", FileValue(m.avatar.value))] else [])
  }

  function Names(form: seq<FormEntry>): (names: seq<string>)
    ensures |names| == |form| && forall k :: 0 <= k < |form| ==> names[k] == form[k].name
  {
    if form == [] then [] else [form[0].name] + Names(form[1..])
  }

  /** The first text value under `name`, as the server's multipart parser reads it. */
  function TextField(form: seq<FormEntry>, name: string): Option<string>
  {
    if form == [] then None
    else if form[0].name == name && form[0].value.TextValue? then Some(form[0].value.text)
    else TextField(form[1..], name)
  }

  /** The first file under `name`. */
  function FileField(form: seq<FormEntry>, name: string): Option<File>
  {
    if form == [] then None
    else if form[0].name == name && form[0].value.FileValue? then Some(form[0].value.file)
    else FileField(form[1..], name)
  }

  /** The form carries the email, the password and the display name or its default, and
      the avatar only when one was picked. */
  lemma RegisterEntriesFields(m: RegisterForm.RegisterState)
    ensures Names(RegisterEntries(m)) == ["email", "password", "displayName"] + (if m.avatar.Some? then ["avatar"] else [])
    ensures TextField(RegisterEntries(m), "email") == Some(m.email)
    ensures TextField(RegisterEntries(m), "password") == Some(m.password)
    ensures TextField(RegisterEntries(m), "displayName") == Some(DisplayNameToSend(m))
    ensures FileField(RegisterEntries(m), "avatar") == m.avatar
  {
    var form := RegisterEntries(m);
    var tail := if m.avatar.Some? then [FormEntry("avatar", FileValue(m.avatar.value))] else [];
    assert form[1..][1..][1..] == tail;
    assert TextField(form, "displayName") == TextField(form[1..], "displayName") == TextField(form[1..][1..], "displayName");
    assert FileField(form, "avatar") == FileField(form[1..], "avatar") == FileField(form[1..][1..], "avatar")
      == FileField(tail, "avatar");
  }

  /** The text fields the registration route reads from the form. */
  function ServerBody(form: seq<FormEntry>): UsersRouter.RegisterBody
  {
    UsersRouter.RegisterBody(TextField(form, "email"), TextField(form, "password"), TextField(form, "displayName"))
  }

  /** The client's default display name is the server's: the stored name is the same as
      if the form's own display name, empty or not, had been sent. */
  lemma ClientDefaultMatchesServer(m: RegisterForm.RegisterState, file: Option<Multer.StoredFile>, id: string)
    requires m.email != "" && m.password != ""
    ensures var sent := ServerBody(RegisterEntries(m));
      UserModel.Present(sent.email) && UserModel.Present(sent.password)
      && UsersRouter.RegistrationDoc(sent, file, id)
         == UsersRouter.RegistrationDoc(UsersRouter.RegisterBody(Some(m.email), Some(m.password), Some(m.displayName)), file, id)
  {
    RegisterEntriesFields(m);
  }

  /** `formData.append(...)` field by field. */
  method BuildRegisterForm(m: RegisterForm.RegisterState) returns (form: seq<FormEntry>)
    ensures form == RegisterEntries(m)
  {
    form := [];
    form := form + [FormEntry("email", TextValue(m.email))];
    form := form + [FormEntry("password", TextValue(m.password))];
    form := form + [FormEntry("displayName", TextValue(if m.displayName != "" then m.displayName else BeforeFirst(m.email, '@')))];
    if m.avatar.Some? {
      form := form + [FormEntry("avatar", FileValue(m.avatar.value))];
    }
  }

  /** The `catch` of each thunk. The contract is this definition; `Settle` builds on it. */
  function Classify(e: RequestError): (s: Settled)
    ensures s.RejectedWithValue? <==> e.AxiosError? && e.response.Some? && e.response.value.status == 400
    ensures s.RejectedWithValue? ==> s.payload == e.response.value.data
    ensures !s.RejectedWithValue? ==> s == Thrown(e)
  {
    if e.AxiosError? && e.response.Some? && e.response.value.status == 400 then RejectedWithValue(e.response.value.data)
    else Thrown(e)
  }

  /** What the three thunks share after the request: keep the token on success, classify
      the error otherwise. */
  method Settle(client: Client, answer: Answer) returns (s: Settled)
    modifies client
    ensures answer.Answered? ==> s == Fulfilled(answer.data) && client.storage == old(client.storage)[TokenKey := answer.data.token]
    ensures answer.Failed? ==> s == Classify(answer.error) && client.storage == old(client.storage)
    ensures client.user == old(client.user)
  {
    match answer
    case Answered(data) =>
      client.storage := client.storage[TokenKey := data.token];
      s := Fulfilled(data);
    case Failed(e) =>
      if e.AxiosError? && e.response.Some? && e.response.value.status == 400 {
        s := RejectedWithValue(e.response.value.data);
      } else {
        s := Thrown(e);
      }
  }

  /** The `register` thunk: the form it posts and how it settles. */
  method Register(client: Client, m: RegisterForm.RegisterState, answer: Answer) returns (form: seq<FormEntry>, s: Settled)
    modifies client
    ensures form == RegisterEntries(m)
    ensures answer.Answered? ==> s == Fulfilled(answer.data) && client.storage == old(client.storage)[TokenKey := answer.data.token]
    ensures answer.Failed? ==> s == Classify(answer.error) && client.storage == old(client.storage)
    ensures client.user == old(client.user)
  {
    form := BuildRegisterForm(m);
    s := Settle(client, answer);
  }

  /** The `login` thunk: the body holds the email and the password and nothing else. */
  method Login(client: Client, m: LoginForm.LoginState, answer: Answer) returns (request: LoginRequest, s: Settled)
    modifies client
    ensures request == LoginRequest(m.email, m.password)
    ensures answer.Answered? ==> s == Fulfilled(answer.data) && client.storage == old(client.storage)[TokenKey := answer.data.token]
    ensures answer.Failed? ==> s == Classify(answer.error) && client.storage == old(client.storage)
    ensures client.user == old(client.user)
  {
    request := LoginRequest(m.email, m.password);
    s := Settle(client, answer);
  }

  /** The `googleLogin` thunk. */
  method GoogleLogin(client: Client, credential: string, answer: Answer) returns (request: GoogleRequest, s: Settled)
    modifies client
    ensures request == GoogleRequest(credential)
    ensures answer.Answered? ==> s == Fulfilled(answer.data) && client.storage == old(client.storage)[TokenKey := answer.data.token]
    ensures answer.Failed? ==> s == Classify(answer.error) && client.storage == old(client.storage)
    ensures client.user == old(client.user)
  {
    request := GoogleRequest(credential);
    s := Settle(client, answer);
  }

  /** The `logout` thunk: the token goes first, then the user. */
  method Logout(client: Client)
    modifies client
    ensures client.storage == old(client.storage) - {TokenKey}
    ensures client.user == None
  {
    client.storage := client.storage - {TokenKey};
    client.user := None;
  }

}
