/** The three routes of the users router: registration (`POST /`), password login
    (`POST /auth`) and Google login (`POST /google`). Each route is a method over the
    user collection, proved equal to an outcome function on values; the lemmas below
    state what the routes promise in terms of those functions. */
module UsersRouter {
  import opened Wrappers
  import opened Text
  import opened Validation
  import opened Bcrypt
  import opened Uuid
  import opened Files
  import opened Multer
  import opened UserModel

  const MissingFieldsMessage := "Email and password are required"
  const InvalidCredentialsMessage := "Invalid email or password"
  const GoogleErrorMessage := "Google login error!"
  const NotEnoughDataMessage := "Not enough user data"
  const DefaultAvatar := "images/default-avatar.png"

  /** A JSON body the routes send. */
  datatype Body =
    | ErrorText(error: string)
    | ErrorFields(errors: map<string, string>)
    | Session(token: Token, user: UserView)

  /** An error handed to `next(error)`, which Express answers with a server error. */
  datatype Failure =
    | ValidationFailed(errors: map<string, ValidatorError>)
    | VerificationFailed
    | DownloadFailed

  datatype Response = Reply(status: nat, body: Body) | Next(failure: Failure)

  /** The multipart text fields of a registration; `None` is a field not sent. */
  datatype RegisterBody = RegisterBody(email: Option<string>, password: Option<string>, displayName: Option<string>)

  datatype LoginBody = LoginBody(email: Option<string>, password: Option<string>)

  /** The claims of a verified Google ID token that the route reads. */
  datatype GooglePayload = GooglePayload(email: Option<string>, sub: Option<string>, name: Option<string>, picture: Option<string>)

  /** What `client.verifyIdToken` gives: a rejection, or a ticket whose payload may be missing. */
  datatype Verification = Rejected | Verified(payload: Option<GooglePayload>)

  /** Whether fetching the remote picture succeeds. */
  datatype Fetch = Fetched | FetchFailed

  /** The `error` object the registration route builds from a validation error. */
  function Messages(errs: map<string, ValidatorError>): map<string, string>
  {
    map k | k in errs :: errs[k].message
  }

  /** The successful answer of all three routes: a token and the user's JSON view. */
  function SessionReply(u: User): Response
  {
    Reply(200, Session(GenerateJwt(u), ToJson(u)))
  }

  // ---------------------------------------------------------------- registration

  function AvatarFor(file: Option<StoredFile>): string
  {
    if file.Some? then file.value.filename else DefaultAvatar
  }

  /** The document the registration route builds: `displayName || email.split('@')[0]`
      and the uploaded file's name or the placeholder. */
  function RegistrationDoc(body: RegisterBody, file: Option<StoredFile>, id: string): Doc
    requires Present(body.email) && Present(body.password)
  {
    var email := body.email.value;
    var name := if Present(body.displayName) then body.displayName.value else BeforeFirst(email, '@');
    NewDoc(id, email, body.password.value, Some(name), AvatarFor(file), None)
  }

  function RegisterOutcome(users: map<string, User>, body: RegisterBody, file: Option<StoredFile>,
                           id: string, salt: Salt): (Response, map<string, User>)
  {
    if !Present(body.email) || !Present(body.password) then
      (Reply(400, ErrorText(MissingFieldsMessage)), users)
    else
      var (errs, users', saved) := SaveOutcome(users, RegistrationDoc(body, file, id), salt);
      if errs != map[] then (Reply(400, ErrorFields(Messages(errs))), users)
      else (SessionReply(saved.user), users')
  }

  /** The `forEach` of the registration route's `catch`: every path's message. */
  method CollectMessages(errs: map<string, ValidatorError>) returns (messages: map<string, string>)
    ensures messages.Keys == errs.Keys
    ensures forall k :: k in errs ==> messages[k] == errs[k].message
  {
    messages := map[];
    var keys := errs.Keys;
    while keys != {}
      invariant keys <= errs.Keys
      invariant messages.Keys == errs.Keys - keys
      invariant forall k :: k in messages ==> messages[k] == errs[k].message
      decreases keys
    {
      var k :| k in keys;
      messages := messages[k := errs[k].message];
      keys := keys - {k};
    }
  }

  /** `POST /` after the upload middleware has stored the optional `avatar` file. */
  method Register(db: UserCollection, body: RegisterBody, file: Option<StoredFile>, id: string, salt: Salt)
    returns (res: Response)
    modifies db
    ensures (res, db.users) == RegisterOutcome(old(db.users), body, file, id, salt)
  {
    if !Present(body.email) || !Present(body.password) {
      return Reply(400, ErrorText(MissingFieldsMessage));
    }
    var email := body.email.value;
    var name := if Present(body.displayName) then body.displayName.value else BeforeFirst(email, '@');
    var avatar := if file.Some? then file.value.filename else DefaultAvatar;
    var user := new UserDocument.Create(id, email, body.password.value, Some(name), avatar, None);
    var errors := user.Save(db, salt);
    if errors != map[] {
      var messages := CollectMessages(errors);
      assert messages == Messages(errors);
      return Reply(400, ErrorFields(messages));
    }
    return Reply(200, Session(GenerateJwt(user.user), ToJson(user.user)));
  }

  // ---------------------------------------------------------------- password login

  function LoginOutcome(users: map<string, User>, body: LoginBody): Response
  {
    if !Present(body.email) || !Present(body.password) then Reply(400, ErrorText(MissingFieldsMessage))
    else if body.email.value !in users then Reply(400, ErrorText(InvalidCredentialsMessage))
    else if !Compare(body.password.value, users[body.email.value].password) then
      Reply(400, ErrorText(InvalidCredentialsMessage))
    else SessionReply(users[body.email.value])
  }

  /** `POST /auth`. It reads the collection and changes nothing. */
  method Login(db: UserCollection, body: LoginBody) returns (res: Response)
    ensures res == LoginOutcome(db.users, body)
  {
    if !Present(body.email) || !Present(body.password) {
      return Reply(400, ErrorText(MissingFieldsMessage));
    }
    var found := db.FindOne(body.email.value);
    if found.None? {
      return Reply(400, ErrorText(InvalidCredentialsMessage));
    }
    var user := new UserDocument.Load(found.value);
    var isMatch := Compare(body.password.value, user.user.password);
    if !isMatch {
      return Reply(400, ErrorText(InvalidCredentialsMessage));
    }
    return Reply(200, Session(GenerateJwt(user.user), ToJson(user.user)));
  }

  // ---------------------------------------------------------------- Google login

  /** The avatar path of a provisioned Google user; the picture is always saved as `.jpg`. */
  function GoogleAvatar(imageId: Uuid): string
  {
    ImagesPrefix + imageId + ".jpg"
  }

  /** `path.join(config.publicPath, 'images', imageRandomId + '.jpg')`. */
  function GoogleImagePath(publicPath: string, imageId: Uuid): string
  {
    PathJoin(PathJoin(publicPath, "images"), imageId + ".jpg")
  }

  /** The route's response, the collection afterwards, and the files it wrote. */
  function GoogleOutcome(users: map<string, User>, v: Verification, imageId: Uuid, passwordId: Uuid,
                         id: string, salt: Salt, publicPath: string, fetch: Fetch)
    : (Response, map<string, User>, seq<string>)
  {
    if v.Rejected? then (Next(VerificationFailed), users, [])
    else if v.payload.None? then (Reply(400, ErrorText(GoogleErrorMessage)), users, [])
    else
      var p := v.payload.value;
      if !Present(p.email) then (Reply(400, ErrorText(NotEnoughDataMessage)), users, [])
      else if p.email.value in users then
        var (errs, users', saved) := SaveOutcome(users, Loaded(users[p.email.value]), salt);
        if errs != map[] then (Next(ValidationFailed(errs)), users, [])
        else (SessionReply(saved.user), users', [])
      else if !Present(p.picture) then (Reply(400, ErrorText(NotEnoughDataMessage)), users, [])
      else if fetch.FetchFailed? then (Next(DownloadFailed), users, [])
      else
        var d := NewDoc(id, p.email.value, passwordId, p.name, GoogleAvatar(imageId), p.sub);
        var (errs, users', saved) := SaveOutcome(users, d, salt);
        var written := [GoogleImagePath(publicPath, imageId)];
        if errs != map[] then (Next(ValidationFailed(errs)), users, written)
        else (SessionReply(saved.user), users', written)
  }

  /** `downloadFile(url, filename)`: the fetch, then the write of the file. */
  method DownloadFile(disk: Disk, url: string, filename: string, fetch: Fetch) returns (ok: bool)
    modifies disk
    ensures ok == fetch.Fetched?
    ensures disk.written == old(disk.written) + (if ok then [filename] else [])
    ensures disk.dirs == old(disk.dirs)
  {
    if fetch.FetchFailed? {
      return false;
    }
    disk.Write(filename);
    return true;
  }

  /** `POST /google`. `imageId` and `passwordId` are the two `crypto.randomUUID()` values. */
  method GoogleLogin(db: UserCollection, disk: Disk, v: Verification, imageId: Uuid, passwordId: Uuid,
                     id: string, salt: Salt, publicPath: string, fetch: Fetch) returns (res: Response)
    modifies db, disk
    ensures var (r, users', written) := GoogleOutcome(old(db.users), v, imageId, passwordId, id, salt, publicPath, fetch);
      res == r && db.users == users' && disk.written == old(disk.written) + written
    ensures disk.dirs == old(disk.dirs)
  {
    if v.Rejected? {
      return Next(VerificationFailed);
    }
    var payload := v.payload;
    if payload.None? {
      return Reply(400, ErrorText(GoogleErrorMessage));
    }
    var email := payload.value.email;
    var googleId := payload.value.sub;
    if !Present(email) {
      return Reply(400, ErrorText(NotEnoughDataMessage));
    }
    var found := db.FindOne(email.value);
    var user: UserDocument;
    if found.None? {
      var displayName := payload.value.name;
      var avatar := payload.value.picture;
      var imageRandomId := imageId;
      if !Present(avatar) {
        return Reply(400, ErrorText(NotEnoughDataMessage));
      }
      var imagePath := PathJoin(PathJoin(publicPath, "images"), imageRandomId + ".jpg");
      var ok := DownloadFile(disk, avatar.value, imagePath, fetch);
      if !ok {
        return Next(DownloadFailed);
      }
      user := new UserDocument.Create(id, email.value, passwordId, displayName, ImagesPrefix + imageRandomId + ".jpg", googleId);
    } else {
      user := new UserDocument.Load(found.value);
    }
    var errors := user.Save(db, salt);
    if errors != map[] {
      return Next(ValidationFailed(errors));
    }
    return Reply(200, Session(GenerateJwt(user.user), ToJson(user.user)));
  }

  // ---------------------------------------------------------------- properties

  /** A registration without an email or a password is refused, and nothing is stored. */
  lemma RegisterRequiresFields(users: map<string, User>, body: RegisterBody, file: Option<StoredFile>, id: string, salt: Salt)
    requires !Present(body.email) || !Present(body.password)
    ensures RegisterOutcome(users, body, file, id, salt) == (Reply(400, ErrorText(MissingFieldsMessage)), users)
  {
  }

  /** Without a display name, a valid email lends its local part: the text before its one
      `@`, which is never empty, so the display name is never what fails validation. */
  lemma RegisterDefaultName(body: RegisterBody, file: Option<StoredFile>, id: string)
    requires Present(body.email) && Present(body.password) && !Present(body.displayName)
    requires IsValidEmail(body.email.value)
    ensures var e := body.email.value;
      exists i :: 0 < i < |e| && e[i] == '@' && RegistrationDoc(body, file, id).user.displayName == Some(e[..i])
    ensures Present(RegistrationDoc(body, file, id).user.displayName)
  {
    var e := body.email.value;
    var i := IndexOf(e, '@').value;
    assert BeforeFirst(e, '@') == e[..i];
  }

  /** An uploaded avatar's path is the generated `images/<uuid><ext>` name, never the
      placeholder; without an upload the placeholder is used. */
  lemma RegisterAvatar(body: RegisterBody, disk: string, imageId: Uuid, originalName: string, id: string)
    requires Present(body.email) && Present(body.password)
    ensures var file := StoredFile(StoredName(imageId, originalName), PathJoin(disk, StoredName(imageId, originalName)));
      var a := RegistrationDoc(body, Some(file), id).user.avatar;
      a == StoredName(imageId, originalName) && a[..|ImagesPrefix|] == ImagesPrefix && a != DefaultAvatar
    ensures RegistrationDoc(body, None, id).user.avatar == DefaultAvatar
  {
    StoredNameShape(imageId, originalName);
  }

  /** A registration that fails validation answers 400 with one message for every failing
      path, and stores nothing. */
  lemma RegisterValidationFailure(users: map<string, User>, body: RegisterBody, file: Option<StoredFile>, id: string, salt: Salt)
    requires Present(body.email) && Present(body.password)
    requires !PassesValidation(users, RegistrationDoc(body, file, id))
    ensures var d := RegistrationDoc(body, file, id);
      var (res, users') := RegisterOutcome(users, body, file, id, salt);
      && users' == users
      && res.Reply? && res.status == 400 && res.body.ErrorFields?
      && (forall p :: p in ValidatedPaths ==> (p in res.body.errors <==> PathError(users, d, p).Some?))
      && (forall p :: p in res.body.errors ==> p in ValidatedPaths && res.body.errors[p] == PathError(users, d, p).value.message)
  {
    NoErrorsIffValid(users, RegistrationDoc(body, file, id));
  }

  /** A registration that passes validation stores exactly one new record, under its email,
      with the password hashed, and answers with that record's token and view. */
  lemma RegisterSuccess(users: map<string, User>, body: RegisterBody, file: Option<StoredFile>, id: string, salt: Salt)
    requires Present(body.email) && Present(body.password)
    requires PassesValidation(users, RegistrationDoc(body, file, id))
    ensures var stored := RegistrationDoc(body, file, id).user.(password := Hash(body.password.value, salt));
      && body.email.value !in users
      && RegisterOutcome(users, body, file, id, salt) == (SessionReply(stored), users[body.email.value := stored])
      && stored.id == id && stored.role == DefaultRole && stored.googleId == None
  {
    NoErrorsIffValid(users, RegistrationDoc(body, file, id));
  }

  lemma RegisterPreservesWellFormed(users: map<string, User>, body: RegisterBody, file: Option<StoredFile>, id: string, salt: Salt)
    requires WellFormed(users)
    ensures WellFormed(RegisterOutcome(users, body, file, id, salt).1)
  {
    if Present(body.email) && Present(body.password) {
      SavePreservesWellFormed(users, RegistrationDoc(body, file, id), salt);
    }
  }

  /** Registering an email a second time is refused on the `email` path, and nothing changes. */
  lemma RegisterTwiceRejected(users: map<string, User>, body: RegisterBody, file: Option<StoredFile>, id: string, salt: Salt,
                              body2: RegisterBody, file2: Option<StoredFile>, id2: string, salt2: Salt)
    requires RegisterOutcome(users, body, file, id, salt).0.Reply?
    requires RegisterOutcome(users, body, file, id, salt).0.status == 200
    requires body2.email == body.email && Present(body2.password)
    ensures var users1 := RegisterOutcome(users, body, file, id, salt).1;
      var (res2, users2) := RegisterOutcome(users1, body2, file2, id2, salt2);
      && users2 == users1
      && res2.Reply? && res2.status == 400 && res2.body.ErrorFields?
      && "email" in res2.body.errors && res2.body.errors["email"] == DuplicateEmailMessage
  {
    var d := RegistrationDoc(body, file, id);
    NoErrorsIffValid(users, d);
    var users1 := RegisterOutcome(users, body, file, id, salt).1;
    var d2 := RegistrationDoc(body2, file2, id2);
    assert PathError(users1, d2, "email") == Some(ValidatorError("user defined", DuplicateEmailMessage));
    NoErrorsIffValid(users1, d2);
  }

  /** After a successful registration, logging in with the same email and password succeeds,
      and the token carries the new record's id. */
  lemma RegisterThenLogin(users: map<string, User>, body: RegisterBody, file: Option<StoredFile>, id: string, salt: Salt)
    requires RegisterOutcome(users, body, file, id, salt).0.Reply?
    requires RegisterOutcome(users, body, file, id, salt).0.status == 200
    ensures var users1 := RegisterOutcome(users, body, file, id, salt).1;
      var res := LoginOutcome(users1, LoginBody(body.email, body.password));
      && res == RegisterOutcome(users, body, file, id, salt).0
      && res.Reply? && res.status == 200 && res.body.Session? && res.body.token.id == id
  {
    var d := RegistrationDoc(body, file, id);
    NoErrorsIffValid(users, d);
    CompareOwnHash(body.password.value, salt);
  }

  /** Enumeration resistance: an unknown email and a wrong password get the very same answer. */
  lemma LoginFailuresIdentical(users: map<string, User>, unknown: LoginBody, wrong: LoginBody)
    requires Present(unknown.email) && Present(unknown.password) && unknown.email.value !in users
    requires Present(wrong.email) && Present(wrong.password) && wrong.email.value in users
    requires !Compare(wrong.password.value, users[wrong.email.value].password)
    ensures LoginOutcome(users, unknown) == LoginOutcome(users, wrong) == Reply(400, ErrorText(InvalidCredentialsMessage))
  {
  }

  /** Login succeeds exactly when the stored hash matches the password, and its token and
      view are built from the found record. */
  lemma LoginSucceedsIffMatch(users: map<string, User>, body: LoginBody)
    ensures LoginOutcome(users, body).Reply? && LoginOutcome(users, body).status == 200
      <==> Present(body.email) && Present(body.password) && body.email.value in users
           && Compare(body.password.value, users[body.email.value].password)
    ensures LoginOutcome(users, body).Reply? && LoginOutcome(users, body).status == 200
      ==> LoginOutcome(users, body) == SessionReply(users[body.email.value])
  {
  }

  /** Login changes nothing, so it keeps the collection's invariant trivially; with a
      stored record's own password it always succeeds. */
  lemma LoginWithStoredPassword(users: map<string, User>, e: string, password: string, salt: Salt)
    requires e in users && e != "" && password != "" && users[e].password == Hash(password, salt)
    ensures LoginOutcome(users, LoginBody(Some(e), Some(password))) == SessionReply(users[e])
  {
    CompareOwnHash(password, salt);
  }

  /** The Google route's refusals, in the order it checks them; none stores or downloads. */
  lemma GoogleRefusals(users: map<string, User>, v: Verification, imageId: Uuid, passwordId: Uuid,
                       id: string, salt: Salt, publicPath: string, fetch: Fetch)
    ensures v == Verified(None) ==>
      GoogleOutcome(users, v, imageId, passwordId, id, salt, publicPath, fetch) == (Reply(400, ErrorText(GoogleErrorMessage)), users, [])
    ensures v.Verified? && v.payload.Some? && !Present(v.payload.value.email) ==>
      GoogleOutcome(users, v, imageId, passwordId, id, salt, publicPath, fetch) == (Reply(400, ErrorText(NotEnoughDataMessage)), users, [])
    ensures v.Verified? && v.payload.Some? && Present(v.payload.value.email) && v.payload.value.email.value !in users
            && !Present(v.payload.value.picture) ==>
      GoogleOutcome(users, v, imageId, passwordId, id, salt, publicPath, fetch) == (Reply(400, ErrorText(NotEnoughDataMessage)), users, [])
    ensures v.Rejected? ==>
      GoogleOutcome(users, v, imageId, passwordId, id, salt, publicPath, fetch) == (Next(VerificationFailed), users, [])
  {
  }

  /** A first Google login downloads the picture to `<publicPath>/images/<id>.jpg` and, if
      the new record passes validation, stores it with avatar `images/<id>.jpg` (the same
      id) and `googleId` taken from `sub`. */
  lemma GoogleProvisionsNewUser(users: map<string, User>, p: GooglePayload, imageId: Uuid, passwordId: Uuid,
                                id: string, salt: Salt, publicPath: string)
    requires Present(p.email) && p.email.value !in users && Present(p.picture)
    ensures var (res, users', written) := GoogleOutcome(users, Verified(Some(p)), imageId, passwordId, id, salt, publicPath, Fetched);
      var avatar := GoogleAvatar(imageId);
      && written == [PathJoin(publicPath, avatar)]
      && (res.Reply? ==>
            var stored := User(id, p.email.value, p.name, Hash(passwordId, salt), DefaultRole, avatar, p.sub);
            && res == SessionReply(stored)
            && users' == users[p.email.value := stored])
      && (res.Next? ==> users' == users)
  {
    var avatar := GoogleAvatar(imageId);
    assert PathJoin(publicPath, avatar) == GoogleImagePath(publicPath, imageId);
  }

  /** A stored user's Google login re-saves the record unchanged and answers with it. */
  lemma GoogleExistingUser(users: map<string, User>, p: GooglePayload, imageId: Uuid, passwordId: Uuid,
                           id: string, salt: Salt, publicPath: string, fetch: Fetch)
    requires WellFormed(users) && Present(p.email) && p.email.value in users
    ensures GoogleOutcome(users, Verified(Some(p)), imageId, passwordId, id, salt, publicPath, fetch)
            == (SessionReply(users[p.email.value]), users, [])
  {
    ResaveUnchanged(users, p.email.value, salt);
  }

  /** A second Google login with the same assertion finds the record the first one created
      and answers with the same id. */
  lemma GoogleSecondLoginSameId(users: map<string, User>, p: GooglePayload, imageId: Uuid, passwordId: Uuid,
                                id: string, salt: Salt, publicPath: string,
                                imageId2: Uuid, passwordId2: Uuid, id2: string, salt2: Salt, fetch2: Fetch)
    requires WellFormed(users)
    requires GoogleOutcome(users, Verified(Some(p)), imageId, passwordId, id, salt, publicPath, Fetched).0.Reply?
    requires GoogleOutcome(users, Verified(Some(p)), imageId, passwordId, id, salt, publicPath, Fetched).0.status == 200
    ensures var (res1, users1, _) := GoogleOutcome(users, Verified(Some(p)), imageId, passwordId, id, salt, publicPath, Fetched);
      var (res2, users2, written2) := GoogleOutcome(users1, Verified(Some(p)), imageId2, passwordId2, id2, salt2, publicPath, fetch2);
      && res2 == res1 && users2 == users1 && written2 == []
  {
    GooglePreservesWellFormed(users, Verified(Some(p)), imageId, passwordId, id, salt, publicPath, Fetched);
    var (res1, users1, _) := GoogleOutcome(users, Verified(Some(p)), imageId, passwordId, id, salt, publicPath, Fetched);
    var e := p.email.value;
    if e in users {
      GoogleExistingUser(users, p, imageId, passwordId, id, salt, publicPath, Fetched);
    } else {
      var d := NewDoc(id, e, passwordId, p.name, GoogleAvatar(imageId), p.sub);
      NoErrorsIffValid(users, d);
    }
    assert e in users1;
    GoogleExistingUser(users1, p, imageId2, passwordId2, id2, salt2, publicPath, fetch2);
  }

  lemma GooglePreservesWellFormed(users: map<string, User>, v: Verification, imageId: Uuid, passwordId: Uuid,
                                  id: string, salt: Salt, publicPath: string, fetch: Fetch)
    requires WellFormed(users)
    ensures WellFormed(GoogleOutcome(users, v, imageId, passwordId, id, salt, publicPath, fetch).1)
  {
    if v.Verified? && v.payload.Some? && Present(v.payload.value.email) {
      var p := v.payload.value;
      if p.email.value in users {
        ResaveUnchanged(users, p.email.value, salt);
      } else {
        SavePreservesWellFormed(users, NewDoc(id, p.email.value, passwordId, p.name, GoogleAvatar(imageId), p.sub), salt);
      }
    }
  }

  /** As written, the random password of a provisioned Google user must itself pass the
      strength rule: a UUID with no hex letter among its digits makes the first login fail
      with a server error instead of creating the account. */
  lemma GoogleLetterlessUuidFails(users: map<string, User>, p: GooglePayload, imageId: Uuid, passwordId: Uuid,
                                  id: string, salt: Salt, publicPath: string)
    requires Present(p.email) && p.email.value !in users && Present(p.picture)
    requires !HasAsciiLetter(passwordId)
    ensures var (res, users', _) := GoogleOutcome(users, Verified(Some(p)), imageId, passwordId, id, salt, publicPath, Fetched);
      res.Next? && res.failure.ValidationFailed? && "password" in res.failure.errors && users' == users
  {
    var d := NewDoc(id, p.email.value, passwordId, p.name, GoogleAvatar(imageId), p.sub);
    assert PathError(users, d, "password").Some?;
  }

  /** Such UUIDs exist: this one is a well-formed version-4 identifier without a letter. */
  lemma LetterlessUuidExists()
    ensures IsUuid("12345678-1234-4123-8123-123456789012")
    ensures !HasAsciiLetter("12345678-1234-4123-8123-123456789012")
  {
    var s := "12345678-1234-4123-8123-123456789012";
    assert forall k :: 0 <= k < |s| ==> s[k] == '-' || ('0' <= s[k] <= '9');
  }

  /** A Google account without a `name` claim cannot be provisioned either: the display
      name is required, and the failure goes to the error handler. */
  lemma GoogleNamelessFails(users: map<string, User>, p: GooglePayload, imageId: Uuid, passwordId: Uuid,
                            id: string, salt: Salt, publicPath: string)
    requires Present(p.email) && p.email.value !in users && Present(p.picture) && !Present(p.name)
    ensures var (res, users', _) := GoogleOutcome(users, Verified(Some(p)), imageId, passwordId, id, salt, publicPath, Fetched);
      res.Next? && res.failure.ValidationFailed? && "displayName" in res.failure.errors && users' == users
  {
    var d := NewDoc(id, p.email.value, passwordId, p.name, GoogleAvatar(imageId), p.sub);
    assert PathError(users, d, "displayName").Some?;
  }
}
