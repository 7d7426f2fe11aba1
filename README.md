# Authentication core of AltWEB-task, modelled in Dafny

The application lets users register with an email address, a password, a display name and an optional avatar. Users sign in with their password or with a Google ID token. The server side follows:

- a Mongoose `User` schema: validators, a pre-save hook that hashes a modified password, a JSON view without the password, and a JSON Web Token claim set;
- an Express router with three routes;
- a Multer storage engine that names uploaded images.

The client side is React and Redux:

- the registration and login forms validate their fields before submitting;
- thunks post the forms and keep the returned token in `localStorage`;
- the root component restores the session from the stored token at startup;
- an Axios interceptor adds the `Authorization` header.

The model follows the source's own form:

- Pure validators and projections are functions.
- The routes are methods over a `UserCollection` whose `users` map is keyed by email. Each is proved equal to an outcome function on values.
- Mongoose documents are a `UserDocument` class with a set of modified paths.
- The forms are classes holding `state` and `validationErrors`. Their `validateForm` fills the error map field by field.
- The browser session is a `Client` class holding `storage` (the page's `localStorage`) and `user`. The thunks, the startup effect and the interceptor are methods over it.
- The interceptor mutates a `RequestConfig` object.

Everything the code cannot see is a parameter:

- bcrypt's salt;
- the UUIDs from `crypto.randomUUID`;
- Google's verification result;
- whether the avatar download succeeds;
- the answer of each HTTP request;
- `JSON.parse`.

Modules, one per file:

- `Wrappers`, `Text`: JavaScript's `indexOf`, `split` and UTF-16 `length`.
- `Validation`: the email regular expression and the password rule.
- `Bcrypt`, `Uuid`, `Files`, `Multer`.
- `UserModel`, `UsersRouter`.
- `JsValues`, `Base64`: `atob` as the WHATWG forgiving-base64 decode, and the base64url encoding of section 5 of RFC 4648.
- `FormRules`, `RegisterForm`, `LoginForm`.
- `ClientSession`, `UsersThunks`, `AppStartup`, `AxiosApi`.

## Model

| member | source | states |
|---|---|---|
| Validation.EmailCheckMatchesRegex | api/models/User.js:22-25 | The four plain conditions hold exactly when `/^[^\s@]+@[^\s@]+\.[^\s@]+$/` matches. The conditions: no whitespace, exactly one `@`, not first, and a `.` inside the domain that is neither its first nor its last character. Both directions are proved. |
| Validation.AsciiLength | api/models/User.js:37-39 | For ASCII text, JavaScript's UTF-16 `length` equals the character count, so an ASCII password is strong iff it has at least eight characters, a letter and a digit. |
| Validation.PasswordExamples | api/models/User.js:37-39 | The strength rule (length ≥ 8, a letter, a digit) refuses `short1` and accepts `longenough1`. |
| Text.BeforeFirst | api/routers/users.js:26 | `email.split('@')[0]` is the prefix before the first `@`, or the whole string when there is none. |
| Text.Split | frontend/src/App.js:16 | `split` with a one-character separator gives at least one piece, and no piece holds the separator. |
| Text.JoinSplit | frontend/src/App.js:16 | Joining the pieces of a split with the separator gives back the string. |
| Text.SplitJoin | frontend/src/App.js:16 | Splitting a join of separator-free pieces gives back the pieces. |
| Text.JsLength | api/models/User.js:38 | `length` counts UTF-16 code units: between one and two per character. |
| Text.IndexOf | api/routers/users.js:26 | `indexOf` finds the first occurrence, or reports that there is none. |
| Bcrypt.Hash | api/models/User.js:59-60 | A hash is the `$2b$10$` prefix (work factor 10), then the 22-character salt, then the digest part. |
| Bcrypt.CompareOwnHash | api/models/User.js:72-74 | `compare` accepts a password against its own hash. |
| Bcrypt.CompareOtherFails | api/models/User.js:72-74 | `compare` refuses every other password. |
| Bcrypt.HashIsHash | api/models/User.js:59-60 | Every hash has the stored-hash shape. |
| UserModel.ValidationErrors | api/models/User.js:7-53 | Validation reports exactly the paths whose first failing validator exists, and only schema paths. |
| UserModel.NoErrorsIffValid | api/models/User.js:7-53 | A document has no validation error iff it meets all of: a valid email; uniqueness when the email is modified; a display name; a strong password; a role of `user` or `admin`; an avatar. |
| UserModel.UniquenessRule | api/models/User.js:14-19 | A well-formed email passes uniqueness when the email path is unmodified. Otherwise it passes iff no stored user has that email. The failure message is `This user is already registered`. |
| UserModel.RoleRule | api/models/User.js:42-47 | `role` passes iff it is `user` or `admin`. The default `user` passes. Other values get Mongoose's enum message. |
| UserModel.RequiredPaths | api/models/User.js:8-52 | An empty `email`, `displayName`, `password` or `avatar` reports Mongoose's `required` message. `googleId` never reports. |
| UserModel.PreSave | api/models/User.js:55-63 | The hook replaces the password with its hash exactly when `password` was modified. Nothing else changes. |
| UserModel.ToJsonDropsOnlyPassword | api/models/User.js:65-70 | Two records have the same JSON view iff they differ at most in `password`. |
| UserModel.TokenClaims | api/models/User.js:76-86 | The claim set is the record's `id`, `email` and `role`, with a `24h` lifetime. Two claim sets are equal iff those three fields are. |
| UserModel.HashIsStrong | api/models/User.js:37-40 | A stored hash itself passes the strength rule, so re-validating a stored record does not fail on its password. |
| UserModel.ResaveUnchanged | api/models/User.js:56-58 | Re-saving an unmodified stored record passes, changes nothing, and keeps the stored hash. |
| UserModel.SaveTwiceHashesOnce | api/models/User.js:55-63 | After a successful save, a second save stores the same record: the password is hashed once. |
| UserModel.SavePreservesWellFormed | api/models/User.js:55-63 | A save keeps the collection invariant. Each key is its record's valid email, with a display name, a bcrypt hash, a valid role and an avatar. |
| UserModel.UserCollection.FindOne | api/routers/users.js:54 | `findOne({email})` finds the record stored under that email, or none. |
| UserModel.UserDocument.HashPasswordIfModified | api/models/User.js:55-63 | The hook on the document's fields equals `PreSave` of the old document. |
| UserModel.UserDocument.Save | api/models/User.js:55-63 | `save()` validates, runs the hook, and stores under the email. Errors, collection and document equal `SaveOutcome` of the old state. |
| UsersRouter.CollectMessages | api/routers/users.js:36-39 | The `forEach` loop gives a map with the same keys as the validation error, each mapped to its message. |
| UsersRouter.Register | api/routers/users.js:15-44 | The registration route's answer and new collection equal `RegisterOutcome` of the old collection. |
| UsersRouter.RegisterRequiresFields | api/routers/users.js:19-21 | An empty or missing email or password answers 400 `Email and password are required` and stores nothing. |
| UsersRouter.RegisterDefaultName | api/routers/users.js:26 | Without a display name, the stored name is the non-empty local part before the one `@` of a valid email. |
| UsersRouter.RegisterAvatar | api/routers/users.js:27 | An upload's avatar is its `images/<uuid><ext>` filename, never the placeholder. Without an upload the avatar is `images/default-avatar.png`. |
| UsersRouter.RegisterValidationFailure | api/routers/users.js:35-41 | A registration that fails validation answers 400 with a message for every failing path and only those, and stores nothing. |
| UsersRouter.RegisterSuccess | api/routers/users.js:23-33 | A passing registration stores one new record under its email, with the password hashed and role `user`. It answers with that record's token and view. |
| UsersRouter.RegisterPreservesWellFormed | api/routers/users.js:15-44 | Registration keeps the collection invariant. |
| UsersRouter.RegisterTwiceRejected | api/routers/users.js:30-41 | Registering a stored email again answers 400 with the duplicate-email message on `email`, and changes nothing. |
| UsersRouter.RegisterThenLogin | api/routers/users.js:46-67 | After a registration, logging in with the same credentials gives the same answer, with the new record's id. |
| UsersRouter.Login | api/routers/users.js:46-71 | The login route's answer equals `LoginOutcome` of the collection, and the collection is unchanged. |
| UsersRouter.LoginFailuresIdentical | api/routers/users.js:56-64 | An unknown email and a wrong password get the identical 400 body `Invalid email or password`. |
| UsersRouter.LoginSucceedsIffMatch | api/routers/users.js:60-67 | Login succeeds iff the fields are present, the email is stored, and `compare` accepts the password. The answer is built from the found record. |
| UsersRouter.LoginWithStoredPassword | api/routers/users.js:60-67 | The password a record was hashed from always logs in. |
| UsersRouter.DownloadFile | api/routers/users.js:73-85 | The download records the written path exactly when the fetch succeeds. |
| UsersRouter.GoogleLogin | api/routers/users.js:87-135 | The Google route's answer, new collection and written files equal `GoogleOutcome` of the old collection. |
| UsersRouter.GoogleRefusals | api/routers/users.js:89-115 | The refusals come in check order: no payload, no email, and a new user without a picture. None downloads or stores. A rejected ID token goes to the error handler. |
| UsersRouter.GoogleProvisionsNewUser | api/routers/users.js:107-128 | A first Google login downloads to `<publicPath>/images/<id>.jpg`. On success it stores the avatar `images/<id>.jpg` with the same id, `googleId` from `sub`, and the hashed random password. |
| UsersRouter.GoogleExistingUser | api/routers/users.js:105-131 | A stored user is re-saved unchanged and answered with, without a download. |
| UsersRouter.GoogleSecondLoginSameId | api/routers/users.js:105-131 | A second Google login with the same assertion gives the first one's answer, with no new download. |
| UsersRouter.GooglePreservesWellFormed | api/routers/users.js:87-135 | The Google route keeps the collection invariant. |
| UsersRouter.GoogleLetterlessUuidFails | api/routers/users.js:119-128 | A random password UUID without a hex letter fails the strength rule, so the first login goes to the error handler and stores nothing. |
| UsersRouter.LetterlessUuidExists | api/routers/users.js:121 | Such a version-4 UUID exists. |
| UsersRouter.GoogleNamelessFails | api/routers/users.js:108-128 | A Google payload without `name` cannot be provisioned: `displayName` is required, and the route goes to the error handler. |
| Multer.ExtNameShape | api/multer.js:14 | `path.extname` is empty, or a `.` followed by a dot-free tail of the base name. It is empty iff the base name has no `.` after its first character, or is `..`. |
| Multer.StoredNameShape | api/multer.js:13-16 | The stored name begins with `images/`, has room for the 36-character UUID, and is never the default avatar's path. |
| Multer.Destination | api/multer.js:8-12 | The destination callback creates `<publicPath>/images` and answers `publicPath`. |
| Multer.Store | api/multer.js:8-16 | An upload is named `images/<uuid><ext>` and written at `<publicPath>/images/<uuid><ext>`, after its directory exists. |
| Multer.LastIndexOf | api/multer.js:14 | The position of the last `.` of a name, as `path.extname` uses it. |
| Multer.BaseName | api/multer.js:14 | The base name is the slash-free tail of the path with trailing `/` removed: either all of that path, or the part right after its last `/`. |
| Files.Disk.MakeDirectory | api/multer.js:10 | `mkdir` with `recursive: true` adds the directory whether or not it exists, and writes nothing. |
| JsValues.Prop | frontend/src/features/users/Register.js:98 | A property read throws exactly on `undefined`/`null`. It reads an own property of an object, and `undefined` otherwise. |
| Base64.StdValue | frontend/src/App.js:16 | A character's value in the standard alphabet gives back that character. |
| Base64.DecodeEncodeSextets | frontend/src/App.js:16 | Decoding the 6-bit values of an unpadded encoding gives back the bytes. |
| Base64.AtobStdEncode | frontend/src/App.js:16 | `atob` decodes every standard-alphabet encoding to the binary string of its bytes. |
| Base64.AtobRejectsUrlChars | frontend/src/App.js:16 | `atob` fails on any text holding `-` or `_`. |
| Base64.AtobRejectsLength | frontend/src/App.js:16 | `atob` fails on whitespace-free text whose length has the form 4n+1. |
| Base64.AtobUndefined | frontend/src/App.js:16 | `atob(undefined)` fails. |
| Base64.AtobOnUrlEncode | frontend/src/App.js:16 | `atob` decodes a base64url segment iff it holds no `-` or `_`, and then gives its bytes. |
| Base64.AtobUrlDecodesUrlEncode | frontend/src/App.js:16 | The corrected decode gives back the bytes of every base64url segment. |
| Base64.UrlCharFromByte | frontend/src/App.js:16 | A byte at an offset 3k+2 whose low six bits are 62 or 63 (`>`, `?`, `~`, DEL) puts a `-` or `_` into the base64url text. |
| Base64.TildesEncoding | frontend/src/App.js:16 | Three `~` bytes encode to `fn5-` in base64url and to `fn5+` in standard base64. |
| FormRules.EmailEntry | frontend/src/features/users/Register.js:48-52 | The email entry is absent iff the email passes the server's check. It is `Email is required` iff the email is empty, and otherwise `Please enter a valid email address`. |
| FormRules.PasswordEntry | frontend/src/features/users/Register.js:58-62 | The password entry is absent iff the password passes the server's strength rule. It is `Password is required` iff the password is empty, and otherwise the strength message. |
| FormRules.ClearOnlyNamedError | frontend/src/features/users/Register.js:41-43 | Clearing changes only the named entry, to `''`, and only when it held a message. |
| RegisterForm.SetText | frontend/src/features/users/Register.js:37-39 | An input change sets the named field and leaves the other fields and the avatar as they were. |
| RegisterForm.FirstFile | frontend/src/features/users/Register.js:85-90 | The avatar becomes the first selected file, or `null` when there is none. |
| RegisterForm.ErrorsEntries | frontend/src/features/users/Register.js:45-62 | The error map has an entry for each failing field and only those, each with its message, and no other keys. |
| RegisterForm.ErrorsEmptyIff | frontend/src/features/users/Register.js:45-66 | The map is empty iff the email is valid, the display name is non-empty, and the password is strong. |
| RegisterForm.FieldErrorPath | frontend/src/features/users/Register.js:96-102 | `getFieldError` gives `error.errors[field].message` when that path exists, and `undefined` otherwise. It never throws. |
| RegisterForm.ErrorJson | api/routers/users.js:20-40 | The 400 bodies are JSON objects whose only key is `error`. |
| RegisterForm.FieldErrorMissesServerErrors | frontend/src/features/users/Register.js:98 | As written, `getFieldError` gives `undefined` for every rejection body the server sends. |
| RegisterForm.DuplicateEmailShownOnlyWhenCorrected | frontend/src/features/users/Register.js:98 | For a duplicate email, the reader as written gives `undefined`. The corrected reader gives the server's message. |
| RegisterForm.ServerFieldErrorReadsMessages | api/routers/users.js:35-41 | The corrected reader gives each failing field's message and `undefined` for every other field. |
| RegisterForm.Form.InputChange | frontend/src/features/users/Register.js:37-44 | The handler sets the named field and clears that field's error if set. |
| RegisterForm.Form.FileInputChange | frontend/src/features/users/Register.js:85-90 | The handler sets the avatar to the first file or `null`, and keeps the errors. |
| RegisterForm.Form.ValidateForm | frontend/src/features/users/Register.js:45-66 | The handler stores the full error map. It answers true iff all three fields pass. |
| RegisterForm.Form.Submit | frontend/src/features/users/Register.js:72-83 | The state is dispatched iff `validateForm` passes. |
| LoginForm.SetText | frontend/src/features/users/Login.js:35-36 | An input change sets only the named field. |
| LoginForm.ErrorsEntries | frontend/src/features/users/Login.js:42-56 | Only `email` and `password` entries exist, never `displayName`. Each is present iff its field fails. |
| LoginForm.ErrorsEmptyIff | frontend/src/features/users/Login.js:42-59 | The map is empty iff the email is valid and the password is strong. |
| LoginForm.WeakPasswordBlocked | frontend/src/features/users/Login.js:51-55 | A valid email with a weak password makes the password entry the single error. |
| LoginForm.Form.InputChange | frontend/src/features/users/Login.js:35-41 | The handler sets only the named field and clears only that field's set error. |
| LoginForm.Form.ValidateForm | frontend/src/features/users/Login.js:42-59 | The handler stores the error map. It answers true iff both fields pass. |
| LoginForm.Form.Submit | frontend/src/features/users/Login.js:65-76 | The credentials are dispatched iff `validateForm` passes. |
| ClientSession.Client.Token | frontend/src/axiosApi.js:10 | `getItem('token')` gives the stored token, or `null` when the key is absent. |
| UsersThunks.RegisterEntriesFields | frontend/src/features/users/usersThunks.js:10-17 | The form holds `email`, `password` and `displayName` in that order, plus `avatar` only when one is present. The values are the state's, with the display name defaulting to the email's local part. |
| UsersThunks.ClientDefaultMatchesServer | frontend/src/features/users/usersThunks.js:13 | The server builds the same document from the posted form as from the state's own display name. The client's default agrees with the route's default. |
| UsersThunks.BuildRegisterForm | frontend/src/features/users/usersThunks.js:10-17 | The `append` calls produce `RegisterEntries` of the state. |
| UsersThunks.Names | frontend/src/features/users/usersThunks.js:10-17 | The entry names are listed in append order. |
| UsersThunks.Classify | frontend/src/features/users/usersThunks.js:25-30 | An Axios error with a 400 response rejects with the response body. Every other error, with or without a response, is rethrown unchanged. |
| UsersThunks.Settle | frontend/src/features/users/usersThunks.js:21-30 | On success the response token is stored and the data returned. On failure storage is untouched and the error classified. |
| UsersThunks.Register | frontend/src/features/users/usersThunks.js:6-32 | The thunk posts `RegisterEntries` and settles as `Settle` does. |
| UsersThunks.Login | frontend/src/features/users/usersThunks.js:34-54 | The request body is exactly the email and the password, and the thunk settles as `Settle` does. |
| UsersThunks.GoogleLogin | frontend/src/features/users/usersThunks.js:56-72 | The body is `{credential}`, and the thunk settles as `Settle` does. |
| UsersThunks.Logout | frontend/src/features/users/usersThunks.js:74-80 | The token key is removed and the user cleared. |
| AppStartup.PayloadSegment | frontend/src/App.js:16 | The decoded segment is the second `.`-separated piece, or `"undefined"` when there is none. |
| AppStartup.SessionUserOf | frontend/src/App.js:17-22 | A user is built iff the payload is an object whose `email` is a string. Its fields are `id`, `email`, `role`, and the email's local part as the display name. |
| AppStartup.Restore | frontend/src/App.js:15-26 | Once a token is present, startup either restores a user or clears the token. |
| AppStartup.PayloadSegmentOfJwt | frontend/src/App.js:16 | For a compact JSON Web Token, the second segment is the encoded claim set. |
| AppStartup.ClaimsMakeIssuedUser | frontend/src/App.js:17-22 | The claims of `generateJWT` give the user with that record's id, email, role and local part. |
| AppStartup.NoTokenUnchanged | frontend/src/App.js:13-14 | Startup changes nothing iff no non-empty token is stored. |
| AppStartup.NoSecondSegmentClears | frontend/src/App.js:16-26 | A token with no `.` is removed. |
| AppStartup.IssuedTokenAsWritten | frontend/src/App.js:16-26 | As written, a server-issued token whose claim bytes, read one per character, parse to its claims (an ASCII claim set) restores its user iff its encoded claims hold no `-` or `_`, and is removed otherwise. |
| AppStartup.UnluckyClaimsCleared | frontend/src/App.js:16-25 | A claim byte such as `~` at an offset 3k+2 gets the token removed as written. For an ASCII claim set the corrected decode restores the user. |
| AppStartup.IssuedTokenRestored | frontend/src/App.js:16-22 | With the corrected decode, every server-issued token with an ASCII claim set (bytes that read one per character as its claims) restores exactly its user. |
| AppStartup.Startup | frontend/src/App.js:12-28 | The effect leaves everything unchanged, sets the user, or removes the token, as `StartupOutcome` says. |
| AxiosApi.WithAuthorization | frontend/src/axiosApi.js:10-12 | With a non-empty token, `Authorization` is `Bearer <token>`. Without one the headers are unchanged. No other header is ever changed or added. |
| AxiosApi.Intercept | frontend/src/axiosApi.js:9-15 | The interceptor returns the same config object, with headers `WithAuthorization` of the old headers and the stored token. |

## Left out

- bcrypt's digest: `Bcrypt.Hash` is a stand-in that keeps the format (`$2b$`, cost 10, 22-character salt) and the facts the code relies on. It does not model the real cipher. Salt generation is a parameter.
- Bcrypt.Compare: bcrypt only reads the first 72 bytes of a password, and the stand-in compares the whole password.
- JSON Web Token signing: the token is its claim set plus the `24h` lifetime. The secret, the signature and expiry checks are not modelled. The server never verifies tokens.
- Google's `verifyIdToken` is a network call; its result is the `Verification` input.
- `crypto.randomUUID` values are parameters of type `Uuid`.
- `downloadFile` records the written path and takes success or failure as input. Stream piping and file contents are not modelled.
- Mongoose persistence, connections and `__v` are not modelled.
- The unique-index race between two concurrent registrations is not modelled. Saves are sequential.
- Mongoose casting of non-string request fields: every field is a string or absent.
- Files.PathJoin: concatenates with `/` and does not normalise, as `path.join` does for `..` or doubled separators.
- Multer's storage errors and the file's contents are not modelled.
- AxiosApi.WithAuthorization: Axios header names are case-insensitive, and the model treats `Authorization` as one exact key.
- JsValues.Prop: prototype properties (such as `length` of a string) read as `undefined`. No source read depends on them.
- `JSON.parse` is the partial-function parameter `parse`. Its success or failure is all the model uses.
- IssuedTokenAsWritten: the restored half is stated only for claim bytes that, read one per character, parse to the issued claims. `atob` gives one Latin-1 character per byte while the signing library writes UTF-8, so a non-ASCII email (allowed by the email pattern) would come back mangled. UTF-8 is not modelled.
- UnluckyClaimsCleared: its corrected-decode half has the same restriction to ASCII claim sets, for the same reason.
- IssuedTokenRestored: proved only for ASCII claim sets. With a non-ASCII email even the corrected decode restores a mangled email, because the claim text is read one byte per character.
- UsersThunks.AuthData: a successful answer always carries a string token, as every success reply of the server does.
- frontend/src/features/users/usersSlice.js is not part of this model. It is the reducer that turns thunk results into the `error` read by `getFieldError` and into the logged-in user. The model assumes the rejected value reaches `error` unchanged.
- The browser's own constraint validation (`required`, `type="email"`) runs before the login form's handler. It is not modelled: the form's `noValidate` is only on the registration form.
- Rendering, routing and navigation after success, the password-visibility toggle, the Google button, and Redux dispatch plumbing.
- api/index.js and api/config.js: Express, CORS, static file and environment wiring.

## Findings

| source | as written | input that shows it | evidently intended | confidence | as-written member | corrected member |
|---|---|---|---|---|---|---|
| frontend/src/App.js:16 | `atob(token.split('.')[1])` decodes the claim segment with the standard base64 alphabet. JSON Web Token segments are base64url (section 5 of RFC 4648), and any `-` or `_` in one makes `atob` throw. The `catch` then removes a valid token. | Claims whose JSON has `~`, `>` or `?` at a byte offset 3k+2, such as an email address with a `~`. Three `~` bytes encode to `fn5-`. | Map `-` to `+` and `_` to `/` before `atob`, so every issued token with an ASCII claim set restores its user. | medium; not executed | AppStartup.IssuedTokenAsWritten | AppStartup.IssuedTokenRestored |
| frontend/src/features/users/Register.js:98 | `getFieldError` reads `error.errors[field].message`. The registration route answers a validation failure with `{error: {<field>: <message>}}` (api/routers/users.js:40), so the server's field messages are never shown. | A duplicate registration gives `{error: {email: 'This user is already registered'}}`, and `getFieldError('email')` gives `undefined`. | Read `error.error[field]`. | medium, since the reducer that stores `error` is not part of this model; not executed | RegisterForm.FieldErrorMissesServerErrors | RegisterForm.ServerFieldErrorReadsMessages |
