/** The `User` schema of the server: the fields and their validators, the pre-save hook
    that hashes a modified password, the JSON view without the password, and the claim
    set of the JSON Web Token. The collection of stored users is keyed by email. */
module UserModel {
  import opened Wrappers
  import opened Text
  import opened Validation
  import opened Bcrypt

  const DefaultRole := "user"
  const DuplicateEmailMessage := "This user is already registered"
  const TokenLifetime := "24h"

  /** The schema's paths that carry validators. */
  const ValidatedPaths: set<string> := {"email", "displayName", "password", "role", "avatar"}

  /** Mongoose's message for a failed `required` validator. */
  function RequiredMessage(path: string): string
  {
    "Path `" + path + "` is required."
  }

  /** Mongoose's message for a value outside an `enum`. */
  function EnumMessage(value: string, path: string): string
  {
    "`" + value + "` is not a valid enum value for path `" + path + "`."
  }

  predicate IsRole(r: string)
  {
    r == "user" || r == "admin"
  }

  /** The fields of a user document; `None` is a path left undefined. */
  datatype User = User(
    id: string,
    email: string,
    displayName: Option<string>,
    password: string,
    role: string,
    avatar: string,
    googleId: Option<string>)

  /** A document together with the paths changed since it was built or loaded. */
  datatype Doc = Doc(user: User, modified: set<string>)

  /** One failed validator of one path, as Mongoose reports it. */
  datatype ValidatorError = ValidatorError(kind: string, message: string)

  /** What `user.toJSON()` shows: every field but the password. */
  datatype UserView = UserView(
    id: string,
    email: string,
    displayName: Option<string>,
    role: string,
    avatar: string,
    googleId: Option<string>)

  /** The claim set `{id, email, role}` and the lifetime passed to `jwt.sign`. */
  datatype Token = Token(id: string, email: string, role: string, expiresIn: string)

  /** A string path value that Mongoose's `required` accepts. */
  predicate Present(v: Option<string>)
  {
    v.Some? && v.value != ""
  }

  /** The email path: `required`, then the pattern (synchronous, so it reports before
      the asynchronous uniqueness query), then uniqueness, which passes whenever the
      email path is unmodified. */
  function EmailError(users: map<string, User>, email: string, emailModified: bool): Option<ValidatorError>
  {
    if email == "" then Some(ValidatorError("required", RequiredMessage("email")))
    else if !IsValidEmail(email) then Some(ValidatorError("user defined", EmailFormatMessage))
    else if emailModified && email in users then Some(ValidatorError("user defined", DuplicateEmailMessage))
    else None
  }

  function PasswordError(password: string): Option<ValidatorError>
  {
    if password == "" then Some(ValidatorError("required", RequiredMessage("password")))
    else if !IsStrongPassword(password) then Some(ValidatorError("user defined", ServerPasswordMessage))
    else None
  }

  function RoleError(role: string): Option<ValidatorError>
  {
    if role == "" then Some(ValidatorError("required", RequiredMessage("role")))
    else if !IsRole(role) then Some(ValidatorError("enum", EnumMessage(role, "role")))
    else None
  }

  function RequiredError(path: string, v: Option<string>): Option<ValidatorError>
  {
    if Present(v) then None else Some(ValidatorError("required", RequiredMessage(path)))
  }

  /** The first failing validator of one path of `d`, if any. */
  function PathError(users: map<string, User>, d: Doc, path: string): Option<ValidatorError>
  {
    match path
    case "email" => EmailError(users, d.user.email, "email" in d.modified)
    case "displayName" => RequiredError("displayName", d.user.displayName)
    case "password" => PasswordError(d.user.password)
    case "role" => RoleError(d.user.role)
    case "avatar" => RequiredError("avatar", Some(d.user.avatar))
    case _ => None
  }

  /** `doc.validate()`: every path is checked, and each failing one is reported. */
  function ValidationErrors(users: map<string, User>, d: Doc): (errs: map<string, ValidatorError>)
    ensures errs.Keys <= ValidatedPaths
    ensures forall p :: p in ValidatedPaths ==> (p in errs <==> PathError(users, d, p).Some?)
  {
    map p | p in ValidatedPaths && PathError(users, d, p).Some? :: PathError(users, d, p).value
  }

  /** Uniqueness: a well-formed email passes when the email path is unmodified, and
      otherwise exactly when no stored user has it. */
  lemma UniquenessRule(users: map<string, User>, email: string, emailModified: bool)
    requires email != "" && IsValidEmail(email)
    ensures EmailError(users, email, emailModified).None? <==> !emailModified || email !in users
    ensures EmailError(users, email, emailModified).Some? ==>
      EmailError(users, email, emailModified).value.message == DuplicateEmailMessage
  {
  }

  /** `role` defaults to `'user'` and passes only as `'user'` or `'admin'`. */
  lemma RoleRule(role: string)
    ensures RoleError(role).None? <==> IsRole(role)
    ensures RoleError(DefaultRole).None?
    ensures role != "" && !IsRole(role) ==> RoleError(role) == Some(ValidatorError("enum", EnumMessage(role, "role")))
  {
  }

  /** The required paths report `required` when empty; `googleId` has no validator. */
  lemma RequiredPaths(users: map<string, User>, d: Doc)
    ensures d.user.email == "" ==> ValidationErrors(users, d)["email"] == ValidatorError("required", RequiredMessage("email"))
    ensures !Present(d.user.displayName) ==> ValidationErrors(users, d)["displayName"] == ValidatorError("required", RequiredMessage("displayName"))
    ensures d.user.password == "" ==> ValidationErrors(users, d)["password"] == ValidatorError("required", RequiredMessage("password"))
    ensures d.user.avatar == "" ==> ValidationErrors(users, d)["avatar"] == ValidatorError("required", RequiredMessage("avatar"))
    ensures "googleId" !in ValidationErrors(users, d)
  {
  }

  /** Every validator passes: the conditions, path by path. */
  predicate PassesValidation(users: map<string, User>, d: Doc)
  {
    && d.user.email != "" && IsValidEmail(d.user.email)
    && ("email" in d.modified ==> d.user.email !in users)
    && Present(d.user.displayName)
    && d.user.password != "" && IsStrongPassword(d.user.password)
    && IsRole(d.user.role)
    && d.user.avatar != ""
  }

  /** A document has no validation error exactly when it passes every validator. */
  lemma NoErrorsIffValid(users: map<string, User>, d: Doc)
    ensures ValidationErrors(users, d) == map[] <==> PassesValidation(users, d)
  {
    var errs := ValidationErrors(users, d);
    if errs == map[] {
      assert "email" !in errs && "displayName" !in errs && "password" !in errs;
      assert "role" !in errs && "avatar" !in errs;
    } else {
      var p :| p in errs;
    }
  }

  /** The pre-save hook: the password is replaced by its hash only when it was modified. */
  function PreSave(d: Doc, salt: Salt): (r: Doc)
    ensures r.modified == d.modified
    ensures r.user == d.user.(password := r.user.password)
    ensures r.user.password == if "password" in d.modified then Hash(d.user.password, salt) else d.user.password
  {
    if "password" !in d.modified then d
    else Doc(d.user.(password := Hash(d.user.password, salt)), d.modified)
  }

  /** `doc.save()`: validation first; on success the pre-save hook, the write keyed by
      email, and a document with no modified paths. */
  function SaveOutcome(users: map<string, User>, d: Doc, salt: Salt): (map<string, ValidatorError>, map<string, User>, Doc)
  {
    var errs := ValidationErrors(users, d);
    if errs != map[] then (errs, users, d)
    else
      var hashed := PreSave(d, salt).user;
      (map[], users[hashed.email := hashed], Doc(hashed, {}))
  }

  /** The `toJSON` transform: the password is deleted and nothing else changes. */
  function ToJson(u: User): UserView
  {
    UserView(u.id, u.email, u.displayName, u.role, u.avatar, u.googleId)
  }

  /** Two records have the same JSON view exactly when they agree on every field but the
      password: the view hides the password and keeps everything else. */
  lemma ToJsonDropsOnlyPassword(u: User, w: User)
    ensures ToJson(u) == ToJson(w) <==> u == w.(password := u.password)
  {
    if ToJson(u) == ToJson(w) {
      assert u.id == ToJson(u).id == ToJson(w).id == w.id;
    }
  }

  /** `user.generateJWT()`. */
  function GenerateJwt(u: User): Token
  {
    Token(u.id, u.email, u.role, TokenLifetime)
  }

  /** The token carries exactly the record's id, email and role, and expires after 24 hours. */
  lemma TokenClaims(u: User, w: User)
    ensures GenerateJwt(u).expiresIn == "24h"
    ensures GenerateJwt(u) == GenerateJwt(w) <==> (u.id, u.email, u.role) == (w.id, w.email, w.role)
  {
  }

  /** The stored collection: keyed by email, and every record is one that passed
      validation when it was inserted, with its password hashed. */
  ghost predicate WellFormed(users: map<string, User>)
  {
    forall e :: e in users ==> StoredRecord(users[e], e)
  }

  ghost predicate StoredRecord(u: User, key: string)
  {
    && u.email == key && key != "" && IsValidEmail(key)
    && Present(u.displayName) && IsHash(u.password) && IsRole(u.role) && u.avatar != ""
  }

  /** A bcrypt hash itself satisfies the strength rule (it is long and holds `b` and `2`),
      so re-validating a stored record does not fail on its password. */
  lemma HashIsStrong(h: string)
    requires IsHash(h)
    ensures h != "" && IsStrongPassword(h)
  {
    assert h[..|Prefix|] == Prefix;
    assert h[2] == 'b' && h[1] == '2';
    assert IsAsciiLetter(h[2]) && IsAsciiDigit(h[1]);
  }

  /** A document as `findOne` materialises it: nothing modified. */
  function Loaded(u: User): Doc
  {
    Doc(u, {})
  }

  /** Re-saving a stored record that nothing modified passes validation, leaves the
      collection as it was, and keeps the stored hash: it is never hashed twice. */
  lemma ResaveUnchanged(users: map<string, User>, e: string, salt: Salt)
    requires WellFormed(users) && e in users
    ensures SaveOutcome(users, Loaded(users[e]), salt) == (map[], users, Loaded(users[e]))
  {
    var u := users[e];
    HashIsStrong(u.password);
    NoErrorsIffValid(users, Loaded(u));
    assert users[u.email := u] == users;
  }

  /** Saving a document twice hashes its password once: after a successful save the
      second save stores the very same record. */
  lemma {:induction false} SaveTwiceHashesOnce(users: map<string, User>, d: Doc, s1: Salt, s2: Salt)
    requires WellFormed(users)
    requires "password" in d.modified || IsHash(d.user.password)
    requires SaveOutcome(users, d, s1).0 == map[]
    ensures var (_, users1, d1) := SaveOutcome(users, d, s1);
      && WellFormed(users1)
      && SaveOutcome(users1, d1, s2) == (map[], users1, d1)
      && d1.user.password == PreSave(d, s1).user.password
  {
    SavePreservesWellFormed(users, d, s1);
    var (_, users1, d1) := SaveOutcome(users, d, s1);
    assert users1[d1.user.email] == d1.user;
    ResaveUnchanged(users1, d1.user.email, s2);
  }

  /** A successful save keeps the collection well formed, provided the saved document was
      either built new (its password modified) or loaded from the collection. */
  lemma SavePreservesWellFormed(users: map<string, User>, d: Doc, salt: Salt)
    requires WellFormed(users)
    requires "password" in d.modified || IsHash(d.user.password)
    ensures WellFormed(SaveOutcome(users, d, salt).1)
  {
    var errs := ValidationErrors(users, d);
    if errs == map[] {
      NoErrorsIffValid(users, d);
      var hashed := PreSave(d, salt).user;
      if "password" in d.modified { HashIsHash(d.user.password, salt); }
      assert StoredRecord(hashed, hashed.email);
    }
  }

  /** A document `new User({...})` builds: `role` takes its default, and every path given a
      value counts as modified. */
  function NewDoc(id: string, email: string, password: string, displayName: Option<string>,
                  avatar: string, googleId: Option<string>): Doc
  {
    Doc(User(id, email, displayName, password, DefaultRole, avatar, googleId),
        {"email", "password", "avatar"}
        + (if displayName.Some? then {"displayName"} else {})
        + (if googleId.Some? then {"googleId"} else {}))
  }

  /** The collection, as the model `User` queries and writes it. */
  class UserCollection {
    var users: map<string, User>

    constructor (initial: map<string, User>)
      ensures users == initial
    {
      users := initial;
    }

    /** `User.findOne({email})`. The contract is this definition; the route handlers build on it. */
    function FindOne(email: string): (r: Option<User>)
      reads this
      ensures r.Some? <==> email in users
      ensures r.Some? ==> r.value == users[email]
    {
      if email in users then Some(users[email]) else None
    }
  }

  /** A user document: the fields the route reads and assigns, and its modified paths. */
  class UserDocument {
    var user: User
    var modified: set<string>

    function Value(): Doc
      reads this
    {
      Doc(user, modified)
    }

    /** `new User({...})`. */
    constructor Create(id: string, email: string, password: string, displayName: Option<string>,
                       avatar: string, googleId: Option<string>)
      ensures Value() == NewDoc(id, email, password, displayName, avatar, googleId)
    {
      var d := NewDoc(id, email, password, displayName, avatar, googleId);
      user := d.user;
      modified := d.modified;
    }

    /** The document `findOne` returns for a stored record. */
    constructor Load(u: User)
      ensures Value() == Loaded(u)
    {
      user := u;
      modified := {};
    }

    /** The pre-save hook, updating `this.password` in place. */
    method HashPasswordIfModified(salt: Salt)
      modifies this
      ensures Value() == PreSave(old(Value()), salt)
    {
      if "password" in modified {
        user := user.(password := Hash(user.password, salt));
      }
    }

    /** `await user.save()`: answers the validation errors it throws, none on success. */
    method Save(db: UserCollection, salt: Salt) returns (errors: map<string, ValidatorError>)
      modifies this, db
      ensures (errors, db.users, Value()) == SaveOutcome(old(db.users), old(Value()), salt)
    {
      errors := ValidationErrors(db.users, Value());
      if errors != map[] {
        return;
      }
      HashPasswordIfModified(salt);
      db.users := db.users[user.email := user];
      modified := {};
    }
  }
}
