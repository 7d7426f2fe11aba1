/** The startup effect of the client's root component: a stored token's payload segment
    is decoded, parsed and turned into the session user; any failure on the way removes
    the token. JSON parsing is a partial function handed in. */
module AppStartup {
  import opened Wrappers
  import opened Text
  import opened JsValues
  import opened Base64
  import opened ClientSession
  import UserModel

  datatype Outcome = Unchanged | Restored(user: SessionUser) | Cleared

  /** `token.split('.')[1]` as `atob` receives it: without a second segment the argument
      is `undefined`, which `atob` reads as the text `"undefined"`. The contract is this
      definition; `PayloadSegmentOfJwt` builds on it. */
  function PayloadSegment(token: string): (seg: string)
    ensures |Split(token, '.')| >= 2 ==> seg == Split(token, '.')[1]
    ensures |Split(token, '.')| < 2 ==> seg == "undefined"
  {
    var parts := Split(token, '.');
    if |parts| >= 2 then parts[1] else "undefined"
  }

  /** The object given to `setUser`; `None` is the `TypeError` of reading `id` from a
      `null` payload or calling `split` on an `email` that is not a string. */
  function SessionUserOf(payload: JsValue): (r: Option<SessionUser>)
    ensures r.Some? <==> payload.Obj? && "email" in payload.fields && payload.fields["email"].Str?
    ensures r.Some? ==> r.value.email == payload.fields["email"].s
    ensures r.Some? ==> r.value.displayName == BeforeFirst(r.value.email, '@')
    ensures r.Some? ==> r.value.id == Prop(payload, "id").value && r.value.role == Prop(payload, "role").value
  {
    match Prop(payload, "email")
    case None => None
    case Some(email) =>
      if email.Str? then
        Some(SessionUser(Prop(payload, "id").value, email.s, Prop(payload, "role").value, BeforeFirst(email.s, '@')))
      else None
  }

  /** The `try` block after decoding: parse, then build the user. */
  function Restore(text: Option<string>, parse: string -> Option<JsValue>): (o: Outcome)
    ensures o != Unchanged
  {
    if text.None? then Cleared
    else match parse(text.value)
      case None => Cleared
      case Some(payload) =>
        match SessionUserOf(payload)
        case None => Cleared
        case Some(u) => Restored(u)
  }

  /** The effect as written, decoding with `atob`. */
  function StartupOutcome(token: Option<string>, parse: string -> Option<JsValue>): Outcome
  {
    if token.None? || token.value == "" then Unchanged
    else Restore(Atob(PayloadSegment(token.value)), parse)
  }

  /** The effect with the payload decoded as the base64url it is written in. */
  function CorrectedOutcome(token: Option<string>, parse: string -> Option<JsValue>): Outcome
  {
    if token.None? || token.value == "" then Unchanged
    else Restore(AtobUrl(PayloadSegment(token.value)), parse)
  }

  /** A compact JSON Web Token: header, claims and signature, each base64url-encoded. */
  function CompactJwt(header: seq<Byte>, claims: seq<Byte>, signature: seq<Byte>): string
  {
    Join([UrlEncode(header), UrlEncode(claims), UrlEncode(signature)], '.')
  }

  /** The parsed claims of a token the server signs: its claim set plus the issue and
      expiry times the signing library adds. */
  function ClaimsJson(t: UserModel.Token, issuedAt: int, expiresAt: int): JsValue
  {
    Obj(map["id" := Str(t.id), "email" := Str(t.email), "role" := Str(t.role), "iat" := Num(issuedAt), "exp" := Num(expiresAt)])
  }

  /** The session user a server-issued token stands for. */
  function IssuedUser(u: UserModel.User): SessionUser
  {
    SessionUser(Str(u.id), u.email, Str(u.role), BeforeFirst(u.email, '@'))
  }

  /** The segment `atob` receives is the token's encoded claims. */
  lemma PayloadSegmentOfJwt(header: seq<Byte>, claims: seq<Byte>, signature: seq<Byte>)
    ensures PayloadSegment(CompactJwt(header, claims, signature)) == UrlEncode(claims)
  {
    var parts := [UrlEncode(header), UrlEncode(claims), UrlEncode(signature)];
    assert forall k :: 0 <= k < |parts| ==> '.' !in parts[k];
    SplitJoin(parts, '.');
  }

  /** The claims of `GenerateJwt(u)` make exactly the user `IssuedUser(u)`. */
  lemma ClaimsMakeIssuedUser(u: UserModel.User, issuedAt: int, expiresAt: int)
    ensures SessionUserOf(ClaimsJson(UserModel.GenerateJwt(u), issuedAt, expiresAt)) == Some(IssuedUser(u))
  {
  }

  /** With no token, or an empty one, startup changes nothing. */
  lemma NoTokenUnchanged(token: Option<string>, parse: string -> Option<JsValue>)
    ensures StartupOutcome(token, parse) == Unchanged <==> token.None? || token.value == ""
    ensures CorrectedOutcome(token, parse) == Unchanged <==> token.None? || token.value == ""
  {
  }

  /** A token without a second segment sends `"undefined"` to `atob`, whose nine
      characters are a length it refuses, so the token is removed. */
  lemma NoSecondSegmentClears(token: string, parse: string -> Option<JsValue>)
    requires token != "" && '.' !in token
    ensures StartupOutcome(Some(token), parse) == Cleared
  {
    assert Split(token, '.') == [token];
    assert PayloadSegment(token) == "undefined";
    AtobUndefined();
  }

  /** As written: a token the server issued, whose claim bytes read one per character
      parse to its claims (an ASCII claim set), restores its user exactly when the encoded
      claims hold no `-` or `_`, and is removed otherwise. */
  lemma IssuedTokenAsWritten(u: UserModel.User, header: seq<Byte>, claims: seq<Byte>, signature: seq<Byte>,
                             issuedAt: int, expiresAt: int, parse: string -> Option<JsValue>)
    requires parse(BinaryString(claims)) == Some(ClaimsJson(UserModel.GenerateJwt(u), issuedAt, expiresAt))
    ensures var outcome := StartupOutcome(Some(CompactJwt(header, claims, signature)), parse);
      if '-' in UrlEncode(claims) || '_' in UrlEncode(claims) then outcome == Cleared
      else outcome == Restored(IssuedUser(u))
  {
    PayloadSegmentOfJwt(header, claims, signature);
    AtobOnUrlEncode(claims);
    ClaimsMakeIssuedUser(u, issuedAt, expiresAt);
  }

  /** As written: a claim set with `>`, `?` or `~` at an offset of the form 3k+2 (in an
      email address, say) loses the session on every reload, while the corrected decode
      restores it (for claim bytes that read one per character as the claims). */
  lemma UnluckyClaimsCleared(u: UserModel.User, header: seq<Byte>, claims: seq<Byte>, signature: seq<Byte>,
                             issuedAt: int, expiresAt: int, parse: string -> Option<JsValue>, k: nat)
    requires parse(BinaryString(claims)) == Some(ClaimsJson(UserModel.GenerateJwt(u), issuedAt, expiresAt))
    requires 3 * k + 2 < |claims| && claims[3 * k + 2] % 64 >= 62
    ensures StartupOutcome(Some(CompactJwt(header, claims, signature)), parse) == Cleared
    ensures CorrectedOutcome(Some(CompactJwt(header, claims, signature)), parse) == Restored(IssuedUser(u))
  {
    UrlCharFromByte(claims, k);
    IssuedTokenAsWritten(u, header, claims, signature, issuedAt, expiresAt, parse);
    IssuedTokenRestored(u, header, claims, signature, issuedAt, expiresAt, parse);
  }

  /** Corrected: every token the server issues whose claim bytes read one per character
      parse to its claims (an ASCII claim set) restores its user. */
  lemma IssuedTokenRestored(u: UserModel.User, header: seq<Byte>, claims: seq<Byte>, signature: seq<Byte>,
                            issuedAt: int, expiresAt: int, parse: string -> Option<JsValue>)
    requires parse(BinaryString(claims)) == Some(ClaimsJson(UserModel.GenerateJwt(u), issuedAt, expiresAt))
    ensures CorrectedOutcome(Some(CompactJwt(header, claims, signature)), parse) == Restored(IssuedUser(u))
  {
    PayloadSegmentOfJwt(header, claims, signature);
    AtobUrlDecodesUrlEncode(claims);
    ClaimsMakeIssuedUser(u, issuedAt, expiresAt);
  }

  /** The `useEffect` body: read the token, then set the user or remove the token. */
  method Startup(client: Client, parse: string -> Option<JsValue>)
    modifies client
    ensures var outcome := StartupOutcome(old(client.Token()), parse);
      match outcome
      case Unchanged => client.storage == old(client.storage) && client.user == old(client.user)
      case Restored(u) => client.storage == old(client.storage) && client.user == Some(u)
      case Cleared => client.storage == old(client.storage) - {TokenKey} && client.user == old(client.user)
  {
    var token := client.Token();
    if token.Some? && token.value != "" {
      var text := Atob(PayloadSegment(token.value));
      var payload := if text.Some? then parse(text.value) else None;
      var user := if payload.Some? then SessionUserOf(payload.value) else None;
      if user.Some? {
        client.user := user;
      } else {
        client.storage := client.storage - {TokenKey};
      }
    }
  }
}
