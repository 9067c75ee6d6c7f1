/** Session tokens shared by the e-mail and the local sign-in
    (server/_core/emailAuth.ts and server/_core/localAuth.ts carry the same
    two functions). Signing and verification are an ideal HS256 oracle: a
    token verifies exactly under the secret it was signed with, before its
    expiry, and yields the payload it was signed with. */
module Session {
  import opened Wrappers
  import opened Schema
  import opened Tables
  import Strings = Text

  /** `ONE_YEAR_MS`. */
  const OneYearMs: int := 365 * 24 * 60 * 60 * 1000
  const DefaultAppId: string := "local-dev"

  /** The environment the sign-in code reads. */
  datatype Env = Env(appId: string, cookieSecret: string, ownerOpenId: string, oAuthServerUrl: string)

  /** A claim of a decoded payload: absent, a string, or some other JSON
      value. */
  datatype Claim = Missing | Str(s: string) | NonString

  datatype Payload = Payload(openId: Claim, appId: Claim, name: Claim)

  /** A signed token: its payload, its `exp` in seconds, and the secret it
      was signed with. */
  datatype Token = Token(payload: Payload, exp: int, key: string)

  /** The session cookie as the request carries it: no cookie, a value that
      is not a token signed here (the empty string included), or a token. */
  datatype Cookie = NoCookie | Garbled | Signed(token: Token)

  /** A verified session. */
  datatype SessionPayload = SessionPayload(openId: string, appId: string, name: string)

  predicate NonEmptyString(c: Claim)
  {
    c.Str? && c.s != []
  }

  /** `ENV.appId || "local-dev"`. */
  function AppIdOf(env: Env): (r: string)
    ensures r != []
    ensures env.appId != [] ==> r == env.appId
  {
    if env.appId == [] then DefaultAppId else env.appId
  }

  /** `Math.floor((issuedAt + (expiresInMs ?? ONE_YEAR_MS)) / 1000)`. */
  function ExpirationSeconds(issuedAt: int, expiresInMs: Option<int>): (r: int)
    ensures var end := issuedAt + expiresInMs.GetOr(OneYearMs);
      r * 1000 <= end < r * 1000 + 1000
  {
    (issuedAt + expiresInMs.GetOr(OneYearMs)) / 1000
  }

  /** `createSessionToken`: fails (throws) when no secret is configured;
      the name claim is `options.name || ""`. */
  function CreateSessionToken(env: Env, openId: string, issuedAt: int, expiresInMs: Option<int>, name: Option<string>): (r: Option<Token>)
    ensures r.None? <==> env.cookieSecret == []
    ensures r.Some? ==>
      r.value.payload == Payload(Str(openId), Str(AppIdOf(env)), Str(name.GetOr([])))
      && r.value.key == env.cookieSecret
      && r.value.exp == ExpirationSeconds(issuedAt, expiresInMs)
  {
    if env.cookieSecret == [] then None
    else Some(Token(Payload(Str(openId), Str(AppIdOf(env)), Str(name.GetOr([]))), ExpirationSeconds(issuedAt, expiresInMs), env.cookieSecret))
  }

  /** `jwtVerify` under the ideal oracle: right secret and `exp` still
      ahead of the current second. */
  predicate Verifies(t: Token, secret: string, nowSeconds: int)
  {
    t.key == secret && nowSeconds < t.exp
  }

  /** `verifySession`: null for a missing cookie, for any failure inside
      the `try` (no secret, a value that does not verify), and for a payload
      whose openId, appId or name is not a non-empty string. */
  function VerifySession(env: Env, cookie: Cookie, nowSeconds: int): (r: Option<SessionPayload>)
    ensures r.Some? <==>
      (cookie.Signed? && env.cookieSecret != [] && Verifies(cookie.token, env.cookieSecret, nowSeconds)
       && NonEmptyString(cookie.token.payload.openId)
       && NonEmptyString(cookie.token.payload.appId)
       && NonEmptyString(cookie.token.payload.name))
    ensures r.Some? ==>
      r.value.openId != [] && r.value.appId != [] && r.value.name != []
      && Str(r.value.openId) == cookie.token.payload.openId
      && Str(r.value.appId) == cookie.token.payload.appId
      && Str(r.value.name) == cookie.token.payload.name
  {
    match cookie
    case NoCookie => None
    case Garbled => None
    case Signed(t) =>
      if env.cookieSecret == [] || !Verifies(t, env.cookieSecret, nowSeconds) then None
      else if !NonEmptyString(t.payload.openId) || !NonEmptyString(t.payload.appId) || !NonEmptyString(t.payload.name) then None
      else Some(SessionPayload(t.payload.openId.s, t.payload.appId.s, t.payload.name.s))
  }

  /** The current second as `jose` computes it from the clock in
      milliseconds. */
  function NowSeconds(nowMs: int): int
  {
    nowMs / 1000
  }

  /** A token minted for a non-empty openId and name verifies, until its
      expiry, to exactly what it was minted with. */
  lemma SessionRoundTrip(env: Env, openId: string, issuedAt: int, expiresInMs: Option<int>, name: string, nowSeconds: int)
    requires env.cookieSecret != [] && openId != [] && name != []
    requires nowSeconds < ExpirationSeconds(issuedAt, expiresInMs)
    ensures var t := CreateSessionToken(env, openId, issuedAt, expiresInMs, Some(name));
      t.Some? && VerifySession(env, Signed(t.value), nowSeconds) == Some(SessionPayload(openId, AppIdOf(env), name))
  {
  }

  /** A token minted without a name, or with the empty name, carries the
      claim `""` and is refused by every later verification. */
  lemma EmptyNameNeverVerifies(env: Env, openId: string, issuedAt: int, expiresInMs: Option<int>, name: Option<string>, nowSeconds: int)
    requires name.GetOr([]) == []
    ensures var t := CreateSessionToken(env, openId, issuedAt, expiresInMs, name);
      t.Some? ==> VerifySession(env, Signed(t.value), nowSeconds).None?
  {
  }

  /** With the default lifetime a token signed at `issuedAt` (in ms) still
      verifies a second short of a year later and no longer a year and a second
      later. */
  lemma DefaultLifetime(env: Env, openId: string, issuedAt: int, name: string)
    requires env.cookieSecret != [] && openId != [] && name != []
    ensures var t := CreateSessionToken(env, openId, issuedAt, None, Some(name)).value;
      VerifySession(env, Signed(t), NowSeconds(issuedAt + OneYearMs - 1000)).Some?
      && VerifySession(env, Signed(t), NowSeconds(issuedAt + OneYearMs + 1000)).None?
  {
    var e := ExpirationSeconds(issuedAt, None);
    assert e * 1000 <= issuedAt + OneYearMs < e * 1000 + 1000;
    assert NowSeconds(issuedAt + OneYearMs - 1000) < e;
    assert NowSeconds(issuedAt + OneYearMs + 1000) >= e;
  }

  // ---------------------------------------------------------------------
  // What the sign-in handlers share besides the token
  // ---------------------------------------------------------------------

  /** A property of a JSON request body: absent, a string, or any other
      JSON value. */
  datatype BodyValue = NoValue | StringValue(s: string) | OtherValue

  /** `!v || typeof v !== "string" || !v.trim()` fails exactly when this
      holds not. */
  predicate Filled(v: BodyValue)
  {
    v.StringValue? && Strings.Trim(v.s) != []
  }

  /** The refusals of the sign-in handlers and of `authenticateRequest`. */
  datatype AuthError =
    | EmailRequired | PasswordTooShort | NameRequired | InvalidEmail | EmailTaken
    | PasswordRequired | WrongCredentials | NoPasswordHash
    | CreateAccountFailed | LoginFailed
    | InvalidSession | UserNotFound

  /** The HTTP status each refusal is answered with. */
  function Status(e: AuthError): (r: int)
    ensures 400 <= r < 600
  {
    match e
    case WrongCredentials | NoPasswordHash => 401
    case InvalidSession | UserNotFound => 403
    case CreateAccountFailed | LoginFailed => 500
    case _ => 400
  }

  function Message(e: AuthError): string
  {
    match e
    case EmailRequired => "Email é obrigatório"
    case PasswordTooShort => "Senha deve ter no mínimo 6 caracteres"
    case NameRequired => "Nome é obrigatório"
    case InvalidEmail => "Email inválido"
    case EmailTaken => "Email já cadastrado"
    case PasswordRequired => "Senha é obrigatória"
    case WrongCredentials => "Email ou senha incorretos"
    case NoPasswordHash => "Este email não possui senha cadastrada. Use outro método de login."
    case CreateAccountFailed => "Erro ao criar conta"
    case LoginFailed => "Erro ao fazer login"
    case InvalidSession => "Invalid session cookie"
    case UserNotFound => "User not found"
  }

  /** `upsertUser({ openId, lastSignedIn })`, run on every authenticated
      request and every login. */
  function SignInInput(openId: string, now: int): UserInput
  {
    UserInput(openId, Undefined, Undefined, Undefined, Undefined, Some(now), None)
  }

  /** On an existing row the sign-in upsert sets the sign-in time and
      nothing else, except that the owner's row becomes admin. */
  lemma SignInUpdate(users: seq<User>, nextId: int, openId: string, ownerOpenId: string, now: int, k: nat)
    requires IndexOfOpenId(users, openId) == Some(k)
    ensures Upserted(users, nextId, SignInInput(openId, now), TextFields, ownerOpenId, now) ==
      users[k := users[k].(lastSignedIn := now, role := if openId == ownerOpenId then AdminRole else users[k].role)]
  {
    var user := SignInInput(openId, now);
    var t := TextEntries(user, TextFields);
    assert forall c :: c !in t;
    assert t == map[];
    var m := SetEntries(user, TextFields, ownerOpenId);
    assert LastSignedInCol in m;
    var u := UpdateSetFor(user, TextFields, ownerOpenId, now);
    assert u == m;
    assert NameCol !in u && EmailCol !in u && LoginMethodCol !in u && PasswordHashCol !in u;
  }
}
