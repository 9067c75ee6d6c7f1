/** E-mail and password sign-up, login and request authentication
    (server/_core/emailAuth.ts). Request bodies are `BodyValue`s, the
    clock is a parameter in milliseconds, and bcrypt is an ideal oracle. */
module EmailAuth {
  import opened Wrappers
  import opened Schema
  import opened Tables
  import opened Session
  import opened Store
  import Strings = Text

  // ---------------------------------------------------------------------
  // E-mail shape
  // ---------------------------------------------------------------------

  /** Index of the first occurrence of `c`. */
  function IndexOf(s: string, c: char): (r: Option<nat>)
    ensures r.None? <==> c !in s
    ensures r.Some? ==> r.value < |s| && s[r.value] == c && c !in s[..r.value]
  {
    if s == [] then None
    else if s[0] == c then Some(0)
    else
      var r := IndexOf(s[1..], c);
      assert s == [s[0]] + s[1..];
      if r.None? then None
      else
        assert s[..r.value + 1] == [s[0]] + s[1..][..r.value];
        Some(r.value + 1)
  }

  /** Characters matched by `[^\s@]`, throughout. */
  predicate NoSpaceOrAt(s: string)
  {
    forall k :: 0 <= k < |s| ==> !Strings.IsSpace(s[k]) && s[k] != '@'
  }

  /** The language of `/^[^\s@]+@[^\s@]+\.[^\s@]+$/`: three non-empty runs
      without whitespace or '@', joined by '@' and by '.'. */
  ghost predicate MatchesEmailPattern(s: string)
  {
    exists i, j :: 0 < i && i + 1 < j && j + 1 < |s| && s[i] == '@' && s[j] == '.'
      && NoSpaceOrAt(s[..i]) && NoSpaceOrAt(s[i + 1..j]) && NoSpaceOrAt(s[j + 1..])
  }

  /** The same test read off the string: no whitespace, a single '@' that
      is not first, and a '.' after it with a character on either side. */
  predicate IsEmail(s: string)
  {
    (forall k :: 0 <= k < |s| ==> !Strings.IsSpace(s[k]))
    && match IndexOf(s, '@')
       case None => false
       case Some(i) => 0 < i && i + 3 <= |s| && '@' !in s[i + 1..] && '.' in s[i + 2..|s| - 1]
  }

  lemma EmailPattern(s: string)
    ensures IsEmail(s) <==> MatchesEmailPattern(s)
  {
    if IsEmail(s) {
      EmailPatternSound(s);
    }
    if MatchesEmailPattern(s) {
      var i, j :| 0 < i && i + 1 < j && j + 1 < |s| && s[i] == '@' && s[j] == '.'
        && NoSpaceOrAt(s[..i]) && NoSpaceOrAt(s[i + 1..j]) && NoSpaceOrAt(s[j + 1..]);
      EmailPatternComplete(s, i, j);
    }
  }

  lemma EmailPatternSound(s: string)
    requires IsEmail(s)
    ensures MatchesEmailPattern(s)
  {
    var i := IndexOf(s, '@').value;
    var tail := s[i + 2..|s| - 1];
    var m :| 0 <= m < |tail| && tail[m] == '.';
    var j := i + 2 + m;
    assert s[j] == '.';
    var after := s[i + 1..];
    var left, mid, right := s[..i], s[i + 1..j], s[j + 1..];
    assert NoSpaceOrAt(left);
    assert NoSpaceOrAt(mid) by {
      forall k | 0 <= k < |mid| ensures !Strings.IsSpace(mid[k]) && mid[k] != '@' {
        assert mid[k] == after[k] == s[i + 1 + k];
      }
    }
    assert NoSpaceOrAt(right) by {
      forall k | 0 <= k < |right| ensures !Strings.IsSpace(right[k]) && right[k] != '@' {
        assert right[k] == after[j - i + k] == s[j + 1 + k];
      }
    }
  }

  lemma EmailPatternComplete(s: string, i: int, j: int)
    requires 0 < i && i + 1 < j && j + 1 < |s| && s[i] == '@' && s[j] == '.'
    requires NoSpaceOrAt(s[..i]) && NoSpaceOrAt(s[i + 1..j]) && NoSpaceOrAt(s[j + 1..])
    ensures IsEmail(s)
  {
    var left, mid, right := s[..i], s[i + 1..j], s[j + 1..];
    forall k | 0 <= k < |s| ensures !Strings.IsSpace(s[k]) && (k != i ==> s[k] != '@')
    {
      if k < i {
        assert left[k] == s[k];
      } else if i < k < j {
        assert mid[k - i - 1] == s[k];
      } else if j < k {
        assert right[k - j - 1] == s[k];
      }
    }
    var a := IndexOf(s, '@');
    assert '@' in s;
    assert a == Some(i);
    var after := s[i + 1..];
    assert '@' !in after by {
      forall k | 0 <= k < |after| ensures after[k] != '@' {
        assert after[k] == s[i + 1 + k];
      }
    }
    var tail := s[i + 2..|s| - 1];
    assert tail[j - i - 2] == '.';
  }

  // ---------------------------------------------------------------------
  // Derived keys and the password oracle
  // ---------------------------------------------------------------------

  const OpenIdPrefix: string := "email_"
  const HashPrefix: string := "$2b$10$"
  const EmailMethod: string := "email"

  /** `email.toLowerCase().trim()`: the stored e-mail. */
  function EmailKey(email: string): string
  {
    Strings.Trim(Strings.ToLower(email))
  }

  /** `generateOpenIdFromEmail`. */
  function OpenIdFromEmail(email: string): string
  {
    OpenIdPrefix + Strings.Trim(Strings.ToLower(email))
  }

  /** The openId of a sign-up is "email_" followed by the stored e-mail,
      which is the trimmed address in lower case. */
  lemma SignUpOpenId(email: string)
    ensures OpenIdFromEmail(EmailKey(email)) == OpenIdPrefix + EmailKey(email)
    ensures EmailKey(email) == Strings.ToLower(Strings.Trim(email))
  {
    var k := EmailKey(email);
    Strings.TrimToLower(email);
    Strings.ToLowerIdempotent(Strings.Trim(email));
    Strings.TrimIdempotent(Strings.ToLower(email));
  }

  /** `bcrypt.hash`, modelled as an injective tagging (salt left out). */
  function PasswordHash(password: string): string
  {
    HashPrefix + password
  }

  /** `bcrypt.compare`. */
  predicate ComparePassword(password: string, hash: string)
  {
    hash == PasswordHash(password)
  }

  lemma CompareHashed(password: string, other: string)
    ensures ComparePassword(other, PasswordHash(password)) <==> other == password
  {
    if ComparePassword(other, PasswordHash(password)) {
      assert PasswordHash(other)[7..] == other;
      assert PasswordHash(password)[7..] == password;
    }
  }

  /** `getUserByEmail`: the first row with that stored e-mail. */
  function UserByEmail(users: seq<User>, email: string): (r: Option<User>)
    ensures r.None? <==> forall k :: 0 <= k < |users| ==> users[k].email != Some(email)
    ensures r.Some? ==>
      (exists k :: 0 <= k < |users| && users[k] == r.value && r.value.email == Some(email)
         && forall p :: 0 <= p < k ==> users[p].email != Some(email))
  {
    if users == [] then None
    else if users[0].email == Some(email) then Some(users[0])
    else
      var r := UserByEmail(users[1..], email);
      assert forall k :: 1 <= k < |users| ==> users[k] == users[1..][k - 1];
      r
  }

  /** The only row with an e-mail is the one the lookup finds. */
  lemma UserByEmailUnique(users: seq<User>, email: string, k: nat)
    requires k < |users| && users[k].email == Some(email)
    requires forall p :: 0 <= p < |users| && p != k ==> users[p].email != Some(email)
    ensures UserByEmail(users, email) == Some(users[k])
  {
  }

  // ---------------------------------------------------------------------
  // handleRegister
  // ---------------------------------------------------------------------

  predicate LongEnough(password: BodyValue)
  {
    password.StringValue? && |password.s| >= 6
  }

  /** The checks `handleRegister` makes before the store is consulted,
      in their order; the first failure is the answer. */
  function RegisterCheck(email: BodyValue, password: BodyValue, name: BodyValue): (r: Result<(), AuthError>)
    ensures r == Err(EmailRequired) <==> !Filled(email)
    ensures r == Err(PasswordTooShort) <==> Filled(email) && !LongEnough(password)
    ensures r == Err(NameRequired) <==> Filled(email) && LongEnough(password) && !Filled(name)
    ensures r == Err(InvalidEmail) <==>
      Filled(email) && LongEnough(password) && Filled(name) && !MatchesEmailPattern(Strings.Trim(email.s))
    ensures r.Ok? <==>
      Filled(email) && LongEnough(password) && Filled(name) && MatchesEmailPattern(Strings.Trim(email.s))
  {
    if !Filled(email) then Err(EmailRequired)
    else if !LongEnough(password) then Err(PasswordTooShort)
    else if !Filled(name) then Err(NameRequired)
    else
      EmailPattern(Strings.Trim(email.s));
      if !IsEmail(Strings.Trim(email.s)) then Err(InvalidEmail)
      else Ok(())
  }

  /** The row a sign-up asks `upsertUser` for. */
  function RegisterInput(email: string, name: string, password: string, now: int): UserInput
  {
    UserInput(OpenIdFromEmail(EmailKey(email)), Given(Strings.Trim(name)), Given(EmailKey(email)),
              Given(EmailMethod), Given(PasswordHash(password)), Some(now), None)
  }

  /** What a successful sign-up or login answers with: the user and the
      session cookie. */
  datatype SignedIn = SignedIn(openId: string, name: Option<string>, email: Option<string>, token: Token)

  /** `db.getUserByEmail`: no user without a connection. */
  function GetUserByEmail(store: SalesStore, email: string): (r: Option<User>)
    reads store
    ensures !store.available ==> r.None?
  {
    if store.available then UserByEmail(store.users, email) else None
  }

  /** `handleRegister`: the ordered checks, then the taken-address check,
      then the upsert, then the session token (whose failure, after the
      row was written, answers 500). */
  method Register(store: SalesStore, env: Env, email: BodyValue, password: BodyValue, name: BodyValue, now: int)
    returns (r: Result<SignedIn, AuthError>)
    requires store.Valid()
    modifies store
    ensures store.Valid()
    ensures unchanged(store`available, store`clients, store`sales, store`products, store`installments)
    ensures RegisterCheck(email, password, name).Err? ==>
      r == Err(RegisterCheck(email, password, name).error) && unchanged(store)
    ensures RegisterCheck(email, password, name).Ok? && old(GetUserByEmail(store, EmailKey(email.s))).Some? ==>
      r == Err(EmailTaken) && unchanged(store)
    ensures RegisterCheck(email, password, name).Ok? && old(GetUserByEmail(store, EmailKey(email.s))).None? ==>
      var input := RegisterInput(email.s, name.s, password.s, now);
      store.users == (if old(store.available) then Upserted(old(store.users), old(store.nextUserId), input, TextFields, env.ownerOpenId, now) else old(store.users))
      && r == match CreateSessionToken(env, input.openId, now, None, Some(Strings.Trim(name.s)))
              case None => Err(CreateAccountFailed)
              case Some(t) => Ok(SignedIn(input.openId, Some(Strings.Trim(name.s)), Some(EmailKey(email.s)), t))
  {
    var check := RegisterCheck(email, password, name);
    if check.Err? {
      return Err(check.error);
    }
    var key := EmailKey(email.s);
    if GetUserByEmail(store, key).Some? {
      return Err(EmailTaken);
    }
    var input := RegisterInput(email.s, name.s, password.s, now);
    var written := store.UpsertUser(input, env.ownerOpenId, now);
    match CreateSessionToken(env, input.openId, now, None, Some(Strings.Trim(name.s)))
    case None =>
      r := Err(CreateAccountFailed);
    case Some(t) =>
      r := Ok(SignedIn(input.openId, Some(Strings.Trim(name.s)), Some(key), t));
  }

  /** A sign-up that passes the checks mints a session that verifies:
      its name is the trimmed, non-empty name. */
  lemma RegisterSessionVerifies(env: Env, email: BodyValue, password: BodyValue, name: BodyValue, now: int, nowSeconds: int)
    requires RegisterCheck(email, password, name).Ok? && env.cookieSecret != []
    requires nowSeconds < ExpirationSeconds(now, None)
    ensures var openId := RegisterInput(email.s, name.s, password.s, now).openId;
      var t := CreateSessionToken(env, openId, now, None, Some(Strings.Trim(name.s)));
      t.Some? && VerifySession(env, Signed(t.value), nowSeconds) == Some(SessionPayload(openId, AppIdOf(env), Strings.Trim(name.s)))
  {
    SessionRoundTrip(env, RegisterInput(email.s, name.s, password.s, now).openId, now, None, Strings.Trim(name.s), nowSeconds);
  }

  // ---------------------------------------------------------------------
  // handleLogin
  // ---------------------------------------------------------------------

  /** The checks `handleLogin` makes on the body, in order; the stored
      e-mail to look up on success. */
  function LoginCheck(email: BodyValue, password: BodyValue): (r: Result<string, AuthError>)
    ensures r == Err(EmailRequired) <==> !Filled(email)
    ensures r == Err(PasswordRequired) <==> Filled(email) && !(password.StringValue? && password.s != [])
    ensures r.Ok? <==> Filled(email) && password.StringValue? && password.s != []
    ensures r.Ok? ==> r.value == EmailKey(email.s)
  {
    if !Filled(email) then Err(EmailRequired)
    else if !password.StringValue? || password.s == [] then Err(PasswordRequired)
    else Ok(EmailKey(email.s))
  }

  /** The store side of a login: an unknown address and a wrong password
      are refused alike, a row without a hash on its own. */
  function LoginLookup(users: seq<User>, key: string, password: string): (r: Result<User, AuthError>)
    ensures r.Ok? <==> exists u :: UserByEmail(users, key) == Some(u) && u.passwordHash == Some(PasswordHash(password))
    ensures r == Err(NoPasswordHash) <==>
      UserByEmail(users, key).Some? && UserByEmail(users, key).value.passwordHash.GetOr([]) == []
    ensures r.Err? && r != Err(NoPasswordHash) ==> r == Err(WrongCredentials)
    ensures r.Ok? ==> Some(r.value) == UserByEmail(users, key)
  {
    match UserByEmail(users, key)
    case None => Err(WrongCredentials)
    case Some(u) =>
      if u.passwordHash.GetOr([]) == [] then Err(NoPasswordHash)
      else if !ComparePassword(password, u.passwordHash.value) then Err(WrongCredentials)
      else Ok(u)
  }

  /** `handleLogin`: the body checks, then the rest on the stored
      e-mail. */
  method Login(store: SalesStore, env: Env, email: BodyValue, password: BodyValue, now: int)
    returns (r: Result<SignedIn, AuthError>)
    requires store.Valid()
    modifies store
    ensures store.Valid()
    ensures unchanged(store`available, store`clients, store`sales, store`products, store`installments)
    ensures LoginCheck(email, password).Err? ==> r == Err(LoginCheck(email, password).error) && unchanged(store)
    ensures LoginCheck(email, password).Ok? ==> LoggedIn(old(store.available), old(store.users), old(store.nextUserId), store.users, env, EmailKey(email.s), password.s, now, r)
  {
    var check := LoginCheck(email, password);
    if check.Err? {
      return Err(check.error);
    }
    r := LogInWithKey(store, env, check.value, password.s, now);
  }

  /** The outcome of a login on the stored e-mail `key`: without a
      connection no user is found; a refused lookup changes nothing;
      otherwise the sign-in upsert is applied and the session token is
      named `user.name || ""`. */
  ghost predicate LoggedIn(available: bool, users: seq<User>, nextId: int, usersAfter: seq<User>, env: Env,
                           key: string, password: string, now: int, r: Result<SignedIn, AuthError>)
  {
    if !available then r == Err(WrongCredentials) && usersAfter == users
    else
      match LoginLookup(users, key, password)
      case Err(e) => r == Err(e) && usersAfter == users
      case Ok(u) =>
        if u.openId == [] then r == Err(LoginFailed) && usersAfter == users
        else
          usersAfter == Upserted(users, nextId, SignInInput(u.openId, now), TextFields, env.ownerOpenId, now)
          && r == match CreateSessionToken(env, u.openId, now, None, u.name)
                  case None => Err(LoginFailed)
                  case Some(t) => Ok(SignedIn(u.openId, u.name, u.email, t))
  }

  method LogInWithKey(store: SalesStore, env: Env, key: string, password: string, now: int)
    returns (r: Result<SignedIn, AuthError>)
    requires store.Valid()
    modifies store
    ensures store.Valid()
    ensures unchanged(store`available, store`clients, store`sales, store`products, store`installments)
    ensures LoggedIn(old(store.available), old(store.users), old(store.nextUserId), store.users, env, key, password, now, r)
  {
    if !store.available {
      return Err(WrongCredentials);
    }
    var found := LoginLookup(store.users, key, password);
    if found.Err? {
      return Err(found.error);
    }
    var u := found.value;
    var written := store.UpsertUser(SignInInput(u.openId, now), env.ownerOpenId, now);
    if written.Err? {
      return Err(LoginFailed);
    }
    match CreateSessionToken(env, u.openId, now, None, u.name)
    case None =>
      r := Err(LoginFailed);
    case Some(t) =>
      r := Ok(SignedIn(u.openId, u.name, u.email, t));
  }

  /** The corrected upsert, walking the password hash too: after a sign-up
      with a free address, logging in with the same address and password
      finds the new row. `Register` itself walks only name, e-mail and login
      method; see `RegisteredRefusedAsWritten`. */
  lemma RegisteredCanLogIn(users: seq<User>, nextId: int, email: string, name: string, password: string, ownerOpenId: string, now: int)
    requires OpenIdsUnique(users) && UserByEmail(users, EmailKey(email)).None?
    ensures var input := RegisterInput(email, name, password, now);
      var found := LoginLookup(Upserted(users, nextId, input, StoredTextFields, ownerOpenId, now), EmailKey(email), password);
      found.Ok? && found.value.openId == input.openId
  {
    StoredRowFound(users, nextId, RegisterInput(email, name, password, now), EmailKey(email), password, StoredTextFields, ownerOpenId, now);
  }

  /** An upsert that stores an e-mail no other row has, and the hash of a
      password, lets that e-mail and password log in to the upserted row. */
  lemma StoredRowFound(users: seq<User>, nextId: int, input: UserInput, key: string, password: string,
                       fields: seq<Column>, ownerOpenId: string, now: int)
    requires OpenIdsUnique(users) && UserByEmail(users, key).None?
    requires input.email == Given(key) && input.passwordHash == Given(PasswordHash(password))
    requires EmailCol in fields && PasswordHashCol in fields
    ensures var found := LoginLookup(Upserted(users, nextId, input, fields, ownerOpenId, now), key, password);
      found.Ok? && found.value.openId == input.openId
  {
    var after := Upserted(users, nextId, input, fields, ownerOpenId, now);
    StoredRowByEmail(users, nextId, input, key, fields, ownerOpenId, now);
    assert |PasswordHash(password)| > 0 by {
      assert |HashPrefix| == 7;
    }
    assert LoginLookup(after, key, password) == Ok(UserByEmail(after, key).value);
  }

  /** The upserted row is the one found by its (otherwise unused) e-mail,
      and it carries the walked hash. */
  lemma StoredRowByEmail(users: seq<User>, nextId: int, input: UserInput, key: string,
                         fields: seq<Column>, ownerOpenId: string, now: int)
    requires OpenIdsUnique(users) && UserByEmail(users, key).None?
    requires input.email == Given(key) && input.passwordHash.Given?
    requires EmailCol in fields && PasswordHashCol in fields
    ensures var u := UserByEmail(Upserted(users, nextId, input, fields, ownerOpenId, now), key);
      u.Some? && u.value.openId == input.openId && u.value.passwordHash == Some(input.passwordHash.s)
  {
    var after := Upserted(users, nextId, input, fields, ownerOpenId, now);
    var k := UpsertedIndex(users, nextId, input, fields, ownerOpenId, now);
    UserByEmailUnique(after, key, k);
  }

  /** Where the upsert put its row: every other row is an old one, and the
      row carries the e-mail and hash it was given. */
  lemma UpsertedIndex(users: seq<User>, nextId: int, input: UserInput,
                      fields: seq<Column>, ownerOpenId: string, now: int) returns (k: nat)
    requires input.email.Given? && input.passwordHash.Given?
    requires EmailCol in fields && PasswordHashCol in fields
    ensures var after := Upserted(users, nextId, input, fields, ownerOpenId, now);
      k < |after| && (forall p :: 0 <= p < |after| && p != k ==> after[p] in users)
      && after[k].openId == input.openId && after[k].email == Some(input.email.s)
      && after[k].passwordHash == Some(input.passwordHash.s)
  {
    var after := Upserted(users, nextId, input, fields, ownerOpenId, now);
    match IndexOfOpenId(users, input.openId)
    case Some(i) =>
      k := i;
      var row := UpdatedUser(users[i], UpdateSetFor(input, fields, ownerOpenId, now));
      UpdateCarriesLogin(users[i], input, fields, ownerOpenId, now);
      assert after == users[i := row];
      forall p | 0 <= p < |after| && p != k
        ensures after[p] in users
      {
        assert after[p] == users[p];
      }
    case None =>
      k := |users|;
      var row := InsertedUser(nextId, ValuesFor(input, fields, ownerOpenId, now), input.openId, now);
      InsertCarriesLogin(nextId, input, fields, ownerOpenId, now);
      assert after == users + [row];
      forall p | 0 <= p < |after| && p != k
        ensures after[p] in users
      {
        assert after[p] == users[p];
      }
  }

  /** An updated row takes the e-mail and hash the update set carries. */
  lemma UpdateCarriesLogin(u: User, input: UserInput, fields: seq<Column>, ownerOpenId: string, now: int)
    requires input.email.Given? && input.passwordHash.Given?
    requires EmailCol in fields && PasswordHashCol in fields
    ensures var row := UpdatedUser(u, UpdateSetFor(input, fields, ownerOpenId, now));
      row.openId == u.openId && row.email == Some(input.email.s) && row.passwordHash == Some(input.passwordHash.s)
  {
    UpsertGivenText(input, fields, ownerOpenId, now, EmailCol, u.email);
    UpsertGivenText(input, fields, ownerOpenId, now, PasswordHashCol, u.passwordHash);
  }

  /** An inserted row takes the e-mail and hash the values carry. */
  lemma InsertCarriesLogin(nextId: int, input: UserInput, fields: seq<Column>, ownerOpenId: string, now: int)
    requires input.email.Given? && input.passwordHash.Given?
    requires EmailCol in fields && PasswordHashCol in fields
    ensures var row := InsertedUser(nextId, ValuesFor(input, fields, ownerOpenId, now), input.openId, now);
      row.openId == input.openId && row.email == Some(input.email.s) && row.passwordHash == Some(input.passwordHash.s)
  {
    UpsertGivenText(input, fields, ownerOpenId, now, EmailCol, None);
    UpsertGivenText(input, fields, ownerOpenId, now, PasswordHashCol, None);
  }

  /** As written (`upsertUser` walking only name, e-mail and login
      method), a new sign-up is stored without its hash, so logging in
      with the right password is refused as having no password. */
  lemma RegisteredRefusedAsWritten(users: seq<User>, nextId: int, email: string, name: string, password: string, ownerOpenId: string, now: int)
    requires OpenIdsUnique(users) && UserByEmail(users, EmailKey(email)).None?
    requires IndexOfOpenId(users, RegisterInput(email, name, password, now).openId).None?
    ensures var input := RegisterInput(email, name, password, now);
      LoginLookup(Upserted(users, nextId, input, TextFields, ownerOpenId, now), EmailKey(email), password) == Err(NoPasswordHash)
  {
    NewRowWithoutHash(users, nextId, RegisterInput(email, name, password, now), EmailKey(email), password, ownerOpenId, now);
  }

  lemma NewRowWithoutHash(users: seq<User>, nextId: int, input: UserInput, key: string, password: string, ownerOpenId: string, now: int)
    requires OpenIdsUnique(users) && UserByEmail(users, key).None? && IndexOfOpenId(users, input.openId).None?
    requires input.email == Given(key) && input.passwordHash.Given?
    ensures LoginLookup(Upserted(users, nextId, input, TextFields, ownerOpenId, now), key, password) == Err(NoPasswordHash)
  {
    var after := Upserted(users, nextId, input, TextFields, ownerOpenId, now);
    UpsertTextFields(input, TextFields, ownerOpenId, now, EmailCol);
    HashDroppedAsWritten(users, nextId, input, ownerOpenId, now);
    var k := |users|;
    assert after[k] == InsertedUser(nextId, ValuesFor(input, TextFields, ownerOpenId, now), input.openId, now);
    assert forall p :: 0 <= p < |users| ==> after[p] == users[p];
    UpsertedRow(users, nextId, input, TextFields, ownerOpenId, now);
    assert after[k].email == Some(key);
    UserByEmailUnique(after, key, k);
  }

  // ---------------------------------------------------------------------
  // authenticateRequest
  // ---------------------------------------------------------------------

  /** `authenticateRequest`: the session must verify and name an existing
      user; that user, as read before the sign-in upsert, is the answer. */
  method Authenticate(store: SalesStore, env: Env, cookie: Cookie, now: int) returns (r: Result<User, AuthError>)
    requires store.Valid()
    modifies store
    ensures store.Valid()
    ensures unchanged(store`available, store`clients, store`sales, store`products, store`installments)
    ensures VerifySession(env, cookie, NowSeconds(now)).None? ==> r == Err(InvalidSession) && unchanged(store)
    ensures VerifySession(env, cookie, NowSeconds(now)).Some? ==>
      var openId := VerifySession(env, cookie, NowSeconds(now)).value.openId;
      match old(store.GetUserByOpenId(openId))
      case None => r == Err(UserNotFound) && unchanged(store)
      case Some(u) =>
        r == Ok(u)
        && store.users == Upserted(old(store.users), old(store.nextUserId), SignInInput(openId, now), TextFields, env.ownerOpenId, now)
  {
    var session := VerifySession(env, cookie, NowSeconds(now));
    if session.None? {
      return Err(InvalidSession);
    }
    var user := store.GetUserByOpenId(session.value.openId);
    if user.None? {
      return Err(UserNotFound);
    }
    var written := store.UpsertUser(SignInInput(user.value.openId, now), env.ownerOpenId, now);
    r := Ok(user.value);
  }
}
