/** The development sign-in by name alone (server/_core/localAuth.ts):
    the openId derived from the name, the login handler, and request
    authentication that creates a missing user. */
module LocalAuth {
  import opened Wrappers
  import opened Schema
  import opened Tables
  import opened Session
  import opened Store
  import Strings = Text

  const LocalPrefix: string := "local_"
  const LocalMethod: string := "local"

  predicate AllSpace(s: string)
  {
    forall i :: 0 <= i < |s| ==> Strings.IsSpace(s[i])
  }

  /** Ends in a character that is not whitespace, or is empty. */
  predicate EndsSolid(s: string)
  {
    s == [] || !Strings.IsSpace(s[|s| - 1])
  }

  /** Starts with a character that is not whitespace, or is empty. */
  predicate StartsSolid(s: string)
  {
    s == [] || !Strings.IsSpace(s[0])
  }

  /** `s.replace(/\s+/g, "_")`: each maximal whitespace run becomes one
      underscore. */
  function Underscored(s: string): (r: string)
    ensures forall i :: 0 <= i < |r| ==> !Strings.IsSpace(r[i])
    decreases |s|
  {
    if s == [] then []
    else if Strings.IsSpace(s[0]) then "_" + Underscored(Strings.TrimStart(s[1..]))
    else [s[0]] + Underscored(s[1..])
  }

  /** The openId of a local login: `local_` and the lower-cased,
      untrimmed name with whitespace runs turned into underscores. */
  function LocalOpenId(name: string): (r: string)
    ensures |r| >= |LocalPrefix| && r[..|LocalPrefix|] == LocalPrefix
  {
    LocalPrefix + Underscored(Strings.ToLower(name))
  }

  lemma {:induction false} TrimStartSpaces(a: string, y: string)
    requires AllSpace(a) && StartsSolid(y)
    ensures Strings.TrimStart(a + y) == y
  {
    if a == [] {
      assert a + y == y;
    } else {
      assert (a + y)[0] == a[0];
      assert (a + y)[1..] == a[1..] + y;
      TrimStartSpaces(a[1..], y);
    }
  }

  lemma {:induction false} TrimStartConcat(x: string, z: string)
    requires x != [] && EndsSolid(x)
    ensures Strings.TrimStart(x + z) == Strings.TrimStart(x) + z
    ensures Strings.TrimStart(x) != [] && EndsSolid(Strings.TrimStart(x))
    ensures |Strings.TrimStart(x)| <= |x|
  {
    assert (x + z)[0] == x[0];
    if Strings.IsSpace(x[0]) {
      assert (x + z)[1..] == x[1..] + z;
      TrimStartConcat(x[1..], z);
    }
  }

  /** A whitespace run followed by a non-space becomes one underscore. */
  lemma RunCollapses(a: string, y: string)
    requires a != [] && AllSpace(a) && StartsSolid(y)
    ensures Underscored(a + y) == "_" + Underscored(y)
  {
    assert (a + y)[0] == a[0];
    assert (a + y)[1..] == a[1..] + y;
    TrimStartSpaces(a[1..], y);
  }

  /** Text ending in a non-space is rewritten on its own. */
  lemma {:induction false} UnderscoredConcat(x: string, z: string)
    requires EndsSolid(x)
    ensures Underscored(x + z) == Underscored(x) + Underscored(z)
    decreases |x|
  {
    if x == [] {
      assert x + z == z;
    } else if !Strings.IsSpace(x[0]) {
      assert (x + z)[0] == x[0];
      assert (x + z)[1..] == x[1..] + z;
      UnderscoredConcat(x[1..], z);
    } else {
      assert (x + z)[0] == x[0];
      assert (x + z)[1..] == x[1..] + z;
      TrimStartConcat(x[1..], z);
      UnderscoredConcat(Strings.TrimStart(x[1..]), z);
    }
  }

  /** Only the place of a whitespace run matters, not its length. */
  lemma RunLengthIrrelevant(x: string, a: string, b: string, y: string)
    requires a != [] && b != [] && AllSpace(a) && AllSpace(b)
    requires EndsSolid(x) && StartsSolid(y)
    ensures Underscored(x + a + y) == Underscored(x + b + y)
  {
    assert x + a + y == x + (a + y);
    assert x + b + y == x + (b + y);
    UnderscoredConcat(x, a + y);
    UnderscoredConcat(x, b + y);
    RunCollapses(a, y);
    RunCollapses(b, y);
  }

  /** Two names that lower-case to the same text up to the length of one
      whitespace run log in as the same user. */
  lemma SameLocalUser(name1: string, name2: string, x: string, a: string, b: string, y: string)
    requires Strings.ToLower(name1) == x + a + y && Strings.ToLower(name2) == x + b + y
    requires a != [] && b != [] && AllSpace(a) && AllSpace(b)
    requires EndsSolid(x) && StartsSolid(y)
    ensures LocalOpenId(name1) == LocalOpenId(name2)
  {
    RunLengthIrrelevant(x, a, b, y);
  }

  /** The name is not trimmed before the openId is derived: a leading
      space gives another user (while `LeadingSpaceTrimmed` shows the
      stored name is the same). */
  lemma LeadingSpaceOtherUser(c: char, name: string)
    requires Strings.IsSpace(c) && name != [] && !Strings.IsSpace(name[0])
    ensures LocalOpenId([c] + name) == LocalPrefix + "_" + Underscored(Strings.ToLower(name))
    ensures LocalOpenId([c] + name) != LocalOpenId(name)
  {
    LeadingSpaceUnderscored(c, name);
    var u := Underscored(Strings.ToLower(name));
    assert LocalOpenId([c] + name) == LocalPrefix + "_" + u;
    assert LocalOpenId(name) == LocalPrefix + u;
    assert |LocalPrefix + "_" + u| == |LocalPrefix + u| + 1;
  }

  /** A leading space does not change the stored, trimmed name. */
  lemma LeadingSpaceTrimmed(c: char, name: string)
    requires Strings.IsSpace(c)
    ensures Strings.Trim([c] + name) == Strings.Trim(name)
  {
    assert ([c] + name)[1..] == name;
  }

  lemma LeadingSpaceUnderscored(c: char, name: string)
    requires Strings.IsSpace(c) && name != [] && !Strings.IsSpace(name[0])
    ensures Underscored(Strings.ToLower([c] + name)) == "_" + Underscored(Strings.ToLower(name))
  {
    var low := Strings.ToLower(name);
    assert Strings.ToLower([c] + name) == [c] + low by {
      Strings.LowerCharSpace(c);
    }
    assert StartsSolid(low) by {
      Strings.LowerCharSpace(name[0]);
    }
    RunCollapses([c], low);
  }

  /** `!name || typeof name !== "string" || name.trim().length === 0`. */
  function LocalLoginCheck(name: BodyValue): (r: Result<string, AuthError>)
    ensures r.Err? <==> !Filled(name)
    ensures r.Err? ==> r.error == NameRequired
    ensures r.Ok? ==> r.value == Strings.Trim(name.s) && r.value != []
  {
    if !Filled(name) then Err(NameRequired) else Ok(Strings.Trim(name.s))
  }

  /** The row a local login asks `upsertUser` for. */
  function LocalInput(openId: string, storedName: string, now: int): UserInput
  {
    UserInput(openId, Given(storedName), Null, Given(LocalMethod), Undefined, Some(now), None)
  }

  /** What the local login answers with. */
  datatype LocalSignedIn = LocalSignedIn(openId: string, name: string, token: Token)

  /** `handleLocalLogin`: the name check, the upsert under the derived
      openId with the trimmed name, then the session token. */
  method HandleLocalLogin(store: SalesStore, env: Env, name: BodyValue, now: int)
    returns (r: Result<LocalSignedIn, AuthError>)
    requires store.Valid()
    modifies store
    ensures store.Valid()
    ensures unchanged(store`available, store`clients, store`sales, store`products, store`installments)
    ensures !Filled(name) ==> r == Err(NameRequired) && unchanged(store)
    ensures Filled(name) ==>
      LocallyLoggedIn(old(store.available), old(store.users), old(store.nextUserId), store.users, env,
                      LocalOpenId(name.s), Strings.Trim(name.s), now, r)
  {
    var check := LocalLoginCheck(name);
    if check.Err? {
      return Err(check.error);
    }
    r := LogInLocally(store, env, LocalOpenId(name.s), check.value, now);
  }

  /** The outcome of a local login under `openId` with the stored name. */
  ghost predicate LocallyLoggedIn(available: bool, users: seq<User>, nextId: int, usersAfter: seq<User>, env: Env,
                                  openId: string, storedName: string, now: int, r: Result<LocalSignedIn, AuthError>)
  {
    usersAfter == (if available then Upserted(users, nextId, LocalInput(openId, storedName, now), TextFields, env.ownerOpenId, now) else users)
    && r == match CreateSessionToken(env, openId, now, None, Some(storedName))
            case None => Err(LoginFailed)
            case Some(t) => Ok(LocalSignedIn(openId, storedName, t))
  }

  method LogInLocally(store: SalesStore, env: Env, openId: string, storedName: string, now: int)
    returns (r: Result<LocalSignedIn, AuthError>)
    requires store.Valid() && openId != []
    modifies store
    ensures store.Valid()
    ensures unchanged(store`available, store`clients, store`sales, store`products, store`installments)
    ensures LocallyLoggedIn(old(store.available), old(store.users), old(store.nextUserId), store.users, env, openId, storedName, now, r)
  {
    var written := store.UpsertUser(LocalInput(openId, storedName, now), env.ownerOpenId, now);
    match CreateSessionToken(env, openId, now, None, Some(storedName))
    case None =>
      r := Err(LoginFailed);
    case Some(t) =>
      r := Ok(LocalSignedIn(openId, storedName, t));
  }

  /** A local login's session verifies to the derived openId and the
      trimmed name until it expires. */
  lemma LocalSessionVerifies(env: Env, name: BodyValue, now: int, nowSeconds: int)
    requires Filled(name) && env.cookieSecret != []
    requires nowSeconds < ExpirationSeconds(now, None)
    ensures var t := CreateSessionToken(env, LocalOpenId(name.s), now, None, Some(Strings.Trim(name.s)));
      t.Some? && VerifySession(env, Signed(t.value), nowSeconds) ==
        Some(SessionPayload(LocalOpenId(name.s), AppIdOf(env), Strings.Trim(name.s)))
  {
    SessionRoundTrip(env, LocalOpenId(name.s), now, None, Strings.Trim(name.s), nowSeconds);
  }

  /** The row created for a verified session whose user is missing:
      `name: session.name || null`, no e-mail, login method `local`. */
  function CreatedInput(session: SessionPayload, now: int): UserInput
  {
    UserInput(session.openId, if session.name == [] then Null else Given(session.name), Null, Given(LocalMethod), Undefined, Some(now), None)
  }

  /** `authenticateRequest`: the session must verify; a missing user is
      created and read again; only a user still missing is refused. The
      answer is the user as read before the sign-in upsert. */
  method Authenticate(store: SalesStore, env: Env, cookie: Cookie, now: int) returns (r: Result<User, AuthError>)
    requires store.Valid()
    modifies store
    ensures store.Valid()
    ensures unchanged(store`available, store`clients, store`sales, store`products, store`installments)
    ensures VerifySession(env, cookie, NowSeconds(now)).None? ==> r == Err(InvalidSession) && unchanged(store)
    ensures VerifySession(env, cookie, NowSeconds(now)).Some? ==>
      Authenticated(old(store.available), old(store.users), old(store.nextUserId), store.users, env,
                    VerifySession(env, cookie, NowSeconds(now)).value, now, r)
  {
    var session := VerifySession(env, cookie, NowSeconds(now));
    if session.None? {
      return Err(InvalidSession);
    }
    r := AuthenticateSession(store, env, session.value, now);
  }

  /** The outcome for a verified session: an existing user is answered
      and signed in; a missing one is created (with a connection) and then
      signed in; without a connection nobody is found. */
  ghost predicate Authenticated(available: bool, users: seq<User>, nextId: int, usersAfter: seq<User>, env: Env,
                                session: SessionPayload, now: int, r: Result<User, AuthError>)
  {
    var openId := session.openId;
    if !available then r == Err(UserNotFound) && usersAfter == users
    else
      match UserByOpenId(users, openId)
      case Some(u) =>
        r == Ok(u)
        && usersAfter == Upserted(users, nextId, SignInInput(openId, now), TextFields, env.ownerOpenId, now)
      case None =>
        var created := Upserted(users, nextId, CreatedInput(session, now), TextFields, env.ownerOpenId, now);
        r == Ok(InsertedUser(nextId, ValuesFor(CreatedInput(session, now), TextFields, env.ownerOpenId, now), openId, now))
        && usersAfter == Upserted(created, nextId + 1, SignInInput(openId, now), TextFields, env.ownerOpenId, now)
  }

  method AuthenticateSession(store: SalesStore, env: Env, session: SessionPayload, now: int) returns (r: Result<User, AuthError>)
    requires store.Valid() && session.openId != []
    modifies store
    ensures store.Valid()
    ensures unchanged(store`available, store`clients, store`sales, store`products, store`installments)
    ensures Authenticated(old(store.available), old(store.users), old(store.nextUserId), store.users, env, session, now, r)
  {
    var openId := session.openId;
    var user := store.GetUserByOpenId(openId);
    if user.None? {
      var created := store.UpsertUser(CreatedInput(session, now), env.ownerOpenId, now);
      if store.available {
        UpsertedRow(old(store.users), old(store.nextUserId), CreatedInput(session, now), TextFields, env.ownerOpenId, now);
      }
      user := store.GetUserByOpenId(openId);
    }
    if user.None? {
      return Err(UserNotFound);
    }
    var signedIn := store.UpsertUser(SignInInput(user.value.openId, now), env.ownerOpenId, now);
    r := Ok(user.value);
  }

  /** A user created by a request carries the session's name and the
      `local` login method, and no e-mail or password hash. */
  lemma CreatedUserShape(users: seq<User>, nextId: int, session: SessionPayload, ownerOpenId: string, now: int)
    requires session.name != []
    ensures var u := InsertedUser(nextId, ValuesFor(CreatedInput(session, now), TextFields, ownerOpenId, now), session.openId, now);
      u.id == nextId && u.openId == session.openId && u.name == Some(session.name)
      && u.email.None? && u.loginMethod == Some(LocalMethod) && u.passwordHash.None?
      && u.lastSignedIn == now
  {
    var input := CreatedInput(session, now);
    InsertedUserFields(nextId, input, TextFields, ownerOpenId, now);
    assert NameCol in TextFields && LoginMethodCol in TextFields;
  }
}
