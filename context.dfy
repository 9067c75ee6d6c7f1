/** `createContext` (server/_core/context.ts): the sign-in strategies
    tried in order, each failure swallowed, the first user found kept. */
module Context {
  import opened Wrappers
  import opened Schema
  import opened Tables
  import opened Session
  import opened Store
  import EmailAuth
  import LocalAuth

  /** What the OAuth sdk's `authenticateRequest` does with the request:
      returns a user or throws. The sdk itself is not part of this model. */
  datatype OAuthOutcome = OAuthUser(user: User) | OAuthThrew

  predicate OAuthConfigured(env: Env)
  {
    env.oAuthServerUrl != []
  }

  /** `createContext`: the OAuth user when OAuth is configured and
      succeeds; else the e-mail strategy; else the local one; else no
      user. It never fails. */
  method CreateContext(store: SalesStore, env: Env, cookie: Cookie, oauth: OAuthOutcome, now: int)
    returns (user: Option<User>)
    requires store.Valid()
    modifies store
    ensures store.Valid()
    ensures unchanged(store`available, store`clients, store`sales, store`products, store`installments)
    ensures OAuthConfigured(env) && oauth.OAuthUser? ==> user == Some(oauth.user) && unchanged(store)
    ensures !(OAuthConfigured(env) && oauth.OAuthUser?) ==>
      ContextUser(old(store.available), old(store.users), old(store.nextUserId), store.users, env, cookie, now, user)
  {
    if OAuthConfigured(env) {
      match oauth
      case OAuthUser(u) =>
        return Some(u);
      case OAuthThrew =>
    }
    var byEmail := EmailAuth.Authenticate(store, env, cookie, now);
    if byEmail.Ok? {
      return Some(byEmail.value);
    }
    var byName := LocalAuth.Authenticate(store, env, cookie, now);
    if byName.Ok? {
      return Some(byName.value);
    }
    return None;
  }

  /** The user of a request that OAuth did not settle. Both strategies
      read the same cookie: without a verified session nobody is signed in;
      an existing user is answered by the e-mail strategy, signed in once;
      a missing one is created by the local strategy, whatever its openId
      looks like. */
  ghost predicate ContextUser(available: bool, users: seq<User>, nextId: int, usersAfter: seq<User>,
                              env: Env, cookie: Cookie, now: int, user: Option<User>)
  {
    match VerifySession(env, cookie, NowSeconds(now))
    case None => user.None? && usersAfter == users
    case Some(session) =>
      if !available then user.None? && usersAfter == users
      else
        match UserByOpenId(users, session.openId)
        case Some(u) =>
          user == Some(u)
          && usersAfter == Upserted(users, nextId, SignInInput(session.openId, now), TextFields, env.ownerOpenId, now)
        case None =>
          var input := LocalAuth.CreatedInput(session, now);
          user == Some(InsertedUser(nextId, ValuesFor(input, TextFields, env.ownerOpenId, now), session.openId, now))
          && usersAfter == Upserted(Upserted(users, nextId, input, TextFields, env.ownerOpenId, now),
                                    nextId + 1, SignInInput(session.openId, now), TextFields, env.ownerOpenId, now)
  }

  /** A request with a verified session for an openId that has no row
      (a deleted e-mail account, say) is signed in as a freshly created
      local user carrying the session's name. */
  lemma MissingUserBecomesLocal(users: seq<User>, nextId: int, session: SessionPayload, ownerOpenId: string, now: int)
    requires session.name != [] && UserByOpenId(users, session.openId).None?
    ensures var u := InsertedUser(nextId, ValuesFor(LocalAuth.CreatedInput(session, now), TextFields, ownerOpenId, now), session.openId, now);
      u.openId == session.openId && u.loginMethod == Some(LocalAuth.LocalMethod) && u.name == Some(session.name)
      && u.email.None? && u.passwordHash.None?
  {
    LocalAuth.CreatedUserShape(users, nextId, session, ownerOpenId, now);
  }
}
