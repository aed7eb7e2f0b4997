// What a browser sees that comes back with the cookie of an earlier response
// (internal/agent/service/service.go): logins, refreshes and logouts across requests.
module BrowserSessions {
  import opened Wrappers
  import opened Kv
  import opened Json
  import opened SessionModel
  import opened KeyLayout
  import opened RedisStore
  import Identity
  import opened AgentMachine
  import opened OneWorker
  import opened AgentService

  // A cookie decodes to the ID that it encodes, and is not empty.
  ghost predicate CookiesWork(web: Web) {
    forall id :: web.encode(id) != "" && web.decode(web.encode(id)) == Some(id)
  }

  // The first call of the request comes before the session's TTL is over.
  predicate InTime(c: Config, later: World) {
    Replies(later, 0) && (c.sessionTtl > 0 ==> later(0).elapsed < c.sessionTtl)
  }

  // The user has the subject, the roles, the e-mail address and the names in the token.
  predicate IsUserOf(user: Identity.User, verified: Claims) {
    && user.sub == (if "sub" in verified && verified["sub"].Text? then verified["sub"].s else "")
    && user.email == (if "email" in verified && verified["email"].Text? then verified["email"].s else "")
    && user.name == (if "name" in verified && verified["name"].Text? then verified["name"].s else "")
    && user.preferredUsername == (if "preferred_username" in verified && verified["preferred_username"].Text? then verified["preferred_username"].s else "")
    && user.roles == Identity.RolesOf(verified)
    && (user.isAdmin <==> "admin" in user.roles || "administrator" in user.roles)
  }

  lemma LoginShowsToken(id: string, tokens: Tokens, verified: Claims, at: int)
    requires DecodedClaims(verified)
    ensures IsUserOf(Identity.UserOf(LoginRecord(id, tokens, verified, at)), verified)
  {
    Identity.LoginKeepsIdentity(verified);
    Identity.StoredEntry(verified, "email");
    Identity.StoredEntry(verified, "name");
    Identity.StoredEntry(verified, "preferred_username");
  }

  // What the store holds is what a request in time finds.
  lemma HeldIsFound(service: Service, t: Tables, sid: string, session: Session, savedAt: int, later: World)
    requires service.Mirrors(t) && service.Holds(sid, session, savedAt) && t.now == savedAt && InTime(service.cfg, later)
    ensures FoundAt(Pass(t, later, 0), sid, later, 0) == Some(session)
  {
    assert SessionValues(t.sessions)[sid].value == OfSession(t.sessions[sid].value);
  }

  // A browser signs in and comes back with its cookie: within the TTL it is shown the user of
  // the ID token that was accepted, and Resolve gives the access token of the same answer.
  method SignInThenUse(service: Service, state: string, code: string, now: int, world: World, later: World, ghost t: Tables)
    returns (r: Result<LoginEndResponse, ServiceError>, user: Option<Identity.User>, resolved: Result<Resolved, ServiceError>)
    requires service.Mirrors(t) && t.now == now && CookiesWork(service.web)
    requires world(3).env.verified.Some? ==> DecodedClaims(world(3).env.verified.value)
    modifies service.store`keyspace
    ensures r.Ok? && !r.value.clearCookie && InTime(service.cfg, later) ==>
              && world(2).env.answer.Some? && world(3).env.verified.Some?
              && user.Some? && IsUserOf(user.value, world(3).env.verified.value)
              && resolved.Ok? && resolved.value.accessToken == world(2).env.answer.value.accessToken
  {
    r := service.LoginEnd(false, state, code, now, world, t);
    user, resolved := None, Err(ServiceError.Failed);
    if r.Ok? && !r.value.clearCookie {
      var at := Clock(now, world, 4);
      ghost var after := Serve(service.cfg, t, Operation.LoginEnd(false, state, code), world).(now := at);
      ghost var tokens, verified := world(2).env.answer.value, world(3).env.verified.value;
      ghost var id :| service.HoldsLogin(r.value.setCookie, id, tokens, verified, Clock(now, world, 3), at);
      LoginShowsToken(id, tokens, verified, Clock(now, world, 3));
      user, resolved := UseCookie(service, r.value.setCookie, at, later, id, LoginRecord(id, tokens, verified, Clock(now, world, 3)), after);
    }
  }

  // A request with the cookie of a session that the store holds, stored just before.
  method UseCookie(service: Service, cookie: string, now: int, later: World, ghost id: string, ghost session: Session, ghost t: Tables)
    returns (user: Option<Identity.User>, resolved: Result<Resolved, ServiceError>)
    requires service.Mirrors(t) && t.now == now && service.Holds(id, session, now)
    requires cookie != "" && service.web.decode(cookie) == Some(id)
    ensures InTime(service.cfg, later) ==>
              user == Some(Identity.UserOf(session)) && resolved == Ok(Resolved(session.accessToken, session.claims, session.tenantContext))
  {
    user := service.Session(cookie, now, later, t);
    resolved := service.Resolve(cookie, now, later, t);
    if InTime(service.cfg, later) {
      HeldIsFound(service, t, id, session, now, later);
    }
  }

  // A browser whose session was refreshed comes back with its new cookie: Resolve gives the
  // new access token.
  method RefreshThenUse(service: Service, cookie: string, now: int, world: World, later: World, ghost t: Tables)
    returns (r: Result<RefreshResponse, ServiceError>, user: Option<Identity.User>, resolved: Result<Resolved, ServiceError>)
    requires service.Mirrors(t) && t.now == now && CookiesWork(service.web)
    modifies service.store`keyspace
    ensures r.Ok? && r.value.refreshed && InTime(service.cfg, later) ==>
              world(2).env.answer.Some? && resolved.Ok? && resolved.value.accessToken == world(2).env.answer.value.accessToken
  {
    r := service.Refresh(cookie, now, world, t);
    user, resolved := None, Err(ServiceError.Failed);
    if r.Ok? && r.value.refreshed {
      var at := Clock(now, world, 3);
      ghost var sid := CookieId(service.web, cookie).value;
      ghost var after := Serve(service.cfg, t, Operation.Refresh(Some(sid)), world).(now := at);
      ghost var base, tokens :| Refreshes(service.cfg, t, sid, world, base, tokens);
      ghost var session := RefreshRecord(base, tokens, AcceptedClaims(service.cfg, tokens, world(2).env.verified), Clock(now, world, 2));
      user, resolved := UseCookie(service, r.value.setCookie, at, later, sid, session, after);
    }
  }

  // A browser that has signed out, with every command working, finds no session with its old
  // cookie.
  method SignOutThenUse(service: Service, cookie: string, redirectTo: string, origin: string, referer: string,
                        now: int, world: World, later: World, ghost t: Tables)
    returns (r: Result<string, ServiceError>, user: Option<Identity.User>, resolved: Result<Resolved, ServiceError>)
    requires service.Mirrors(t) && t.now == now
    requires Replies(world, 0) && Replies(world, 1) && CookieId(service.web, cookie) != Some("")
    modifies service.store`keyspace
    ensures r.Ok? ==> user == None && resolved.Err?
  {
    r := service.Logout(cookie, redirectTo, origin, referer, now, world, t);
    user, resolved := None, Err(ServiceError.Failed);
    if r.Ok? {
      var at := now + world(0).elapsed;
      ghost var op := Operation.Logout(OriginPasses(service.web, origin, referer), CookieId(service.web, cookie));
      ghost var after := Serve(service.cfg, t, op, world).(now := at);
      if CookieId(service.web, cookie).Some? {
        GoneIsNotFound(service, after, CookieId(service.web, cookie).value, later);
      }
      user := service.Session(cookie, at, later, after);
      resolved := service.Resolve(cookie, at, later, after);
    }
  }

  lemma GoneIsNotFound(service: Service, t: Tables, sid: string, later: World)
    requires service.Mirrors(t) && !Live(service.store.Tables(Sessions), sid, t.now)
    ensures FoundAt(Pass(t, later, 0), sid, later, 0) == None
  {
    assert sid in t.sessions ==> SessionValues(t.sessions)[sid].exp == t.sessions[sid].exp;
  }
}
