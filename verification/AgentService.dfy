// The agent's service as code over the store (internal/agent/service/service.go).
module AgentService {
  import opened Wrappers
  import opened Kv
  import opened KeyLayout
  import opened RedisStore
  import opened Base64
  import opened Json
  import opened SessionModel
  import Identity
  import opened AgentMachine
  import opened OneWorker
  import opened LoginBinding

  // ------------------------------------------------------------------------------------
  // The store's tables against the machine's
  // ------------------------------------------------------------------------------------

  function SessionValues(t: Table<Session>): Table<Value> {
    map id | id in t :: Entry(OfSession(t[id].value), t[id].exp)
  }

  function PkceValues(t: Table<PkceState>): Table<Value> {
    map id | id in t :: Entry(OfPkce(t[id].value), t[id].exp)
  }

  function LockValues(t: Table<()>): Table<Value> {
    map id | id in t :: Entry(Marker, t[id].exp)
  }

  lemma SavedValues(t: Table<Session>, sid: string, r: Session, ttl: int, now: int)
    ensures SessionValues(Put(t, sid, r, ttl, now)) == Put(SessionValues(t), sid, OfSession(r), ttl, now)
  {
  }

  lemma StoredValues(t: Table<PkceState>, p: PkceState, ttl: int, now: int)
    ensures PkceValues(Put(t, p.state, p, ttl, now)) == Put(PkceValues(t), p.state, OfPkce(p), ttl, now)
  {
  }

  lemma LeasedValues(t: Table<()>, sid: string, ttl: int, now: int)
    ensures LockValues(Put(t, sid, (), ttl, now)) == Put(LockValues(t), sid, Marker, ttl, now)
  {
  }

  lemma DroppedValues(t: Tables, key: string)
    ensures SessionValues(Del(t.sessions, key)) == Del(SessionValues(t.sessions), key)
    ensures PkceValues(Del(t.pkce, key)) == Del(PkceValues(t.pkce), key)
    ensures LockValues(Del(t.locks, key)) == Del(LockValues(t.locks), key)
  {
  }

  // ------------------------------------------------------------------------------------
  // What an operation leaves in the tables, in terms of what the world answered
  // ------------------------------------------------------------------------------------

  // The time of the n-th call of an operation that begins at `now`.
  function Clock(now: int, world: World, n: nat): int {
    (if n == 0 then now else Clock(now, world, n - 1)) + world(n).elapsed
  }

  lemma PassClock(now: int, u: Tables, world: World, n: nat)
    requires u.now == if n == 0 then now else Clock(now, world, n - 1)
    ensures Pass(u, world, n) == u.(now := Clock(now, world, n))
  {
  }

  // The record of a login: the answer's tokens, for as long as it says or a day, and the claims.
  function LoginRecord(id: string, tokens: Tokens, verified: Claims, at: int): Session {
    SessionModel.Session(id, tokens.accessToken, tokens.refreshToken, tokens.idToken,
                         at + (if tokens.expiresIn > 0 then tokens.expiresIn else 24 * 60 * 60),
                         HopClaims(Identity.LoginClaims(Identity.PrincipalOf(verified))), None)
  }

  // The record of a refresh: the answer's tokens as far as it has any, and the claims of its ID
  // token if that was accepted.
  function RefreshRecord(before: Session, tokens: Tokens, accepted: Option<Claims>, at: int): Session {
    SessionModel.Session(before.id, tokens.accessToken,
                         if tokens.refreshToken == "" then before.refreshToken else tokens.refreshToken,
                         if tokens.idToken == "" then before.idToken else tokens.idToken,
                         at + (if tokens.expiresIn > 0 then tokens.expiresIn else 24 * 60 * 60),
                         HopClaims(if accepted.Some? then accepted.value else before.claims), before.tenantContext)
  }

  // The tables hold the record, stored at that time to last as long as sessions do.
  predicate HasRecord(c: Config, t: Tables, sid: string, session: Session, at: int) {
    sid in t.sessions && t.sessions[sid] == Entry(session, if c.sessionTtl > 0 then Some(at + c.sessionTtl) else None)
  }

  // A callback that goes through leaves the new session under the ID that was generated, and
  // the state no more if its deletion took effect.
  lemma LoginEndLeaves(c: Config, t: Tables, state: string, p: PkceState, world: World, id: string, tokens: Tokens, verified: Claims)
    requires Replies(world, 0) && Get(t.pkce, state, Clock(t.now, world, 0)) == Some(p)
    requires world(2).env.answer == Some(tokens) && world(3).env.verified == Some(verified)
    requires Passes(c, p, world(3).env) && id == RawEncode(world(3).env.idBytes) && Replies(world, 4)
    ensures HasRecord(c, ServeLoginEnd(c, t, state, world), id, LoginRecord(id, tokens, verified, Clock(t.now, world, 3)), Clock(t.now, world, 4))
    ensures !Lost(world, 1) ==> state !in ServeLoginEnd(c, t, state, world).pkce
  {
    PassClock(t.now, t, world, 0);
    var t0 := t.(now := Clock(t.now, world, 0));
    PassClock(t.now, t0, world, 1);
    var t1 := t0.(now := Clock(t.now, world, 1));
    if !Lost(world, 1) {
      t1 := t1.(pkce := Del(t.pkce, state));
    }
    assert ServeLoginEnd(c, t, state, world) == ServeEndDelete(c, t0, state, p, world) == ServeEndExchange(c, t1, p, world);
    ExchangeLeaves(c, t.now, t1, p, world, id, tokens, verified);
  }

  lemma ExchangeLeaves(c: Config, now: int, t: Tables, p: PkceState, world: World, id: string, tokens: Tokens, verified: Claims)
    requires world(2).env.answer == Some(tokens) && world(3).env.verified == Some(verified) && t.now == Clock(now, world, 1)
    requires Passes(c, p, world(3).env) && id == RawEncode(world(3).env.idBytes) && Replies(world, 4)
    ensures HasRecord(c, ServeEndExchange(c, t, p, world), id, LoginRecord(id, tokens, verified, Clock(now, world, 3)), Clock(now, world, 4))
    ensures ServeEndExchange(c, t, p, world).pkce == t.pkce
  {
    PassClock(now, t, world, 2);
    var t2 := t.(now := Clock(now, world, 2));
    PassClock(now, t2, world, 3);
    var t3 := t2.(now := Clock(now, world, 3));
    PassClock(now, t3, world, 4);
    var session := NewSession(id, tokens, verified, t3.now);
    assert ServeEndExchange(c, t, p, world) == ServeEndValidate(c, t2, p, tokens, world) == ServeEndSave(c, t3, session, world);
    assert AsStored(session) == LoginRecord(id, tokens, verified, t3.now);
  }

  // A refresh finds its session, with a refresh token.
  predicate Refreshable(t: Tables, sid: string, world: World, base: Session) {
    Replies(world, 0) && Get(t.sessions, sid, Clock(t.now, world, 0)) == Some(base) && base.refreshToken != ""
  }

  // It is due and gets its tokens: at most refreshEarly seconds are left, the lock is free, the
  // provider answers, and the commands that take the lock and store the record work.
  predicate Refreshes(c: Config, t: Tables, sid: string, world: World, base: Session, tokens: Tokens) {
    && Refreshable(t, sid, world, base) && base.expiresAt <= Clock(t.now, world, 0) + c.refreshEarly
    && Replies(world, 1) && !Live(t.locks, sid, Clock(t.now, world, 1))
    && world(2).env.answer == Some(tokens) && Replies(world, 3)
  }

  // A record that is not due leaves the tables as they are.
  lemma NotDueLeavesAll(c: Config, t: Tables, sid: string, world: World, base: Session)
    requires Refreshable(t, sid, world, base) && base.expiresAt > Clock(t.now, world, 0) + c.refreshEarly
    ensures ServeRefresh(c, t, sid, world) == Pass(t, world, 0)
  {
    PassClock(t.now, t, world, 0);
  }

  // A refresh that goes through leaves the new record, and no lock if the release works.
  lemma RefreshLeaves(c: Config, t: Tables, sid: string, world: World, base: Session, tokens: Tokens)
    requires Refreshes(c, t, sid, world, base, tokens)
    ensures HasRecord(c, ServeRefresh(c, t, sid, world), sid,
                      RefreshRecord(base, tokens, AcceptedClaims(c, tokens, world(2).env.verified), Clock(t.now, world, 2)), Clock(t.now, world, 3))
    ensures Replies(world, 4) ==> sid !in ServeRefresh(c, t, sid, world).locks
  {
    PassClock(t.now, t, world, 0);
    var t0 := t.(now := Clock(t.now, world, 0));
    PassClock(t.now, t0, world, 1);
    var t1 := t0.(now := Clock(t.now, world, 1));
    var locked := t1.(locks := Put(t1.locks, sid, (), c.lockTtl, t1.now));
    assert ServeRefresh(c, t, sid, world) == ServeObtain(c, t0, sid, base, world) == ServeRefreshCall(c, locked, sid, base, world);
    CallLeaves(c, t.now, locked, sid, base, world, tokens);
  }

  lemma CallLeaves(c: Config, now: int, t: Tables, sid: string, base: Session, world: World, tokens: Tokens)
    requires world(2).env.answer == Some(tokens) && Replies(world, 3) && t.now == Clock(now, world, 1)
    ensures HasRecord(c, ServeRefreshCall(c, t, sid, base, world), sid,
                      RefreshRecord(base, tokens, AcceptedClaims(c, tokens, world(2).env.verified), Clock(now, world, 2)), Clock(now, world, 3))
    ensures Replies(world, 4) ==> sid !in ServeRefreshCall(c, t, sid, base, world).locks
  {
    PassClock(now, t, world, 2);
    var t2 := t.(now := Clock(now, world, 2));
    PassClock(now, t2, world, 3);
    var t3 := t2.(now := Clock(now, world, 3));
    var session := RefreshedSession(base, tokens, AcceptedClaims(c, tokens, world(2).env.verified), t2.now);
    assert ServeRefreshCall(c, t, sid, base, world) == ServeRefreshSave(c, t2, sid, session, world)
        == ServeRelease(Save(c, t3, sid, session, false), sid, world, 4);
  }

  // ------------------------------------------------------------------------------------
  // Requests and responses
  // ------------------------------------------------------------------------------------

  // The parts of the configuration that face the browser. `redirect` is ValidateRedirect,
  // which gives "" for a target it refuses; the cookie manager and the provider's two URL
  // builders are functions that may fail.
  datatype Web = Web(
    appBaseUrl: string,
    loginErrorPath: string,
    allowedOrigins: seq<string>,
    redirect: string -> string,
    decode: string -> Option<string>,
    encode: string -> string,
    authorizationUrl: (string, string, string) -> Option<string>,
    endSessionUrl: (string, string) -> Option<string>)

  datatype ServiceError = NoCookie | InvalidCookie | SessionNotFound | NoRefreshToken | BadRequest | OriginRefused | Failed

  datatype LoginEndResponse = LoginEndResponse(redirectUrl: string, setCookie: string, clearCookie: bool)
  datatype RefreshResponse = RefreshResponse(setCookie: string, refreshed: bool)
  datatype Resolved = Resolved(accessToken: string, claims: Claims, tenantContext: Option<TenantContext>)

  // An allowed origin admits a request that names it, and any request referred by the app.
  predicate Admits(allowed: string, base: string, origin: string, referer: string) {
    origin == allowed || referer == allowed || base + "/" <= referer
  }

  // A request without an Origin passes, whatever its Referer.
  predicate OriginPasses(web: Web, origin: string, referer: string) {
    || origin == ""
    || origin == TrimSlash(web.appBaseUrl)
    || exists i :: 0 <= i < |web.allowedOrigins| && Admits(web.allowedOrigins[i], TrimSlash(web.appBaseUrl), origin, referer)
  }

  function OrBase(web: Web, url: string): string {
    if url == "" then web.appBaseUrl else url
  }

  function CookieId(web: Web, cookie: string): Option<string> {
    if cookie == "" then None else web.decode(cookie)
  }

  class Service {
    const cfg: Config
    const web: Web
    const store: Store

    constructor (cfg: Config, web: Web, store: Store)
      ensures this.cfg == cfg && this.web == web && this.store == store
    {
      this.cfg := cfg;
      this.web := web;
      this.store := store;
    }

    ghost predicate Mirrors(t: Tables)
      reads store`keyspace
    {
      && store.Valid()
      && store.Tables(Sessions) == SessionValues(t.sessions)
      && store.Tables(Pkce) == PkceValues(t.pkce)
      && store.Tables(RefreshLocks) == LockValues(t.locks)
    }

    // ---- What the store holds ------------------------------------------------------------

    // A command at that time stored the record, to last as long as sessions do.
    ghost predicate Holds(sid: string, session: Session, at: int)
      reads store`keyspace
    {
      && sid in store.Tables(Sessions)
      && store.Tables(Sessions)[sid] == Entry(OfSession(session), if cfg.sessionTtl > 0 then Some(at + cfg.sessionTtl) else None)
    }

    // The cookie encodes an ID under which the store holds a session with the tokens of the
    // provider's answer and the claims of the accepted ID token.
    ghost predicate SignsIn(cookie: string, world: World, now: int)
      reads store`keyspace
    {
      && world(2).env.answer.Some? && world(3).env.verified.Some?
      && exists id :: HoldsLogin(cookie, id, world(2).env.answer.value, world(3).env.verified.value, Clock(now, world, 3), Clock(now, world, 4))
    }

    ghost predicate HoldsLogin(cookie: string, id: string, tokens: Tokens, verified: Claims, checkedAt: int, savedAt: int)
      reads store`keyspace
    {
      cookie == web.encode(id) && Holds(id, LoginRecord(id, tokens, verified, checkedAt), savedAt)
    }

    // ---- The calls, in the machine's terms -----------------------------------------------

    method ReadSession(sid: string, now: int, call: Call, ghost t: Tables) returns (r: Option<Session>)
      requires Mirrors(t) && t.now == now
      ensures r == if call.env.link.Works? then Get(t.sessions, sid, now) else None
    {
      var found := store.GetSession(sid, now, call.env.link);
      assert Live(store.Tables(Sessions), sid, now) <==> Live(t.sessions, sid, now);
      return if found.Ok? then found.value else None;
    }

    method WriteSession(sid: string, session: Session, now: int, call: Call, ghost t: Tables) returns (ok: bool)
      requires Mirrors(t) && t.now == now
      modifies store`keyspace
      ensures ok <==> call.env.link.Works?
      ensures Mirrors(Save(cfg, t, sid, session, call.env.link.RequestLost?))
    {
      var err := store.SetSession(sid, session, cfg.sessionTtl, now, call.env.link);
      SavedValues(t.sessions, sid, AsStored(session), cfg.sessionTtl, now);
      return err.None?;
    }

    method ReadPkce(state: string, now: int, call: Call, ghost t: Tables) returns (r: Option<PkceState>)
      requires Mirrors(t) && t.now == now
      ensures r == if call.env.link.Works? then Get(t.pkce, state, now) else None
    {
      var found := store.GetPkce(state, now, call.env.link);
      assert Live(store.Tables(Pkce), state, now) <==> Live(t.pkce, state, now);
      return if found.Ok? then found.value else None;
    }

    method WritePkce(p: PkceState, now: int, call: Call, ghost t: Tables) returns (ok: bool)
      requires Mirrors(t) && t.now == now
      modifies store`keyspace
      ensures ok <==> call.env.link.Works?
      ensures Mirrors(if call.env.link.RequestLost? then t else t.(pkce := Put(t.pkce, p.state, p, cfg.pkceTtl, now)))
      ensures ok ==>
                && p.state in store.Tables(Pkce)
                && store.Tables(Pkce)[p.state] == Entry(OfPkce(p), if cfg.pkceTtl > 0 then Some(now + cfg.pkceTtl) else None)
    {
      var err := store.SetPkce(p.state, p, cfg.pkceTtl, now, call.env.link);
      StoredValues(t.pkce, p, cfg.pkceTtl, now);
      return err.None?;
    }

    method DropPkce(state: string, call: Call, ghost t: Tables)
      requires Mirrors(t)
      modifies store`keyspace
      ensures Mirrors(if call.env.link.RequestLost? then t else t.(pkce := Del(t.pkce, state)))
    {
      var _ := store.DeletePkce(state, call.env.link);
      DroppedValues(t, state);
    }

    method DropSession(sid: string, call: Call, ghost t: Tables)
      requires Mirrors(t)
      modifies store`keyspace
      ensures Mirrors(if call.env.link.RequestLost? then t else t.(sessions := Del(t.sessions, sid)))
    {
      var _ := store.DeleteSession(sid, call.env.link);
      DroppedValues(t, sid);
    }

    method Obtain(sid: string, now: int, call: Call, ghost t: Tables) returns (ok: bool)
      requires Mirrors(t) && t.now == now
      modifies store`keyspace
      ensures ok <==> call.env.link.Works? && !Live(t.locks, sid, now)
      ensures Mirrors(if call.env.link.RequestLost? || Live(t.locks, sid, now) then t
                      else t.(locks := Put(t.locks, sid, (), cfg.lockTtl, now)))
    {
      assert Live(store.Tables(RefreshLocks), sid, now) <==> Live(t.locks, sid, now);
      var r := store.ObtainRefreshLock(sid, cfg.lockTtl, now, call.env.link);
      LeasedValues(t.locks, sid, cfg.lockTtl, now);
      return r == Ok(true);
    }

    method Release(sid: string, call: Call, ghost t: Tables)
      requires Mirrors(t)
      modifies store`keyspace
      ensures Mirrors(Unlock(t, sid, call.env.link.RequestLost?))
    {
      var _ := store.ReleaseRefreshLock(sid, call.env.link);
      DroppedValues(t, sid);
    }

    // ---- Session and Resolve -------------------------------------------------------------

    method Session(cookie: string, now: int, world: World, ghost t: Tables) returns (user: Option<Identity.User>)
      requires Mirrors(t) && t.now == now
      ensures var sid := CookieId(web, cookie);
              var found := if sid.None? then None else FoundAt(Pass(t, world, 0), sid.value, world, 0);
              user == if found.None? then None else Some(Identity.UserOf(found.value))
    {
      if cookie == "" || web.decode(cookie).None? {
        return None;
      }
      var found := ReadSession(web.decode(cookie).value, now + world(0).elapsed, world(0), Pass(t, world, 0));
      if found.None? {
        return None;
      }
      var shown := Identity.SessionToUser(found.value);
      return Some(shown);
    }

    method Resolve(cookie: string, now: int, world: World, ghost t: Tables) returns (r: Result<Resolved, ServiceError>)
      requires Mirrors(t) && t.now == now
      ensures r == Err(NoCookie) <==> cookie == ""
      ensures r == Err(InvalidCookie) <==> cookie != "" && web.decode(cookie).None?
      ensures CookieId(web, cookie).Some? ==>
                var found := FoundAt(Pass(t, world, 0), CookieId(web, cookie).value, world, 0);
                r == if found.None? then Err(SessionNotFound)
                     else Ok(Resolved(found.value.accessToken, found.value.claims, found.value.tenantContext))
    {
      if cookie == "" {
        return Err(NoCookie);
      }
      var sid := web.decode(cookie);
      if sid.None? {
        return Err(InvalidCookie);
      }
      var found := ReadSession(sid.value, now + world(0).elapsed, world(0), Pass(t, world, 0));
      if found.None? {
        return Err(SessionNotFound);
      }
      return Ok(Resolved(found.value.accessToken, found.value.claims, found.value.tenantContext));
    }

    // ---- LoginStart ----------------------------------------------------------------------

    method LoginStart(redirectTo: string, verifierBytes: seq<byte>, nonceBytes: seq<byte>, stateBytes: seq<byte>,
                      now: int, world: World, ghost t: Tables)
      returns (r: Result<string, ServiceError>)
      requires Mirrors(t) && t.now == now
      modifies store`keyspace
      ensures var op := Operation.LoginStart(verifierBytes, nonceBytes, stateBytes, OrBase(web, web.redirect(redirectTo)));
              var first := FirstCall(cfg, op);
              && Mirrors(Serve(cfg, t, op, world))
              && (r.Ok? <==> first.StartStore? && Replies(world, 0)
                             && web.authorizationUrl(first.p.state, first.p.codeChallenge, first.p.nonce).Some?)
              && (r.Ok? ==> r.value == web.authorizationUrl(first.p.state, first.p.codeChallenge, first.p.nonce).value)
      ensures r.Ok? ==>
                && |verifierBytes| == 32 && |nonceBytes| == 16 && |stateBytes| == 24
                && var state, verifier, nonce := RawEncode(stateBytes), RawEncode(verifierBytes), RawEncode(nonceBytes);
                   var challenge := RawEncode(cfg.digest(verifier));
                   && web.authorizationUrl(state, challenge, nonce) == Some(r.value)
                   && state in store.Tables(Pkce)
                   && store.Tables(Pkce)[state]
                      == Entry(OfPkce(PkceState(state, verifier, challenge, nonce, if web.redirect(redirectTo) == "" then web.appBaseUrl else web.redirect(redirectTo))),
                               if cfg.pkceTtl > 0 then Some(now + world(0).elapsed + cfg.pkceTtl) else None)
    {
      var target := web.redirect(redirectTo);
      if target == "" && redirectTo != "" {
        target := web.appBaseUrl;
      }
      if target == "" {
        target := web.appBaseUrl;
      }
      if |verifierBytes| != 32 || |nonceBytes| != 16 || |stateBytes| != 24 {
        return Err(Failed);
      }
      var verifier := RawEncode(verifierBytes);
      var challenge := RawEncode(cfg.digest(verifier));
      var nonce := RawEncode(nonceBytes);
      var state := RawEncode(stateBytes);
      var p := PkceState(state, verifier, challenge, nonce, target);
      assert p == NewPkce(cfg, verifierBytes, nonceBytes, stateBytes, target);
      r := BeginLogin(p, now, world, t);
    }

    // The rest of LoginStart, once the PKCE state has been made.
    method BeginLogin(p: PkceState, now: int, world: World, ghost t: Tables) returns (r: Result<string, ServiceError>)
      requires Mirrors(t) && t.now == now
      modifies store`keyspace
      ensures Mirrors(ServeLoginStart(cfg, t, StartStore(p), world))
      ensures r.Ok? <==> Replies(world, 0) && web.authorizationUrl(p.state, p.codeChallenge, p.nonce).Some?
      ensures r.Ok? ==>
                && web.authorizationUrl(p.state, p.codeChallenge, p.nonce) == Some(r.value)
                && p.state in store.Tables(Pkce)
                && store.Tables(Pkce)[p.state]
                   == Entry(OfPkce(p), if cfg.pkceTtl > 0 then Some(now + world(0).elapsed + cfg.pkceTtl) else None)
    {
      var at := now + world(0).elapsed;
      var ok := WritePkce(p, at, world(0), Pass(t, world, 0));
      if !ok {
        return Err(Failed);
      }
      var url := web.authorizationUrl(p.state, p.codeChallenge, p.nonce);
      return if url.None? then Err(Failed) else Ok(url.value);
    }

    // ---- LoginEnd ------------------------------------------------------------------------

    // The response after a failed login.
    function LoginFailed(): LoginEndResponse {
      LoginEndResponse(web.appBaseUrl + web.loginErrorPath, "", true)
    }

    // The answer to a callback whose PKCE state was found: the error page if the code was not
    // exchanged or the ID token not accepted against the nonce, an error if no session ID could
    // be made or the session not stored with a reply, and else a cookie for the new session.
    predicate Answers(r: Result<LoginEndResponse, ServiceError>, p: PkceState, world: World) {
      var env := world(3).env;
      r == if world(2).env.answer.None? || !Identity.Accepted(env.verified, Audience(cfg), p.nonce) then Ok(LoginFailed())
           else if |env.idBytes| != 24 || !Replies(world, 4) then Err(Failed)
           else Ok(LoginEndResponse(OrBase(web, web.redirect(p.redirectTo)), web.encode(RawEncode(env.idBytes)), false))
    }

    method LoginEnd(failed: bool, state: string, code: string, now: int, world: World, ghost t: Tables)
      returns (r: Result<LoginEndResponse, ServiceError>)
      requires Mirrors(t) && t.now == now
      modifies store`keyspace
      ensures Mirrors(Serve(cfg, t, Operation.LoginEnd(failed, state, code), world))
      ensures match if failed || state == "" || code == "" || !Replies(world, 0) then None else Get(t.pkce, state, t.now + world(0).elapsed)
              case Some(p) =>
                && Answers(r, p, world)
                && (r.Ok? ==> r.value.redirectUrl == if r.value.clearCookie then web.appBaseUrl + web.loginErrorPath
                                                     else if web.redirect(p.redirectTo) == "" then web.appBaseUrl
                                                     else web.redirect(p.redirectTo))
              case None => r == Ok(LoginEndResponse(web.appBaseUrl + web.loginErrorPath, "", true))
      ensures r.Ok? && !r.value.clearCookie ==> SignsIn(r.value.setCookie, world, now)
      ensures r.Ok? && !r.value.clearCookie && !Lost(world, 1) ==> state !in store.Tables(Pkce)
    {
      if failed {
        return Ok(LoginFailed());
      }
      if state == "" || code == "" {
        return Ok(LoginFailed());
      }
      assert Serve(cfg, t, Operation.LoginEnd(failed, state, code), world) == ServeLoginEnd(cfg, t, state, world);
      r := UseState(state, now, world, t);
    }

    // The rest of LoginEnd, once the request has been checked.
    method UseState(state: string, now: int, world: World, ghost t: Tables) returns (r: Result<LoginEndResponse, ServiceError>)
      requires Mirrors(t) && t.now == now
      modifies store`keyspace
      ensures Mirrors(ServeLoginEnd(cfg, t, state, world))
      ensures match if Replies(world, 0) then Get(t.pkce, state, t.now + world(0).elapsed) else None
              case Some(p) => Answers(r, p, world)
              case None => r == Ok(LoginFailed())
      ensures r.Ok? && !r.value.clearCookie ==> SignsIn(r.value.setCookie, world, now)
      ensures r.Ok? && !r.value.clearCookie && !Lost(world, 1) ==> state !in store.Tables(Pkce)
    {
      r := TakeState(state, now, world, t);
      if r.Ok? && !r.value.clearCookie {
        SignedIn(r.value.setCookie, state, Get(t.pkce, state, Clock(now, world, 0)).value, world, t);
      }
    }

    lemma SignedIn(cookie: string, state: string, p: PkceState, world: World, t: Tables)
      requires Mirrors(ServeLoginEnd(cfg, t, state, world))
      requires Replies(world, 0) && Get(t.pkce, state, Clock(t.now, world, 0)) == Some(p)
      requires world(2).env.answer.Some? && Passes(cfg, p, world(3).env) && Replies(world, 4)
      requires cookie == web.encode(RawEncode(world(3).env.idBytes))
      ensures SignsIn(cookie, world, t.now)
      ensures !Lost(world, 1) ==> state !in store.Tables(Pkce)
    {
      var id, tokens, verified := RawEncode(world(3).env.idBytes), world(2).env.answer.value, world(3).env.verified.value;
      LoginEndLeaves(cfg, t, state, p, world, id, tokens, verified);
      MirroredHolds(ServeLoginEnd(cfg, t, state, world), id, LoginRecord(id, tokens, verified, Clock(t.now, world, 3)), Clock(t.now, world, 4));
      assert HoldsLogin(cookie, id, tokens, verified, Clock(t.now, world, 3), Clock(t.now, world, 4));
    }

    lemma MirroredHolds(t: Tables, sid: string, session: Session, at: int)
      requires Mirrors(t) && HasRecord(cfg, t, sid, session, at)
      ensures Holds(sid, session, at)
    {
    }

    // The PKCE state is read, deleted and used.
    method TakeState(state: string, now: int, world: World, ghost t: Tables) returns (r: Result<LoginEndResponse, ServiceError>)
      requires Mirrors(t) && t.now == now
      modifies store`keyspace
      ensures Mirrors(ServeLoginEnd(cfg, t, state, world))
      ensures match if Replies(world, 0) then Get(t.pkce, state, t.now + world(0).elapsed) else None
              case Some(p) => Answers(r, p, world)
              case None => r == Ok(LoginFailed())
    {
      var at := now + world(0).elapsed;
      ghost var t0 := Pass(t, world, 0);
      var found := ReadPkce(state, at, world(0), t0);
      if found.None? {
        return Ok(LoginFailed());
      }
      var p := found.value;
      at := at + world(1).elapsed;
      DropPkce(state, world(1), Pass(t0, world, 1));
      ghost var t1 := if Lost(world, 1) then Pass(t0, world, 1) else Pass(t0, world, 1).(pkce := Del(t.pkce, state));
      r := ExchangeAndSave(p, at, world, t1);
    }

    // The rest of LoginEnd, once the PKCE state has been read and deleted.
    method ExchangeAndSave(p: PkceState, now: int, world: World, ghost t: Tables) returns (r: Result<LoginEndResponse, ServiceError>)
      requires Mirrors(t) && t.now == now
      modifies store`keyspace
      ensures Mirrors(ServeEndExchange(cfg, t, p, world))
      ensures Answers(r, p, world)
    {
      var answer := world(2).env.answer;
      if answer.None? {
        return Ok(LoginFailed());
      }
      r := CheckAndSave(p, answer.value, now + world(2).elapsed, world, Pass(t, world, 2));
    }

    // The rest of LoginEnd, once the code has been exchanged.
    method CheckAndSave(p: PkceState, tokens: Tokens, now: int, world: World, ghost t: Tables) returns (r: Result<LoginEndResponse, ServiceError>)
      requires Mirrors(t) && t.now == now && world(2).env.answer == Some(tokens)
      modifies store`keyspace
      ensures Mirrors(ServeEndValidate(cfg, t, p, tokens, world))
      ensures Answers(r, p, world)
    {
      var audience := cfg.oidcAudience;
      if audience == "" {
        audience := cfg.clientId;
      }
      var at := now + world(3).elapsed;
      ghost var t3 := Pass(t, world, 3);
      var principal := Identity.ValidateIdToken(world(3).env.verified, audience, p.nonce);
      if principal.Err? {
        return Ok(LoginFailed());
      }
      var session := MakeSession(principal.value, tokens, at, world(3).env.idBytes);
      if session.None? {
        return Err(Failed);
      }
      assert session.value == NewSession(RawEncode(world(3).env.idBytes), tokens, world(3).env.verified.value, t3.now);
      r := SaveLogin(p.redirectTo, session.value, at, world, t3);
    }

    // The rest of LoginEnd, once the session has been made.
    method SaveLogin(redirectTo: string, session: Session, now: int, world: World, ghost t: Tables) returns (r: Result<LoginEndResponse, ServiceError>)
      requires Mirrors(t) && t.now == now
      modifies store`keyspace
      ensures Mirrors(ServeEndSave(cfg, t, session, world))
      ensures r == if !Replies(world, 4) then Err(Failed)
                   else Ok(LoginEndResponse(OrBase(web, web.redirect(redirectTo)), web.encode(session.id), false))
    {
      var ok := WriteSession(session.id, session, now + world(4).elapsed, world(4), Pass(t, world, 4));
      if !ok {
        return Err(Failed);
      }
      return Ok(LoginEndResponse(OrBase(web, web.redirect(redirectTo)), web.encode(session.id), false));
    }

    method MakeSession(principal: Identity.Principal, tokens: Tokens, at: int, idBytes: seq<byte>) returns (session: Option<Session>)
      ensures session.None? <==> |idBytes| != 24
      ensures session.Some? ==>
                session.value == SessionModel.Session(RawEncode(idBytes), tokens.accessToken, tokens.refreshToken, tokens.idToken,
                                                      at + (if tokens.expiresIn > 0 then tokens.expiresIn else 24 * 60 * 60),
                                                      Identity.LoginClaims(principal), None)
      ensures session.Some? ==>
                && "sub" in session.value.claims && session.value.claims["sub"] == Text(principal.subject)
                && (principal.roles != [] ==> "roles" in session.value.claims && session.value.claims["roles"] == StringList(principal.roles))
                && forall k :: k != "sub" && (k == "roles" ==> principal.roles == []) ==>
                     (k in session.value.claims <==> k in principal.claims)
                     && (k in principal.claims ==> session.value.claims[k] == principal.claims[k])
    {
      var expiresAt := at + tokens.expiresIn;
      if tokens.expiresIn <= 0 {
        expiresAt := at + 24 * 60 * 60;
      }
      var claims := principal.claims;
      claims := claims["sub" := Text(principal.subject)];
      if principal.roles != [] {
        claims := claims["roles" := StringList(principal.roles)];
      }
      if |idBytes| != 24 {
        return None;
      }
      return Some(SessionModel.Session(RawEncode(idBytes), tokens.accessToken, tokens.refreshToken, tokens.idToken, expiresAt, claims, None));
    }

    // ---- Refresh -------------------------------------------------------------------------

    method Refresh(cookie: string, now: int, world: World, ghost t: Tables) returns (r: Result<RefreshResponse, ServiceError>)
      requires Mirrors(t) && t.now == now
      modifies store`keyspace
      ensures Mirrors(Serve(cfg, t, Operation.Refresh(CookieId(web, cookie)), world))
      ensures r == Err(NoCookie) <==> cookie == ""
      ensures r == Err(InvalidCookie) <==> cookie != "" && web.decode(cookie).None?
      ensures CookieId(web, cookie).Some? ==> r == RefreshAnswer(Pass(t, world, 0), CookieId(web, cookie).value, world)
      ensures CookieId(web, cookie).Some? ==>
                forall base :: Refreshable(t, CookieId(web, cookie).value, world, base) && base.expiresAt > Clock(now, world, 0) + cfg.refreshEarly ==>
                  r == Ok(RefreshResponse("", false)) && Mirrors(t)
      ensures CookieId(web, cookie).Some? ==>
                forall base, tokens :: Refreshes(cfg, t, CookieId(web, cookie).value, world, base, tokens) ==>
                  && r == Ok(RefreshResponse(web.encode(CookieId(web, cookie).value), true))
                  && Holds(CookieId(web, cookie).value,
                           RefreshRecord(base, tokens, AcceptedClaims(cfg, tokens, world(2).env.verified), Clock(now, world, 2)), Clock(now, world, 3))
                  && (Replies(world, 4) ==> CookieId(web, cookie).value !in store.Tables(RefreshLocks))
      ensures r.Ok? && r.value.refreshed ==>
                CookieId(web, cookie).Some? && exists base, tokens :: Refreshes(cfg, t, CookieId(web, cookie).value, world, base, tokens)
    {
      assert Serve(cfg, t, Operation.Refresh(None), world) == t;
      if cookie == "" {
        return Err(NoCookie);
      }
      var decoded := web.decode(cookie);
      if decoded.None? {
        return Err(InvalidCookie);
      }
      assert Serve(cfg, t, Operation.Refresh(decoded), world) == ServeRefresh(cfg, t, decoded.value, world);
      r := RefreshSession(decoded.value, now, world, t);
      DueOrNot(r, decoded.value, world, t);
    }

    // The answer to a refresh with a valid cookie, given what its read finds.
    function RefreshAnswer(t: Tables, sid: string, world: World): Result<RefreshResponse, ServiceError> {
      match FoundAt(t, sid, world, 0)
      case None => Err(SessionNotFound)
      case Some(base) =>
        if base.refreshToken == "" then Err(NoRefreshToken)
        else if !NeedsRefresh(base, t.now, cfg.refreshEarly) then Ok(RefreshResponse("", false))
        else RefreshOutcome(t, sid, world)
    }

    lemma RefreshedExactly(sid: string, world: World, t: Tables, base: Session)
      requires Refreshable(t, sid, world, base)
      ensures base.expiresAt > Clock(t.now, world, 0) + cfg.refreshEarly ==> RefreshAnswer(Pass(t, world, 0), sid, world) == Ok(RefreshResponse("", false))
      ensures RefreshAnswer(Pass(t, world, 0), sid, world) == Ok(RefreshResponse(web.encode(sid), true)) <==>
              exists tokens :: Refreshes(cfg, t, sid, world, base, tokens)
    {
      PassClock(t.now, t, world, 0);
      PassClock(t.now, t.(now := Clock(t.now, world, 0)), world, 1);
      if RefreshAnswer(Pass(t, world, 0), sid, world) == Ok(RefreshResponse(web.encode(sid), true)) {
        assert Refreshes(cfg, t, sid, world, base, world(2).env.answer.value);
      }
    }

    lemma RefreshHolds(sid: string, world: World, t: Tables, base: Session, tokens: Tokens)
      requires Mirrors(ServeRefresh(cfg, t, sid, world)) && Refreshes(cfg, t, sid, world, base, tokens)
      ensures Holds(sid, RefreshRecord(base, tokens, AcceptedClaims(cfg, tokens, world(2).env.verified), Clock(t.now, world, 2)), Clock(t.now, world, 3))
      ensures Replies(world, 4) ==> sid !in store.Tables(RefreshLocks)
    {
      RefreshLeaves(cfg, t, sid, world, base, tokens);
      MirroredHolds(ServeRefresh(cfg, t, sid, world), sid,
                    RefreshRecord(base, tokens, AcceptedClaims(cfg, tokens, world(2).env.verified), Clock(t.now, world, 2)), Clock(t.now, world, 3));
    }

    lemma DueOrNot(r: Result<RefreshResponse, ServiceError>, sid: string, world: World, t: Tables)
      requires Mirrors(ServeRefresh(cfg, t, sid, world)) && r == RefreshAnswer(Pass(t, world, 0), sid, world)
      ensures forall base :: Refreshable(t, sid, world, base) && base.expiresAt > Clock(t.now, world, 0) + cfg.refreshEarly ==>
                r == Ok(RefreshResponse("", false)) && Mirrors(t)
      ensures forall base, tokens :: Refreshes(cfg, t, sid, world, base, tokens) ==>
                && r == Ok(RefreshResponse(web.encode(sid), true))
                && Holds(sid, RefreshRecord(base, tokens, AcceptedClaims(cfg, tokens, world(2).env.verified), Clock(t.now, world, 2)), Clock(t.now, world, 3))
                && (Replies(world, 4) ==> sid !in store.Tables(RefreshLocks))
      ensures r.Ok? && r.value.refreshed ==> exists base, tokens :: Refreshes(cfg, t, sid, world, base, tokens)
    {
      forall base | Refreshable(t, sid, world, base) && base.expiresAt > Clock(t.now, world, 0) + cfg.refreshEarly
        ensures r == Ok(RefreshResponse("", false)) && Mirrors(t)
      {
        RefreshedExactly(sid, world, t, base);
        NotDueLeavesAll(cfg, t, sid, world, base);
      }
      forall base, tokens | Refreshes(cfg, t, sid, world, base, tokens)
        ensures r == Ok(RefreshResponse(web.encode(sid), true))
        ensures Holds(sid, RefreshRecord(base, tokens, AcceptedClaims(cfg, tokens, world(2).env.verified), Clock(t.now, world, 2)), Clock(t.now, world, 3))
        ensures Replies(world, 4) ==> sid !in store.Tables(RefreshLocks)
      {
        RefreshedExactly(sid, world, t, base);
        RefreshHolds(sid, world, t, base, tokens);
      }
      if r.Ok? && r.value.refreshed {
        PassClock(t.now, t, world, 0);
        RefreshedExactly(sid, world, t, FoundAt(Pass(t, world, 0), sid, world, 0).value);
      }
    }

    // The rest of Refresh, once the cookie has been decoded.
    method RefreshSession(sid: string, now: int, world: World, ghost t: Tables) returns (r: Result<RefreshResponse, ServiceError>)
      requires Mirrors(t) && t.now == now
      modifies store`keyspace
      ensures Mirrors(ServeRefresh(cfg, t, sid, world))
      ensures r == RefreshAnswer(Pass(t, world, 0), sid, world)
    {
      var at := now + world(0).elapsed;
      ghost var t0 := Pass(t, world, 0);
      var found := ReadSession(sid, at, world(0), t0);
      if found.None? {
        return Err(SessionNotFound);
      }
      var session := found.value;
      if session.refreshToken == "" {
        return Err(NoRefreshToken);
      }
      if !NeedsRefresh(session, at, cfg.refreshEarly) {
        return Ok(RefreshResponse("", false));
      }
      r := RefreshUnderLock(sid, session, at, world, t0);
    }

    // The answer of a refresh that is due: refreshed exactly when the lock was free, the
    // provider answered and both the lock and the record were stored with a reply.
    function RefreshOutcome(t: Tables, sid: string, world: World): Result<RefreshResponse, ServiceError> {
      if !Replies(world, 1) || Live(t.locks, sid, t.now + world(1).elapsed) then Ok(RefreshResponse("", false))
      else if world(2).env.answer.None? || !Replies(world, 3) then Err(Failed)
      else Ok(RefreshResponse(web.encode(sid), true))
    }

    method RefreshUnderLock(sid: string, session: Session, now: int, world: World, ghost t: Tables)
      returns (r: Result<RefreshResponse, ServiceError>)
      requires Mirrors(t) && t.now == now
      modifies store`keyspace
      ensures Mirrors(ServeObtain(cfg, t, sid, session, world))
      ensures r == RefreshOutcome(t, sid, world)
    {
      var at := now + world(1).elapsed;
      ghost var t1 := Pass(t, world, 1);
      var ok := Obtain(sid, at, world(1), t1);
      if !ok {
        return Ok(RefreshResponse("", false));
      }
      var saved := CallAndSave(sid, session, at, world, t1.(locks := Put(t1.locks, sid, (), cfg.lockTtl, at)));
      return if saved then Ok(RefreshResponse(web.encode(sid), true)) else Err(Failed);
    }

    method CallAndSave(sid: string, base: Session, now: int, world: World, ghost t: Tables) returns (saved: bool)
      requires Mirrors(t) && t.now == now
      modifies store`keyspace
      ensures Mirrors(ServeRefreshCall(cfg, t, sid, base, world))
      ensures saved <==> world(2).env.answer.Some? && Replies(world, 3)
    {
      var at := now + world(2).elapsed;
      ghost var t2 := Pass(t, world, 2);
      var answer := world(2).env.answer;
      if answer.None? {
        Release(sid, world(3), Pass(t2, world, 3));
        return false;
      }
      var session := UpdateSession(base, answer.value, world(2).env.verified, at);
      saved := SaveAndRelease(sid, session, at, world, t2);
    }

    method SaveAndRelease(sid: string, session: Session, now: int, world: World, ghost t: Tables) returns (saved: bool)
      requires Mirrors(t) && t.now == now
      modifies store`keyspace
      ensures Mirrors(ServeRefreshSave(cfg, t, sid, session, world))
      ensures saved <==> Replies(world, 3)
    {
      ghost var t3 := Pass(t, world, 3);
      saved := WriteSession(sid, session, now + world(3).elapsed, world(3), t3);
      Release(sid, world(4), Pass(Save(cfg, t3, sid, session, Lost(world, 3)), world, 4));
    }

    method UpdateSession(base: Session, tokens: Tokens, verified: Option<Claims>, at: int) returns (session: Session)
      ensures session == RefreshedSession(base, tokens, AcceptedClaims(cfg, tokens, verified), at)
      ensures session.id == base.id && session.tenantContext == base.tenantContext && session.accessToken == tokens.accessToken
      ensures session.expiresAt == at + (if tokens.expiresIn > 0 then tokens.expiresIn else 24 * 60 * 60)
      ensures session.refreshToken == (if tokens.refreshToken != "" then tokens.refreshToken else base.refreshToken)
      ensures session.idToken == (if tokens.idToken != "" then tokens.idToken else base.idToken)
      ensures var audience := if cfg.oidcAudience != "" then cfg.oidcAudience else cfg.clientId;
              session.claims == if tokens.idToken != "" && verified.Some? && (audience == "" || Names(verified.value, audience))
                                then verified.value else base.claims
    {
      var expiresAt := at + tokens.expiresIn;
      if tokens.expiresIn <= 0 {
        expiresAt := at + 24 * 60 * 60;
      }
      session := base.(accessToken := tokens.accessToken, expiresAt := expiresAt);
      if tokens.refreshToken != "" {
        session := session.(refreshToken := tokens.refreshToken);
      }
      if tokens.idToken != "" {
        session := session.(idToken := tokens.idToken);
        var audience := cfg.oidcAudience;
        if audience == "" {
          audience := cfg.clientId;
        }
        var principal := Identity.ValidateIdToken(verified, audience, "");
        if principal.Ok? {
          session := session.(claims := principal.value.claims);
        }
      }
    }

    // ---- Logout --------------------------------------------------------------------------

    // The app's URL without a final slash.
    predicate IsBase(base: string) {
      web.appBaseUrl == base + "/" || (web.appBaseUrl == base && (base == "" || base[|base| - 1] != '/'))
    }

    // The origin check of Logout; the guard and the strict check are as the code has them.
    method CheckOrigin(origin: string, referer: string) returns (ok: bool)
      ensures ok <==> OriginPasses(web, origin, referer)
      ensures forall base: string :: IsBase(base) ==>
                (ok <==>
                 || origin == "" || origin == base
                 || exists i :: 0 <= i < |web.allowedOrigins|
                                && (origin == web.allowedOrigins[i] || referer == web.allowedOrigins[i] || base + "/" <= referer))
    {
      if origin != "" || referer != "" {
        var allowed := false;
        var base := TrimSlash(web.appBaseUrl);
        var i := 0;
        while i < |web.allowedOrigins| && !allowed
          invariant 0 <= i <= |web.allowedOrigins|
          invariant allowed <==> exists j :: 0 <= j < i && Admits(web.allowedOrigins[j], base, origin, referer)
        {
          var o := web.allowedOrigins[i];
          if origin == o || referer == o || referer == base + "/" || base + "/" <= referer {
            allowed := true;
          }
          i := i + 1;
        }
        if !allowed && origin != base && origin != "" {
          return false;
        }
      }
      return true;
    }

    method Logout(cookie: string, redirectTo: string, origin: string, referer: string, now: int, world: World, ghost t: Tables)
      returns (r: Result<string, ServiceError>)
      requires Mirrors(t) && t.now == now
      modifies store`keyspace
      ensures Mirrors(Serve(cfg, t, Operation.Logout(OriginPasses(web, origin, referer), CookieId(web, cookie)), world))
      ensures r == Err(OriginRefused) <==> !OriginPasses(web, origin, referer)
      ensures r.Ok? || r == Err(OriginRefused)
      ensures r.Ok? ==>
                var sid := CookieId(web, cookie);
                var found := if sid.None? || sid.value == "" then None else FoundAt(Pass(t, world, 0), sid.value, world, 0);
                var target := if web.redirect(redirectTo) == "" then web.appBaseUrl else web.redirect(redirectTo);
                var url := web.endSessionUrl(if found.None? then "" else found.value.idToken, target);
                r.value == if url.None? || url.value == "" then target else url.value
      ensures r.Ok? && CookieId(web, cookie).Some? && CookieId(web, cookie).value != "" && Replies(world, 0) && Replies(world, 1) ==>
                !Live(store.Tables(Sessions), CookieId(web, cookie).value, now + world(0).elapsed)
    {
      var passes := CheckOrigin(origin, referer);
      if !passes {
        return Err(OriginRefused);
      }
      var target := web.redirect(redirectTo);
      if target == "" {
        target := web.appBaseUrl;
      }
      var sid := "";
      if cookie != "" && web.decode(cookie).Some? {
        sid := web.decode(cookie).value;
      }
      var idTokenHint := "";
      if sid != "" {
        idTokenHint := EndSession(sid, now, world, t);
      }
      var url := web.endSessionUrl(idTokenHint, target);
      return Ok(if url.None? || url.value == "" then target else url.value);
    }

    method EndSession(sid: string, now: int, world: World, ghost t: Tables) returns (idTokenHint: string)
      requires Mirrors(t) && t.now == now
      modifies store`keyspace
      ensures Mirrors(ServeLogout(t, sid, world))
      ensures var found := FoundAt(Pass(t, world, 0), sid, world, 0);
              idTokenHint == if found.None? then "" else found.value.idToken
      ensures Replies(world, 0) && Replies(world, 1) ==> !Live(store.Tables(Sessions), sid, now + world(0).elapsed)
    {
      idTokenHint := "";
      ghost var t0 := Pass(t, world, 0);
      var found := ReadSession(sid, now + world(0).elapsed, world(0), t0);
      if found.Some? {
        idTokenHint := found.value.idToken;
        DropSession(sid, world(1), Pass(t0, world, 1));
      }
    }

    // ---- AttachTenantContext -------------------------------------------------------------

    method AttachTenantContext(sid: string, tenant: Option<TenantContext>, now: int, world: World, ghost t: Tables)
      returns (err: Option<ServiceError>)
      requires Mirrors(t) && t.now == now
      modifies store`keyspace
      ensures Mirrors(Serve(cfg, t, Attach(sid, tenant), world))
      ensures err == Some(BadRequest) <==> sid == "" || tenant.None?
      ensures err == Some(SessionNotFound) <==> sid != "" && tenant.Some? && FoundAt(Pass(t, world, 0), sid, world, 0).None?
      ensures err.None? <==> sid != "" && tenant.Some? && FoundAt(Pass(t, world, 0), sid, world, 0).Some? && Replies(world, 1)
      ensures err.None? ==>
                Holds(sid, AsStored(Get(t.sessions, sid, now + world(0).elapsed).value.(tenantContext := tenant)),
                      now + world(0).elapsed + world(1).elapsed)
    {
      if sid == "" || tenant.None? {
        return Some(BadRequest);
      }
      assert Serve(cfg, t, Attach(sid, tenant), world) == ServeAttach(cfg, t, sid, tenant.value, world);
      err := AttachTo(sid, tenant.value, now, world, t);
      if err.None? {
        assert ServeAttach(cfg, t, sid, tenant.value, world).sessions[sid]
            == Entry(AsStored(Get(t.sessions, sid, now + world(0).elapsed).value.(tenantContext := tenant)),
                     if cfg.sessionTtl > 0 then Some(now + world(0).elapsed + world(1).elapsed + cfg.sessionTtl) else None);
      }
    }

    // The rest of AttachTenantContext, once the request has been checked.
    method AttachTo(sid: string, tenant: TenantContext, now: int, world: World, ghost t: Tables) returns (err: Option<ServiceError>)
      requires Mirrors(t) && t.now == now
      modifies store`keyspace
      ensures Mirrors(ServeAttach(cfg, t, sid, tenant, world))
      ensures err == if FoundAt(Pass(t, world, 0), sid, world, 0).None? then Some(SessionNotFound)
                     else if Replies(world, 1) then None else Some(Failed)
    {
      var at := now + world(0).elapsed;
      ghost var t0 := Pass(t, world, 0);
      var found := ReadSession(sid, at, world(0), t0);
      if found.None? {
        return Some(SessionNotFound);
      }
      var session := found.value.(tenantContext := Some(tenant));
      var ok := WriteSession(sid, session, at + world(1).elapsed, world(1), Pass(t0, world, 1));
      return if ok then None else Some(Failed);
    }
  }
}
