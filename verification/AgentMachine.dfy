// The agent's login, refresh and logout protocol (internal/agent/service/service.go) as a
// state machine. Every store command and every provider call is one step; the local code
// around it belongs to that step. Workers interleave in any way and time passes between steps.
module AgentMachine {
  import opened Wrappers
  import opened Kv
  import opened Json
  import opened SessionModel
  import opened Identity
  import opened Base64

  type Worker = nat

  // Digest is SHA-256, as an arbitrary function.
  datatype Config = Config(
    sessionTtl: int,
    pkceTtl: int,
    lockTtl: int,
    refreshEarly: int,
    oidcAudience: string,
    clientId: string,
    digest: string -> seq<byte>)

  function Audience(c: Config): string {
    if c.oidcAudience == "" then c.clientId else c.oidcAudience
  }

  // The provider's token response.
  datatype Tokens = Tokens(accessToken: string, refreshToken: string, idToken: string, expiresIn: int)

  // A response without a lifetime counts for a day.
  function ExpiryOf(t: Tokens, now: int): int {
    if t.expiresIn <= 0 then now + 86400 else now + t.expiresIn
  }

  // GeneratePKCE and GenerateState on the bytes that the random source delivers.
  function Challenge(c: Config, verifier: string): string {
    RawEncode(c.digest(verifier))
  }

  function NewPkce(c: Config, verifierBytes: seq<byte>, nonceBytes: seq<byte>, stateBytes: seq<byte>, redirectTo: string): PkceState {
    var verifier := RawEncode(verifierBytes);
    PkceState(RawEncode(stateBytes), verifier, Challenge(c, verifier), RawEncode(nonceBytes), redirectTo)
  }

  // ------------------------------------------------------------------------------------
  // Operations and where a worker is in one
  // ------------------------------------------------------------------------------------

  // A cookie that does not decode gives no session ID.
  datatype Operation =
    | LoginStart(verifierBytes: seq<byte>, nonceBytes: seq<byte>, stateBytes: seq<byte>, redirectTo: string)
    | LoginEnd(failed: bool, state: string, code: string)
    | Refresh(cookie: Option<string>)
    | Logout(passesOriginCheck: bool, cookie: Option<string>)
    | Attach(sid: string, tenant: Option<TenantContext>)
    | Read(cookie: Option<string>)

  // Named after the call that comes next. `since` is when the refresh lock was obtained and
  // `base` the record an update started from. `read`, `exchange`, `check` and `call` are
  // positions in the log: of the read, exchange, check or refresh that the data comes from.
  datatype Local =
    | Idle
    | StartStore(p: PkceState)
    | StartUrl(p: PkceState)
    | EndGet(state: string, code: string)
    | EndDelete(state: string, code: string, p: PkceState, read: nat)
    | EndExchange(state: string, code: string, p: PkceState, read: nat)
    | EndValidate(state: string, p: PkceState, exchange: nat, tokens: Tokens)
    | EndSave(state: string, check: nat, session: Session)
    | RefreshGet(sid: string)
    | RefreshObtain(sid: string, base: Session, read: nat)
    | RefreshCall(sid: string, base: Session, read: nat, since: int)
    | RefreshSave(sid: string, call: nat, session: Session, since: int)
    | RefreshRelease(sid: string, since: int)
    | LogoutGet(sid: string)
    | LogoutDelete(sid: string)
    | AttachGet(sid: string, tenant: TenantContext)
    | AttachSave(sid: string, read: nat, session: Session)
    | ReadGet(sid: string)

  // What an observer of the store and of the provider could note, in order and with the
  // time. A command that has no effect and shows nothing leaves no event.
  datatype Event =
    | Stored(p: PkceState, at: int)
    | UrlBuilt(p: PkceState, at: int)
    | Recalled(state: string, found: Option<PkceState>, at: int)
    | Dropped(state: string, at: int)
    | Exchanged(state: string, code: string, read: nat, verifier: string, answer: Option<Tokens>, at: int)
    | Checked(exchange: nat, nonce: string, verified: Option<Claims>, at: int)
    | Created(check: nat, session: Session, at: int)
    | Leased(sid: string, at: int)
    | Presented(sid: string, read: nat, refreshToken: string, answer: Option<Tokens>, verified: Option<Claims>, at: int)
    | Renewed(sid: string, call: nat, session: Session, at: int)
    | Released(sid: string, at: int)
    | Attached(sid: string, read: nat, session: Session, at: int)
    | Looked(sid: string, record: Option<Session>, at: int)
    | LoggedOut(sid: string, at: int)

  datatype State = State(
    now: int,
    sessions: Table<Session>,
    pkce: Table<PkceState>,
    locks: Table<()>,
    workers: map<Worker, Local>,
    log: seq<Event>)

  // What the world answers in one step; a step uses what its call needs.
  datatype Env = Env(link: Link, answer: Option<Tokens>, verified: Option<Claims>, idBytes: seq<byte>)

  datatype Action =
    | Tick(elapsed: nat)
    | Begin(w: Worker, op: Operation)
    | Step(w: Worker, env: Env)

  function LocalOf(s: State, w: Worker): Local {
    if w in s.workers then s.workers[w] else Idle
  }

  // The checks before the first call of an operation.
  function FirstCall(c: Config, op: Operation): Local {
    match op
    case LoginStart(v, n, st, redirectTo) =>
      if |v| == 32 && |n| == 16 && |st| == 24 then StartStore(NewPkce(c, v, n, st, redirectTo)) else Idle
    case LoginEnd(failed, state, code) => if failed || state == "" || code == "" then Idle else EndGet(state, code)
    case Refresh(cookie) => if cookie.None? then Idle else RefreshGet(cookie.value)
    case Logout(passes, cookie) => if !passes || cookie.None? || cookie.value == "" then Idle else LogoutGet(cookie.value)
    case Attach(sid, tenant) => if sid == "" || tenant.None? then Idle else AttachGet(sid, tenant.value)
    case Read(cookie) => if cookie.None? then Idle else ReadGet(cookie.value)
  }

  // ------------------------------------------------------------------------------------
  // One step
  // ------------------------------------------------------------------------------------

  datatype Effect = Effect(sessions: Table<Session>, pkce: Table<PkceState>, locks: Table<()>, next: Local, event: Option<Event>)

  function Quiet(s: State, next: Local, event: Option<Event>): Effect {
    Effect(s.sessions, s.pkce, s.locks, next, event)
  }

  // The session LoginEnd builds from an accepted ID token.
  function NewSession(id: string, t: Tokens, claims: Claims, now: int): Session {
    Session(id, t.accessToken, t.refreshToken, t.idToken, ExpiryOf(t, now), LoginClaims(PrincipalOf(claims)), None)
  }

  // The claims of a new ID token, if there is one and it is accepted. No nonce is expected.
  function AcceptedClaims(c: Config, t: Tokens, verified: Option<Claims>): Option<Claims> {
    if t.idToken != "" && Accepted(verified, Audience(c), "") then verified else None
  }

  // The session Refresh builds; a new ID token that is not accepted is kept, its claims are not.
  function RefreshedSession(base: Session, t: Tokens, accepted: Option<Claims>, now: int): Session {
    base.(accessToken := t.accessToken,
          expiresAt := ExpiryOf(t, now),
          refreshToken := if t.refreshToken != "" then t.refreshToken else base.refreshToken,
          idToken := if t.idToken != "" then t.idToken else base.idToken,
          claims := if accepted.Some? then accepted.value else base.claims)
  }

  function AttachedSession(base: Session, tenant: TenantContext): Session {
    base.(tenantContext := Some(tenant))
  }

  function Saved(s: State, c: Config, sid: string, session: Session, link: Link): Table<Session> {
    if link.RequestLost? then s.sessions else Put(s.sessions, sid, AsStored(session), c.sessionTtl, s.now)
  }

  function FoundSession(s: State, sid: string, link: Link): Option<Session> {
    if link.Works? then Get(s.sessions, sid, s.now) else None
  }

  // A read that fails shows nothing.
  function Look(s: State, sid: string, link: Link): Option<Event> {
    if link.Works? then Some(Looked(sid, Get(s.sessions, sid, s.now), s.now)) else None
  }

  function Wrote(link: Link, event: Event): Option<Event> {
    if link.RequestLost? then None else Some(event)
  }

  predicate InLoginStart(l: Local) { l.StartStore? || l.StartUrl? }
  predicate InLoginEnd(l: Local) { l.EndGet? || l.EndDelete? || l.EndExchange? || l.EndValidate? || l.EndSave? }
  predicate InRefresh(l: Local) { l.RefreshGet? || l.RefreshObtain? || l.RefreshCall? || l.RefreshSave? || l.RefreshRelease? }
  predicate InLogout(l: Local) { l.LogoutGet? || l.LogoutDelete? }
  predicate InAttach(l: Local) { l.AttachGet? || l.AttachSave? }

  function LoginStartStep(c: Config, s: State, l: Local, env: Env): Effect
    requires InLoginStart(l)
  {
    match l
    case StartStore(p) =>
      if env.link.RequestLost? then Quiet(s, Idle, None)
      else Effect(s.sessions, Put(s.pkce, p.state, p, c.pkceTtl, s.now), s.locks,
                  if env.link.Works? then StartUrl(p) else Idle, Some(Stored(p, s.now)))
    case StartUrl(p) => Quiet(s, Idle, Some(UrlBuilt(p, s.now)))
  }

  function LoginEndStep(c: Config, s: State, l: Local, env: Env): Effect
    requires InLoginEnd(l)
  {
    match l
    case EndGet(state, code) =>
      if !env.link.Works? then Quiet(s, Idle, None)
      else
        var found := Get(s.pkce, state, s.now);
        Quiet(s, if found.None? then Idle else EndDelete(state, code, found.value, |s.log|), Some(Recalled(state, found, s.now)))
    case EndDelete(state, code, p, read) =>
      Effect(s.sessions, if env.link.RequestLost? then s.pkce else Del(s.pkce, state), s.locks, EndExchange(state, code, p, read),
             Wrote(env.link, Dropped(state, s.now)))
    case EndExchange(state, code, p, read) =>
      Quiet(s, if env.answer.None? then Idle else EndValidate(state, p, |s.log|, env.answer.value),
            Some(Exchanged(state, code, read, p.codeVerifier, env.answer, s.now)))
    case EndValidate(state, p, exchange, t) =>
      Quiet(s, if !Accepted(env.verified, Audience(c), p.nonce) || |env.idBytes| != 24 then Idle
               else EndSave(state, |s.log|, NewSession(RawEncode(env.idBytes), t, env.verified.value, s.now)),
            Some(Checked(exchange, p.nonce, env.verified, s.now)))
    case EndSave(_, check, session) =>
      Effect(Saved(s, c, session.id, session, env.link), s.pkce, s.locks, Idle, Wrote(env.link, Created(check, session, s.now)))
  }

  function RefreshStep(c: Config, s: State, l: Local, env: Env): Effect
    requires InRefresh(l)
  {
    match l
    case RefreshGet(sid) =>
      (match FoundSession(s, sid, env.link)
       case None => Quiet(s, Idle, Look(s, sid, env.link))
       case Some(base) =>
         Quiet(s, if base.refreshToken == "" || !NeedsRefresh(base, s.now, c.refreshEarly) then Idle
                  else RefreshObtain(sid, base, |s.log|),
               Look(s, sid, env.link)))
    case RefreshObtain(sid, base, read) =>
      if Live(s.locks, sid, s.now) || env.link.RequestLost? then Quiet(s, Idle, None)
      else Effect(s.sessions, s.pkce, Put(s.locks, sid, (), c.lockTtl, s.now),
                  if env.link.Works? then RefreshCall(sid, base, read, s.now) else Idle, Some(Leased(sid, s.now)))
    case RefreshCall(sid, base, read, since) =>
      Quiet(s,
            (match env.answer
             case None => RefreshRelease(sid, since)
             case Some(t) =>
               RefreshSave(sid, |s.log|, RefreshedSession(base, t, AcceptedClaims(c, t, env.verified), s.now), since)),
            Some(Presented(sid, read, base.refreshToken, env.answer, env.verified, s.now)))
    case RefreshSave(sid, call, session, since) =>
      Effect(Saved(s, c, sid, session, env.link), s.pkce, s.locks, RefreshRelease(sid, since),
             Wrote(env.link, Renewed(sid, call, session, s.now)))
    case RefreshRelease(sid, since) =>
      Effect(s.sessions, s.pkce, if env.link.RequestLost? then s.locks else Del(s.locks, sid), Idle,
             Wrote(env.link, Released(sid, s.now)))
  }

  // A Logout whose read fails or finds nothing deletes nothing.
  function LogoutStep(s: State, l: Local, env: Env): Effect
    requires InLogout(l)
  {
    match l
    case LogoutGet(sid) =>
      Quiet(s, if FoundSession(s, sid, env.link).Some? then LogoutDelete(sid) else Idle, Look(s, sid, env.link))
    case LogoutDelete(sid) =>
      Effect(if env.link.RequestLost? then s.sessions else Del(s.sessions, sid), s.pkce, s.locks, Idle,
             Wrote(env.link, LoggedOut(sid, s.now)))
  }

  function AttachStep(c: Config, s: State, l: Local, env: Env): Effect
    requires InAttach(l)
  {
    match l
    case AttachGet(sid, tenant) =>
      (match FoundSession(s, sid, env.link)
       case None => Quiet(s, Idle, Look(s, sid, env.link))
       case Some(base) => Quiet(s, AttachSave(sid, |s.log|, AttachedSession(base, tenant)), Look(s, sid, env.link)))
    case AttachSave(sid, read, session) =>
      Effect(Saved(s, c, sid, session, env.link), s.pkce, s.locks, Idle, Wrote(env.link, Attached(sid, read, session, s.now)))
  }

  function StepOf(c: Config, s: State, l: Local, env: Env): Effect {
    if InLoginStart(l) then LoginStartStep(c, s, l, env)
    else if InLoginEnd(l) then LoginEndStep(c, s, l, env)
    else if InRefresh(l) then RefreshStep(c, s, l, env)
    else if InLogout(l) then LogoutStep(s, l, env)
    else if InAttach(l) then AttachStep(c, s, l, env)
    else if l.ReadGet? then Quiet(s, Idle, Look(s, l.sid, env.link))
    else Quiet(s, Idle, None)
  }

  function Logged(log: seq<Event>, event: Option<Event>): seq<Event> {
    if event.Some? then log + [event.value] else log
  }

  function Commit(s: State, w: Worker, e: Effect): State {
    State(s.now, e.sessions, e.pkce, e.locks, s.workers[w := e.next], Logged(s.log, e.event))
  }

  // An operation begins only when its worker is idle.
  function Apply(c: Config, s: State, a: Action): State {
    match a
    case Tick(elapsed) => s.(now := s.now + elapsed)
    case Begin(w, op) => if LocalOf(s, w) != Idle then s else s.(workers := s.workers[w := FirstCall(c, op)])
    case Step(w, env) => Commit(s, w, StepOf(c, s, LocalOf(s, w), env))
  }

  function Run(c: Config, s: State, actions: seq<Action>): State
    decreases |actions|
  {
    if actions == [] then s else Run(c, Apply(c, s, actions[0]), actions[1..])
  }

  function Start(now: int): State {
    State(now, map[], map[], map[], map[], [])
  }
}
