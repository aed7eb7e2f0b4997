// What each operation of the agent's service (internal/agent/service/service.go) does to the
// store's tables from its first call to its last, and that one worker of the state machine
// does just that when it takes its steps one after another.
module OneWorker {
  import opened Wrappers
  import opened Kv
  import opened Base64
  import opened SessionModel
  import Identity
  import opened AgentMachine

  // The n-th store or provider call of an operation: how long after the previous one it
  // takes place and what the world answers.
  datatype Call = Call(elapsed: nat, env: Env)

  type World = nat -> Call

  // ------------------------------------------------------------------------------------
  // What each operation does to the tables, call by call
  // ------------------------------------------------------------------------------------

  datatype Tables = Tables(now: int, sessions: Table<Session>, pkce: Table<PkceState>, locks: Table<()>)

  function Pass(t: Tables, world: World, n: nat): Tables {
    t.(now := t.now + world(n).elapsed)
  }

  function Lost(world: World, n: nat): bool {
    world(n).env.link.RequestLost?
  }

  function Replies(world: World, n: nat): bool {
    world(n).env.link.Works?
  }

  function Save(c: Config, t: Tables, sid: string, session: Session, lost: bool): Tables {
    if lost then t else t.(sessions := Put(t.sessions, sid, AsStored(session), c.sessionTtl, t.now))
  }

  function Unlock(t: Tables, sid: string, lost: bool): Tables {
    if lost then t else t.(locks := Del(t.locks, sid))
  }

  function FoundAt(t: Tables, sid: string, world: World, n: nat): Option<Session> {
    if Replies(world, n) then Get(t.sessions, sid, t.now) else None
  }

  function ServeLoginStart(c: Config, before: Tables, first: Local, world: World): Tables
    requires first.StartStore?
  {
    var t := Pass(before, world, 0);
    if Lost(world, 0) then t
    else
      var stored := t.(pkce := Put(t.pkce, first.p.state, first.p, c.pkceTtl, t.now));
      if Replies(world, 0) then Pass(stored, world, 1) else stored
  }

  function ServeEndSave(c: Config, before: Tables, session: Session, world: World): Tables {
    Save(c, Pass(before, world, 4), session.id, session, Lost(world, 4))
  }

  // The ID token is accepted against the login's nonce, and the session gets its ID.
  predicate Passes(c: Config, p: PkceState, env: Env) {
    Identity.Accepted(env.verified, Audience(c), p.nonce) && |env.idBytes| == 24
  }

  function ServeEndValidate(c: Config, before: Tables, p: PkceState, tokens: Tokens, world: World): Tables {
    var t := Pass(before, world, 3);
    var env := world(3).env;
    if !Passes(c, p, env) then t
    else ServeEndSave(c, t, NewSession(RawEncode(env.idBytes), tokens, env.verified.value, t.now), world)
  }

  function ServeEndExchange(c: Config, before: Tables, p: PkceState, world: World): Tables {
    var t := Pass(before, world, 2);
    if world(2).env.answer.None? then t else ServeEndValidate(c, t, p, world(2).env.answer.value, world)
  }

  function ServeEndDelete(c: Config, before: Tables, state: string, p: PkceState, world: World): Tables {
    var t := Pass(before, world, 1);
    ServeEndExchange(c, if Lost(world, 1) then t else t.(pkce := Del(t.pkce, state)), p, world)
  }

  function ServeLoginEnd(c: Config, before: Tables, state: string, world: World): Tables {
    var t := Pass(before, world, 0);
    match if Replies(world, 0) then Get(t.pkce, state, t.now) else None
    case None => t
    case Some(p) => ServeEndDelete(c, t, state, p, world)
  }

  function ServeRelease(before: Tables, sid: string, world: World, n: nat): Tables {
    Unlock(Pass(before, world, n), sid, Lost(world, n))
  }

  function ServeRefreshSave(c: Config, before: Tables, sid: string, session: Session, world: World): Tables {
    ServeRelease(Save(c, Pass(before, world, 3), sid, session, Lost(world, 3)), sid, world, 4)
  }

  // The lock is released whatever the provider and the store answer.
  function ServeRefreshCall(c: Config, before: Tables, sid: string, base: Session, world: World): Tables {
    var t := Pass(before, world, 2);
    var env := world(2).env;
    if env.answer.None? then ServeRelease(t, sid, world, 3)
    else ServeRefreshSave(c, t, sid, RefreshedSession(base, env.answer.value, AcceptedClaims(c, env.answer.value, env.verified), t.now), world)
  }

  // When only the reply to Obtain is lost, the lock stays taken.
  function ServeObtain(c: Config, before: Tables, sid: string, base: Session, world: World): Tables {
    var t := Pass(before, world, 1);
    if Live(t.locks, sid, t.now) || Lost(world, 1) then t
    else
      var locked := t.(locks := Put(t.locks, sid, (), c.lockTtl, t.now));
      if Replies(world, 1) then ServeRefreshCall(c, locked, sid, base, world) else locked
  }

  function ServeRefresh(c: Config, before: Tables, sid: string, world: World): Tables {
    var t := Pass(before, world, 0);
    match FoundAt(t, sid, world, 0)
    case None => t
    case Some(base) =>
      if base.refreshToken == "" || !NeedsRefresh(base, t.now, c.refreshEarly) then t else ServeObtain(c, t, sid, base, world)
  }

  function ServeLogout(before: Tables, sid: string, world: World): Tables {
    var t := Pass(before, world, 0);
    if FoundAt(t, sid, world, 0).None? then t
    else
      var later := Pass(t, world, 1);
      if Lost(world, 1) then later else later.(sessions := Del(later.sessions, sid))
  }

  function ServeAttach(c: Config, before: Tables, sid: string, tenant: TenantContext, world: World): Tables {
    var t := Pass(before, world, 0);
    match FoundAt(t, sid, world, 0)
    case None => t
    case Some(base) => Save(c, Pass(t, world, 1), sid, AttachedSession(base, tenant), Lost(world, 1))
  }

  function Serve(c: Config, t: Tables, op: Operation, world: World): Tables {
    var first := FirstCall(c, op);
    if first.StartStore? then ServeLoginStart(c, t, first, world)
    else if first.EndGet? then ServeLoginEnd(c, t, first.state, world)
    else if first.RefreshGet? then ServeRefresh(c, t, first.sid, world)
    else if first.LogoutGet? then ServeLogout(t, first.sid, world)
    else if first.AttachGet? then ServeAttach(c, t, first.sid, first.tenant, world)
    else if first.ReadGet? then Pass(t, world, 0)
    else t
  }

  // ------------------------------------------------------------------------------------
  // The same, as steps of one worker of the machine
  // ------------------------------------------------------------------------------------

  function TablesOf(s: State): Tables {
    Tables(s.now, s.sessions, s.pkce, s.locks)
  }

  function CallStep(c: Config, s: State, w: Worker, call: Call): State {
    Apply(c, Apply(c, s, Tick(call.elapsed)), Step(w, call.env))
  }

  // Steps from the n-th call until the worker is idle again; no operation makes more than
  // five calls.
  function Finish(c: Config, s: State, w: Worker, world: World, n: nat): State
    decreases 5 - n
  {
    if LocalOf(s, w).Idle? || n >= 5 then s else Finish(c, CallStep(c, s, w, world(n)), w, world, n + 1)
  }

  // One call leaves these tables and this place in the operation, and logs this event.
  predicate Goes(c: Config, s: State, w: Worker, call: Call, l: Local, t: Tables, e: Option<Event>) {
    CallStep(c, s, w, call) == State(t.now, t.sessions, t.pkce, t.locks, s.workers[w := l], Logged(s.log, e))
  }

  // The worker ends idle, with these tables.
  predicate Ends(s: State, w: Worker, t: Tables) {
    LocalOf(s, w).Idle? && TablesOf(s) == t
  }

  // What a call that reads sid logs.
  function LookEvent(t: Tables, sid: string, call: Call): Option<Event> {
    if call.env.link.Works? then Some(Looked(sid, Get(t.sessions, sid, t.now), t.now)) else None
  }

  lemma ReleaseIsServed(c: Config, s: State, w: Worker, world: World, n: nat)
    requires LocalOf(s, w).RefreshRelease? && n < 5
    ensures Ends(Finish(c, s, w, world, n), w, ServeRelease(TablesOf(s), LocalOf(s, w).sid, world, n))
  {
  }

  lemma RefreshSaveIsServed(c: Config, s: State, w: Worker, world: World)
    requires LocalOf(s, w).RefreshSave?
    ensures var l := LocalOf(s, w); Ends(Finish(c, s, w, world, 3), w, ServeRefreshSave(c, TablesOf(s), l.sid, l.session, world))
  {
    ReleaseIsServed(c, CallStep(c, s, w, world(3)), w, world, 4);
  }

  lemma RefreshCallGoes(c: Config, s: State, w: Worker, world: World)
    requires LocalOf(s, w).RefreshCall?
    ensures var l := LocalOf(s, w);
            var t := Pass(TablesOf(s), world, 2);
            var env := world(2).env;
            Goes(c, s, w, world(2),
                 if env.answer.None? then RefreshRelease(l.sid, l.since)
                 else RefreshSave(l.sid, |s.log|, RefreshedSession(l.base, env.answer.value, AcceptedClaims(c, env.answer.value, env.verified), t.now), l.since),
                 t, Some(Presented(l.sid, l.read, l.base.refreshToken, env.answer, env.verified, t.now)))
  {
  }

  lemma RefreshCallIsServed(c: Config, s: State, w: Worker, world: World)
    requires LocalOf(s, w).RefreshCall?
    ensures var l := LocalOf(s, w); Ends(Finish(c, s, w, world, 2), w, ServeRefreshCall(c, TablesOf(s), l.sid, l.base, world))
  {
    var s' := CallStep(c, s, w, world(2));
    RefreshCallGoes(c, s, w, world);
    if world(2).env.answer.None? {
      ReleaseIsServed(c, s', w, world, 3);
    } else {
      RefreshSaveIsServed(c, s', w, world);
    }
  }

  lemma ObtainGoes(c: Config, s: State, w: Worker, world: World)
    requires LocalOf(s, w).RefreshObtain?
    ensures var l := LocalOf(s, w);
            var t := Pass(TablesOf(s), world, 1);
            if Live(t.locks, l.sid, t.now) || Lost(world, 1) then Goes(c, s, w, world(1), Idle, t, None)
            else Goes(c, s, w, world(1), if Replies(world, 1) then RefreshCall(l.sid, l.base, l.read, t.now) else Idle,
                      t.(locks := Put(t.locks, l.sid, (), c.lockTtl, t.now)), Some(Leased(l.sid, t.now)))
  {
  }

  lemma ObtainIsServed(c: Config, s: State, w: Worker, world: World)
    requires LocalOf(s, w).RefreshObtain?
    ensures var l := LocalOf(s, w); Ends(Finish(c, s, w, world, 1), w, ServeObtain(c, TablesOf(s), l.sid, l.base, world))
  {
    var s' := CallStep(c, s, w, world(1));
    ObtainGoes(c, s, w, world);
    if LocalOf(s', w).RefreshCall? {
      RefreshCallIsServed(c, s', w, world);
    }
  }

  lemma RefreshGetGoes(c: Config, s: State, w: Worker, world: World)
    requires LocalOf(s, w).RefreshGet?
    ensures var sid := LocalOf(s, w).sid;
            var t := Pass(TablesOf(s), world, 0);
            var found := FoundAt(t, sid, world, 0);
            Goes(c, s, w, world(0),
                 if found.None? || found.value.refreshToken == "" || !NeedsRefresh(found.value, t.now, c.refreshEarly) then Idle
                 else RefreshObtain(sid, found.value, |s.log|), t, LookEvent(t, sid, world(0)))
  {
  }

  lemma RefreshIsServed(c: Config, s: State, w: Worker, world: World)
    requires LocalOf(s, w).RefreshGet?
    ensures Ends(Finish(c, s, w, world, 0), w, ServeRefresh(c, TablesOf(s), LocalOf(s, w).sid, world))
  {
    var s' := CallStep(c, s, w, world(0));
    RefreshGetGoes(c, s, w, world);
    if LocalOf(s', w).RefreshObtain? {
      ObtainIsServed(c, s', w, world);
    }
  }

  lemma EndSaveIsServed(c: Config, s: State, w: Worker, world: World)
    requires LocalOf(s, w).EndSave?
    ensures Ends(Finish(c, s, w, world, 4), w, ServeEndSave(c, TablesOf(s), LocalOf(s, w).session, world))
  {
  }

  lemma EndValidateFails(c: Config, s: State, w: Worker, world: World)
    requires LocalOf(s, w).EndValidate? && !Passes(c, LocalOf(s, w).p, world(3).env)
    ensures var l := LocalOf(s, w);
            var t := Pass(TablesOf(s), world, 3);
            Goes(c, s, w, world(3), Idle, t, Some(Checked(l.exchange, l.p.nonce, world(3).env.verified, t.now)))
  {
  }

  lemma EndValidatePasses(c: Config, s: State, w: Worker, world: World)
    requires LocalOf(s, w).EndValidate? && Passes(c, LocalOf(s, w).p, world(3).env)
    ensures var l := LocalOf(s, w);
            var t := Pass(TablesOf(s), world, 3);
            var env := world(3).env;
            Goes(c, s, w, world(3), EndSave(l.state, |s.log|, NewSession(RawEncode(env.idBytes), l.tokens, env.verified.value, t.now)), t,
                 Some(Checked(l.exchange, l.p.nonce, env.verified, t.now)))
  {
  }

  lemma EndValidateIsServed(c: Config, s: State, w: Worker, world: World)
    requires LocalOf(s, w).EndValidate?
    ensures var l := LocalOf(s, w); Ends(Finish(c, s, w, world, 3), w, ServeEndValidate(c, TablesOf(s), l.p, l.tokens, world))
  {
    if Passes(c, LocalOf(s, w).p, world(3).env) {
      EndValidatePasses(c, s, w, world);
      EndSaveIsServed(c, CallStep(c, s, w, world(3)), w, world);
    } else {
      EndValidateFails(c, s, w, world);
    }
  }

  lemma EndExchangeGoes(c: Config, s: State, w: Worker, world: World)
    requires LocalOf(s, w).EndExchange?
    ensures var l := LocalOf(s, w);
            var answer := world(2).env.answer;
            var t := Pass(TablesOf(s), world, 2);
            Goes(c, s, w, world(2), if answer.None? then Idle else EndValidate(l.state, l.p, |s.log|, answer.value), t,
                 Some(Exchanged(l.state, l.code, l.read, l.p.codeVerifier, answer, t.now)))
  {
  }

  lemma EndExchangeIsServed(c: Config, s: State, w: Worker, world: World)
    requires LocalOf(s, w).EndExchange?
    ensures Ends(Finish(c, s, w, world, 2), w, ServeEndExchange(c, TablesOf(s), LocalOf(s, w).p, world))
  {
    var s' := CallStep(c, s, w, world(2));
    EndExchangeGoes(c, s, w, world);
    if LocalOf(s', w).EndValidate? { EndValidateIsServed(c, s', w, world); }
  }

  lemma EndDeleteGoes(c: Config, s: State, w: Worker, world: World)
    requires LocalOf(s, w).EndDelete?
    ensures var l := LocalOf(s, w);
            var t := Pass(TablesOf(s), world, 1);
            Goes(c, s, w, world(1), EndExchange(l.state, l.code, l.p, l.read), if Lost(world, 1) then t else t.(pkce := Del(t.pkce, l.state)),
                 if Lost(world, 1) then None else Some(Dropped(l.state, t.now)))
  {
  }

  lemma EndDeleteIsServed(c: Config, s: State, w: Worker, world: World)
    requires LocalOf(s, w).EndDelete?
    ensures var l := LocalOf(s, w); Ends(Finish(c, s, w, world, 1), w, ServeEndDelete(c, TablesOf(s), l.state, l.p, world))
  {
    EndDeleteGoes(c, s, w, world);
    EndExchangeIsServed(c, CallStep(c, s, w, world(1)), w, world);
  }

  lemma EndGetGoes(c: Config, s: State, w: Worker, world: World)
    requires LocalOf(s, w).EndGet?
    ensures var l := LocalOf(s, w);
            var t := Pass(TablesOf(s), world, 0);
            var found := if Replies(world, 0) then Get(t.pkce, l.state, t.now) else None;
            Goes(c, s, w, world(0), if found.None? then Idle else EndDelete(l.state, l.code, found.value, |s.log|), t,
                 if Replies(world, 0) then Some(Recalled(l.state, found, t.now)) else None)
  {
  }

  lemma LoginEndIsServed(c: Config, s: State, w: Worker, world: World)
    requires LocalOf(s, w).EndGet?
    ensures Ends(Finish(c, s, w, world, 0), w, ServeLoginEnd(c, TablesOf(s), LocalOf(s, w).state, world))
  {
    var s' := CallStep(c, s, w, world(0));
    EndGetGoes(c, s, w, world);
    if LocalOf(s', w).EndDelete? { EndDeleteIsServed(c, s', w, world); }
  }

  lemma LogoutDeleteIsServed(c: Config, s: State, w: Worker, world: World)
    requires LocalOf(s, w).LogoutDelete?
    ensures var t := Pass(TablesOf(s), world, 1);
            Ends(Finish(c, s, w, world, 1), w, if Lost(world, 1) then t else t.(sessions := Del(t.sessions, LocalOf(s, w).sid)))
  {
  }

  lemma LogoutGetGoes(c: Config, s: State, w: Worker, world: World)
    requires LocalOf(s, w).LogoutGet?
    ensures var sid := LocalOf(s, w).sid;
            var t := Pass(TablesOf(s), world, 0);
            Goes(c, s, w, world(0), if FoundAt(t, sid, world, 0).None? then Idle else LogoutDelete(sid), t, LookEvent(t, sid, world(0)))
  {
  }

  lemma LogoutIsServed(c: Config, s: State, w: Worker, world: World)
    requires LocalOf(s, w).LogoutGet?
    ensures Ends(Finish(c, s, w, world, 0), w, ServeLogout(TablesOf(s), LocalOf(s, w).sid, world))
  {
    var s' := CallStep(c, s, w, world(0));
    LogoutGetGoes(c, s, w, world);
    if LocalOf(s', w).LogoutDelete? { LogoutDeleteIsServed(c, s', w, world); }
  }

  lemma AttachSaveIsServed(c: Config, s: State, w: Worker, world: World)
    requires LocalOf(s, w).AttachSave?
    ensures var l := LocalOf(s, w);
            Ends(Finish(c, s, w, world, 1), w, Save(c, Pass(TablesOf(s), world, 1), l.sid, l.session, Lost(world, 1)))
  {
  }

  lemma AttachGetGoes(c: Config, s: State, w: Worker, world: World)
    requires LocalOf(s, w).AttachGet?
    ensures var l := LocalOf(s, w);
            var t := Pass(TablesOf(s), world, 0);
            var found := FoundAt(t, l.sid, world, 0);
            Goes(c, s, w, world(0), if found.None? then Idle else AttachSave(l.sid, |s.log|, AttachedSession(found.value, l.tenant)), t,
                 LookEvent(t, l.sid, world(0)))
  {
  }

  lemma AttachIsServed(c: Config, s: State, w: Worker, world: World)
    requires LocalOf(s, w).AttachGet?
    ensures var l := LocalOf(s, w); Ends(Finish(c, s, w, world, 0), w, ServeAttach(c, TablesOf(s), l.sid, l.tenant, world))
  {
    var s' := CallStep(c, s, w, world(0));
    AttachGetGoes(c, s, w, world);
    if LocalOf(s', w).AttachSave? { AttachSaveIsServed(c, s', w, world); }
  }

  lemma UrlIsServed(c: Config, s: State, w: Worker, world: World)
    requires LocalOf(s, w).StartUrl?
    ensures Ends(Finish(c, s, w, world, 1), w, Pass(TablesOf(s), world, 1))
  {
  }

  lemma StartStoreGoes(c: Config, s: State, w: Worker, world: World)
    requires LocalOf(s, w).StartStore?
    ensures var p := LocalOf(s, w).p;
            var t := Pass(TablesOf(s), world, 0);
            Goes(c, s, w, world(0), if Replies(world, 0) then StartUrl(p) else Idle,
                 if Lost(world, 0) then t else t.(pkce := Put(t.pkce, p.state, p, c.pkceTtl, t.now)),
                 if Lost(world, 0) then None else Some(Stored(p, t.now)))
  {
  }

  lemma LoginStartIsServed(c: Config, s: State, w: Worker, world: World)
    requires LocalOf(s, w).StartStore?
    ensures Ends(Finish(c, s, w, world, 0), w, ServeLoginStart(c, TablesOf(s), LocalOf(s, w), world))
  {
    var s' := CallStep(c, s, w, world(0));
    StartStoreGoes(c, s, w, world);
    if LocalOf(s', w).StartUrl? { UrlIsServed(c, s', w, world); }
  }

  lemma ReadIsServed(c: Config, s: State, w: Worker, world: World)
    requires LocalOf(s, w).ReadGet?
    ensures Ends(Finish(c, s, w, world, 0), w, Pass(TablesOf(s), world, 0))
  {
  }

  // What an operation does to the tables is what one worker of the machine does that takes
  // no more steps than the operation has calls; the worker is idle again afterwards.
  lemma OperationIsServed(c: Config, s: State, w: Worker, op: Operation, world: World)
    requires LocalOf(s, w).Idle?
    ensures Ends(Finish(c, Apply(c, s, Begin(w, op)), w, world, 0), w, Serve(c, TablesOf(s), op, world))
  {
    var s' := s.(workers := s.workers[w := FirstCall(c, op)]);
    assert Apply(c, s, Begin(w, op)) == s';
    match FirstCall(c, op)
    case StartStore(_) => LoginStartIsServed(c, s', w, world);
    case EndGet(_, _) => LoginEndIsServed(c, s', w, world);
    case RefreshGet(_) => RefreshIsServed(c, s', w, world);
    case LogoutGet(_) => LogoutIsServed(c, s', w, world);
    case AttachGet(_, _) => AttachIsServed(c, s', w, world);
    case ReadGet(_) => ReadIsServed(c, s', w, world);
    case _ =>
  }
}
