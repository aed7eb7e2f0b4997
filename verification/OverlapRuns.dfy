// Runs from the start of the agent in which overlapping operations lead to what `Overlaps`,
// `RefreshLock` and `SessionProvenance` describe.
module OverlapRuns {
  import opened Wrappers
  import opened Kv
  import opened Json
  import opened SessionModel
  import opened Base64
  import Identity
  import opened AgentMachine
  import opened AgentHistory
  import opened OneWorker
  import opened RefreshLock
  import opened SessionProvenance

  // ------------------------------------------------------------------------------------
  // Reachable states
  // ------------------------------------------------------------------------------------

  ghost predicate Reachable(c: Config, s: State) {
    exists now, actions :: Reaches(c, now, actions, s)
  }

  ghost predicate Reaches(c: Config, now: int, actions: seq<Action>, s: State) {
    Run(c, Start(now), actions) == s
  }

  lemma OneMore(c: Config, s: State, a: Action)
    requires Reachable(c, s)
    ensures Reachable(c, Apply(c, s, a))
  {
    var now, actions :| Reaches(c, now, actions, s);
    RunMore(c, Start(now), actions, a);
    assert Reaches(c, now, actions + [a], Apply(c, s, a));
  }

  lemma StartIsReachable(c: Config, now: int)
    ensures Reachable(c, Start(now))
  {
    assert Reaches(c, now, [], Start(now));
  }

  lemma ReachableHolds(c: Config, s: State)
    requires Reachable(c, s)
    ensures Invariant(c, s)
  {
    var now, actions :| Reaches(c, now, actions, s);
    HistoryHolds(c, now, actions);
  }

  predicate AllIdle(s: State) {
    forall w :: w in s.workers ==> s.workers[w].Idle?
  }

  lemma {:induction false} FinishIsReachable(c: Config, s: State, w: Worker, world: World, n: nat)
    requires Reachable(c, s) && forall v :: v in s.workers && v != w ==> s.workers[v].Idle?
    ensures var s' := Finish(c, s, w, world, n);
            Reachable(c, s') && forall v :: v in s'.workers && v != w ==> s'.workers[v].Idle?
    decreases 5 - n
  {
    if !LocalOf(s, w).Idle? && n < 5 {
      OneMore(c, s, Tick(world(n).elapsed));
      OneMore(c, Apply(c, s, Tick(world(n).elapsed)), Step(w, world(n).env));
      FinishIsReachable(c, CallStep(c, s, w, world(n)), w, world, n + 1);
    }
  }

  // A whole operation by one worker, with everybody else idle.
  lemma WholeOperation(c: Config, s: State, w: Worker, op: Operation, world: World) returns (s': State)
    requires Reachable(c, s) && AllIdle(s)
    ensures Reachable(c, s') && AllIdle(s') && TablesOf(s') == Serve(c, TablesOf(s), op, world)
  {
    var begun := Apply(c, s, Begin(w, op));
    OneMore(c, s, Begin(w, op));
    assert forall v :: v in begun.workers && v != w ==> begun.workers[v].Idle?;
    FinishIsReachable(c, begun, w, world, 0);
    OperationIsServed(c, s, w, op, world);
    s' := Finish(c, begun, w, world, 0);
  }

  // ------------------------------------------------------------------------------------
  // A login
  // ------------------------------------------------------------------------------------

  predicate Sizes(verifierBytes: seq<byte>, nonceBytes: seq<byte>, stateBytes: seq<byte>, idBytes: seq<byte>) {
    |verifierBytes| == 32 && |nonceBytes| == 16 && |stateBytes| == 24 && |idBytes| == 24
  }

  // Claims that pass the checks of a login.
  function GoodClaims(c: Config, nonce: string): Claims {
    map["aud" := Text(Audience(c)), "nonce" := Text(nonce)]
  }

  function GoodEnv(c: Config, p: PkceState, tokens: Tokens, idBytes: seq<byte>): Env {
    Env(Works, Some(tokens), Some(GoodClaims(c, p.nonce)), idBytes)
  }

  lemma GoodClaimsPass(c: Config, p: PkceState, tokens: Tokens, idBytes: seq<byte>)
    requires |idBytes| == 24
    ensures Passes(c, p, GoodEnv(c, p, tokens, idBytes)) && RawEncode(idBytes) != ""
  {
  }

  function Always(env: Env): World {
    (n: nat) => Call(0, env)
  }

  // The fifth call of the operation comes after a delay.
  function WithDelay(env: Env, delay: nat): World {
    (n: nat) => Call(if n == 4 then delay else 0, env)
  }

  lemma LoginStarts(c: Config, s: State, w: Worker, p: PkceState, op: Operation, env: Env) returns (s': State)
    requires Reachable(c, s) && AllIdle(s) && op.LoginStart? && FirstCall(c, op) == StartStore(p) && env.link.Works?
    ensures Reachable(c, s') && AllIdle(s')
    ensures TablesOf(s') == TablesOf(s).(pkce := Put(s.pkce, p.state, p, c.pkceTtl, s.now))
  {
    s' := WholeOperation(c, s, w, op, Always(env));
  }

  // For every configuration and every time there is a reachable state in which all workers
  // are idle, no lock is taken and a session from these tokens has just been stored, some
  // time after its ID token was checked.
  lemma LoggedIn(c: Config, now: int, w: Worker, tokens: Tokens, delay: nat, verifierBytes: seq<byte>, nonceBytes: seq<byte>,
                 stateBytes: seq<byte>, idBytes: seq<byte>) returns (s: State, session: Session)
    requires Sizes(verifierBytes, nonceBytes, stateBytes, idBytes)
    ensures Reachable(c, s) && AllIdle(s) && s.now == now + delay && s.locks == map[]
    ensures session.id == RawEncode(idBytes) != "" && session.refreshToken == tokens.refreshToken
    ensures session.expiresAt == ExpiryOf(tokens, now)
    ensures s.sessions == map[session.id := Entry(AsStored(session), Expiry(c.sessionTtl, now + delay))]
  {
    var started, p := Started(c, now, w, verifierBytes, nonceBytes, stateBytes);
    var env := GoodEnv(c, p, tokens, idBytes);
    GoodClaimsPass(c, p, tokens, idBytes);
    session := NewSession(RawEncode(idBytes), tokens, GoodClaims(c, p.nonce), now);
    s := LoginEnds(c, started, w, p, tokens, env, delay, session);
  }

  lemma LoginEnds(c: Config, s: State, w: Worker, p: PkceState, tokens: Tokens, env: Env, delay: nat, session: Session)
    returns (s': State)
    requires Reachable(c, s) && AllIdle(s)
    requires env.link.Works? && env.answer == Some(tokens) && Passes(c, p, env) && p.state != ""
    requires s.sessions == map[] && Get(s.pkce, p.state, s.now) == Some(p)
    requires session == NewSession(RawEncode(env.idBytes), tokens, env.verified.value, s.now)
    ensures Reachable(c, s') && AllIdle(s') && s'.now == s.now + delay && s'.locks == s.locks
    ensures s'.sessions == map[session.id := Entry(AsStored(session), Expiry(c.sessionTtl, s'.now))]
  {
    LoginEndServed(c, TablesOf(s), p, tokens, env, delay, session);
    s' := WholeOperation(c, s, w, LoginEnd(false, p.state, "code"), WithDelay(env, delay));
  }

  lemma Started(c: Config, now: int, w: Worker, verifierBytes: seq<byte>, nonceBytes: seq<byte>, stateBytes: seq<byte>)
    returns (s: State, p: PkceState)
    requires |verifierBytes| == 32 && |nonceBytes| == 16 && |stateBytes| == 24
    ensures Reachable(c, s) && AllIdle(s) && s.now == now && s.sessions == map[] && s.locks == map[]
    ensures p.state != "" && Get(s.pkce, p.state, now) == Some(p)
  {
    p := NewPkce(c, verifierBytes, nonceBytes, stateBytes, "/");
    StartIsReachable(c, now);
    s := LoginStarts(c, Start(now), w, p, LoginStart(verifierBytes, nonceBytes, stateBytes, "/"), Env(Works, None, None, []));
  }

  lemma LoginEndServed(c: Config, t: Tables, p: PkceState, tokens: Tokens, env: Env, delay: nat, session: Session)
    requires env.link.Works? && env.answer == Some(tokens) && Passes(c, p, env) && p.state != ""
    requires t.sessions == map[] && Get(t.pkce, p.state, t.now) == Some(p)
    requires session == NewSession(RawEncode(env.idBytes), tokens, env.verified.value, t.now)
    ensures var after := Serve(c, t, LoginEnd(false, p.state, "code"), WithDelay(env, delay));
            && after.sessions == map[session.id := Entry(AsStored(session), Expiry(c.sessionTtl, t.now + delay))]
            && after.locks == t.locks && after.now == t.now + delay
  {
    var world := WithDelay(env, delay);
    var dropped := t.(pkce := Del(t.pkce, p.state));
    NoDelayBefore(t, env, delay);
    NoDelayBefore(dropped, env, delay);
    assert Serve(c, t, LoginEnd(false, p.state, "code"), world) == ServeLoginEnd(c, t, p.state, world);
    assert ServeLoginEnd(c, t, p.state, world) == ServeEndDelete(c, t, p.state, p, world);
    assert ServeEndDelete(c, t, p.state, p, world) == ServeEndExchange(c, dropped, p, world);
    assert ServeEndExchange(c, dropped, p, world) == ServeEndValidate(c, dropped, p, tokens, world);
    assert ServeEndValidate(c, dropped, p, tokens, world) == ServeEndSave(c, dropped, session, world);
  }

  lemma NoDelayBefore(t: Tables, env: Env, delay: nat)
    ensures forall n: nat :: n != 4 ==> Pass(t, WithDelay(env, delay), n) == t
    ensures Pass(t, WithDelay(env, delay), 4) == t.(now := t.now + delay)
  {
  }

  // A session that is live and due for a refresh, in a store without its lock.
  predicate Due(c: Config, s: State, sid: string, base: Session) {
    && Get(s.sessions, sid, s.now) == Some(base) && base.refreshToken != "" && sid != ""
    && NeedsRefresh(base, s.now, c.refreshEarly) && !Live(s.locks, sid, s.now)
  }

  // A session whose access token lives for one second is due as soon as it is stored, if the
  // command that stores it comes late.
  lemma DueSession(c: Config, now: int) returns (s: State, sid: string, base: Session)
    ensures Reachable(c, s) && AllIdle(s) && s.locks == map[] && Due(c, s, sid, base) && base.refreshToken == "old"
  {
    var bytes32: seq<byte> := seq(32, i => 0);
    var bytes16: seq<byte> := seq(16, i => 0);
    var bytes24: seq<byte> := seq(24, i => 0);
    var session;
    var delay := if c.refreshEarly >= 1 then 0 else 1 - c.refreshEarly;
    s, session := LoggedIn(c, now, 0, Tokens("access", "old", "id", 1), delay, bytes32, bytes16, bytes24, bytes24);
    sid, base := session.id, AsStored(session);
  }

  // ------------------------------------------------------------------------------------
  // Single steps, in reachable states
  // ------------------------------------------------------------------------------------

  lemma Begins(c: Config, s: State, w: Worker, op: Operation) returns (s': State)
    requires Reachable(c, s) && LocalOf(s, w).Idle?
    ensures Reachable(c, s') && s' == s.(workers := s.workers[w := FirstCall(c, op)])
  {
    OneMore(c, s, Begin(w, op));
    s' := Apply(c, s, Begin(w, op));
  }

  lemma ReadsForRefresh(c: Config, s: State, w: Worker, env: Env, sid: string, base: Session) returns (s': State)
    requires Reachable(c, s)
    requires w in s.workers && env.link.Works? && s.workers[w] == RefreshGet(sid)
    requires Get(s.sessions, sid, s.now) == Some(base) && base.refreshToken != "" && NeedsRefresh(base, s.now, c.refreshEarly)
    ensures Reachable(c, s')
    ensures s' == s.(workers := s.workers[w := RefreshObtain(sid, base, |s.log|)], log := s.log + [Looked(sid, Some(base), s.now)])
  {
    OneMore(c, s, Step(w, env));
    s' := Apply(c, s, Step(w, env));
  }

  lemma Obtains(c: Config, s: State, w: Worker, env: Env) returns (s': State)
    requires Reachable(c, s)
    requires w in s.workers && env.link.Works? && s.workers[w].RefreshObtain? && !Live(s.locks, s.workers[w].sid, s.now)
    ensures Reachable(c, s')
    ensures s' == var l := s.workers[w];
                  s.(locks := Put(s.locks, l.sid, (), c.lockTtl, s.now), workers := s.workers[w := RefreshCall(l.sid, l.base, l.read, s.now)],
                     log := s.log + [Leased(l.sid, s.now)])
  {
    OneMore(c, s, Step(w, env));
    s' := Apply(c, s, Step(w, env));
  }

  lemma Presents(c: Config, s: State, w: Worker, env: Env) returns (s': State)
    requires Reachable(c, s)
    requires w in s.workers && env.link.Works? && s.workers[w].RefreshCall? && env.answer.Some?
    ensures Reachable(c, s')
    ensures s' == var l := s.workers[w];
                  var session := RefreshedSession(l.base, env.answer.value, AcceptedClaims(c, env.answer.value, env.verified), s.now);
                  s.(workers := s.workers[w := RefreshSave(l.sid, |s.log|, session, l.since)],
                     log := s.log + [Presented(l.sid, l.read, l.base.refreshToken, env.answer, env.verified, s.now)])
  {
    OneMore(c, s, Step(w, env));
    s' := Apply(c, s, Step(w, env));
  }

  lemma Saves(c: Config, s: State, w: Worker, env: Env) returns (s': State)
    requires Reachable(c, s)
    requires w in s.workers && env.link.Works? && s.workers[w].RefreshSave?
    ensures Reachable(c, s')
    ensures s' == var l := s.workers[w];
                  s.(sessions := Put(s.sessions, l.sid, AsStored(l.session), c.sessionTtl, s.now), workers := s.workers[w := RefreshRelease(l.sid, l.since)],
                     log := s.log + [Renewed(l.sid, l.call, l.session, s.now)])
  {
    OneMore(c, s, Step(w, env));
    s' := Apply(c, s, Step(w, env));
  }

  lemma Releases(c: Config, s: State, w: Worker, env: Env) returns (s': State)
    requires Reachable(c, s)
    requires w in s.workers && env.link.Works? && s.workers[w].RefreshRelease?
    ensures Reachable(c, s')
    ensures s' == var l := s.workers[w];
                  s.(locks := Del(s.locks, l.sid), workers := s.workers[w := Idle], log := s.log + [Released(l.sid, s.now)])
  {
    OneMore(c, s, Step(w, env));
    s' := Apply(c, s, Step(w, env));
  }

  lemma ReadsForLogout(c: Config, s: State, w: Worker, env: Env, sid: string, base: Session) returns (s': State)
    requires Reachable(c, s)
    requires w in s.workers && env.link.Works? && s.workers[w] == LogoutGet(sid) && Get(s.sessions, sid, s.now) == Some(base)
    ensures Reachable(c, s')
    ensures s' == s.(workers := s.workers[w := LogoutDelete(sid)], log := s.log + [Looked(sid, Some(base), s.now)])
  {
    OneMore(c, s, Step(w, env));
    s' := Apply(c, s, Step(w, env));
  }

  lemma LogsOut(c: Config, s: State, w: Worker, env: Env) returns (s': State)
    requires Reachable(c, s)
    requires w in s.workers && env.link.Works? && s.workers[w].LogoutDelete?
    ensures Reachable(c, s')
    ensures s' == var sid := s.workers[w].sid;
                  s.(sessions := Del(s.sessions, sid), workers := s.workers[w := Idle], log := s.log + [LoggedOut(sid, s.now)])
  {
    OneMore(c, s, Step(w, env));
    s' := Apply(c, s, Step(w, env));
  }

  lemma Reads(c: Config, s: State, w: Worker, env: Env) returns (s': State)
    requires Reachable(c, s)
    requires w in s.workers && env.link.Works? && s.workers[w].ReadGet?
    ensures Reachable(c, s')
    ensures s' == var sid := s.workers[w].sid;
                  s.(workers := s.workers[w := Idle], log := s.log + [Looked(sid, Get(s.sessions, sid, s.now), s.now)])
  {
    OneMore(c, s, Step(w, env));
    s' := Apply(c, s, Step(w, env));
  }

  lemma RecallsState(c: Config, s: State, w: Worker, env: Env, state: string, code: string, p: PkceState) returns (s': State)
    requires Reachable(c, s)
    requires w in s.workers && env.link.Works? && s.workers[w] == EndGet(state, code) && Get(s.pkce, state, s.now) == Some(p)
    ensures Reachable(c, s')
    ensures s' == s.(workers := s.workers[w := EndDelete(state, code, p, |s.log|)], log := s.log + [Recalled(state, Some(p), s.now)])
  {
    OneMore(c, s, Step(w, env));
    s' := Apply(c, s, Step(w, env));
  }

  lemma DropsState(c: Config, s: State, w: Worker, env: Env) returns (s': State)
    requires Reachable(c, s)
    requires w in s.workers && env.link.Works? && s.workers[w].EndDelete?
    ensures Reachable(c, s')
    ensures s' == var l := s.workers[w];
                  s.(pkce := Del(s.pkce, l.state), workers := s.workers[w := EndExchange(l.state, l.code, l.p, l.read)],
                     log := s.log + [Dropped(l.state, s.now)])
  {
    OneMore(c, s, Step(w, env));
    s' := Apply(c, s, Step(w, env));
  }

  lemma Exchanges(c: Config, s: State, w: Worker, env: Env) returns (s': State)
    requires Reachable(c, s)
    requires w in s.workers && env.link.Works? && s.workers[w].EndExchange? && env.answer.None?
    ensures Reachable(c, s')
    ensures s' == var l := s.workers[w];
                  s.(workers := s.workers[w := Idle],
                     log := s.log + [Exchanged(l.state, l.code, l.read, l.p.codeVerifier, None, s.now)])
  {
    OneMore(c, s, Step(w, env));
    s' := Apply(c, s, Step(w, env));
  }

  // ------------------------------------------------------------------------------------
  // The runs
  // ------------------------------------------------------------------------------------

  function Answering(t: Tokens): Env {
    Env(Works, Some(t), None, [])
  }

  lemma RefreshReads(c: Config, s: State, w: Worker, sid: string, base: Session, env: Env) returns (s': State)
    requires Reachable(c, s) && LocalOf(s, w).Idle? && Due(c, s, sid, base) && env.link.Works?
    ensures Reachable(c, s')
    ensures s' == s.(workers := s.workers[w := RefreshObtain(sid, base, |s.log|)], log := s.log + [Looked(sid, Some(base), s.now)])
  {
    s' := Begins(c, s, w, Refresh(Some(sid)));
    s' := ReadsForRefresh(c, s', w, env, sid, base);
  }

  // A refresh reads the session, obtains the lock and gets an answer; nothing is saved yet.
  lemma RefreshUnderWay(c: Config, s: State, w: Worker, sid: string, base: Session, t: Tokens) returns (s': State)
    requires Reachable(c, s) && LocalOf(s, w).Idle? && Due(c, s, sid, base)
    ensures Reachable(c, s') && s'.now == s.now && s'.sessions == s.sessions && sid in s'.locks
    ensures s'.workers == s.workers[w := RefreshSave(sid, |s.log| + 2, RefreshedSession(base, t, None, s.now), s.now)]
    ensures s'.log == s.log + [Looked(sid, Some(base), s.now)] + [Leased(sid, s.now)]
                      + [Presented(sid, |s.log|, base.refreshToken, Some(t), None, s.now)]
  {
    var env := Answering(t);
    s' := RefreshReads(c, s, w, sid, base, env);
    s' := Obtains(c, s', w, env);
    s' := Presents(c, s', w, env);
    assert AcceptedClaims(c, t, None) == None;
  }

  // A logout that finds the session removes it.
  lemma LogoutRuns(c: Config, s: State, w: Worker, sid: string, base: Session, env: Env) returns (s': State)
    requires Reachable(c, s) && LocalOf(s, w).Idle? && Get(s.sessions, sid, s.now) == Some(base) && sid != "" && env.link.Works?
    ensures Reachable(c, s')
    ensures s' == s.(sessions := Del(s.sessions, sid), workers := s.workers[w := Idle],
                     log := s.log + [Looked(sid, Some(base), s.now)] + [LoggedOut(sid, s.now)])
  {
    s' := Begins(c, s, w, Logout(true, Some(sid)));
    s' := ReadsForLogout(c, s', w, env, sid, base);
    s' := LogsOut(c, s', w, env);
    assert s.workers[w := LogoutGet(sid)][w := LogoutDelete(sid)][w := Idle] == s.workers[w := Idle];
  }

  // A refresh that had read a session brings it back after its logout: a later read finds it.
  lemma RevivalHappens(c: Config, now: int) returns (s: State, i: nat, j: nat)
    ensures Reachable(c, s) && i < j < |s.log|
    ensures s.log[i].LoggedOut? && Shows(s.log[j], s.log[i].sid)
  {
    var sid, base;
    s, sid, base := DueSession(c, now);
    var env := Answering(Tokens("new", "", "", 60));
    s := RefreshUnderWay(c, s, 0, sid, base, env.answer.value);
    s := LogoutRuns(c, s, 1, sid, base, env);
    i := |s.log| - 1;
    s := Saves(c, s, 0, env);
    s := Begins(c, s, 2, Read(Some(sid)));
    j := |s.log|;
    s := Reads(c, s, 2, env);
  }

  // Two callbacks that both read the state before either deletes it both exchange its code.
  lemma TwoExchangesHappen(c: Config, now: int) returns (s: State, i: nat, j: nat)
    ensures Reachable(c, s) && i < j < |s.log|
    ensures s.log[i].Exchanged? && s.log[j].Exchanged?
    ensures s.log[i].state == s.log[j].state && s.log[i].verifier == s.log[j].verifier
  {
    var bytes32: seq<byte> := seq(32, k => 0);
    var bytes16: seq<byte> := seq(16, k => 0);
    var bytes24: seq<byte> := seq(24, k => 0);
    var op := LoginStart(bytes32, bytes16, bytes24, "/");
    var p := NewPkce(c, bytes32, bytes16, bytes24, "/");
    var env := Env(Works, None, None, []);
    StartIsReachable(c, now);
    s := LoginStarts(c, Start(now), 0, p, op, env);
    s := Begins(c, s, 0, LoginEnd(false, p.state, "code"));
    s := Begins(c, s, 1, LoginEnd(false, p.state, "code"));
    s := RecallsState(c, s, 0, env, p.state, "code", p);
    s := RecallsState(c, s, 1, env, p.state, "code", p);
    s := DropsState(c, s, 0, env);
    s := DropsState(c, s, 1, env);
    i := |s.log|;
    s := Exchanges(c, s, 0, env);
    j := |s.log|;
    s := Exchanges(c, s, 1, env);
  }

  // Two refreshers that have both read the session present the same token one after the
  // other, each holding the lock, although the first answer brought a new one.
  lemma TokenIsPresentedTwice(c: Config, now: int) returns (s: State, i: nat, j: nat)
    ensures Reachable(c, s) && i < j < |s.log|
    ensures s.log[i].Presented? && s.log[j].Presented? && s.log[i].sid == s.log[j].sid
    ensures s.log[i].refreshToken == s.log[j].refreshToken == "old"
    ensures s.log[i].answer.Some? && s.log[i].answer.value.refreshToken == "fresh"
  {
    var sid, base;
    s, sid, base := DueSession(c, now);
    var env := Answering(Tokens("new", "fresh", "", 60));
    s := Begins(c, s, 0, Refresh(Some(sid)));
    s := Begins(c, s, 1, Refresh(Some(sid)));
    s := ReadsForRefresh(c, s, 0, env, sid, base);
    s := ReadsForRefresh(c, s, 1, env, sid, base);
    s := Obtains(c, s, 0, env);
    i := |s.log|;
    s := Presents(c, s, 0, env);
    s := Saves(c, s, 0, env);
    s := Releases(c, s, 0, env);
    s := Obtains(c, s, 1, env);
    j := |s.log|;
    s := Presents(c, s, 1, env);
  }

  lemma ReadsForAttach(c: Config, s: State, w: Worker, env: Env, sid: string, base: Session, tenant: TenantContext) returns (s': State)
    requires Reachable(c, s) && LocalOf(s, w).Idle? && sid != "" && env.link.Works? && Get(s.sessions, sid, s.now) == Some(base)
    ensures Reachable(c, s')
    ensures s' == s.(workers := s.workers[w := AttachSave(sid, |s.log|, AttachedSession(base, tenant))],
                     log := s.log + [Looked(sid, Some(base), s.now)])
  {
    s' := Begins(c, s, w, Attach(sid, Some(tenant)));
    OneMore(c, s', Step(w, env));
    s' := Apply(c, s', Step(w, env));
    assert s.workers[w := AttachGet(sid, tenant)][w := AttachSave(sid, |s.log|, AttachedSession(base, tenant))]
        == s.workers[w := AttachSave(sid, |s.log|, AttachedSession(base, tenant))];
  }

  lemma Attaches(c: Config, s: State, w: Worker, env: Env) returns (s': State)
    requires Reachable(c, s)
    requires w in s.workers && env.link.Works? && s.workers[w].AttachSave?
    ensures Reachable(c, s')
    ensures s' == var l := s.workers[w];
                  s.(sessions := Put(s.sessions, l.sid, AsStored(l.session), c.sessionTtl, s.now), workers := s.workers[w := Idle],
                     log := s.log + [Attached(l.sid, l.read, l.session, s.now)])
  {
    OneMore(c, s, Step(w, env));
    s' := Apply(c, s, Step(w, env));
  }

  // A refresh that has its answer saves it and releases the lock.
  lemma RefreshEnds(c: Config, s: State, w: Worker, env: Env) returns (s': State)
    requires Reachable(c, s) && w in s.workers && s.workers[w].RefreshSave? && env.link.Works?
    ensures Reachable(c, s')
    ensures var l := s.workers[w];
            && s'.now == s.now && s'.pkce == s.pkce && s'.locks == Del(s.locks, l.sid) && s'.workers == s.workers[w := Idle]
            && s'.log == s.log + [Renewed(l.sid, l.call, l.session, s.now)] + [Released(l.sid, s.now)]
  {
    s' := Saves(c, s, w, env);
    s' := Releases(c, s', w, env);
    var l := s.workers[w];
    assert s.workers[w := RefreshRelease(l.sid, l.since)][w := Idle] == s.workers[w := Idle];
  }

  // A refresh begins and ends while an attachment has read the session and not yet saved it.
  lemma RefreshDuringAttach(c: Config, now: int, tenant: TenantContext) returns (s: State, sid: string, base: Session, i: nat, k: nat)
    ensures Reachable(c, s) && i < k < |s.log| && LocalOf(s, 2).Idle? && sid !in s.locks
    ensures 1 in s.workers && s.workers[1].AttachSave? && s.workers[1].sid == sid && s.workers[1].session == AttachedSession(base, tenant)
    ensures sid != "" && base.refreshToken == "old" && NeedsRefresh(base, s.now, c.refreshEarly)
    ensures s.log[i].Presented? && s.log[i].sid == sid && s.log[i].refreshToken == "old"
    ensures s.log[i].answer == Some(Tokens("new", "fresh", "", 60))
    ensures s.log[k].Renewed? && s.log[k].call == i
  {
    s, sid, base := DueSession(c, now);
    var env := Answering(Tokens("new", "fresh", "", 60));
    s := ReadsForAttach(c, s, 1, env, sid, base, tenant);
    i := |s.log| + 2;
    s := RefreshUnderWay(c, s, 0, sid, base, env.answer.value);
    k := |s.log|;
    s := RefreshEnds(c, s, 0, env);
  }

  // An attachment that had read the session before a refresh undoes that refresh: another
  // refresh, which reads after the first has saved its new token, presents the old one again.
  lemma AttachBringsTokenBack(c: Config, now: int, tenant: TenantContext) returns (s: State, i: nat, k: nat, j: nat)
    ensures Reachable(c, s) && i < k < j < |s.log|
    ensures s.log[i].Presented? && s.log[j].Presented? && s.log[i].sid == s.log[j].sid
    ensures s.log[i].refreshToken == s.log[j].refreshToken == "old"
    ensures s.log[i].answer.Some? && s.log[i].answer.value.refreshToken == "fresh"
    ensures s.log[k].Renewed? && s.log[k].call == i && k < s.log[j].read
  {
    var sid, base;
    s, sid, base, i, k := RefreshDuringAttach(c, now, tenant);
    var env := Answering(Tokens("new", "fresh", "", 60));
    s := Attaches(c, s, 1, env);
    j := |s.log| + 2;
    s := RefreshUnderWay(c, s, 2, sid, AsStored(AttachedSession(base, tenant)), env.answer.value);
  }

  predicate WaitsForLock(s: State, w: Worker, sid: string) {
    w in s.workers && s.workers[w].RefreshObtain? && s.workers[w].sid == sid
  }

  lemma ThreeWaitForLock(c: Config, now: int) returns (s: State, sid: string)
    ensures Reachable(c, s) && s.locks == map[]
    ensures WaitsForLock(s, 0, sid) && WaitsForLock(s, 1, sid) && WaitsForLock(s, 2, sid)
  {
    var base;
    s, sid, base := DueSession(c, now);
    var env := Answering(Tokens("", "", "", 60));
    s := Begins(c, s, 0, Refresh(Some(sid)));
    s := Begins(c, s, 1, Refresh(Some(sid)));
    s := Begins(c, s, 2, Refresh(Some(sid)));
    s := ReadsForRefresh(c, s, 0, env, sid, base);
    s := ReadsForRefresh(c, s, 1, env, sid, base);
    s := ReadsForRefresh(c, s, 2, env, sid, base);
  }

  // A holder that overstays frees the lock of the second holder, and a third gets in although
  // the second has only just obtained it.
  lemma TwoHoldersHappen(c: Config, now: int) returns (s: State, sid: string)
    requires c.lockTtl > 0
    ensures Reachable(c, s) && Holds(s, 1, sid) && Holds(s, 2, sid)
    ensures s.workers[1].since == s.workers[2].since == s.now
  {
    s, sid := ThreeWaitForLock(c, now);
    var env := Answering(Tokens("new", "", "", 60));
    s := Obtains(c, s, 0, env);
    OneMore(c, s, Tick(c.lockTtl));
    s := Apply(c, s, Tick(c.lockTtl));
    s := Obtains(c, s, 1, env);
    s := Presents(c, s, 0, env);
    s := Saves(c, s, 0, env);
    s := Releases(c, s, 0, env);
    s := Obtains(c, s, 2, env);
  }

  // After a refresh whose ID token is not accepted, the stored ID token is not the one that
  // the stored claims come from.
  lemma StaleClaimsHappen(c: Config, now: int) returns (s: State, sid: string, i: nat)
    ensures Reachable(c, s) && SetsLast(s.log, |s.log|, OfSession(sid), i)
    ensures sid in s.sessions && s.sessions[sid].value.idToken == "other" && !OneToken(c, s.log, i)
  {
    var base;
    s, sid, base := DueSession(c, now);
    var env := Answering(Tokens("new", "", "other", 60));
    s := RefreshUnderWay(c, s, 0, sid, base, env.answer.value);
    i := |s.log|;
    s := Saves(c, s, 0, env);
    ReachableHolds(c, s);
    UnacceptedIsStale(c, s.log, i, sid);
  }

  // An update that brings an ID token and no claims.
  lemma UnacceptedIsStale(c: Config, log: seq<Event>, i: nat, sid: string)
    requires LogOk(c, log) && Writes(log, i, sid) && Brings(c, log, i, IdPart) && !Brings(c, log, i, ClaimsPart)
    ensures !OneToken(c, log, i)
  {
    OneTokenExactly(c, log, i, sid);
  }
}
