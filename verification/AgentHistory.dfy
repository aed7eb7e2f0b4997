// The agent's tables as its log determines them, in every interleaving: what is stored, what
// a read shows and what each step goes back to.
module AgentHistory {
  import opened Wrappers
  import opened Kv
  import opened SessionModel
  import opened Identity
  import opened AgentMachine

  // ------------------------------------------------------------------------------------
  // The last word on a key
  // ------------------------------------------------------------------------------------

  datatype Topic = OfSession(sid: string) | OfState(state: string) | OfLock(sid: string)

  predicate Sets(e: Event, t: Topic) {
    match t
    case OfSession(sid) => (e.Created? && e.session.id == sid) || ((e.Renewed? || e.Attached?) && e.sid == sid)
    case OfState(state) => e.Stored? && e.p.state == state
    case OfLock(sid) => e.Leased? && e.sid == sid
  }

  predicate Clears(e: Event, t: Topic) {
    match t
    case OfSession(sid) => e.LoggedOut? && e.sid == sid
    case OfState(state) => e.Dropped? && e.state == state
    case OfLock(sid) => e.Released? && e.sid == sid
  }

  // The event that set the key last, unless it was cleared since.
  function LastSet(log: seq<Event>, n: nat, t: Topic): (m: Option<nat>)
    requires n <= |log|
    ensures m.Some? ==> m.value < n && Sets(log[m.value], t)
  {
    if n == 0 then None
    else if Sets(log[n - 1], t) then Some(n - 1)
    else if Clears(log[n - 1], t) then None
    else LastSet(log, n - 1, t)
  }

  predicate Untouched(log: seq<Event>, from: nat, to: nat, t: Topic) {
    forall k :: from <= k < to && k < |log| ==> !Sets(log[k], t) && !Clears(log[k], t)
  }

  predicate SetsLast(log: seq<Event>, n: nat, t: Topic, m: nat) {
    m < n <= |log| && Sets(log[m], t) && Untouched(log, m + 1, n, t)
  }

  lemma {:induction false} LastSetIs(log: seq<Event>, n: nat, t: Topic, m: nat)
    requires n <= |log|
    ensures LastSet(log, n, t) == Some(m) <==> SetsLast(log, n, t, m)
  {
    if n > 0 && m < n - 1 {
      LastSetIs(log, n - 1, t, m);
    }
  }

  lemma {:induction false} LastSetOfPrefix(log: seq<Event>, event: Option<Event>, n: nat, t: Topic)
    requires n <= |log|
    ensures LastSet(Logged(log, event), n, t) == LastSet(log, n, t)
  {
    if n > 0 {
      LastSetOfPrefix(log, event, n - 1, t);
    }
  }

  // ------------------------------------------------------------------------------------
  // What the tables hold and what a read shows, given the log
  // ------------------------------------------------------------------------------------

  predicate Lasts(ttl: int, since: int, at: int) {
    ttl > 0 ==> at < since + ttl
  }

  // The session a read of sid shows at that time, after the first n events.
  function Shown(c: Config, log: seq<Event>, n: nat, sid: string, at: int): Option<Session>
    requires n <= |log|
  {
    match LastSet(log, n, OfSession(sid))
    case None => None
    case Some(m) => if Lasts(c.sessionTtl, log[m].at, at) then Some(AsStored(log[m].session)) else None
  }

  function Remembered(c: Config, log: seq<Event>, n: nat, state: string, at: int): Option<PkceState>
    requires n <= |log|
  {
    match LastSet(log, n, OfState(state))
    case None => None
    case Some(m) => if Lasts(c.pkceTtl, log[m].at, at) then Some(log[m].p) else None
  }

  predicate Locked(c: Config, log: seq<Event>, n: nat, sid: string, at: int)
    requires n <= |log|
  {
    var m := LastSet(log, n, OfLock(sid));
    m.Some? && Lasts(c.lockTtl, log[m.value].at, at)
  }

  predicate SessionKept(c: Config, log: seq<Event>, sessions: Table<Session>, sid: string) {
    match LastSet(log, |log|, OfSession(sid))
    case None => sid !in sessions
    case Some(m) => sid in sessions && sessions[sid] == Entry(AsStored(log[m].session), Expiry(c.sessionTtl, log[m].at))
  }

  predicate PkceKept(c: Config, log: seq<Event>, pkce: Table<PkceState>, state: string) {
    match LastSet(log, |log|, OfState(state))
    case None => state !in pkce
    case Some(m) => state in pkce && pkce[state] == Entry(log[m].p, Expiry(c.pkceTtl, log[m].at))
  }

  predicate LockKept(c: Config, log: seq<Event>, locks: Table<()>, sid: string) {
    match LastSet(log, |log|, OfLock(sid))
    case None => sid !in locks
    case Some(m) => sid in locks && locks[sid] == Entry((), Expiry(c.lockTtl, log[m].at))
  }

  ghost predicate TablesKept(c: Config, log: seq<Event>, sessions: Table<Session>, pkce: Table<PkceState>, locks: Table<()>) {
    && (forall sid :: SessionKept(c, log, sessions, sid))
    && (forall state :: PkceKept(c, log, pkce, state))
    && (forall sid :: LockKept(c, log, locks, sid))
  }

  // ---- What one event does to each table ---------------------------------------------------

  function SessionsNext(c: Config, sessions: Table<Session>, event: Option<Event>): Table<Session> {
    match event
    case Some(Created(_, session, at)) => Put(sessions, session.id, AsStored(session), c.sessionTtl, at)
    case Some(Renewed(sid, _, session, at)) => Put(sessions, sid, AsStored(session), c.sessionTtl, at)
    case Some(Attached(sid, _, session, at)) => Put(sessions, sid, AsStored(session), c.sessionTtl, at)
    case Some(LoggedOut(sid, _)) => Del(sessions, sid)
    case _ => sessions
  }

  function PkceNext(c: Config, pkce: Table<PkceState>, event: Option<Event>): Table<PkceState> {
    match event
    case Some(Stored(p, at)) => Put(pkce, p.state, p, c.pkceTtl, at)
    case Some(Dropped(state, _)) => Del(pkce, state)
    case _ => pkce
  }

  function LocksNext(c: Config, locks: Table<()>, event: Option<Event>): Table<()> {
    match event
    case Some(Leased(sid, at)) => Put(locks, sid, (), c.lockTtl, at)
    case Some(Released(sid, _)) => Del(locks, sid)
    case _ => locks
  }

  lemma SessionsFollow(c: Config, log: seq<Event>, sessions: Table<Session>, event: Option<Event>, sid: string)
    requires SessionKept(c, log, sessions, sid)
    ensures SessionKept(c, Logged(log, event), SessionsNext(c, sessions, event), sid)
  {
    LastSetOfPrefix(log, event, |log|, OfSession(sid));
  }

  lemma PkceFollows(c: Config, log: seq<Event>, pkce: Table<PkceState>, event: Option<Event>, state: string)
    requires PkceKept(c, log, pkce, state)
    ensures PkceKept(c, Logged(log, event), PkceNext(c, pkce, event), state)
  {
    LastSetOfPrefix(log, event, |log|, OfState(state));
  }

  lemma LocksFollow(c: Config, log: seq<Event>, locks: Table<()>, event: Option<Event>, sid: string)
    requires LockKept(c, log, locks, sid)
    ensures LockKept(c, Logged(log, event), LocksNext(c, locks, event), sid)
  {
    LastSetOfPrefix(log, event, |log|, OfLock(sid));
  }

  lemma TablesFollow(c: Config, log: seq<Event>, sessions: Table<Session>, pkce: Table<PkceState>, locks: Table<()>, event: Option<Event>)
    requires TablesKept(c, log, sessions, pkce, locks)
    ensures TablesKept(c, Logged(log, event), SessionsNext(c, sessions, event), PkceNext(c, pkce, event), LocksNext(c, locks, event))
  {
    var longer := Logged(log, event);
    forall sid ensures SessionKept(c, longer, SessionsNext(c, sessions, event), sid) {
      SessionsFollow(c, log, sessions, event, sid);
    }
    forall state ensures PkceKept(c, longer, PkceNext(c, pkce, event), state) {
      PkceFollows(c, log, pkce, event, state);
    }
    forall sid ensures LockKept(c, longer, LocksNext(c, locks, event), sid) {
      LocksFollow(c, log, locks, event, sid);
    }
  }

  // ------------------------------------------------------------------------------------
  // What each event goes back to
  // ------------------------------------------------------------------------------------

  // What LoginStart stores: the S256 challenge of its verifier, and a nonce.
  predicate WellFormed(c: Config, p: PkceState) {
    p.codeChallenge == Challenge(c, p.codeVerifier) && p.nonce != ""
  }

  predicate StoredBefore(log: seq<Event>, n: nat, p: PkceState) {
    exists j :: 0 <= j < n && j < |log| && log[j].Stored? && log[j].p == p
  }

  predicate Recalls(e: Event, state: string) {
    e.Recalled? && e.state == state && e.found.Some?
  }

  predicate Shows(e: Event, sid: string) {
    e.Looked? && e.sid == sid && e.record.Some?
  }

  // An exchange of the verifier of the PKCE state that its read found.
  predicate ExchangeOk(log: seq<Event>, i: nat, state: string, read: nat, verifier: string) {
    read < i <= |log| && Recalls(log[read], state) && verifier == log[read].found.value.codeVerifier
  }

  // A check of the ID token that an exchange brought, against the nonce of the same state.
  predicate CheckOk(log: seq<Event>, i: nat, exchange: nat, nonce: string) {
    && exchange < i <= |log| && log[exchange].Exchanged? && log[exchange].answer.Some?
    && log[exchange].read < exchange && Recalls(log[log[exchange].read], log[exchange].state)
    && nonce == log[log[exchange].read].found.value.nonce
  }

  // A session made from an exchange's tokens and the claims accepted by its check.
  predicate CreatedOk(c: Config, log: seq<Event>, i: nat, check: nat, session: Session) {
    && check < i <= |log| && log[check].Checked? && Accepted(log[check].verified, Audience(c), log[check].nonce)
    && log[check].exchange < check && log[log[check].exchange].Exchanged? && log[log[check].exchange].answer.Some?
    && session == NewSession(session.id, log[log[check].exchange].answer.value, log[check].verified.value, log[check].at)
  }

  // A refresh token of a record that, when it was read, was about to expire.
  predicate PresentedOk(c: Config, log: seq<Event>, i: nat, sid: string, read: nat, refreshToken: string) {
    && read < i <= |log| && Shows(log[read], sid) && refreshToken == log[read].record.value.refreshToken && refreshToken != ""
    && log[read].record.value.expiresAt <= log[read].at + c.refreshEarly
  }

  // The record read, updated from the provider's answer.
  predicate RenewedOk(c: Config, log: seq<Event>, i: nat, sid: string, call: nat, session: Session) {
    && call < i <= |log| && log[call].Presented? && log[call].sid == sid && log[call].answer.Some?
    && log[call].read < call && Shows(log[log[call].read], sid)
    && session == RefreshedSession(log[log[call].read].record.value, log[call].answer.value,
                                   AcceptedClaims(c, log[call].answer.value, log[call].verified), log[call].at)
  }

  predicate AttachedOk(log: seq<Event>, i: nat, sid: string, read: nat, session: Session) {
    && read < i <= |log| && Shows(log[read], sid) && session.tenantContext.Some?
    && session == AttachedSession(log[read].record.value, session.tenantContext.value)
  }

  ghost predicate EventOk(c: Config, log: seq<Event>, i: nat)
    requires i < |log|
  {
    match log[i]
    case Stored(p, _) => WellFormed(c, p)
    case UrlBuilt(p, _) => WellFormed(c, p) && StoredBefore(log, i, p)
    case Recalled(state, found, at) => found == Remembered(c, log, i, state, at)
    case Exchanged(state, _, read, verifier, _, _) => ExchangeOk(log, i, state, read, verifier)
    case Checked(exchange, nonce, _, _) => CheckOk(log, i, exchange, nonce)
    case Created(check, session, _) => CreatedOk(c, log, i, check, session)
    case Leased(sid, at) => !Locked(c, log, i, sid, at)
    case Presented(sid, read, refreshToken, _, _, _) => PresentedOk(c, log, i, sid, read, refreshToken)
    case Renewed(sid, call, session, _) => RenewedOk(c, log, i, sid, call, session)
    case Attached(sid, read, session, _) => AttachedOk(log, i, sid, read, session)
    case Looked(sid, record, at) => record == Shown(c, log, i, sid, at)
    case _ => true
  }

  ghost predicate LogOk(c: Config, log: seq<Event>) {
    forall i :: 0 <= i < |log| ==> EventOk(c, log, i)
  }

  // Events come in the order of their times.
  ghost predicate InOrder(log: seq<Event>, now: int) {
    && (forall i :: 0 <= i < |log| ==> log[i].at <= now)
    && (forall i, j :: 0 <= i <= j < |log| ==> log[i].at <= log[j].at)
  }

  ghost predicate LocalOk(c: Config, log: seq<Event>, l: Local) {
    match l
    case StartStore(p) => WellFormed(c, p)
    case StartUrl(p) => WellFormed(c, p) && StoredBefore(log, |log|, p)
    case EndDelete(state, _, p, read) => read < |log| && Recalls(log[read], state) && p == log[read].found.value
    case EndExchange(state, _, p, read) => read < |log| && Recalls(log[read], state) && p == log[read].found.value
    case EndValidate(_, p, exchange, tokens) =>
      CheckOk(log, |log|, exchange, p.nonce) && log[exchange].answer == Some(tokens) && p == log[log[exchange].read].found.value
    case EndSave(_, check, session) => CreatedOk(c, log, |log|, check, session)
    case RefreshObtain(sid, base, read) => PresentedOk(c, log, |log|, sid, read, base.refreshToken) && log[read].record == Some(base)
    case RefreshCall(sid, base, read, _) => PresentedOk(c, log, |log|, sid, read, base.refreshToken) && log[read].record == Some(base)
    case RefreshSave(sid, call, session, _) => RenewedOk(c, log, |log|, sid, call, session)
    case AttachSave(sid, read, session) => AttachedOk(log, |log|, sid, read, session)
    case _ => true
  }

  ghost predicate Invariant(c: Config, s: State) {
    && TablesKept(c, s.log, s.sessions, s.pkce, s.locks)
    && LogOk(c, s.log) && InOrder(s.log, s.now)
    && forall w :: w in s.workers ==> LocalOk(c, s.log, s.workers[w])
  }

  // ---- The log only grows --------------------------------------------------------------------

  lemma EventStays(c: Config, log: seq<Event>, event: Option<Event>, i: nat)
    requires i < |log| && EventOk(c, log, i)
    ensures EventOk(c, Logged(log, event), i)
  {
    var longer := Logged(log, event);
    assert forall j :: 0 <= j < |log| ==> longer[j] == log[j];
    match log[i]
    case Recalled(state, _, _) => LastSetOfPrefix(log, event, i, OfState(state));
    case Leased(sid, _) => LastSetOfPrefix(log, event, i, OfLock(sid));
    case Looked(sid, _, _) => LastSetOfPrefix(log, event, i, OfSession(sid));
    case UrlBuilt(p, _) =>
      var j :| 0 <= j < i && j < |log| && log[j].Stored? && log[j].p == p;
      assert longer[j] == log[j];
    case _ =>
  }

  lemma LocalStays(c: Config, log: seq<Event>, event: Option<Event>, l: Local)
    requires LocalOk(c, log, l)
    ensures LocalOk(c, Logged(log, event), l)
  {
    var longer := Logged(log, event);
    assert forall j :: 0 <= j < |log| ==> longer[j] == log[j];
    match l
    case StartUrl(p) =>
      var j :| 0 <= j < |log| && log[j].Stored? && log[j].p == p;
      assert longer[j] == log[j];
    case _ =>
  }

  // ---- Every step ----------------------------------------------------------------------------

  // A step changes the tables as its event says, and its event and its worker's next place go
  // back to what the log holds.
  ghost predicate NextOk(c: Config, s: State, e: Effect) {
    var longer := Logged(s.log, e.event);
    && e.sessions == SessionsNext(c, s.sessions, e.event)
    && e.pkce == PkceNext(c, s.pkce, e.event)
    && e.locks == LocksNext(c, s.locks, e.event)
    && (e.event.Some? ==> e.event.value.at == s.now && EventOk(c, longer, |s.log|))
    && LocalOk(c, longer, e.next)
  }

  lemma GetsShow(c: Config, s: State, key: string)
    requires TablesKept(c, s.log, s.sessions, s.pkce, s.locks)
    ensures Get(s.sessions, key, s.now) == Shown(c, s.log, |s.log|, key, s.now)
    ensures Get(s.pkce, key, s.now) == Remembered(c, s.log, |s.log|, key, s.now)
    ensures Live(s.locks, key, s.now) == Locked(c, s.log, |s.log|, key, s.now)
  {
    assert SessionKept(c, s.log, s.sessions, key) && PkceKept(c, s.log, s.pkce, key) && LockKept(c, s.log, s.locks, key);
  }

  // A read of a session, as the step that makes it logs it.
  lemma LookIsOk(c: Config, s: State, sid: string)
    requires SessionKept(c, s.log, s.sessions, sid)
    ensures var e := Looked(sid, Get(s.sessions, sid, s.now), s.now);
            EventOk(c, s.log + [e], |s.log|) && (s.log + [e])[|s.log|] == e
  {
    var e := Looked(sid, Get(s.sessions, sid, s.now), s.now);
    LastSetOfPrefix(s.log, Some(e), |s.log|, OfSession(sid));
  }

  // What a step reads is what the log before its own event says.
  lemma ReadsShow(c: Config, s: State, event: Option<Event>, key: string)
    requires TablesKept(c, s.log, s.sessions, s.pkce, s.locks)
    ensures var longer := Logged(s.log, event);
            && Get(s.sessions, key, s.now) == Shown(c, longer, |s.log|, key, s.now)
            && Get(s.pkce, key, s.now) == Remembered(c, longer, |s.log|, key, s.now)
            && Live(s.locks, key, s.now) == Locked(c, longer, |s.log|, key, s.now)
  {
    GetsShow(c, s, key);
    LastSetOfPrefix(s.log, event, |s.log|, OfSession(key));
    LastSetOfPrefix(s.log, event, |s.log|, OfState(key));
    LastSetOfPrefix(s.log, event, |s.log|, OfLock(key));
  }

  lemma LoginStartIsOk(c: Config, s: State, l: Local, env: Env)
    requires LocalOk(c, s.log, l) && InLoginStart(l)
    ensures NextOk(c, s, LoginStartStep(c, s, l, env))
  {
    var e := LoginStartStep(c, s, l, env);
    var longer := Logged(s.log, e.event);
    if l.StartStore? && !env.link.RequestLost? {
      assert longer[|s.log|] == Stored(l.p, s.now);
    } else if l.StartUrl? {
      var j :| 0 <= j < |s.log| && s.log[j].Stored? && s.log[j].p == l.p;
      assert longer[j] == s.log[j];
    }
  }

  lemma EndGetIsOk(c: Config, s: State, l: Local, env: Env)
    requires TablesKept(c, s.log, s.sessions, s.pkce, s.locks) && l.EndGet?
    ensures NextOk(c, s, LoginEndStep(c, s, l, env))
  {
    ReadsShow(c, s, LoginEndStep(c, s, l, env).event, l.state);
  }

  lemma EndExchangeIsOk(c: Config, s: State, l: Local, env: Env)
    requires LocalOk(c, s.log, l) && (l.EndDelete? || l.EndExchange?)
    ensures NextOk(c, s, LoginEndStep(c, s, l, env))
  {
  }

  lemma EndSaveIsOk(c: Config, s: State, l: Local, env: Env)
    requires LocalOk(c, s.log, l) && (l.EndValidate? || l.EndSave?)
    ensures NextOk(c, s, LoginEndStep(c, s, l, env))
  {
  }

  lemma RefreshGetIsOk(c: Config, s: State, l: Local, env: Env)
    requires l.RefreshGet? && SessionKept(c, s.log, s.sessions, l.sid)
    ensures NextOk(c, s, RefreshStep(c, s, l, env))
  {
    var e := RefreshStep(c, s, l, env);
    if env.link.Works? {
      LookIsOk(c, s, l.sid);
      assert e.event == Some(Looked(l.sid, Get(s.sessions, l.sid, s.now), s.now));
    }
  }

  lemma ObtainIsOk(c: Config, s: State, l: Local, env: Env)
    requires TablesKept(c, s.log, s.sessions, s.pkce, s.locks) && LocalOk(c, s.log, l) && l.RefreshObtain?
    ensures NextOk(c, s, RefreshStep(c, s, l, env))
  {
    ReadsShow(c, s, RefreshStep(c, s, l, env).event, l.sid);
  }

  lemma RefreshCallIsOk(c: Config, s: State, l: Local, env: Env)
    requires LocalOk(c, s.log, l) && l.RefreshCall?
    ensures NextOk(c, s, RefreshStep(c, s, l, env))
  {
  }

  lemma RefreshSaveIsOk(c: Config, s: State, l: Local, env: Env)
    requires LocalOk(c, s.log, l) && (l.RefreshSave? || l.RefreshRelease?)
    ensures NextOk(c, s, RefreshStep(c, s, l, env))
  {
  }

  lemma LogoutIsOk(c: Config, s: State, l: Local, env: Env)
    requires InLogout(l) && SessionKept(c, s.log, s.sessions, l.sid)
    ensures NextOk(c, s, LogoutStep(s, l, env))
  {
    LookIsOk(c, s, l.sid);
  }

  lemma AttachGetIsOk(c: Config, s: State, l: Local, env: Env)
    requires l.AttachGet? && SessionKept(c, s.log, s.sessions, l.sid)
    ensures NextOk(c, s, AttachStep(c, s, l, env))
  {
    var e := AttachStep(c, s, l, env);
    if env.link.Works? {
      LookIsOk(c, s, l.sid);
      assert e.event == Some(Looked(l.sid, Get(s.sessions, l.sid, s.now), s.now));
    }
  }

  lemma AttachSaveIsOk(c: Config, s: State, l: Local, env: Env)
    requires LocalOk(c, s.log, l) && l.AttachSave?
    ensures NextOk(c, s, AttachStep(c, s, l, env))
  {
  }

  lemma NextIsOk(c: Config, s: State, l: Local, env: Env)
    requires TablesKept(c, s.log, s.sessions, s.pkce, s.locks) && LocalOk(c, s.log, l)
    ensures NextOk(c, s, StepOf(c, s, l, env))
  {
    if InLoginStart(l) {
      LoginStartIsOk(c, s, l, env);
    } else if l.EndGet? {
      EndGetIsOk(c, s, l, env);
    } else if l.EndDelete? || l.EndExchange? {
      EndExchangeIsOk(c, s, l, env);
    } else if InLoginEnd(l) {
      EndSaveIsOk(c, s, l, env);
    } else if l.RefreshGet? {
      RefreshGetIsOk(c, s, l, env);
    } else if l.RefreshObtain? {
      ObtainIsOk(c, s, l, env);
    } else if l.RefreshCall? {
      RefreshCallIsOk(c, s, l, env);
    } else if InRefresh(l) {
      RefreshSaveIsOk(c, s, l, env);
    } else if InLogout(l) {
      LogoutIsOk(c, s, l, env);
    } else if l.AttachGet? {
      AttachGetIsOk(c, s, l, env);
    } else if InAttach(l) {
      AttachSaveIsOk(c, s, l, env);
    } else if l.ReadGet? {
      ReadsShow(c, s, Look(s, l.sid, env.link), l.sid);
    }
  }

  lemma LogGrows(c: Config, log: seq<Event>, event: Option<Event>, now: int)
    requires LogOk(c, log) && InOrder(log, now)
    requires event.Some? ==> event.value.at == now && EventOk(c, Logged(log, event), |log|)
    ensures LogOk(c, Logged(log, event)) && InOrder(Logged(log, event), now)
  {
    forall i | 0 <= i < |Logged(log, event)| ensures EventOk(c, Logged(log, event), i) {
      if i < |log| { EventStays(c, log, event, i); }
    }
  }

  lemma ApplyKeeps(c: Config, s: State, a: Action)
    requires Invariant(c, s)
    ensures Invariant(c, Apply(c, s, a))
  {
    match a
    case Tick(_) =>
    case Begin(w, op) => assert LocalOk(c, s.log, FirstCall(c, op));
    case Step(w, env) =>
      var l := LocalOf(s, w);
      assert LocalOk(c, s.log, l);
      var e := StepOf(c, s, l, env);
      NextIsOk(c, s, l, env);
      TablesFollow(c, s.log, s.sessions, s.pkce, s.locks, e.event);
      LogGrows(c, s.log, e.event, s.now);
      forall v | v in s.workers ensures LocalOk(c, Logged(s.log, e.event), s.workers[v]) {
        LocalStays(c, s.log, e.event, s.workers[v]);
      }
  }

  lemma {:induction false} RunMore(c: Config, s: State, actions: seq<Action>, a: Action)
    ensures Run(c, s, actions + [a]) == Apply(c, Run(c, s, actions), a)
    decreases |actions|
  {
    if actions == [] {
      assert Run(c, s, [a]) == Run(c, Apply(c, s, a), []);
    } else {
      assert (actions + [a])[0] == actions[0] && (actions + [a])[1..] == actions[1..] + [a];
      RunMore(c, Apply(c, s, actions[0]), actions[1..], a);
    }
  }

  lemma {:induction false} RunKeeps(c: Config, s: State, actions: seq<Action>)
    requires Invariant(c, s)
    ensures Invariant(c, Run(c, s, actions))
    decreases |actions|
  {
    if actions != [] {
      ApplyKeeps(c, s, actions[0]);
      RunKeeps(c, Apply(c, s, actions[0]), actions[1..]);
    }
  }

  // In every run the three tables are what the log says, and every event goes back to
  // earlier ones.
  lemma HistoryHolds(c: Config, now: int, actions: seq<Action>)
    ensures Invariant(c, Run(c, Start(now), actions))
  {
    RunKeeps(c, Start(now), actions);
  }

  // ------------------------------------------------------------------------------------
  // Exactly when a read finds something and a lock is obtained
  // ------------------------------------------------------------------------------------

  // The m-th event saved the session, has not run out at that time, and neither a save nor a
  // logout of the session follows before the n-th event.
  predicate HoldsSession(c: Config, log: seq<Event>, n: nat, sid: string, at: int, m: nat) {
    SetsLast(log, n, OfSession(sid), m) && Lasts(c.sessionTtl, log[m].at, at)
  }

  predicate HoldsState(c: Config, log: seq<Event>, n: nat, state: string, at: int, m: nat) {
    SetsLast(log, n, OfState(state), m) && Lasts(c.pkceTtl, log[m].at, at)
  }

  lemma ShownExactly(c: Config, log: seq<Event>, n: nat, sid: string, at: int)
    requires n <= |log|
    ensures Shown(c, log, n, sid, at).Some? <==> exists m: nat :: HoldsSession(c, log, n, sid, at, m)
    ensures forall m: nat :: HoldsSession(c, log, n, sid, at, m) ==> Shown(c, log, n, sid, at) == Some(AsStored(log[m].session))
  {
    var last := LastSet(log, n, OfSession(sid));
    forall m: nat ensures last == Some(m) <==> SetsLast(log, n, OfSession(sid), m) {
      LastSetIs(log, n, OfSession(sid), m);
    }
    if last.Some? && Lasts(c.sessionTtl, log[last.value].at, at) {
      assert HoldsSession(c, log, n, sid, at, last.value);
    }
  }

  lemma RememberedExactly(c: Config, log: seq<Event>, n: nat, state: string, at: int)
    requires n <= |log|
    ensures Remembered(c, log, n, state, at).Some? <==> exists m: nat :: HoldsState(c, log, n, state, at, m)
    ensures forall m: nat :: HoldsState(c, log, n, state, at, m) ==> Remembered(c, log, n, state, at) == Some(log[m].p)
  {
    var last := LastSet(log, n, OfState(state));
    forall m: nat ensures last == Some(m) <==> SetsLast(log, n, OfState(state), m) {
      LastSetIs(log, n, OfState(state), m);
    }
    if last.Some? && Lasts(c.pkceTtl, log[last.value].at, at) {
      assert HoldsState(c, log, n, state, at, last.value);
    }
  }

  // In every run: a read finds a session if and only if some event saved it, has not run out,
  // and neither a save nor a logout of that session came in between; it shows what that event
  // saved. Likewise for LoginEnd's read of a state.
  lemma FoundExactly(c: Config, now: int, actions: seq<Action>, i: nat)
    requires i < |Run(c, Start(now), actions).log|
    ensures var log := Run(c, Start(now), actions).log;
            var e := log[i];
            && (e.Looked? ==>
                 && (e.record.Some? <==> exists m: nat :: HoldsSession(c, log, i, e.sid, e.at, m))
                 && (forall m: nat :: HoldsSession(c, log, i, e.sid, e.at, m) ==> e.record == Some(AsStored(log[m].session))))
            && (e.Recalled? ==>
                 && (e.found.Some? <==> exists m: nat :: HoldsState(c, log, i, e.state, e.at, m))
                 && (forall m: nat :: HoldsState(c, log, i, e.state, e.at, m) ==> e.found == Some(log[m].p)))
  {
    HistoryHolds(c, now, actions);
    var log := Run(c, Start(now), actions).log;
    assert EventOk(c, log, i);
    if log[i].Looked? {
      ShownExactly(c, log, i, log[i].sid, log[i].at);
    } else if log[i].Recalled? {
      RememberedExactly(c, log, i, log[i].state, log[i].at);
    }
  }

  // The same for what is live in the store at the end of the run.
  lemma LiveExactly(c: Config, now: int, actions: seq<Action>, sid: string)
    ensures var s := Run(c, Start(now), actions);
            && (Live(s.sessions, sid, s.now) <==> exists m: nat :: HoldsSession(c, s.log, |s.log|, sid, s.now, m))
            && (Live(s.pkce, sid, s.now) <==> exists m: nat :: HoldsState(c, s.log, |s.log|, sid, s.now, m))
  {
    HistoryHolds(c, now, actions);
    var s := Run(c, Start(now), actions);
    GetsShow(c, s, sid);
    ShownExactly(c, s.log, |s.log|, sid, s.now);
    RememberedExactly(c, s.log, |s.log|, sid, s.now);
  }
}
