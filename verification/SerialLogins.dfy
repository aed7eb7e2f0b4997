// When operations on one state or one session do not overlap, the agent behaves as if its
// operations were served one at a time from a table of live logins.
module SerialLogins {
  import opened Wrappers
  import opened Kv
  import opened SessionModel
  import opened AgentMachine
  import opened AgentHistory
  import opened SessionProvenance
  import Base64

  // ------------------------------------------------------------------------------------
  // The hypotheses
  // ------------------------------------------------------------------------------------

  // The session and the login state that an operation in progress works on.
  function SessionOf(l: Local): Option<string> {
    match l
    case EndSave(_, _, session) => Some(session.id)
    case RefreshGet(sid) => Some(sid)
    case RefreshObtain(sid, _, _) => Some(sid)
    case RefreshCall(sid, _, _, _) => Some(sid)
    case RefreshSave(sid, _, _, _) => Some(sid)
    case RefreshRelease(sid, _) => Some(sid)
    case LogoutGet(sid) => Some(sid)
    case LogoutDelete(sid) => Some(sid)
    case AttachGet(sid, _) => Some(sid)
    case AttachSave(sid, _, _) => Some(sid)
    case ReadGet(sid) => Some(sid)
    case _ => None
  }

  function StateOf(l: Local): Option<string> {
    match l
    case StartStore(p) => Some(p.state)
    case StartUrl(p) => Some(p.state)
    case EndGet(state, _) => Some(state)
    case EndDelete(state, _, _, _) => Some(state)
    case EndExchange(state, _, _, _) => Some(state)
    case EndValidate(state, _, _, _) => Some(state)
    case EndSave(state, _, _) => Some(state)
    case _ => None
  }

  predicate Overlap(a: Local, b: Local) {
    || (SessionOf(a).Some? && SessionOf(a) == SessionOf(b))
    || (StateOf(a).Some? && StateOf(a) == StateOf(b))
  }

  ghost predicate Apart(s: State) {
    forall v, w :: v in s.workers && w in s.workers && v != w ==> !Overlap(s.workers[v], s.workers[w])
  }

  // An operation reads or changes the session, or reads or uses up the state.
  predicate Touches(e: Event, t: Topic) {
    match t
    case OfSession(sid) => Sets(e, t) || Clears(e, t) || (e.Looked? && e.sid == sid)
    case OfState(state) => (e.Recalled? || e.Exchanged?) && e.state == state
    case OfLock(_) => false
  }

  ghost predicate NeverStored(log: seq<Event>, n: nat, state: string) {
    forall i :: 0 <= i < n && i < |log| ==> !Sets(log[i], OfState(state))
  }

  ghost predicate NeverTouched(log: seq<Event>, n: nat, sid: string) {
    forall i :: 0 <= i < n && i < |log| ==> !Touches(log[i], OfSession(sid))
  }

  // Store commands work, and generated states and session IDs have not occurred before.
  ghost predicate CalmStep(c: Config, s: State, a: Action) {
    match a
    case Tick(_) => true
    case Begin(w, op) => FirstCall(c, op).StartStore? ==> NeverStored(s.log, |s.log|, FirstCall(c, op).p.state)
    case Step(w, env) =>
      && env.link.Works?
      && (LocalOf(s, w).EndValidate? ==> NeverTouched(s.log, |s.log|, Base64.RawEncode(env.idBytes)))
  }

  ghost predicate CalmRun(c: Config, s: State, actions: seq<Action>)
    decreases |actions|
  {
    Apart(s) && (actions == [] || (CalmStep(c, s, actions[0]) && CalmRun(c, Apply(c, s, actions[0]), actions[1..])))
  }

  // ------------------------------------------------------------------------------------
  // The serial service: a table of live logins and one atomic change per operation
  // ------------------------------------------------------------------------------------

  // An update applies to the record that the table holds, not to the one that was read.
  function Serve(c: Config, log: seq<Event>, i: nat, logins: Table<Session>): Table<Session>
    requires i < |log|
  {
    match log[i]
    case Created(_, session, at) => Put(logins, session.id, AsStored(session), c.sessionTtl, at)
    case Renewed(sid, call, _, at) =>
      if sid in logins && call < i && log[call].Presented? && log[call].answer.Some? then
        var t := log[call].answer.value;
        var session := RefreshedSession(logins[sid].value, t, AcceptedClaims(c, t, log[call].verified), log[call].at);
        Put(logins, sid, AsStored(session), c.sessionTtl, at)
      else logins
    case Attached(sid, _, session, at) =>
      if sid in logins && session.tenantContext.Some?
      then Put(logins, sid, AsStored(AttachedSession(logins[sid].value, session.tenantContext.value)), c.sessionTtl, at)
      else logins
    case LoggedOut(sid, _) => Del(logins, sid)
    case _ => logins
  }

  function Serial(c: Config, log: seq<Event>, n: nat): Table<Session>
    requires n <= |log|
  {
    if n == 0 then map[] else Serve(c, log, n - 1, Serial(c, log, n - 1))
  }

  // The update's base is still the last word on its session.
  predicate Current(log: seq<Event>, i: nat)
    requires i < |log|
  {
    (log[i].Renewed? || log[i].Attached?) ==> BaseOf(log, i) == LastSet(log, i, OfSession(log[i].sid))
  }

  ghost predicate AllCurrent(log: seq<Event>) {
    forall i :: 0 <= i < |log| ==> Current(log, i)
  }

  predicate SerialAt(c: Config, log: seq<Event>, n: nat, sid: string)
    requires n <= |log|
  {
    var logins := Serial(c, log, n);
    match LastSet(log, n, OfSession(sid))
    case None => sid !in logins
    case Some(m) => sid in logins && logins[sid] == Entry(AsStored(log[m].session), Expiry(c.sessionTtl, log[m].at))
  }

  // If no update loses another, the serial table is what the store's table is.
  lemma {:induction false} SerialIsHistory(c: Config, log: seq<Event>, n: nat, sid: string)
    requires LogOk(c, log) && n <= |log| && AllCurrent(log)
    ensures SerialAt(c, log, n, sid)
  {
    if n > 0 {
      SerialIsHistory(c, log, n - 1, sid);
      ServeIsHistory(c, log, n - 1, sid);
    }
  }

  lemma ServeIsHistory(c: Config, log: seq<Event>, i: nat, sid: string)
    requires LogOk(c, log) && i < |log| && AllCurrent(log) && SerialAt(c, log, i, sid)
    ensures SerialAt(c, log, i + 1, sid)
  {
    if Writes(log, i, sid) && !log[i].Created? {
      UpdateHasBase(c, log, i, sid);
      assert Current(log, i);
    }
  }

  // In every run in which no update loses another: every read on the way saw exactly what the
  // serial table held, and that is what the store holds.
  lemma CurrentIsSerial(c: Config, now: int, actions: seq<Action>, sid: string, i: nat)
    requires AllCurrent(Run(c, Start(now), actions).log) && i < |Run(c, Start(now), actions).log|
    ensures var s := Run(c, Start(now), actions);
            && Get(s.sessions, sid, s.now) == Get(Serial(c, s.log, |s.log|), sid, s.now)
            && (s.log[i].Looked? ==> s.log[i].record == Get(Serial(c, s.log, i), s.log[i].sid, s.log[i].at))
  {
    HistoryHolds(c, now, actions);
    var s := Run(c, Start(now), actions);
    assert SessionKept(c, s.log, s.sessions, sid) && EventOk(c, s.log, i);
    SerialIsHistory(c, s.log, |s.log|, sid);
    if s.log[i].Looked? {
      SerialIsHistory(c, s.log, i, s.log[i].sid);
    }
  }

  // ------------------------------------------------------------------------------------
  // What operations that do not overlap leave in the log
  // ------------------------------------------------------------------------------------

  predicate Undisturbed(log: seq<Event>, read: nat, n: nat, t: Topic) {
    forall k :: read < k < n && k < |log| ==> !Touches(log[k], t)
  }

  predicate DroppedSince(log: seq<Event>, read: nat, n: nat, state: string) {
    exists k :: read < k < n && k < |log| && Clears(log[k], OfState(state))
  }

  // Nobody touches a session between the read and the write of an update, or a state between
  // the read and the exchange of a callback, which deletes it; and IDs are new.
  ghost predicate CalmAt(log: seq<Event>, i: nat)
    requires i < |log|
  {
    match log[i]
    case Stored(p, _) => NeverStored(log, i, p.state)
    case Exchanged(state, _, read, _, _, _) => Undisturbed(log, read, i, OfState(state)) && DroppedSince(log, read, i, state)
    case Created(_, session, _) => NeverTouched(log, i, session.id)
    case Renewed(sid, call, _, _) => call < i && log[call].Presented? && Undisturbed(log, log[call].read, i, OfSession(sid))
    case Attached(sid, read, _, _) => Undisturbed(log, read, i, OfSession(sid))
    case _ => true
  }

  ghost predicate CalmLog(log: seq<Event>) {
    forall i :: 0 <= i < |log| ==> CalmAt(log, i)
  }

  ghost predicate CalmLocal(log: seq<Event>, l: Local) {
    match l
    case StartStore(p) => NeverStored(log, |log|, p.state)
    case EndDelete(state, _, _, read) => Undisturbed(log, read, |log|, OfState(state))
    case EndExchange(state, _, _, read) => Undisturbed(log, read, |log|, OfState(state)) && DroppedSince(log, read, |log|, state)
    case EndSave(_, _, session) => NeverTouched(log, |log|, session.id)
    case RefreshObtain(sid, _, read) => Undisturbed(log, read, |log|, OfSession(sid))
    case RefreshCall(sid, _, read, _) => Undisturbed(log, read, |log|, OfSession(sid))
    case RefreshSave(sid, call, _, _) =>
      call < |log| && log[call].Presented? && Undisturbed(log, log[call].read, |log|, OfSession(sid))
    case AttachSave(sid, read, _) => Undisturbed(log, read, |log|, OfSession(sid))
    case _ => true
  }

  // A step's event touches the worker's own session and state only.
  predicate Own(l: Local, e: Event) {
    && ((Sets(e, OfState(Key(StateOf(l)))) || e.Stored?) ==> StateOf(l).Some? && Sets(e, OfState(StateOf(l).value)))
    && ((e.Recalled? || e.Exchanged?) ==> StateOf(l) == Some(e.state))
    && ((e.Looked? || e.Renewed? || e.Attached? || e.LoggedOut?) ==> SessionOf(l) == Some(e.sid))
    && (e.Created? ==> SessionOf(l) == Some(e.session.id))
  }

  function Key(o: Option<string>): string {
    if o.Some? then o.value else ""
  }

  lemma LoginIsOwn(c: Config, s: State, l: Local, env: Env)
    requires InLoginStart(l) || InLoginEnd(l)
    ensures var e := StepOf(c, s, l, env).event; e.Some? ==> Own(l, e.value)
  {
  }

  lemma RefreshIsOwn(c: Config, s: State, l: Local, env: Env)
    requires InRefresh(l)
    ensures var e := RefreshStep(c, s, l, env).event; e.Some? ==> Own(l, e.value)
  {
  }

  lemma StepIsOwn(c: Config, s: State, l: Local, env: Env)
    ensures var e := StepOf(c, s, l, env).event; e.Some? ==> Own(l, e.value)
  {
    if InLoginStart(l) || InLoginEnd(l) {
      LoginIsOwn(c, s, l, env);
    } else if InRefresh(l) {
      RefreshIsOwn(c, s, l, env);
    } else {
      var e := StepOf(c, s, l, env).event;
      assert e.Some? ==> e.value.Looked? || e.value.LoggedOut? || e.value.Attached?;
    }
  }

  lemma OthersStayCalm(log: seq<Event>, event: Option<Event>, mine: Local, other: Local)
    requires CalmLocal(log, other) && !Overlap(other, mine) && (event.Some? ==> Own(mine, event.value))
    ensures CalmLocal(Logged(log, event), other)
  {
    if event.Some? {
      StaysUntouched(log, event.value, mine, other);
      if other.EndExchange? {
        DropStays(log, event, other.read, other.state);
      }
    }
  }

  // One worker's event does not touch what another one works on.
  lemma StaysUntouched(log: seq<Event>, e: Event, mine: Local, other: Local)
    requires !Overlap(other, mine) && Own(mine, e)
    ensures SessionOf(other).Some? ==> !Touches(e, OfSession(SessionOf(other).value))
    ensures StateOf(other).Some? ==> !Touches(e, OfState(StateOf(other).value)) && !Sets(e, OfState(StateOf(other).value))
    ensures forall k :: 0 <= k < |log| ==> (log + [e])[k] == log[k]
    ensures (log + [e])[|log|] == e
  {
  }

  lemma DropStays(log: seq<Event>, event: Option<Event>, read: nat, state: string)
    requires DroppedSince(log, read, |log|, state)
    ensures DroppedSince(Logged(log, event), read, |log|, state)
    ensures DroppedSince(Logged(log, event), read, |Logged(log, event)|, state)
  {
    var k :| read < k < |log| && Clears(log[k], OfState(state));
    assert Clears(Logged(log, event)[k], OfState(state));
  }

  lemma CalmStays(log: seq<Event>, event: Option<Event>, i: nat)
    requires i < |log| && CalmAt(log, i)
    ensures CalmAt(Logged(log, event), i)
  {
    var longer := Logged(log, event);
    assert forall k :: 0 <= k < |log| ==> longer[k] == log[k];
    if log[i].Exchanged? {
      var e := log[i];
      var k :| e.read < k < i && k < |log| && Clears(log[k], OfState(e.state));
      assert Clears(longer[k], OfState(e.state));
    }
  }

  // ---- One step ------------------------------------------------------------------------------

  ghost predicate CalmNext(s: State, e: Effect) {
    var longer := Logged(s.log, e.event);
    && (e.event.Some? ==> CalmAt(longer, |s.log|))
    && CalmLocal(longer, e.next)
  }

  lemma LoginStartIsCalm(c: Config, s: State, l: Local, env: Env)
    requires CalmLocal(s.log, l) && InLoginStart(l)
    ensures CalmNext(s, LoginStartStep(c, s, l, env))
  {
  }

  lemma EndGetIsCalm(c: Config, s: State, l: Local, env: Env)
    requires l.EndGet?
    ensures CalmNext(s, LoginEndStep(c, s, l, env))
  {
  }

  lemma EndDeleteIsCalm(c: Config, s: State, l: Local, env: Env)
    requires CalmLocal(s.log, l) && LocalOk(c, s.log, l) && l.EndDelete? && env.link.Works?
    ensures CalmNext(s, LoginEndStep(c, s, l, env))
  {
    var longer := Logged(s.log, LoginEndStep(c, s, l, env).event);
    assert longer[|s.log|] == Dropped(l.state, s.now) && Clears(longer[|s.log|], OfState(l.state));
  }

  lemma EndExchangeIsCalm(c: Config, s: State, l: Local, env: Env)
    requires CalmLocal(s.log, l) && l.EndExchange?
    ensures CalmNext(s, LoginEndStep(c, s, l, env))
  {
    DropStays(s.log, LoginEndStep(c, s, l, env).event, l.read, l.state);
  }

  lemma EndSaveIsCalm(c: Config, s: State, l: Local, env: Env)
    requires CalmLocal(s.log, l) && (l.EndValidate? || l.EndSave?)
    requires l.EndValidate? ==> NeverTouched(s.log, |s.log|, Base64.RawEncode(env.idBytes))
    ensures CalmNext(s, LoginEndStep(c, s, l, env))
  {
  }

  lemma RefreshGetIsCalm(c: Config, s: State, l: Local, env: Env)
    requires l.RefreshGet?
    ensures CalmNext(s, RefreshStep(c, s, l, env))
  {
  }

  lemma RefreshLockIsCalm(c: Config, s: State, l: Local, env: Env)
    requires CalmLocal(s.log, l) && (l.RefreshObtain? || l.RefreshRelease?)
    ensures CalmNext(s, RefreshStep(c, s, l, env))
  {
  }

  lemma RefreshCallIsCalm(c: Config, s: State, l: Local, env: Env)
    requires CalmLocal(s.log, l) && l.RefreshCall?
    ensures CalmNext(s, RefreshStep(c, s, l, env))
  {
  }

  lemma RefreshSaveIsCalm(c: Config, s: State, l: Local, env: Env)
    requires CalmLocal(s.log, l) && l.RefreshSave?
    ensures CalmNext(s, RefreshStep(c, s, l, env))
  {
  }

  lemma StepIsCalm(c: Config, s: State, w: Worker, env: Env)
    requires CalmLocal(s.log, LocalOf(s, w)) && LocalOk(c, s.log, LocalOf(s, w)) && CalmStep(c, s, Step(w, env))
    ensures CalmNext(s, StepOf(c, s, LocalOf(s, w), env))
  {
    var l := LocalOf(s, w);
    if InLoginStart(l) {
      LoginStartIsCalm(c, s, l, env);
    } else if l.EndGet? {
      EndGetIsCalm(c, s, l, env);
    } else if l.EndDelete? {
      EndDeleteIsCalm(c, s, l, env);
    } else if l.EndExchange? {
      EndExchangeIsCalm(c, s, l, env);
    } else if InLoginEnd(l) {
      EndSaveIsCalm(c, s, l, env);
    } else if l.RefreshGet? {
      RefreshGetIsCalm(c, s, l, env);
    } else if l.RefreshCall? {
      RefreshCallIsCalm(c, s, l, env);
    } else if l.RefreshSave? {
      RefreshSaveIsCalm(c, s, l, env);
    } else if InRefresh(l) {
      RefreshLockIsCalm(c, s, l, env);
    } else {
      var e := StepOf(c, s, l, env);
      assert e.event.Some? ==> e.event.value.Looked? || e.event.value.LoggedOut? || e.event.value.Attached?;
    }
  }

  ghost predicate Calm(c: Config, s: State) {
    && Invariant(c, s) && CalmLog(s.log)
    && forall w :: w in s.workers ==> CalmLocal(s.log, s.workers[w])
  }

  lemma CalmLogGrows(log: seq<Event>, event: Option<Event>)
    requires CalmLog(log) && (event.Some? ==> CalmAt(Logged(log, event), |log|))
    ensures CalmLog(Logged(log, event))
  {
    forall i | 0 <= i < |Logged(log, event)| ensures CalmAt(Logged(log, event), i) {
      if i < |log| { CalmStays(log, event, i); }
    }
  }

  lemma CalmStepKeeps(c: Config, s: State, w: Worker, env: Env)
    requires Calm(c, s) && Apart(s) && CalmStep(c, s, Step(w, env))
    ensures Calm(c, Apply(c, s, Step(w, env)))
  {
    var l := LocalOf(s, w);
    var e := StepOf(c, s, l, env);
    var longer := Logged(s.log, e.event);
    AgentHistory.ApplyKeeps(c, s, Step(w, env));
    assert CalmLocal(s.log, l) && LocalOk(c, s.log, l);
    StepIsCalm(c, s, w, env);
    StepIsOwn(c, s, l, env);
    CalmLogGrows(s.log, e.event);
    if w in s.workers {
      AllOthersStayCalm(s, w, e.event);
    } else {
      NobodyElseMoves(s, l, e.event);
    }
  }

  lemma AllOthersStayCalm(s: State, w: Worker, event: Option<Event>)
    requires Apart(s) && w in s.workers && (event.Some? ==> Own(s.workers[w], event.value))
    requires forall v :: v in s.workers ==> CalmLocal(s.log, s.workers[v])
    ensures forall v :: v in s.workers && v != w ==> CalmLocal(Logged(s.log, event), s.workers[v])
  {
    forall v | v in s.workers && v != w ensures CalmLocal(Logged(s.log, event), s.workers[v]) {
      OthersStayCalm(s.log, event, s.workers[w], s.workers[v]);
    }
  }

  // A step of an idle worker logs nothing.
  lemma NobodyElseMoves(s: State, l: Local, event: Option<Event>)
    requires l.Idle? && event.None?
    requires forall v :: v in s.workers ==> CalmLocal(s.log, s.workers[v])
    ensures forall v :: v in s.workers ==> CalmLocal(Logged(s.log, event), s.workers[v])
  {
  }

  lemma CalmBeginKeeps(c: Config, s: State, w: Worker, op: Operation)
    requires Calm(c, s) && CalmStep(c, s, Begin(w, op))
    ensures Calm(c, Apply(c, s, Begin(w, op)))
  {
    AgentHistory.ApplyKeeps(c, s, Begin(w, op));
    var first := FirstCall(c, op);
    assert first.Idle? || first.StartStore? || first.EndGet? || first.RefreshGet? || first.LogoutGet? || first.AttachGet? || first.ReadGet?;
    assert CalmLocal(s.log, first);
  }

  lemma CalmKeeps(c: Config, s: State, a: Action)
    requires Calm(c, s) && Apart(s) && CalmStep(c, s, a)
    ensures Calm(c, Apply(c, s, a))
  {
    match a
    case Tick(_) => AgentHistory.ApplyKeeps(c, s, a);
    case Begin(w, op) => CalmBeginKeeps(c, s, w, op);
    case Step(w, env) => CalmStepKeeps(c, s, w, env);
  }

  lemma {:induction false} CalmRunKeeps(c: Config, s: State, actions: seq<Action>)
    requires Calm(c, s) && CalmRun(c, s, actions)
    ensures Calm(c, Run(c, s, actions))
    decreases |actions|
  {
    if actions != [] {
      CalmKeeps(c, s, actions[0]);
      CalmRunKeeps(c, Apply(c, s, actions[0]), actions[1..]);
    }
  }

  // ------------------------------------------------------------------------------------
  // Whole runs
  // ------------------------------------------------------------------------------------

  lemma {:induction false} UndisturbedIsCurrent(log: seq<Event>, read: nat, n: nat, sid: string)
    requires read < n <= |log| && log[read].Looked? && Undisturbed(log, read, n, OfSession(sid))
    ensures LastSet(log, n, OfSession(sid)) == LastSet(log, read, OfSession(sid))
    decreases n
  {
    if n > read + 1 {
      UndisturbedIsCurrent(log, read, n - 1, sid);
      assert !Touches(log[n - 1], OfSession(sid));
    }
  }

  lemma CalmIsCurrent(c: Config, log: seq<Event>)
    requires LogOk(c, log) && CalmLog(log)
    ensures AllCurrent(log)
  {
    forall i | 0 <= i < |log| ensures Current(log, i) {
      assert CalmAt(log, i) && EventOk(c, log, i);
      if log[i].Renewed? {
        UndisturbedIsCurrent(log, log[log[i].call].read, i, log[i].sid);
      } else if log[i].Attached? {
        UndisturbedIsCurrent(log, log[i].read, i, log[i].sid);
      }
    }
  }

  // The service refines the serial table: in every reachable state a session is found in the
  // store exactly when the serial table holds it, with the same record, and every read that
  // any Session, Resolve, Refresh, Logout or AttachTenantContext made on the way saw exactly
  // what the serial table held then.
  lemma ServiceIsSerial(c: Config, now: int, actions: seq<Action>, sid: string, i: nat)
    requires CalmRun(c, Start(now), actions) && i < |Run(c, Start(now), actions).log|
    ensures var s := Run(c, Start(now), actions);
            && Get(s.sessions, sid, s.now) == Get(Serial(c, s.log, |s.log|), sid, s.now)
            && (s.log[i].Looked? ==> s.log[i].record == Get(Serial(c, s.log, i), s.log[i].sid, s.log[i].at))
  {
    CalmRunKeeps(c, Start(now), actions);
    CalmIsCurrent(c, Run(c, Start(now), actions).log);
    CurrentIsSerial(c, now, actions, sid, i);
  }

  // Each login state leads to at most one exchange of a code.
  lemma OneExchangePerState(c: Config, now: int, actions: seq<Action>, i: nat, j: nat)
    requires CalmRun(c, Start(now), actions) && i < j < |Run(c, Start(now), actions).log|
    ensures var log := Run(c, Start(now), actions).log;
            log[i].Exchanged? && log[j].Exchanged? ==> log[i].state != log[j].state
  {
    CalmRunKeeps(c, Start(now), actions);
    var log := Run(c, Start(now), actions).log;
    if log[i].Exchanged? && log[j].Exchanged? {
      assert CalmAt(log, i) && CalmAt(log, j) && EventOk(c, log, i) && EventOk(c, log, j);
      if log[j].read > i {
        ReadsFindOne(c, log, log[i].read, i, log[j].read, log[i].state);
      }
    }
  }

  // After the state was found and deleted, no read finds it again.
  lemma ReadsFindOne(c: Config, log: seq<Event>, first: nat, i: nat, second: nat, state: string)
    requires LogOk(c, log) && CalmLog(log) && first < i < second < |log|
    requires Recalls(log[first], state) && DroppedSince(log, first, i, state)
    ensures !Recalls(log[second], state)
  {
    assert EventOk(c, log, first) && EventOk(c, log, second);
    RememberedExactly(c, log, first, state, log[first].at);
    var q: nat :| HoldsState(c, log, first, state, log[first].at, q);
    StoredOnce(log, q, state);
    var d :| first < d < i && Clears(log[d], OfState(state));
    RememberedExactly(c, log, second, state, log[second].at);
    assert forall r: nat :: HoldsState(c, log, second, state, log[second].at, r) ==> r <= q;
  }

  lemma StoredOnce(log: seq<Event>, q: nat, state: string)
    requires CalmLog(log) && q < |log| && Sets(log[q], OfState(state))
    ensures forall r :: q < r < |log| ==> !Sets(log[r], OfState(state))
  {
    forall r | q < r < |log| ensures !Sets(log[r], OfState(state)) {
      assert CalmAt(log, r);
    }
  }

  // A Logout that passes the origin check with a cookie finds no session, or removes it.
  lemma LogoutRemoves(c: Config, s: State, w: Worker, env: Env)
    requires w in s.workers && InLogout(s.workers[w]) && env.link.Works?
    ensures var s' := Apply(c, s, Step(w, env));
            var sid := s.workers[w].sid;
            if s.workers[w].LogoutDelete? then sid !in s'.sessions && s'.log == s.log + [LoggedOut(sid, s.now)]
            else s'.workers[w] == LogoutDelete(sid) || s'.log == s.log + [Looked(sid, None, s.now)]
  {
  }

  // The session was logged out, or was not found.
  predicate Gone(e: Event, sid: string) {
    (e.LoggedOut? || (e.Looked? && e.record.None?)) && e.sid == sid
  }

  // Nothing saved a session before the i-th event that is still found after it.
  lemma NotHeldPast(c: Config, log: seq<Event>, now: int, i: nat, r: nat, sid: string)
    requires LogOk(c, log) && InOrder(log, now) && i < r < |log|
    requires Gone(log[i], sid)
    requires forall m :: i < m < r ==> !Sets(log[m], OfSession(sid))
    ensures !Shows(log[r], sid)
  {
    if Shows(log[r], sid) {
      assert EventOk(c, log, r) && EventOk(c, log, i);
      ShownExactly(c, log, r, sid, log[r].at);
      var q: nat :| HoldsSession(c, log, r, sid, log[r].at, q);
      ShownExactly(c, log, i, sid, log[i].at);
      assert log[i].Looked? ==> HoldsSession(c, log, i, sid, log[i].at, q);
    }
  }

  lemma {:induction false} NeverSavedAgain(c: Config, log: seq<Event>, now: int, i: nat, m: nat, sid: string)
    requires LogOk(c, log) && InOrder(log, now) && CalmLog(log) && i < m < |log|
    requires Gone(log[i], sid)
    ensures !Sets(log[m], OfSession(sid))
    decreases m
  {
    forall k | i < k < m ensures !Sets(log[k], OfSession(sid)) {
      NeverSavedAgain(c, log, now, i, k, sid);
    }
    assert CalmAt(log, m) && EventOk(c, log, m);
    if Writes(log, m, sid) && !log[m].Created? {
      var read := if log[m].Renewed? then log[log[m].call].read else log[m].read;
      if i < read {
        NotHeldPast(c, log, now, i, read, sid);
      }
    }
  }

  // After a logout no operation finds the session again, nor after a logout or any other
  // operation has not found it.
  lemma LoggedOutForGood(c: Config, now: int, actions: seq<Action>, i: nat, j: nat, sid: string)
    requires CalmRun(c, Start(now), actions) && i < j < |Run(c, Start(now), actions).log|
    ensures var log := Run(c, Start(now), actions).log;
            Gone(log[i], sid) ==> !Shows(log[j], sid)
  {
    CalmRunKeeps(c, Start(now), actions);
    var s := Run(c, Start(now), actions);
    if Gone(s.log[i], sid) {
      forall k | i < k < j ensures !Sets(s.log[k], OfSession(sid)) {
        NeverSavedAgain(c, s.log, s.now, i, k, sid);
      }
      NotHeldPast(c, s.log, s.now, i, j, sid);
    }
  }

  // ---- A whole Logout --------------------------------------------------------------------------

  lemma {:induction false} CalmEach(c: Config, s: State, actions: seq<Action>, k: nat)
    requires CalmRun(c, s, actions) && k < |actions|
    ensures CalmStep(c, Run(c, s, actions[..k]), actions[k])
    decreases k
  {
    if k > 0 {
      assert actions[..k][0] == actions[0] && actions[..k][1..] == actions[1..][..k - 1];
      CalmEach(c, Apply(c, s, actions[0]), actions[1..], k - 1);
    }
  }

  lemma RunUpTo(c: Config, s: State, actions: seq<Action>, k: nat)
    requires k < |actions|
    ensures Run(c, s, actions[..k + 1]) == Apply(c, Run(c, s, actions[..k]), actions[k])
  {
    assert actions[..k + 1] == actions[..k] + [actions[k]];
    RunMore(c, s, actions[..k], actions[k]);
  }

  lemma {:induction false} LogGrows(c: Config, s: State, actions: seq<Action>, k: nat)
    requires k <= |actions|
    ensures Run(c, s, actions[..k]).log <= Run(c, s, actions).log
    decreases |actions| - k
  {
    if k < |actions| {
      RunUpTo(c, s, actions, k);
      LogGrows(c, s, actions, k + 1);
    } else {
      assert actions[..k] == actions;
    }
  }

  // The worker's Logout is still under way, or the session is logged out or was not found.
  predicate LogoutGoesOn(s: State, w: Worker, sid: string) {
    || (w in s.workers && InLogout(s.workers[w]) && s.workers[w].sid == sid)
    || exists i :: 0 <= i < |s.log| && Gone(s.log[i], sid)
  }

  lemma LogoutBegins(c: Config, s: State, w: Worker, sid: string)
    requires LocalOf(s, w).Idle? && sid != ""
    ensures LogoutGoesOn(Apply(c, s, Begin(w, Logout(true, Some(sid)))), w, sid)
  {
  }

  lemma LogoutStays(c: Config, s: State, a: Action, w: Worker, sid: string)
    requires LogoutGoesOn(s, w, sid) && CalmStep(c, s, a)
    ensures LogoutGoesOn(Apply(c, s, a), w, sid)
  {
    var s' := Apply(c, s, a);
    if i :| 0 <= i < |s.log| && Gone(s.log[i], sid) {
      assert Gone(s'.log[i], sid);
    } else if a.Step? && a.w == w {
      LogoutRemoves(c, s, w, a.env);
      assert |s'.log| > 0 && s'.workers[w].Idle? ==> Gone(s'.log[|s'.log| - 1], sid);
    }
  }

  lemma {:induction false} LogoutUnderWay(c: Config, now: int, actions: seq<Action>, w: Worker, sid: string, a: nat, b: nat)
    requires CalmRun(c, Start(now), actions) && a < b <= |actions| && sid != ""
    requires actions[a] == Begin(w, Logout(true, Some(sid))) && LocalOf(Run(c, Start(now), actions[..a]), w).Idle?
    ensures LogoutGoesOn(Run(c, Start(now), actions[..b]), w, sid)
    decreases b
  {
    RunUpTo(c, Start(now), actions, b - 1);
    var before := Run(c, Start(now), actions[..b - 1]);
    if b - 1 > a {
      LogoutUnderWay(c, now, actions, w, sid, a, b - 1);
      CalmEach(c, Start(now), actions, b - 1);
      LogoutStays(c, before, actions[b - 1], w, sid);
    } else {
      LogoutBegins(c, before, w, sid);
    }
  }

  // A Logout that begins with the a-th action and whose worker is idle again before the b-th:
  // from there on no operation finds the session.
  lemma LogoutIsFinal(c: Config, now: int, actions: seq<Action>, w: Worker, sid: string, a: nat, b: nat, j: nat)
    requires CalmRun(c, Start(now), actions) && a < b <= |actions| && sid != ""
    requires actions[a] == Begin(w, Logout(true, Some(sid))) && LocalOf(Run(c, Start(now), actions[..a]), w).Idle?
    requires LocalOf(Run(c, Start(now), actions[..b]), w).Idle?
    requires |Run(c, Start(now), actions[..b]).log| <= j < |Run(c, Start(now), actions).log|
    ensures !Shows(Run(c, Start(now), actions).log[j], sid)
  {
    LogoutUnderWay(c, now, actions, w, sid, a, b);
    var early := Run(c, Start(now), actions[..b]).log;
    var i :| 0 <= i < |early| && Gone(early[i], sid);
    LogGrows(c, Start(now), actions, b);
    LoggedOutForGood(c, now, actions, i, j, sid);
  }
}
