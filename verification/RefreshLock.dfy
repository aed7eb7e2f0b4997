// Mutual exclusion of refreshes through the refresh lock (internal/agent/service/service.go,
// internal/store/redis/redis.go), for any number of interleaved workers.
module RefreshLock {
  import opened Wrappers
  import opened Kv
  import opened AgentMachine
  import opened AgentHistory

  // Between a successful Obtain and the Release.
  predicate Holding(l: Local) {
    l.RefreshCall? || l.RefreshSave? || l.RefreshRelease?
  }

  predicate Holds(s: State, w: Worker, sid: string) {
    w in s.workers && Holding(s.workers[w]) && s.workers[w].sid == sid
  }

  // Every holder is still within the TTL of the lock it obtained.
  ghost predicate Timely(c: Config, s: State) {
    forall w :: w in s.workers && Holding(s.workers[w]) && c.lockTtl > 0 ==> s.now < s.workers[w].since + c.lockTtl
  }

  ghost predicate TimelyRun(c: Config, s: State, actions: seq<Action>)
    decreases |actions|
  {
    Timely(c, s) && (actions == [] || TimelyRun(c, Apply(c, s, actions[0]), actions[1..]))
  }

  // ---- At most one holder -------------------------------------------------------------------

  // The lock's entry is the one this holder wrote.
  predicate Owns(c: Config, s: State, w: Worker)
    requires w in s.workers && Holding(s.workers[w])
  {
    var l := s.workers[w];
    l.sid in s.locks && s.locks[l.sid].exp == Expiry(c.lockTtl, l.since)
  }

  ghost predicate Exclusive(c: Config, s: State) {
    && (forall w {:trigger s.workers[w]} :: w in s.workers && Holding(s.workers[w]) ==> Owns(c, s, w))
    && (forall v, w, sid :: Holds(s, v, sid) && Holds(s, w, sid) ==> v == w)
  }

  // A step either leaves the lock table as it is, or takes or frees the lock of its own session.
  ghost predicate LockStep(c: Config, s: State, l: Local, e: Effect) {
    && (Holding(e.next) ==>
         || (Holding(l) && e.next.sid == l.sid && e.next.since == l.since && e.locks == s.locks)
         || (l.RefreshObtain? && e.next.sid == l.sid && e.next.since == s.now && Took(c, s, l.sid, e)))
    && (e.locks == s.locks || (l.RefreshObtain? && Took(c, s, l.sid, e))
        || (l.RefreshRelease? && !Holding(e.next) && e.locks == Del(s.locks, l.sid)))
  }

  predicate Took(c: Config, s: State, sid: string, e: Effect) {
    !Live(s.locks, sid, s.now) && e.locks == Put(s.locks, sid, (), c.lockTtl, s.now) && e.event == Some(Leased(sid, s.now))
  }

  lemma RefreshLocks(c: Config, s: State, l: Local, env: Env)
    requires InRefresh(l)
    ensures LockStep(c, s, l, RefreshStep(c, s, l, env))
  {
    match l
    case RefreshGet(_) => assert !Holding(RefreshStep(c, s, l, env).next);
    case RefreshObtain(_, _, _) =>
    case RefreshCall(_, _, _, _) =>
    case RefreshSave(_, _, _, _) =>
    case RefreshRelease(_, _) =>
  }

  lemma OtherLocksStay(c: Config, s: State, l: Local, env: Env)
    ensures LockStep(c, s, l, StepOf(c, s, l, env))
  {
    if InRefresh(l) {
      RefreshLocks(c, s, l, env);
    } else {
      var e := StepOf(c, s, l, env);
      assert e.locks == s.locks && !Holding(e.next);
    }
  }

  lemma StepKeeps(c: Config, s: State, w: Worker, env: Env)
    requires Exclusive(c, s) && Timely(c, s)
    ensures Exclusive(c, Apply(c, s, Step(w, env)))
  {
    var l := LocalOf(s, w);
    var e := StepOf(c, s, l, env);
    var s' := Commit(s, w, e);
    OtherLocksStay(c, s, l, env);
    forall v, sid | Holds(s, v, sid) ensures Live(s.locks, sid, s.now) {
      assert Owns(c, s, v);
    }
    forall v | v in s.workers && v != w && Holding(s.workers[v]) ensures s'.workers[v] == s.workers[v] && Owns(c, s', v) {
      assert Owns(c, s, v);
      assert Holds(s, v, s.workers[v].sid);
      if l.RefreshRelease? && l.sid == s.workers[v].sid {
        assert Holds(s, v, l.sid) && Holds(s, w, l.sid);
      }
    }
    forall v, sid | Holds(s', v, sid) && Holds(s', w, sid) ensures v == w {
      if v != w {
        assert Holds(s, v, sid);
        assert Holding(l) ==> Holds(s, w, sid);
      }
    }
    forall u, v, sid | Holds(s', u, sid) && Holds(s', v, sid) ensures u == v {
      if u != w && v != w {
        assert Holds(s, u, sid) && Holds(s, v, sid);
      }
    }
  }

  lemma ApplyKeeps(c: Config, s: State, a: Action)
    requires Exclusive(c, s) && Timely(c, s)
    ensures Exclusive(c, Apply(c, s, a))
  {
    var s' := Apply(c, s, a);
    if a.Step? {
      StepKeeps(c, s, a.w, a.env);
    } else {
      forall v | v in s'.workers && Holding(s'.workers[v]) ensures v in s.workers && s.workers[v] == s'.workers[v] && Owns(c, s', v) {
        assert Owns(c, s, v);
      }
      forall u, v, sid | Holds(s', u, sid) && Holds(s', v, sid) ensures u == v {
        assert Holds(s, u, sid) && Holds(s, v, sid);
      }
    }
  }

  lemma {:induction false} RunKeeps(c: Config, s: State, actions: seq<Action>)
    requires Exclusive(c, s) && TimelyRun(c, s, actions)
    ensures Exclusive(c, Run(c, s, actions))
    decreases |actions|
  {
    if actions != [] {
      ApplyKeeps(c, s, actions[0]);
      RunKeeps(c, Apply(c, s, actions[0]), actions[1..]);
    }
  }

  // If every holder releases before its TTL runs out, at most one worker at a time is between
  // Obtain and Release for a session, although Release deletes the lock whoever holds it.
  lemma AtMostOneRefresher(c: Config, now: int, actions: seq<Action>, v: Worker, w: Worker, sid: string)
    requires TimelyRun(c, Start(now), actions)
    requires Holds(Run(c, Start(now), actions), v, sid) && Holds(Run(c, Start(now), actions), w, sid)
    ensures v == w
  {
    RunKeeps(c, Start(now), actions);
  }

  // ---- The hypothesis is needed ---------------------------------------------------------------

  // While w holds the lock it wrote, another worker's Obtain makes a second holder exactly
  // when w has overstayed its TTL.
  lemma SecondHolderExactly(c: Config, s: State, v: Worker, w: Worker, env: Env)
    requires v != w && v in s.workers && s.workers[v].RefreshObtain? && env.link.Works?
    requires Holds(s, w, s.workers[v].sid) && Owns(c, s, w)
    ensures var s' := Apply(c, s, Step(v, env));
            var sid := s.workers[v].sid;
            Holds(s', v, sid) && Holds(s', w, sid) <==> c.lockTtl > 0 && s.workers[w].since + c.lockTtl <= s.now
  {
    assert Live(s.locks, s.workers[v].sid, s.now) <==> !(c.lockTtl > 0 && s.workers[w].since + c.lockTtl <= s.now);
  }

  // A late Release then frees the lock of the second holder, so that a third gets in at once.
  lemma LateReleaseAdmitsThird(c: Config, s: State, u: Worker, v: Worker, w: Worker, sid: string, env: Env)
    requires u != v && v != w && u != w && env.link.Works?
    requires Holds(s, v, sid) && Holds(s, w, sid) && s.workers[w].RefreshRelease?
    requires u in s.workers && s.workers[u].RefreshObtain? && s.workers[u].sid == sid
    ensures var s' := Run(c, s, [Step(w, env), Step(u, env)]);
            Holds(s', v, sid) && Holds(s', u, sid)
  {
    var s1 := Apply(c, s, Step(w, env));
    var s2 := Apply(c, s1, Step(u, env));
    assert sid !in s1.locks && s1.workers[u] == s.workers[u];
    assert [Step(w, env), Step(u, env)][1..] == [Step(u, env)];
    assert Run(c, s1, [Step(u, env)]) == Run(c, s2, []) == s2;
  }

  // ---- When a token is presented --------------------------------------------------------------------

  // In every run: a refresh presents the token of a record whose access token had at most
  // refreshEarly seconds left when the record was read.
  lemma PresentedWhenDue(c: Config, now: int, actions: seq<Action>, i: nat)
    requires i < |Run(c, Start(now), actions).log| && Run(c, Start(now), actions).log[i].Presented?
    ensures var log := Run(c, Start(now), actions).log;
            && log[i].read < i && Shows(log[log[i].read], log[i].sid)
            && log[i].refreshToken == log[log[i].read].record.value.refreshToken != ""
            && log[log[i].read].record.value.expiresAt <= log[log[i].read].at + c.refreshEarly
  {
    HistoryHolds(c, now, actions);
    assert EventOk(c, Run(c, Start(now), actions).log, i);
  }

  // ---- Exactly when a lock is obtained -----------------------------------------------------------

  // A lease of the session that has neither run out nor been followed by a release.
  predicate Binds(c: Config, log: seq<Event>, n: nat, sid: string, at: int, j: nat) {
    && j < n <= |log| && log[j].Leased? && log[j].sid == sid && Lasts(c.lockTtl, log[j].at, at)
    && forall k :: j < k < n ==> !(log[k].Released? && log[k].sid == sid)
  }

  // While a lease binds, there is no later one: that would have found the lock taken.
  lemma {:induction false} BindingIsLast(c: Config, log: seq<Event>, n: nat, sid: string, at: int, j: nat)
    requires LogOk(c, log) && InOrder(log, at) && Binds(c, log, n, sid, at, j)
    ensures LastSet(log, n, OfLock(sid)) == Some(j)
    decreases n
  {
    if n > j + 1 {
      BindingIsLast(c, log, n - 1, sid, at, j);
      assert EventOk(c, log, n - 1);
    }
  }

  // In every reachable state, however many holders never release: an Obtain that works
  // succeeds if and only if every lease of the session has run out or was followed by a
  // release, whoever released.
  lemma ObtainsExactly(c: Config, now: int, actions: seq<Action>, w: Worker, env: Env)
    requires env.link.Works? && LocalOf(Run(c, Start(now), actions), w).RefreshObtain?
    ensures var s := Run(c, Start(now), actions);
            var sid := LocalOf(s, w).sid;
            Holds(Apply(c, s, Step(w, env)), w, sid) <==> !exists j: nat :: Binds(c, s.log, |s.log|, sid, s.now, j)
  {
    HistoryHolds(c, now, actions);
    var s := Run(c, Start(now), actions);
    var sid := LocalOf(s, w).sid;
    GetsShow(c, s, sid);
    var last := LastSet(s.log, |s.log|, OfLock(sid));
    if last.Some? {
      LastSetIs(s.log, |s.log|, OfLock(sid), last.value);
      assert Locked(c, s.log, |s.log|, sid, s.now) ==> Binds(c, s.log, |s.log|, sid, s.now, last.value);
    }
    forall j: nat | Binds(c, s.log, |s.log|, sid, s.now, j) ensures last == Some(j) {
      BindingIsLast(c, s.log, |s.log|, sid, s.now, j);
    }
  }
}
