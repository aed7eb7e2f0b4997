// What happens when operations on one session or one state do overlap: exactly when a
// logged-out session is found again, a code is exchanged twice and a refresh token is
// presented twice.
module Overlaps {
  import opened Wrappers
  import opened AgentMachine
  import opened AgentHistory
  import opened SessionProvenance
  import opened SerialLogins

  // ------------------------------------------------------------------------------------
  // A session that was logged out
  // ------------------------------------------------------------------------------------

  // In every run: after a logout a read finds the session again if and only if some event
  // saved it after that logout, has not run out, and is its last word.
  lemma FoundAgainExactly(c: Config, now: int, actions: seq<Action>, i: nat, j: nat)
    requires i < j < |Run(c, Start(now), actions).log|
    requires var log := Run(c, Start(now), actions).log;
             log[i].LoggedOut? && log[j].Looked? && log[j].sid == log[i].sid
    ensures var log := Run(c, Start(now), actions).log;
            log[j].record.Some? <==> exists m: nat :: i < m && HoldsSession(c, log, j, log[j].sid, log[j].at, m)
  {
    FoundExactly(c, now, actions, j);
    var log := Run(c, Start(now), actions).log;
    forall m: nat | HoldsSession(c, log, j, log[j].sid, log[j].at, m) ensures i < m {
      assert Clears(log[i], OfSession(log[i].sid));
    }
  }

  // The first save after a logout is a login under the same ID, or an update that had read
  // the session before the logout.
  lemma RevivedByAnEarlierRead(c: Config, now: int, actions: seq<Action>, i: nat, m: nat)
    requires i < m < |Run(c, Start(now), actions).log| && Run(c, Start(now), actions).log[i].LoggedOut?
    requires var log := Run(c, Start(now), actions).log;
             Writes(log, m, log[i].sid) && forall k :: i < k < m ==> !Sets(log[k], OfSession(log[i].sid))
    ensures var log := Run(c, Start(now), actions).log;
            || log[m].Created?
            || (log[m].Renewed? && log[m].call < m && log[log[m].call].Presented? && log[log[m].call].read < i)
            || (log[m].Attached? && log[m].read < i)
  {
    HistoryHolds(c, now, actions);
    var log := Run(c, Start(now), actions).log;
    var sid := log[i].sid;
    assert EventOk(c, log, m);
    if !log[m].Created? {
      var read := if log[m].Renewed? then log[log[m].call].read else log[m].read;
      FoundIsSavedSince(c, log, i, read, sid);
    }
  }

  // A session that a read finds after its logout was saved in between.
  lemma FoundIsSavedSince(c: Config, log: seq<Event>, i: nat, read: nat, sid: string)
    requires LogOk(c, log) && i < |log| && log[i].LoggedOut? && log[i].sid == sid
    requires read < |log| && Shows(log[read], sid)
    ensures i < read ==> exists k: nat :: i < k < read && Sets(log[k], OfSession(sid))
  {
    assert EventOk(c, log, read) && Clears(log[i], OfSession(sid));
    ShownExactly(c, log, read, sid, log[read].at);
    var q: nat :| HoldsSession(c, log, read, sid, log[read].at, q);
  }

  // ------------------------------------------------------------------------------------
  // A state that was read
  // ------------------------------------------------------------------------------------

  // In every run: after a callback has found its state, another callback finds it too if and
  // only if its read precedes every deletion and the PKCE TTL.
  lemma RecalledAgainExactly(c: Config, now: int, actions: seq<Action>, i: nat, j: nat, m: nat)
    requires i < j < |Run(c, Start(now), actions).log|
    requires var log := Run(c, Start(now), actions).log;
             && log[i].Recalled? && log[i].found.Some? && log[j].Recalled? && log[j].state == log[i].state
             && HoldsState(c, log, i, log[i].state, log[i].at, m)
             && forall k :: i < k < j ==> !Sets(log[k], OfState(log[i].state))
    ensures var log := Run(c, Start(now), actions).log;
            log[j].found.Some? <==>
            Lasts(c.pkceTtl, log[m].at, log[j].at) && forall k :: i < k < j ==> !Clears(log[k], OfState(log[i].state))
  {
    FoundExactly(c, now, actions, j);
    var log := Run(c, Start(now), actions).log;
    var state := log[i].state;
    if Lasts(c.pkceTtl, log[m].at, log[j].at) && forall k :: i < k < j ==> !Clears(log[k], OfState(state)) {
      assert HoldsState(c, log, j, state, log[j].at, m);
    }
    forall q: nat | HoldsState(c, log, j, state, log[j].at, q) ensures q == m {
      assert !Clears(log[i], OfState(state)) && !Sets(log[i], OfState(state));
    }
  }

  // A callback that has found its state goes on to exchange the code, whatever others do.
  lemma FoundIsExchanged(c: Config, s: State, w: Worker, env: Env)
    requires w in s.workers && (s.workers[w].EndDelete? || s.workers[w].EndExchange?)
    ensures var l := s.workers[w];
            var s' := Apply(c, s, Step(w, env));
            if l.EndDelete? then s'.workers[w] == EndExchange(l.state, l.code, l.p, l.read)
            else s'.log == s.log + [Exchanged(l.state, l.code, l.read, l.p.codeVerifier, env.answer, s.now)]
  {
  }

  // ------------------------------------------------------------------------------------
  // A refresh token that was presented
  // ------------------------------------------------------------------------------------

  // The token presented is that of the record that the refresh had read.
  lemma PresentedIsRead(c: Config, log: seq<Event>, i: nat) returns (m: nat)
    requires LogOk(c, log) && i < |log| && log[i].Presented?
    ensures log[i].read < i && HoldsSession(c, log, log[i].read, log[i].sid, log[log[i].read].at, m)
    ensures log[i].refreshToken == log[m].session.refreshToken
    ensures LastSet(log, log[i].read, OfSession(log[i].sid)) == Some(m)
  {
    assert EventOk(c, log, i);
    var read, sid := log[i].read, log[i].sid;
    assert EventOk(c, log, read);
    ShownExactly(c, log, read, sid, log[read].at);
    m :| HoldsSession(c, log, read, sid, log[read].at, m);
    LastSetIs(log, read, OfSession(sid), m);
  }

  // The write whose answer brought the refresh token that a refresh presents.
  function TokenOrigin(c: Config, log: seq<Event>, i: nat): (o: Option<nat>)
    requires i < |log|
    ensures o.Some? ==> o.value < |log|
  {
    if log[i].Presented? && log[i].read < |log| then
      match LastSet(log, log[i].read, OfSession(log[i].sid))
      case None => None
      case Some(p) => Some(Origin(c, log, p, RefreshPart))
    else None
  }

  // It is a login or a refresh of the same session, before the read.
  lemma PresentedHasOrigin(c: Config, log: seq<Event>, i: nat)
    requires LogOk(c, log) && i < |log| && log[i].Presented?
    ensures var o := TokenOrigin(c, log, i);
            && o.Some? && o.value < log[i].read < i && Writes(log, o.value, log[i].sid) && Brings(c, log, o.value, RefreshPart)
            && AnswerBehind(log, o.value).Some? && log[i].refreshToken == AnswerBehind(log, o.value).value.refreshToken
  {
    var p := PresentedIsRead(c, log, i);
    PartsHaveOrigins(c, log, p, log[i].sid, RefreshPart);
  }

  // In every run: two refreshes of a session present the same refresh token if and only if the
  // records they read go back to the same answer of the provider, or to two answers that gave
  // the same token.
  lemma PresentedAgainExactly(c: Config, now: int, actions: seq<Action>, i: nat, j: nat)
    requires i < |Run(c, Start(now), actions).log| && j < |Run(c, Start(now), actions).log|
    requires var log := Run(c, Start(now), actions).log;
             log[i].Presented? && log[j].Presented? && log[i].sid == log[j].sid
    ensures var log := Run(c, Start(now), actions).log;
            var o, q := TokenOrigin(c, log, i), TokenOrigin(c, log, j);
            && o.Some? && q.Some?
            && (log[i].refreshToken == log[j].refreshToken <==>
                || o == q
                || (AnswerBehind(log, o.value).Some? && AnswerBehind(log, q.value).Some?
                    && AnswerBehind(log, o.value).value.refreshToken == AnswerBehind(log, q.value).value.refreshToken))
  {
    HistoryHolds(c, now, actions);
    var log := Run(c, Start(now), actions).log;
    PresentedHasOrigin(c, log, i);
    PresentedHasOrigin(c, log, j);
  }

  // If no update loses another, the token of a record is the last one brought to its session.
  lemma {:induction false} CurrentTokenIsLatest(c: Config, log: seq<Event>, n: nat, p: nat, sid: string, k: nat)
    requires LogOk(c, log) && AllCurrent(log) && SetsLast(log, n, OfSession(sid), p)
    requires Origin(c, log, p, RefreshPart) < k < n && Writes(log, k, sid)
    ensures !Brings(c, log, k, RefreshPart)
    decreases n
  {
    if !Brings(c, log, p, RefreshPart) {
      UpdateHasBase(c, log, p, sid);
      assert Current(log, p);
      var b := BaseOf(log, p).value;
      LastSetIs(log, p, OfSession(sid), b);
      if k < p {
        CurrentTokenIsLatest(c, log, p, b, sid, k);
      }
    }
  }

  // In every run in which no update loses another, a refresh presents the token of the last
  // login or refresh of the session that brought one.
  lemma CurrentPresentsLatest(c: Config, now: int, actions: seq<Action>, i: nat, k: nat)
    requires AllCurrent(Run(c, Start(now), actions).log) && i < |Run(c, Start(now), actions).log|
    requires var log := Run(c, Start(now), actions).log; log[i].Presented? && k < log[i].read && Writes(log, k, log[i].sid)
    ensures var log := Run(c, Start(now), actions).log;
            TokenOrigin(c, log, i).Some? && (Brings(c, log, k, RefreshPart) ==> k <= TokenOrigin(c, log, i).value)
  {
    HistoryHolds(c, now, actions);
    var log := Run(c, Start(now), actions).log;
    PresentedHasOrigin(c, log, i);
    var p := PresentedIsRead(c, log, i);
    if TokenOrigin(c, log, i).value < k {
      CurrentTokenIsLatest(c, log, log[i].read, p, log[i].sid, k);
    }
  }

  // Between the reads of two refreshes, the session was saved by the first of them at most.
  predicate OnlySavedBy(log: seq<Event>, i: nat, from: nat, to: nat, sid: string) {
    forall k :: from < k < to && k < |log| ==>
      !Clears(log[k], OfSession(sid)) && (Sets(log[k], OfSession(sid)) ==> log[k].Renewed? && log[k].call == i)
  }

  // A case that the log tells at once: of two refreshes of a session, with no other change
  // between their reads, the second presents the same refresh token if and only if its read precedes the first
  // one's save, or the first one's answer brought no other refresh token.
  lemma SameTokenExactly(c: Config, now: int, actions: seq<Action>, i: nat, j: nat)
    requires i < |Run(c, Start(now), actions).log| && j < |Run(c, Start(now), actions).log|
    requires var log := Run(c, Start(now), actions).log;
             && log[i].Presented? && log[j].Presented? && log[i].sid == log[j].sid
             && log[i].read < log[j].read && OnlySavedBy(log, i, log[i].read, log[j].read, log[i].sid)
    ensures var log := Run(c, Start(now), actions).log;
            log[j].refreshToken == log[i].refreshToken <==>
            || Untouched(log, log[i].read + 1, log[j].read, OfSession(log[i].sid))
            || (log[i].answer.Some? && log[i].answer.value.refreshToken in ["", log[i].refreshToken])
  {
    HistoryHolds(c, now, actions);
    var log := Run(c, Start(now), actions).log;
    var sid := log[i].sid;
    var p := PresentedIsRead(c, log, i);
    var q := PresentedIsRead(c, log, j);
    assert EventOk(c, log, i);
    LastSetIs(log, log[j].read, OfSession(sid), q);
    LastSetIs(log, log[i].read, OfSession(sid), p);
    if Untouched(log, log[i].read + 1, log[j].read, OfSession(sid)) {
      LastSetIs(log, log[j].read, OfSession(sid), p);
    } else {
      assert EventOk(c, log, q);
      assert q > log[i].read;
    }
  }
}
