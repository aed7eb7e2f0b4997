// Where the contents of a stored session come from, in every interleaving.
module SessionProvenance {
  import opened Wrappers
  import opened Json
  import opened SessionModel
  import opened Identity
  import opened AgentMachine
  import opened AgentHistory

  // The parts of a session that a provider's answer gives. The expiry goes with the access token.
  datatype Part = AccessPart | RefreshPart | IdPart | ClaimsPart

  // A refresh replaces a part when the answer brings one; claims only from an accepted token.
  predicate Replaces(c: Config, t: Tokens, verified: Option<Claims>, part: Part) {
    match part
    case AccessPart => true
    case RefreshPart => t.refreshToken != ""
    case IdPart => t.idToken != ""
    case ClaimsPart => AcceptedClaims(c, t, verified).Some?
  }

  // Event i writes the part anew: LoginEnd writes all of them.
  predicate Brings(c: Config, log: seq<Event>, i: nat, part: Part)
    requires i < |log|
  {
    log[i].Created? || (log[i].Renewed? && log[i].call < i && log[log[i].call].Presented? && log[log[i].call].answer.Some?
                        && Replaces(c, log[log[i].call].answer.value, log[log[i].call].verified, part))
  }

  // The write whose record an update of sid had read.
  function BaseOf(log: seq<Event>, i: nat): (b: Option<nat>)
    requires i < |log|
    ensures b.Some? ==> b.value < i
  {
    match log[i]
    case Renewed(sid, call, _, _) =>
      if call < i && log[call].Presented? && log[call].read < call then LastSet(log, log[call].read, OfSession(sid)) else None
    case Attached(sid, read, _, _) => if read < i then LastSet(log, read, OfSession(sid)) else None
    case _ => None
  }

  // The write that brought the part of the session that event i writes: that event, or else
  // the one that brought it to the record that event i had read.
  function Origin(c: Config, log: seq<Event>, i: nat, part: Part): (o: nat)
    requires i < |log|
    ensures o <= i
  {
    if Brings(c, log, i, part) then i
    else
      match BaseOf(log, i)
      case None => i
      case Some(b) => Origin(c, log, b, part)
  }

  predicate Writes(log: seq<Event>, i: nat, sid: string) {
    i < |log| && Sets(log[i], OfSession(sid))
  }

  // ---- What a write holds, given that of its base ----------------------------------------------

  // Every update has a base, which is a write of the same session.
  lemma UpdateHasBase(c: Config, log: seq<Event>, i: nat, sid: string)
    requires LogOk(c, log) && Writes(log, i, sid) && !log[i].Created?
    ensures BaseOf(log, i).Some? && Writes(log, BaseOf(log, i).value, sid)
    ensures var base := AsStored(log[BaseOf(log, i).value].session);
            if log[i].Renewed? then
              && RenewedOk(c, log, i, sid, log[i].call, log[i].session)
              && log[log[log[i].call].read].record == Some(base)
            else log[i].session.tenantContext.Some? && log[i].session == AttachedSession(base, log[i].session.tenantContext.value)
  {
    assert EventOk(c, log, i);
    var read := if log[i].Renewed? then log[log[i].call].read else log[i].read;
    assert EventOk(c, log, read);
  }

  // The provider's answer behind a write that brings something, and when it was taken in.
  function AnswerBehind(log: seq<Event>, o: nat): Option<Tokens>
    requires o < |log|
  {
    match log[o]
    case Created(check, _, _) =>
      if check < o && log[check].Checked? && log[check].exchange < check && log[log[check].exchange].Exchanged?
      then log[log[check].exchange].answer else None
    case Renewed(_, call, _, _) => if call < o && log[call].Presented? then log[call].answer else None
    case _ => None
  }

  function TakenAt(log: seq<Event>, o: nat): int
    requires o < |log|
  {
    match log[o]
    case Created(check, _, _) => if check < o then log[check].at else 0
    case Renewed(_, call, _, _) => if call < o then log[call].at else 0
    case _ => 0
  }

  // The claims of the ID token that a login or refresh accepted.
  function AcceptedAt(c: Config, log: seq<Event>, o: nat): Option<Claims>
    requires o < |log|
  {
    match log[o]
    case Created(check, _, _) =>
      if check < o && log[check].Checked? && Accepted(log[check].verified, Audience(c), log[check].nonce) then log[check].verified else None
    case Renewed(_, call, _, _) =>
      if call < o && log[call].Presented? && log[call].answer.Some?
      then AcceptedClaims(c, log[call].answer.value, log[call].verified) else None
    case _ => None
  }

  // How a write stores them.
  function ClaimsBrought(c: Config, log: seq<Event>, o: nat): Option<Claims>
    requires o < |log|
  {
    match AcceptedAt(c, log, o)
    case None => None
    case Some(verified) => Some(HopClaims(if log[o].Created? then LoginClaims(PrincipalOf(verified)) else verified))
  }

  // What the answer says the access token lives, in seconds; without a word it is a day.
  function Lifetime(t: Tokens): int {
    if t.expiresIn > 0 then t.expiresIn else 24 * 60 * 60
  }

  // The part of the session is what its origin's answer gave.
  predicate Given(c: Config, log: seq<Event>, o: nat, session: Session, part: Part)
    requires o < |log|
  {
    var answer := AnswerBehind(log, o);
    && Brings(c, log, o, part) && answer.Some?
    && match part
       case AccessPart => session.accessToken == answer.value.accessToken && session.expiresAt == TakenAt(log, o) + Lifetime(answer.value)
       case RefreshPart => session.refreshToken == answer.value.refreshToken
       case IdPart => session.idToken == answer.value.idToken
       case ClaimsPart => ClaimsBrought(c, log, o) == Some(HopClaims(session.claims))
  }

  lemma BroughtIsGiven(c: Config, log: seq<Event>, i: nat, sid: string, part: Part)
    requires LogOk(c, log) && Writes(log, i, sid) && Brings(c, log, i, part)
    ensures Given(c, log, i, log[i].session, part)
  {
    assert EventOk(c, log, i);
  }

  // A part that an update does not bring is that of its base.
  lemma KeptIsGiven(c: Config, log: seq<Event>, i: nat, sid: string, part: Part, o: nat)
    requires LogOk(c, log) && Writes(log, i, sid) && !Brings(c, log, i, part) && o < |log|
    requires BaseOf(log, i).Some? && Given(c, log, o, log[BaseOf(log, i).value].session, part)
    ensures Given(c, log, o, log[i].session, part)
  {
    UpdateHasBase(c, log, i, sid);
    HopIsIdempotent(log[BaseOf(log, i).value].session.claims);
  }

  // In every log of a run: each part of a written session comes from one answer of the
  // provider, taken in by a login or a refresh of that same session.
  lemma {:induction false} PartsHaveOrigins(c: Config, log: seq<Event>, i: nat, sid: string, part: Part)
    requires LogOk(c, log) && Writes(log, i, sid)
    ensures var o := Origin(c, log, i, part);
            Writes(log, o, sid) && Given(c, log, o, log[i].session, part)
    decreases i
  {
    if Brings(c, log, i, part) {
      BroughtIsGiven(c, log, i, sid, part);
    } else {
      UpdateHasBase(c, log, i, sid);
      var b := BaseOf(log, i).value;
      PartsHaveOrigins(c, log, b, sid, part);
      KeptIsGiven(c, log, i, sid, part, Origin(c, log, b, part));
    }
  }

  lemma {:induction false} WritesKeepId(c: Config, log: seq<Event>, i: nat, sid: string)
    requires LogOk(c, log) && Writes(log, i, sid)
    ensures log[i].session.id == sid
    decreases i
  {
    if !log[i].Created? {
      UpdateHasBase(c, log, i, sid);
      WritesKeepId(c, log, BaseOf(log, i).value, sid);
    }
  }

  // In every reachable state, whatever the interleaving and whichever store commands fail,
  // each stored session sits under its own ID, and each of its parts was given by the answer
  // of the provider that a login or a refresh of that very session took in: access token and
  // expiry by one answer, the refresh token by the last answer that had one, and the claims by
  // an ID token that was accepted.
  lemma SessionsComeFromTheProvider(c: Config, now: int, actions: seq<Action>, sid: string) returns (i: nat)
    requires sid in Run(c, Start(now), actions).sessions
    ensures var s := Run(c, Start(now), actions);
            && SetsLast(s.log, |s.log|, OfSession(sid), i)
            && s.sessions[sid].value == AsStored(s.log[i].session)
            && s.log[i].session.id == sid
            && forall part :: var o := Origin(c, s.log, i, part);
                              Writes(s.log, o, sid) && Given(c, s.log, o, s.log[i].session, part)
  {
    HistoryHolds(c, now, actions);
    var s := Run(c, Start(now), actions);
    assert SessionKept(c, s.log, s.sessions, sid);
    i := LastSet(s.log, |s.log|, OfSession(sid)).value;
    LastSetIs(s.log, |s.log|, OfSession(sid), i);
    WritesKeepId(c, s.log, i, sid);
    forall part ensures var o := Origin(c, s.log, i, part); Writes(s.log, o, sid) && Given(c, s.log, o, s.log[i].session, part) {
      PartsHaveOrigins(c, s.log, i, sid, part);
    }
  }

  // ---- Whose identity a session shows --------------------------------------------------------------

  // ID tokens are JSON: their claims are as a decoder delivers them.
  ghost predicate DecodedTokens(c: Config, log: seq<Event>) {
    forall o :: 0 <= o < |log| && AcceptedAt(c, log, o).Some? ==> DecodedClaims(AcceptedAt(c, log, o).value)
  }

  // The agent's user and, after Resolve and another JSON hop, the proxy's principal have the
  // subject, the roles and the expiry that the validation of the token found.
  predicate ShowsIdentityOf(session: Session, verified: Claims) {
    var found := PrincipalOf(verified);
    var shown := UserOf(session);
    var proxied := ProxyPrincipal(ResolveResponse(session.accessToken, Some(HopClaims(session.claims)), None));
    && found.roles == shown.roles == proxied.roles
    && found.subject == shown.sub == proxied.subject
    && found.expiresAt == proxied.expiresAt
    && (shown.isAdmin <==> Administers(found.roles))
  }

  // The ID token that was accepted when the claims of the i-th write came to their session.
  function IdentityAt(c: Config, log: seq<Event>, i: nat): Option<Claims>
    requires i < |log|
  {
    AcceptedAt(c, log, Origin(c, log, i, ClaimsPart))
  }

  lemma WrittenClaims(c: Config, log: seq<Event>, i: nat, sid: string)
    requires LogOk(c, log) && Writes(log, i, sid)
    ensures IdentityAt(c, log, i).Some? && StoredFor(IdentityAt(c, log, i).value, AsStored(log[i].session).claims)
  {
    PartsHaveOrigins(c, log, i, sid, ClaimsPart);
  }

  // The write that a read has found.
  lemma ReadFindsWrite(c: Config, log: seq<Event>, n: nat, sid: string) returns (i: nat)
    requires LogOk(c, log) && n < |log| && Shows(log[n], sid)
    ensures LastSet(log, n, OfSession(sid)) == Some(i) && Writes(log, i, sid) && log[n].record == Some(AsStored(log[i].session))
  {
    assert EventOk(c, log, n);
    i := LastSet(log, n, OfSession(sid)).value;
    LastSetIs(log, n, OfSession(sid), i);
  }

  lemma WrittenIdentity(c: Config, log: seq<Event>, i: nat, sid: string)
    requires LogOk(c, log) && Writes(log, i, sid) && DecodedTokens(c, log)
    ensures IdentityAt(c, log, i).Some? && ShowsIdentityOf(AsStored(log[i].session), IdentityAt(c, log, i).value)
  {
    WrittenClaims(c, log, i, sid);
    var verified := IdentityAt(c, log, i).value;
    var session := AsStored(log[i].session);
    IdentityIsCarried(verified, session.claims, session, session.accessToken, None);
  }

  // In every run: whoever reads a session sees the identity in the ID token that was accepted
  // at the login or refresh of that very session from which its claims come.
  lemma SessionsShowTheirToken(c: Config, now: int, actions: seq<Action>, sid: string, n: nat)
    requires DecodedTokens(c, Run(c, Start(now), actions).log)
    requires n < |Run(c, Start(now), actions).log| && Shows(Run(c, Start(now), actions).log[n], sid)
    ensures var log := Run(c, Start(now), actions).log;
            var last := LastSet(log, n, OfSession(sid));
            && last.Some? && Writes(log, Origin(c, log, last.value, ClaimsPart), sid)
            && IdentityAt(c, log, last.value).Some? && ShowsIdentityOf(log[n].record.value, IdentityAt(c, log, last.value).value)
  {
    HistoryHolds(c, now, actions);
    var log := Run(c, Start(now), actions).log;
    var i := ReadFindsWrite(c, log, n, sid);
    PartsHaveOrigins(c, log, i, sid, ClaimsPart);
    WrittenIdentity(c, log, i, sid);
  }

  // The same for what the store holds at the end of a run.
  lemma StoredSessionsShowTheirToken(c: Config, now: int, actions: seq<Action>, sid: string)
    requires DecodedTokens(c, Run(c, Start(now), actions).log) && sid in Run(c, Start(now), actions).sessions
    ensures var s := Run(c, Start(now), actions);
            var last := LastSet(s.log, |s.log|, OfSession(sid));
            && last.Some? && Writes(s.log, Origin(c, s.log, last.value, ClaimsPart), sid)
            && IdentityAt(c, s.log, last.value).Some?
            && ShowsIdentityOf(s.sessions[sid].value, IdentityAt(c, s.log, last.value).value)
  {
    var i := SessionsComeFromTheProvider(c, now, actions, sid);
    HistoryHolds(c, now, actions);
    var s := Run(c, Start(now), actions);
    LastSetIs(s.log, |s.log|, OfSession(sid), i);
    WrittenIdentity(c, s.log, i, sid);
  }

  // ---- When the stored ID token is the one the claims come from -----------------------------------

  predicate OneToken(c: Config, log: seq<Event>, i: nat)
    requires i < |log|
  {
    Origin(c, log, i, IdPart) == Origin(c, log, i, ClaimsPart)
  }

  // Claims are brought only together with the ID token they come from.
  lemma {:induction false} ClaimsNeedAnIdToken(c: Config, log: seq<Event>, i: nat, sid: string)
    requires LogOk(c, log) && Writes(log, i, sid)
    ensures Origin(c, log, i, ClaimsPart) == Origin(c, log, Origin(c, log, i, IdPart), ClaimsPart)
    decreases i
  {
    if !Brings(c, log, i, IdPart) {
      UpdateHasBase(c, log, i, sid);
      ClaimsNeedAnIdToken(c, log, BaseOf(log, i).value, sid);
    }
  }

  // In every log of a run: a stored session's ID token and claims come from one token exactly
  // when the ID token was accepted, at login or at the refresh that brought it. One refresh
  // later: when it brought none and they agreed before, or brought one that was accepted.
  lemma OneTokenExactly(c: Config, log: seq<Event>, i: nat, sid: string)
    requires LogOk(c, log) && Writes(log, i, sid)
    ensures OneToken(c, log, i) <==> Brings(c, log, Origin(c, log, i, IdPart), ClaimsPart)
    ensures log[i].Renewed? ==>
              (OneToken(c, log, i) <==>
               if Brings(c, log, i, IdPart) then Brings(c, log, i, ClaimsPart) else OneToken(c, log, BaseOf(log, i).value))
  {
    var o := Origin(c, log, i, IdPart);
    ClaimsNeedAnIdToken(c, log, i, sid);
    PartsHaveOrigins(c, log, i, sid, IdPart);
    if !log[i].Created? {
      UpdateHasBase(c, log, i, sid);
    }
    if !Brings(c, log, o, ClaimsPart) {
      UpdateHasBase(c, log, o, sid);
    }
  }
}
