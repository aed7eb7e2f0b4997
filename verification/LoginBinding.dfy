// A created session is bound to the LoginStart whose state it answers (RFC 7636, sections
// 4.2 and 4.6, and the nonce check), in every interleaving.
module LoginBinding {
  import opened Wrappers
  import opened Json
  import opened Base64
  import opened AgentMachine
  import opened AgentHistory
  import opened SessionProvenance

  // The read found the PKCE state that the LoginStart stored, within the PKCE TTL and before
  // that state was stored again or deleted.
  predicate FoundInTime(c: Config, log: seq<Event>, stored: nat, read: nat) {
    && stored < read < |log| && log[read].Recalled? && log[read].found.Some?
    && HoldsState(c, log, read, log[read].state, log[read].at, stored)
    && log[read].found.value == log[stored].p
    && log[stored].at <= log[read].at
  }

  // The exchange presented the verifier of the state that its read found, no earlier than
  // that read.
  predicate ExchangedFor(c: Config, log: seq<Event>, stored: nat, read: nat, exchanged: nat) {
    && FoundInTime(c, log, stored, read) && read < exchanged < |log| && log[exchanged].Exchanged?
    && log[exchanged].state == log[stored].p.state == log[read].state
    && log[exchanged].verifier == log[stored].p.codeVerifier
    && log[stored].p.codeChallenge == RawEncode(c.digest(log[exchanged].verifier))
    && log[read].at <= log[exchanged].at
  }

  // The claims have the audience as their text or among the items of their list.
  predicate Names(claims: Claims, audience: string) {
    && "aud" in claims
    && (claims["aud"] == Text(audience)
        || (claims["aud"].Array? && exists i :: 0 <= i < |claims["aud"].items| && claims["aud"].items[i] == Text(audience)))
  }

  // The ID token of the exchange was accepted against the nonce of the same LoginStart, which
  // it carries.
  predicate CheckedFor(c: Config, log: seq<Event>, stored: nat, exchanged: nat, checked: nat) {
    && stored < exchanged < checked < |log| && log[stored].Stored? && log[exchanged].Exchanged? && log[exchanged].answer.Some?
    && log[checked].Checked? && log[checked].exchange == exchanged
    && log[checked].nonce == log[stored].p.nonce != ""
    && log[checked].verified.Some?
    && var claims := log[checked].verified.value;
    && (c.oidcAudience != "" ==> Names(claims, c.oidcAudience))
    && (c.oidcAudience == "" && c.clientId != "" ==> Names(claims, c.clientId))
    && "nonce" in claims && claims["nonce"] == Text(log[stored].p.nonce)
    && log[exchanged].at <= log[checked].at
  }

  lemma ReadIsInTime(c: Config, log: seq<Event>, now: int, read: nat) returns (stored: nat)
    requires LogOk(c, log) && InOrder(log, now) && read < |log| && log[read].Recalled? && log[read].found.Some?
    ensures FoundInTime(c, log, stored, read) && log[stored].p.state == log[read].state && WellFormed(c, log[stored].p)
  {
    assert EventOk(c, log, read);
    RememberedExactly(c, log, read, log[read].state, log[read].at);
    stored :| HoldsState(c, log, read, log[read].state, log[read].at, stored);
    assert EventOk(c, log, stored);
  }

  lemma ExchangeGoesBack(c: Config, log: seq<Event>, now: int, i: nat) returns (stored: nat)
    requires LogOk(c, log) && InOrder(log, now) && i < |log| && log[i].Exchanged?
    ensures ExchangedFor(c, log, stored, log[i].read, i) && WellFormed(c, log[stored].p)
  {
    assert EventOk(c, log, i);
    stored := ReadIsInTime(c, log, now, log[i].read);
  }

  // In every run: a session created for a state was preceded, in this order, by a LoginStart
  // that stored the state, a read that found it within the PKCE TTL, an exchange of its
  // verifier, and the acceptance of the ID token with its nonce. The session is what that
  // exchange and that ID token make of it.
  lemma CreatedIsBound(c: Config, now: int, actions: seq<Action>, i: nat)
    returns (stored: nat, read: nat, exchanged: nat, checked: nat)
    requires i < |Run(c, Start(now), actions).log| && Run(c, Start(now), actions).log[i].Created?
    ensures var log := Run(c, Start(now), actions).log;
            && stored < read < exchanged < checked < i
            && ExchangedFor(c, log, stored, read, exchanged)
            && CheckedFor(c, log, stored, exchanged, checked)
            && log[i].session == NewSession(log[i].session.id, log[exchanged].answer.value, log[checked].verified.value, log[checked].at)
            && log[checked].at <= log[i].at
  {
    HistoryHolds(c, now, actions);
    var s := Run(c, Start(now), actions);
    var log := s.log;
    assert EventOk(c, log, i);
    checked := log[i].check;
    assert EventOk(c, log, checked);
    exchanged := log[checked].exchange;
    read := log[exchanged].read;
    stored := ExchangeGoesBack(c, log, s.now, exchanged);
  }

  // Every exchange, even one that leads to no session, presents the verifier that a LoginStart
  // stored with its state; the read that found it lies within the PKCE TTL.
  lemma ExchangeIsAsked(c: Config, now: int, actions: seq<Action>, i: nat) returns (stored: nat)
    requires i < |Run(c, Start(now), actions).log| && Run(c, Start(now), actions).log[i].Exchanged?
    ensures var log := Run(c, Start(now), actions).log;
            ExchangedFor(c, log, stored, log[i].read, i)
  {
    HistoryHolds(c, now, actions);
    var s := Run(c, Start(now), actions);
    stored := ExchangeGoesBack(c, s.log, s.now, i);
  }

  // The authorization URL carries the challenge of the verifier stored before it was built,
  // and every check of a login's ID token, accepted or not, is against a nonce.
  lemma UrlsAndNonces(c: Config, now: int, actions: seq<Action>, i: nat)
    requires i < |Run(c, Start(now), actions).log|
    ensures var log := Run(c, Start(now), actions).log;
            && (log[i].UrlBuilt? ==> log[i].p.codeChallenge == RawEncode(c.digest(log[i].p.codeVerifier)) && StoredBefore(log, i, log[i].p))
            && (log[i].Checked? ==> log[i].nonce != "")
  {
    HistoryHolds(c, now, actions);
    var s := Run(c, Start(now), actions);
    assert EventOk(c, s.log, i);
    if s.log[i].Checked? {
      var stored := ReadIsInTime(c, s.log, s.now, s.log[s.log[i].exchange].read);
    }
  }

  // ---- Every token whose claims are kept is meant for this agent ----------------------------------

  lemma AcceptedNamesUs(c: Config, log: seq<Event>, o: nat)
    requires o < |log| && AcceptedAt(c, log, o).Some?
    ensures c.oidcAudience != "" ==> Names(AcceptedAt(c, log, o).value, c.oidcAudience)
    ensures c.oidcAudience == "" && c.clientId != "" ==> Names(AcceptedAt(c, log, o).value, c.clientId)
  {
  }

  // In every reachable state the claims of a stored session come from an ID token, taken in by
  // a login or a refresh of that session, that has the agent's audience.
  lemma StoredClaimsAreForUs(c: Config, now: int, actions: seq<Action>, sid: string) returns (o: nat)
    requires sid in Run(c, Start(now), actions).sessions
    ensures var s := Run(c, Start(now), actions);
            && Writes(s.log, o, sid) && AcceptedAt(c, s.log, o).Some?
            && ClaimsBrought(c, s.log, o) == Some(s.sessions[sid].value.claims)
            && (c.oidcAudience != "" ==> Names(AcceptedAt(c, s.log, o).value, c.oidcAudience))
            && (c.oidcAudience == "" && c.clientId != "" ==> Names(AcceptedAt(c, s.log, o).value, c.clientId))
  {
    var i := SessionsComeFromTheProvider(c, now, actions, sid);
    var log := Run(c, Start(now), actions).log;
    o := Origin(c, log, i, ClaimsPart);
    assert Given(c, log, o, log[i].session, ClaimsPart);
    AcceptedNamesUs(c, log, o);
  }
}
