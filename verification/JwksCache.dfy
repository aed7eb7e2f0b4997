// The JWKS source with its double-checked TTL cache (pkg/token/jwks_http.go).
//
// Any number of callers interleave. A step is one critical section: the check under the
// read lock, the check under the write lock, or the end of the fetch that the write lock
// covers. A discovery plus a JWKS fetch is one oracle answer.
module JwksCache {
  import opened Wrappers

  type Caller = nat
  type Data = string

  datatype Entry = Entry(data: Data, exp: int)
  type Cache = map<string, Entry>

  // Between calls; before the check under the read lock; before the write lock; fetching
  // under the write lock since the second check missed.
  datatype Phase = Idle | Started(issuer: string) | Missed(issuer: string) | Fetching(issuer: string, since: int)

  datatype Event =
    | Called(w: Caller, issuer: string)
    | Hit(w: Caller, issuer: string, data: Data, at: int)
    | Miss(w: Caller, issuer: string, at: int)
    | Fetched(w: Caller, issuer: string, data: Data, since: int, at: int)
    | Failed(w: Caller, issuer: string, at: int)

  datatype State = State(now: int, cache: Cache, writer: Option<Caller>, phases: map<Caller, Phase>, log: seq<Event>)

  datatype Action =
    | Tick(elapsed: nat)
    | Call(w: Caller, issuer: string)
    | ReadCheck(w: Caller)
    | LockAndCheck(w: Caller)
    | EndFetch(w: Caller, outcome: Option<Data>)

  const DEFAULT_TTL := 300_000_000_000

  // NewHTTPJWKSSource replaces a non-positive TTL by five minutes.
  function EffectiveTtl(ttl: int): (t: int)
    ensures t > 0 && t == (if ttl > 0 then ttl else 300_000_000_000)
  {
    if ttl <= 0 then DEFAULT_TTL else ttl
  }

  function PhaseOf(s: State, w: Caller): Phase {
    if w in s.phases then s.phases[w] else Idle
  }

  predicate Fresh(cache: Cache, issuer: string, now: int) {
    issuer in cache && now < cache[issuer].exp
  }

  // An action that is not enabled leaves the state as it is.
  function Apply(ttl: int, s: State, a: Action): State {
    match a
    case Tick(elapsed) => s.(now := s.now + elapsed)
    case Call(w, issuer) =>
      if PhaseOf(s, w) != Idle then s
      else s.(phases := s.phases[w := Started(TrimSlash(issuer))], log := s.log + [Called(w, TrimSlash(issuer))])
    case ReadCheck(w) =>
      var p := PhaseOf(s, w);
      if !p.Started? || s.writer.Some? then s
      else if Fresh(s.cache, p.issuer, s.now) then AsHit(s, w, p.issuer)
      else s.(phases := s.phases[w := Missed(p.issuer)])
    case LockAndCheck(w) =>
      var p := PhaseOf(s, w);
      if !p.Missed? || s.writer.Some? then s
      else if Fresh(s.cache, p.issuer, s.now) then AsHit(s, w, p.issuer)
      else s.(writer := Some(w), phases := s.phases[w := Fetching(p.issuer, s.now)], log := s.log + [Miss(w, p.issuer, s.now)])
    case EndFetch(w, outcome) =>
      var p := PhaseOf(s, w);
      if !p.Fetching? then s
      else
        var done := s.(writer := None, phases := s.phases[w := Idle]);
        match outcome
        case None => done.(log := s.log + [Failed(w, p.issuer, s.now)])
        case Some(data) => done.(cache := s.cache[p.issuer := Entry(data, s.now + ttl)],
                                 log := s.log + [Fetched(w, p.issuer, data, p.since, s.now)])
  }

  function AsHit(s: State, w: Caller, issuer: string): State
    requires issuer in s.cache
  {
    s.(phases := s.phases[w := Idle], log := s.log + [Hit(w, issuer, s.cache[issuer].data, s.now)])
  }

  function Start(now: int): State {
    State(now, map[], None, map[], [])
  }

  function Run(ttl: int, s: State, actions: seq<Action>): State
    decreases |actions|
  {
    if actions == [] then s else Run(ttl, Apply(ttl, s, actions[0]), actions[1..])
  }

  // ------------------------------------------------------------------------------------
  // Invariants of every interleaving
  // ------------------------------------------------------------------------------------

  // Event j is a successful fetch of this data for the issuer that completed at `at`.
  predicate FetchedAt(log: seq<Event>, j: int, issuer: string, data: Data, at: int) {
    0 <= j < |log| && log[j].Fetched? && log[j].issuer == issuer && log[j].data == data && log[j].at == at
  }

  // Every hit serves a successful fetch for the same issuer that completed less than ttl before.
  ghost predicate HitsAreFetches(ttl: int, log: seq<Event>) {
    forall i :: 0 <= i < |log| && log[i].Hit? ==> Serves(ttl, log[..i], log[i])
  }

  ghost predicate Serves(ttl: int, log: seq<Event>, e: Event)
    requires e.Hit?
  {
    exists j, t :: FetchedAt(log, j, e.issuer, e.data, t) && t <= e.at < t + ttl
  }

  // A successful fetch for an issuer begins at least ttl after the one before it completed.
  ghost predicate FetchesAreApart(ttl: int, log: seq<Event>) {
    forall i, j :: 0 <= i < j < |log| && log[i].Fetched? && log[j].Fetched? && log[i].issuer == log[j].issuer ==>
      log[i].at + ttl <= log[j].since <= log[j].at
  }

  // A miss for an issuer comes at least ttl after every fetch for it before.
  ghost predicate MissesAreLate(ttl: int, log: seq<Event>) {
    forall i, j :: 0 <= i < j < |log| && log[i].Fetched? && log[j].Miss? && log[i].issuer == log[j].issuer ==> log[i].at + ttl <= log[j].at
  }

  ghost predicate LogIsPast(log: seq<Event>, now: int) {
    forall i :: 0 <= i < |log| && log[i].Fetched? ==> log[i].at <= now
  }

  // A cached entry is the latest successful fetch for its issuer.
  ghost predicate CacheIsLatest(ttl: int, cache: Cache, log: seq<Event>) {
    && (forall k :: k in cache ==> Backed(log, k, cache[k].data, cache[k].exp - ttl))
    && (forall i :: 0 <= i < |log| && log[i].Fetched? ==> log[i].issuer in cache && log[i].at + ttl <= cache[log[i].issuer].exp)
  }

  ghost predicate Backed(log: seq<Event>, issuer: string, data: Data, at: int) {
    exists j :: FetchedAt(log, j, issuer, data, at)
  }

  // Only the writer fetches, and the entry it saw missing or stale is still so.
  ghost predicate OneWriter(s: State) {
    forall w :: w in s.phases && s.phases[w].Fetching? ==>
      && s.writer == Some(w)
      && s.phases[w].since <= s.now
      && !Fresh(s.cache, s.phases[w].issuer, s.phases[w].since)
  }

  ghost predicate Invariant(ttl: int, s: State) {
    && HitsAreFetches(ttl, s.log) && FetchesAreApart(ttl, s.log) && LogIsPast(s.log, s.now)
    && CacheIsLatest(ttl, s.cache, s.log) && OneWriter(s) && MissesAreLate(ttl, s.log)
  }

  lemma LogGrows(ttl: int, log: seq<Event>, e: Event)
    requires HitsAreFetches(ttl, log) && MissesAreLate(ttl, log)
    requires e.Hit? ==> Serves(ttl, log, e)
    requires e.Miss? ==> forall i :: 0 <= i < |log| && log[i].Fetched? && log[i].issuer == e.issuer ==> log[i].at + ttl <= e.at
    ensures HitsAreFetches(ttl, log + [e]) && MissesAreLate(ttl, log + [e])
  {
    var longer := log + [e];
    forall i | 0 <= i < |longer| && longer[i].Hit? ensures Serves(ttl, longer[..i], longer[i]) {
      assert longer[..i] == if i < |log| then log[..i] else log;
    }
  }

  lemma BackedGrows(log: seq<Event>, e: Event, k: string, data: Data, at: int)
    requires Backed(log, k, data, at)
    ensures Backed(log + [e], k, data, at)
  {
    var j :| FetchedAt(log, j, k, data, at);
    assert FetchedAt(log + [e], j, k, data, at);
  }

  // Only a successful fetch matters to the cache and to the distance between fetches.
  lemma OtherEvent(ttl: int, cache: Cache, log: seq<Event>, now: int, e: Event)
    requires FetchesAreApart(ttl, log) && LogIsPast(log, now) && CacheIsLatest(ttl, cache, log) && !e.Fetched?
    ensures FetchesAreApart(ttl, log + [e]) && LogIsPast(log + [e], now) && CacheIsLatest(ttl, cache, log + [e])
  {
    forall k | k in cache ensures Backed(log + [e], k, cache[k].data, cache[k].exp - ttl) {
      BackedGrows(log, e, k, cache[k].data, cache[k].exp - ttl);
    }
  }

  lemma FetchEvent(ttl: int, cache: Cache, log: seq<Event>, now: int, e: Event)
    requires ttl > 0 && FetchesAreApart(ttl, log) && LogIsPast(log, now) && CacheIsLatest(ttl, cache, log)
    requires e.Fetched? && e.since <= e.at == now && !Fresh(cache, e.issuer, e.since)
    ensures FetchesAreApart(ttl, log + [e]) && LogIsPast(log + [e], now)
    ensures CacheIsLatest(ttl, cache[e.issuer := Entry(e.data, now + ttl)], log + [e])
  {
    FetchIsLater(ttl, cache, log, now, e);
    FetchIsCached(ttl, cache, log, now, e);
  }

  lemma FetchIsLater(ttl: int, cache: Cache, log: seq<Event>, now: int, e: Event)
    requires FetchesAreApart(ttl, log) && LogIsPast(log, now) && CacheIsLatest(ttl, cache, log)
    requires e.Fetched? && e.since <= e.at == now && !Fresh(cache, e.issuer, e.since)
    ensures FetchesAreApart(ttl, log + [e]) && LogIsPast(log + [e], now)
  {
  }

  lemma FetchIsCached(ttl: int, cache: Cache, log: seq<Event>, now: int, e: Event)
    requires ttl > 0 && LogIsPast(log, now) && CacheIsLatest(ttl, cache, log) && e.Fetched? && e.at == now
    ensures CacheIsLatest(ttl, cache[e.issuer := Entry(e.data, now + ttl)], log + [e])
  {
    var cache' := cache[e.issuer := Entry(e.data, now + ttl)];
    forall k | k in cache' ensures Backed(log + [e], k, cache'[k].data, cache'[k].exp - ttl) {
      if k == e.issuer {
        assert FetchedAt(log + [e], |log|, k, e.data, now);
      } else {
        BackedGrows(log, e, k, cache[k].data, cache[k].exp - ttl);
      }
    }
  }

  lemma CachedServes(ttl: int, cache: Cache, log: seq<Event>, now: int, e: Event)
    requires CacheIsLatest(ttl, cache, log) && LogIsPast(log, now)
    requires e.Hit? && Fresh(cache, e.issuer, now) && e.data == cache[e.issuer].data && e.at == now
    ensures Serves(ttl, log, e)
  {
    var t := cache[e.issuer].exp - ttl;
    assert Backed(log, e.issuer, e.data, t);
    var j :| FetchedAt(log, j, e.issuer, e.data, t);
  }

  lemma HitStep(ttl: int, s: State, w: Caller, issuer: string)
    requires Invariant(ttl, s) && Fresh(s.cache, issuer, s.now) && !PhaseOf(s, w).Fetching?
    ensures Invariant(ttl, AsHit(s, w, issuer))
  {
    var e := Hit(w, issuer, s.cache[issuer].data, s.now);
    CachedServes(ttl, s.cache, s.log, s.now, e);
    LogGrows(ttl, s.log, e);
    OtherEvent(ttl, s.cache, s.log, s.now, e);
    OthersFetch(s, w, AsHit(s, w, issuer));
  }

  lemma OthersFetch(s: State, w: Caller, t: State)
    requires OneWriter(s) && !PhaseOf(s, w).Fetching?
    requires t.phases == s.phases[w := Idle] && t.writer == s.writer && t.now == s.now && t.cache == s.cache
    ensures OneWriter(t)
  {
  }

  lemma FetchStep(ttl: int, s: State, w: Caller, data: Data)
    requires ttl > 0 && Invariant(ttl, s) && PhaseOf(s, w).Fetching?
    ensures Invariant(ttl, Apply(ttl, s, EndFetch(w, Some(data))))
  {
    var p := PhaseOf(s, w);
    var e := Fetched(w, p.issuer, data, p.since, s.now);
    LogGrows(ttl, s.log, e);
    FetchEvent(ttl, s.cache, s.log, s.now, e);
    NobodyFetches(s, w, Apply(ttl, s, EndFetch(w, Some(data))));
  }

  // When the writer is done nobody fetches.
  lemma NobodyFetches(s: State, w: Caller, t: State)
    requires OneWriter(s) && PhaseOf(s, w).Fetching? && t.phases == s.phases[w := Idle]
    ensures OneWriter(t)
  {
  }

  lemma QuietStep(ttl: int, s: State, e: Event, phases: map<Caller, Phase>, writer: Option<Caller>)
    requires Invariant(ttl, s) && !e.Hit? && !e.Fetched?
    requires e.Miss? ==> !Fresh(s.cache, e.issuer, s.now) && e.at == s.now
    requires OneWriter(s.(log := s.log + [e], phases := phases, writer := writer))
    ensures Invariant(ttl, s.(log := s.log + [e], phases := phases, writer := writer))
  {
    LogGrows(ttl, s.log, e);
    OtherEvent(ttl, s.cache, s.log, s.now, e);
  }

  lemma CallStep(ttl: int, s: State, w: Caller, issuer: string)
    requires Invariant(ttl, s)
    ensures Invariant(ttl, Apply(ttl, s, Call(w, issuer)))
  {
    if PhaseOf(s, w) == Idle {
      QuietStep(ttl, s, Called(w, TrimSlash(issuer)), s.phases[w := Started(TrimSlash(issuer))], s.writer);
    }
  }

  lemma LockStep(ttl: int, s: State, w: Caller)
    requires Invariant(ttl, s)
    ensures Invariant(ttl, Apply(ttl, s, LockAndCheck(w)))
  {
    var p := PhaseOf(s, w);
    if p.Missed? && s.writer.None? {
      if Fresh(s.cache, p.issuer, s.now) {
        HitStep(ttl, s, w, p.issuer);
      } else {
        QuietStep(ttl, s, Miss(w, p.issuer, s.now), s.phases[w := Fetching(p.issuer, s.now)], Some(w));
      }
    }
  }

  lemma StepInvariant(ttl: int, s: State, a: Action)
    requires ttl > 0 && Invariant(ttl, s)
    ensures Invariant(ttl, Apply(ttl, s, a))
  {
    match a
    case Tick(_) =>
    case Call(w, issuer) => CallStep(ttl, s, w, issuer);
    case ReadCheck(w) =>
      var p := PhaseOf(s, w);
      if p.Started? && Fresh(s.cache, p.issuer, s.now) { HitStep(ttl, s, w, p.issuer); }
    case LockAndCheck(w) => LockStep(ttl, s, w);
    case EndFetch(w, outcome) =>
      var p := PhaseOf(s, w);
      if p.Fetching? {
        if outcome.Some? { FetchStep(ttl, s, w, outcome.value); }
        else { QuietStep(ttl, s, Failed(w, p.issuer, s.now), s.phases[w := Idle], None); }
      }
  }

  lemma {:induction false} RunInvariant(ttl: int, s: State, actions: seq<Action>)
    requires ttl > 0 && Invariant(ttl, s)
    ensures Invariant(ttl, Run(ttl, s, actions))
    decreases |actions|
  {
    if actions != [] {
      StepInvariant(ttl, s, actions[0]);
      RunInvariant(ttl, Apply(ttl, s, actions[0]), actions[1..]);
    }
  }

  // In every interleaving all returned data is a fetch for its issuer: the caller's own, or
  // on a hit one that completed less than ttl before. Within ttl of a successful fetch there is
  // neither a miss nor another such fetch for its issuer.
  lemma EveryRunIsSound(ttl: int, now: int, actions: seq<Action>)
    requires ttl > 0
    ensures var log := Run(ttl, Start(now), actions).log;
            HitsAreFetches(ttl, log) && FetchesAreApart(ttl, log) && MissesAreLate(ttl, log)
  {
    RunInvariant(ttl, Start(now), actions);
  }

  // ---- Exactly one hit or one miss per call ---------------------------------------------

  datatype Tally = Tally(calls: nat, hits: nat, misses: nat, finished: nat)

  // A call returns with a hit, with the data it fetched, or with an error.
  function Bump(t: Tally, e: Event): Tally {
    match e
    case Called(_, _) => t.(calls := t.calls + 1)
    case Hit(_, _, _, _) => t.(hits := t.hits + 1, finished := t.finished + 1)
    case Miss(_, _, _) => t.(misses := t.misses + 1)
    case Fetched(_, _, _, _, _) => t.(finished := t.finished + 1)
    case Failed(_, _, _) => t.(finished := t.finished + 1)
  }

  function Count(log: seq<Event>, w: Caller): Tally {
    if log == [] then Tally(0, 0, 0, 0)
    else
      var e := log[|log| - 1];
      if e.w == w then Bump(Count(log[..|log| - 1], w), e) else Count(log[..|log| - 1], w)
  }

  predicate Balanced(s: State, w: Caller) {
    var t, p := Count(s.log, w), PhaseOf(s, w);
    && t.calls == t.hits + t.misses + (if p.Started? || p.Missed? then 1 else 0)
    && t.calls == t.finished + (if p.Idle? then 0 else 1)
  }

  lemma CountOne(log: seq<Event>, e: Event, w: Caller)
    ensures Count(log + [e], w) == if e.w == w then Bump(Count(log, w), e) else Count(log, w)
  {
    assert (log + [e])[..|log|] == log;
  }

  // The event a step adds to the log, if any.
  function Recorded(ttl: int, s: State, a: Action): Option<Event> {
    match a
    case Tick(_) => None
    case Call(w, issuer) => if PhaseOf(s, w) != Idle then None else Some(Called(w, TrimSlash(issuer)))
    case ReadCheck(w) =>
      var p := PhaseOf(s, w);
      if p.Started? && s.writer.None? && Fresh(s.cache, p.issuer, s.now) then Some(Hit(w, p.issuer, s.cache[p.issuer].data, s.now)) else None
    case LockAndCheck(w) =>
      var p := PhaseOf(s, w);
      if !p.Missed? || s.writer.Some? then None
      else if Fresh(s.cache, p.issuer, s.now) then Some(Hit(w, p.issuer, s.cache[p.issuer].data, s.now))
      else Some(Miss(w, p.issuer, s.now))
    case EndFetch(w, outcome) =>
      var p := PhaseOf(s, w);
      if !p.Fetching? then None
      else if outcome.None? then Some(Failed(w, p.issuer, s.now))
      else Some(Fetched(w, p.issuer, outcome.value, p.since, s.now))
  }

  lemma StepRecords(ttl: int, s: State, a: Action)
    ensures var e := Recorded(ttl, s, a);
            Apply(ttl, s, a).log == if e.Some? then s.log + [e.value] else s.log
  {
  }

  // What the step does to the phase of each caller, given the event it records.
  lemma StepPhase(ttl: int, s: State, a: Action, w: Caller)
    ensures var e, p, q := Recorded(ttl, s, a), PhaseOf(s, w), PhaseOf(Apply(ttl, s, a), w);
            if e.None? || e.value.w != w then q == p || (p.Started? && q.Missed?)
            else match e.value
                 case Called(_, _) => p.Idle? && q.Started?
                 case Hit(_, _, _, _) => (p.Started? || p.Missed?) && q.Idle?
                 case Miss(_, _, _) => p.Missed? && q.Fetching?
                 case _ => p.Fetching? && q.Idle?
  {
  }

  lemma StepBalanced(ttl: int, s: State, a: Action, w: Caller)
    requires Balanced(s, w)
    ensures Balanced(Apply(ttl, s, a), w)
  {
    var e := Recorded(ttl, s, a);
    StepRecords(ttl, s, a);
    StepPhase(ttl, s, a, w);
    if e.Some? {
      CountOne(s.log, e.value, w);
    }
  }

  lemma {:induction false} RunBalanced(ttl: int, s: State, actions: seq<Action>, w: Caller)
    requires Balanced(s, w)
    ensures Balanced(Run(ttl, s, actions), w)
    decreases |actions|
  {
    if actions != [] {
      StepBalanced(ttl, s, actions[0], w);
      RunBalanced(ttl, Apply(ttl, s, actions[0]), actions[1..], w);
    }
  }

  // At any time each caller has recorded exactly one hit or miss for every call it has
  // brought past its checks, and an idle caller has returned once from every call.
  lemma OneHitOrMissPerCall(ttl: int, now: int, actions: seq<Action>, w: Caller)
    ensures Balanced(Run(ttl, Start(now), actions), w)
  {
    RunBalanced(ttl, Start(now), actions, w);
  }

  // ------------------------------------------------------------------------------------
  // The source itself, one critical section at a time
  // ------------------------------------------------------------------------------------

  // The ghost state s is where the run has got to; the contracts say that a section does
  // to the cache, the metrics and the lock what the step of the run does.
  class HttpJwksSource {
    const ttl: int
    var cache: Cache
    ghost var log: seq<Event>

    constructor (cacheTtl: int)
      ensures ttl == EffectiveTtl(cacheTtl) && cache == map[] && log == []
    {
      ttl := EffectiveTtl(cacheTtl);
      cache := map[];
      log := [];
    }

    // The check under the read lock.
    method CheckForReading(w: Caller, issuer: string, now: int, ghost s: State) returns (hit: Option<Data>)
      requires s.cache == cache && s.log == log && s.now == now && s.writer == None && PhaseOf(s, w) == Started(issuer)
      modifies this`log
      ensures var t := Apply(ttl, s, ReadCheck(w));
              && t.cache == cache && t.log == log
              && PhaseOf(t, w) == (if hit.Some? then Idle else Missed(issuer))
      ensures hit.Some? <==> issuer in cache && now < cache[issuer].exp
      ensures hit.Some? ==> hit.value == cache[issuer].data
    {
      if issuer in cache && now < cache[issuer].exp {
        var data := cache[issuer].data;
        log := log + [Hit(w, issuer, data, now)];
        return Some(data);
      }
      return None;
    }

    // The check under the write lock; a miss keeps the lock for the fetch.
    method CheckForWriting(w: Caller, issuer: string, now: int, ghost s: State) returns (hit: Option<Data>)
      requires s.cache == cache && s.log == log && s.now == now && s.writer == None && PhaseOf(s, w) == Missed(issuer)
      modifies this`log
      ensures var t := Apply(ttl, s, LockAndCheck(w));
              && t.cache == cache && t.log == log
              && PhaseOf(t, w) == (if hit.Some? then Idle else Fetching(issuer, now))
              && t.writer == (if hit.Some? then None else Some(w))
      ensures hit.Some? <==> issuer in cache && now < cache[issuer].exp
      ensures hit.Some? ==> hit.value == cache[issuer].data
    {
      if issuer in cache && now < cache[issuer].exp {
        log := log + [Hit(w, issuer, cache[issuer].data, now)];
        return Some(cache[issuer].data);
      }
      log := log + [Miss(w, issuer, now)];
      return None;
    }

    // What follows the fetch; a failed fetch caches nothing.
    method FinishFetch(w: Caller, issuer: string, now: int, outcome: Option<Data>, ghost s: State) returns (r: Option<Data>)
      requires s.cache == cache && s.log == log && s.now == now && PhaseOf(s, w).Fetching? && PhaseOf(s, w).issuer == issuer
      modifies this
      ensures var t := Apply(ttl, s, EndFetch(w, outcome));
              t.cache == cache && t.log == log && t.writer == None && PhaseOf(t, w) == Idle
      ensures r == outcome
      ensures cache == if outcome.None? then old(cache) else old(cache)[issuer := Entry(outcome.value, now + ttl)]
    {
      if outcome.None? {
        log := log + [Failed(w, issuer, now)];
        return None;
      }
      cache := cache[issuer := Entry(outcome.value, now + ttl)];
      log := log + [Fetched(w, issuer, outcome.value, PhaseOf(s, w).since, now)];
      return outcome;
    }

    // A whole call that nobody interrupts: `wait` passes before the write lock is taken and
    // `hold` while the fetch is under way.
    method GetJwks(w: Caller, requested: string, now: int, wait: nat, hold: nat, outcome: Option<Data>, ghost s: State) returns (r: Option<Data>)
      requires s.cache == cache && s.log == log && s.now == now && s.writer == None && PhaseOf(s, w) == Idle
      modifies this
      ensures var t := Alone(ttl, s, w, requested, wait, hold, outcome);
              t.cache == cache && t.log == log && t.writer == None && PhaseOf(t, w) == Idle
      ensures var issuer := TrimSlash(requested);
              r == if issuer in old(cache) && now < old(cache)[issuer].exp then Some(old(cache)[issuer].data) else outcome
    {
      var issuer := TrimSlash(requested);
      log := log + [Called(w, issuer)];
      ghost var s1 := Apply(ttl, s, Call(w, requested));
      r := CheckForReading(w, issuer, now, s1);
      ghost var s2 := Apply(ttl, Apply(ttl, s1, ReadCheck(w)), Tick(wait));
      if r.Some? {
        return;
      }
      var later := now + wait;
      r := CheckForWriting(w, issuer, later, s2);
      if r.Some? {
        return;
      }
      ghost var s3 := Apply(ttl, Apply(ttl, s2, LockAndCheck(w)), Tick(hold));
      r := FinishFetch(w, issuer, later + hold, outcome, s3);
    }
  }

  // One caller's steps from call to return.
  function Alone(ttl: int, s: State, w: Caller, requested: string, wait: nat, hold: nat, outcome: Option<Data>): State {
    var called := Apply(ttl, s, Call(w, requested));
    var checked := Apply(ttl, Apply(ttl, called, ReadCheck(w)), Tick(wait));
    var locked := Apply(ttl, Apply(ttl, checked, LockAndCheck(w)), Tick(hold));
    Apply(ttl, locked, EndFetch(w, outcome))
  }
}
