// The session, PKCE and refresh-lock store over one flat keyspace (internal/store/redis/redis.go).
module RedisStore {
  import opened Wrappers
  import opened Kv
  import opened KeyLayout
  import opened SessionModel

  // Records are stored as JSON; a stored text decodes only as what it was encoded from,
  // with the claims as one JSON hop leaves them.
  datatype Value = OfSession(session: Session) | OfPkce(pkce: PkceState) | Marker

  predicate Fits(t: TableName, v: Value) {
    match t
    case Sessions => v.OfSession?
    case Pkce => v.OfPkce?
    case _ => v.Marker?
  }

  // Every command takes the time at which the server executes it and how it fares.
  class Store {
    const layout: Layout
    var keyspace: Table<Value>

    constructor (layout: Layout)
      ensures this.layout == layout && keyspace == map[]
    {
      this.layout := layout;
      keyspace := map[];
    }

    // The keyspace as five tables.
    ghost function Tables(t: TableName): Table<Value>
      reads this`keyspace
    {
      Project(layout, keyspace, t)
    }

    // Every table holds records of its own kind only.
    ghost predicate Valid()
      reads this`keyspace
    {
      && PrefixFree(layout)
      && forall t, id :: id in Tables(t) ==> Fits(t, Tables(t)[id].value)
    }

    // SET key value [PX ttl]: one entry of one table changes, unless the request is lost.
    method Set(t: TableName, id: string, v: Value, ttl: int, now: int, link: Link) returns (err: Option<StoreError>)
      requires Valid() && Fits(t, v)
      modifies this`keyspace
      ensures Valid()
      ensures err.None? <==> link.Works?
      ensures forall u :: Tables(u) == if u == t && !link.RequestLost? then Put(old(Tables(u)), id, v, ttl, now) else old(Tables(u))
    {
      if link.RequestLost? {
        return Some(Unreachable);
      }
      var key := KeyOf(layout, t, id);
      var entry := Entry(v, Expiry(ttl, now));
      ProjectChange(layout, keyspace, keyspace[key := entry], t, id, Some(entry));
      keyspace := keyspace[key := entry];
      forall u, a | a in Tables(u) ensures Fits(u, Tables(u)[a].value) {
        assert Tables(u) == if u == t then old(Tables(u))[id := entry] else old(Tables(u));
      }
      return if link.Works? then None else Some(Unreachable);
    }

    // DEL key.
    method Delete(t: TableName, id: string, link: Link) returns (err: Option<StoreError>)
      requires Valid()
      modifies this`keyspace
      ensures Valid()
      ensures err.None? <==> link.Works?
      ensures forall u :: Tables(u) == if u == t && !link.RequestLost? then Del(old(Tables(u)), id) else old(Tables(u))
    {
      if link.RequestLost? {
        return Some(Unreachable);
      }
      var key := KeyOf(layout, t, id);
      ProjectChange(layout, keyspace, keyspace - {key}, t, id, None);
      keyspace := keyspace - {key};
      forall u, a | a in Tables(u) ensures Fits(u, Tables(u)[a].value) {
        assert Tables(u) == if u == t then old(Tables(u)) - {id} else old(Tables(u));
      }
      return if link.Works? then None else Some(Unreachable);
    }

    // GET key; None when there is no live entry.
    method Fetch(t: TableName, id: string, now: int, link: Link) returns (r: Result<Option<Value>, StoreError>)
      requires Valid()
      ensures r == if link.Works? then Ok(Get(Tables(t), id, now)) else Err(Unreachable)
      ensures r.Ok? && r.value.Some? ==> Fits(t, r.value.value)
    {
      if !link.Works? {
        return Err(Unreachable);
      }
      ProjectGet(layout, keyspace, t, id, now);
      return Ok(Get(keyspace, KeyOf(layout, t, id), now));
    }

    // ---- Sessions ------------------------------------------------------------------------

    method GetSession(id: string, now: int, link: Link) returns (r: Result<Option<Session>, StoreError>)
      requires Valid()
      ensures r.Ok? <==> link.Works?
      ensures r.Ok? ==> (r.value.Some? <==> Live(Tables(Sessions), id, now))
      ensures r.Ok? && r.value.Some? ==> Tables(Sessions)[id].value == OfSession(r.value.value)
    {
      var data := Fetch(Sessions, id, now, link);
      match data
      case Err(e) => return Err(e);
      case Ok(None) => return Ok(None);
      case Ok(Some(v)) =>
        match v
        case OfSession(session) => return Ok(Some(session));
        case _ => return Err(Malformed);
    }

    method SetSession(id: string, session: Session, ttl: int, now: int, link: Link) returns (err: Option<StoreError>)
      requires Valid()
      modifies this`keyspace
      ensures Valid()
      ensures err.None? <==> link.Works?
      ensures forall u :: Tables(u) ==
                if u == Sessions && !link.RequestLost? then Put(old(Tables(u)), id, OfSession(AsStored(session)), ttl, now) else old(Tables(u))
    {
      err := Set(Sessions, id, OfSession(AsStored(session)), ttl, now, link);
    }

    method DeleteSession(id: string, link: Link) returns (err: Option<StoreError>)
      requires Valid()
      modifies this`keyspace
      ensures Valid()
      ensures err.None? <==> link.Works?
      ensures forall u :: Tables(u) == if u == Sessions && !link.RequestLost? then Del(old(Tables(u)), id) else old(Tables(u))
    {
      err := Delete(Sessions, id, link);
    }

    // ---- PKCE state ----------------------------------------------------------------------

    method GetPkce(state: string, now: int, link: Link) returns (r: Result<Option<PkceState>, StoreError>)
      requires Valid()
      ensures r.Ok? <==> link.Works?
      ensures r.Ok? ==> (r.value.Some? <==> Live(Tables(Pkce), state, now))
      ensures r.Ok? && r.value.Some? ==> Tables(Pkce)[state].value == OfPkce(r.value.value)
    {
      var data := Fetch(Pkce, state, now, link);
      match data
      case Err(e) => return Err(e);
      case Ok(None) => return Ok(None);
      case Ok(Some(v)) =>
        match v
        case OfPkce(p) => return Ok(Some(p));
        case _ => return Err(Malformed);
    }

    method SetPkce(state: string, p: PkceState, ttl: int, now: int, link: Link) returns (err: Option<StoreError>)
      requires Valid()
      modifies this`keyspace
      ensures Valid()
      ensures err.None? <==> link.Works?
      ensures forall u :: Tables(u) ==
                if u == Pkce && !link.RequestLost? then Put(old(Tables(u)), state, OfPkce(p), ttl, now) else old(Tables(u))
    {
      err := Set(Pkce, state, OfPkce(p), ttl, now, link);
    }

    method DeletePkce(state: string, link: Link) returns (err: Option<StoreError>)
      requires Valid()
      modifies this`keyspace
      ensures Valid()
      ensures err.None? <==> link.Works?
      ensures forall u :: Tables(u) == if u == Pkce && !link.RequestLost? then Del(old(Tables(u)), state) else old(Tables(u))
    {
      err := Delete(Pkce, state, link);
    }

    // ---- Refresh locks -------------------------------------------------------------------

    // SET NX with a TTL. The client reports a key that is already there as a nil reply, so
    // a lock that is held comes back as an error.
    method ObtainRefreshLock(id: string, ttl: int, now: int, link: Link) returns (r: Result<bool, StoreError>)
      requires Valid()
      modifies this`keyspace
      ensures Valid()
      ensures r == Ok(true) <==> link.Works? && !Live(old(Tables(RefreshLocks)), id, now)
      ensures r != Ok(false)
      ensures forall u :: Tables(u) ==
                if u == RefreshLocks && !link.RequestLost? && !Live(old(Tables(u)), id, now)
                then Put(old(Tables(u)), id, Marker, ttl, now) else old(Tables(u))
    {
      if link.RequestLost? {
        return Err(Unreachable);
      }
      ProjectGet(layout, keyspace, RefreshLocks, id, now);
      if Get(keyspace, KeyOf(layout, RefreshLocks, id), now).Some? {
        return Err(if link.Works? then NilReply else Unreachable);
      }
      var err := Set(RefreshLocks, id, Marker, ttl, now, link);
      return if err.None? then Ok(true) else Err(Unreachable);
    }

    // DEL, whoever holds the lock.
    method ReleaseRefreshLock(id: string, link: Link) returns (err: Option<StoreError>)
      requires Valid()
      modifies this`keyspace
      ensures Valid()
      ensures err.None? <==> link.Works?
      ensures forall u :: Tables(u) == if u == RefreshLocks && !link.RequestLost? then Del(old(Tables(u)), id) else old(Tables(u))
    {
      err := Delete(RefreshLocks, id, link);
    }

    // ---- Revocation and replay -----------------------------------------------------------

    method SetRevoked(id: string, ttl: int, now: int, link: Link) returns (err: Option<StoreError>)
      requires Valid()
      modifies this`keyspace
      ensures Valid()
      ensures err.None? <==> link.Works?
      ensures forall u :: Tables(u) == if u == Revoked && !link.RequestLost? then Put(old(Tables(u)), id, Marker, ttl, now) else old(Tables(u))
    {
      err := Set(Revoked, id, Marker, ttl, now, link);
    }

    method IsRevoked(id: string, now: int, link: Link) returns (r: Result<bool, StoreError>)
      requires Valid()
      ensures r == if link.Works? then Ok(Live(Tables(Revoked), id, now)) else Err(Unreachable)
    {
      var data := Fetch(Revoked, id, now, link);
      return match data case Err(e) => Err(e) case Ok(v) => Ok(v.Some?);
    }

    method RecordReplay(key: string, ttl: int, now: int, link: Link) returns (err: Option<StoreError>)
      requires Valid()
      modifies this`keyspace
      ensures Valid()
      ensures err.None? <==> link.Works?
      ensures forall u :: Tables(u) == if u == Replay && !link.RequestLost? then Put(old(Tables(u)), key, Marker, ttl, now) else old(Tables(u))
    {
      err := Set(Replay, key, Marker, ttl, now, link);
    }

    method CheckReplay(key: string, now: int, link: Link) returns (r: Result<bool, StoreError>)
      requires Valid()
      ensures r == if link.Works? then Ok(Live(Tables(Replay), key, now)) else Err(Unreachable)
    {
      var data := Fetch(Replay, key, now, link);
      return match data case Err(e) => Err(e) case Ok(v) => Ok(v.Some?);
    }
  }
}
