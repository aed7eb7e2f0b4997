// A table of the key-value store: values with an optional expiry (seconds).
module Kv {
  import opened Wrappers

  datatype Entry<+V> = Entry(value: V, exp: Option<int>)

  type Table<V> = map<string, Entry<V>>

  // A set without a positive TTL never expires.
  function Expiry(ttl: int, now: int): Option<int> {
    if ttl > 0 then Some(now + ttl) else None
  }

  predicate Unexpired<V>(e: Entry<V>, now: int) {
    e.exp.None? || now < e.exp.value
  }

  predicate Live<V>(t: Table<V>, k: string, now: int) {
    k in t && Unexpired(t[k], now)
  }

  function Get<V>(t: Table<V>, k: string, now: int): Option<V> {
    if Live(t, k, now) then Some(t[k].value) else None
  }

  function Put<V>(t: Table<V>, k: string, v: V, ttl: int, now: int): Table<V> {
    t[k := Entry(v, Expiry(ttl, now))]
  }

  function Del<V>(t: Table<V>, k: string): Table<V> {
    t - {k}
  }

  // How a command fares: it works, it fails before taking effect, or its effect takes
  // place and only the reply is lost.
  datatype Link = Works | RequestLost | ReplyLost

  datatype StoreError = Unreachable | NilReply | Malformed
}
