// The key layout of the agent's store (pkg/session/session.go, internal/agent/config/config.go).
module KeyLayout {
  import opened Wrappers
  import opened Kv

  datatype TableName = Sessions | Pkce | RefreshLocks | Revoked | Replay

  datatype Layout = Layout(sessionPrefix: string, pkcePrefix: string, refreshLockPrefix: string,
                           revokedPrefix: string, replayPrefix: string)

  // Config.KeyLayout: an empty prefix means "auth".
  function AgentLayout(configured: string): Layout {
    var p := if configured == "" then "auth" else configured;
    Layout(p + ":session:", p + ":pkce:", p + ":refresh_lock:", p + ":revoked:", p + ":replay:")
  }

  // The two optional prefixes have defaults of their own.
  function PrefixOf(l: Layout, t: TableName): string {
    match t
    case Sessions => l.sessionPrefix
    case Pkce => l.pkcePrefix
    case RefreshLocks => l.refreshLockPrefix
    case Revoked => if l.revokedPrefix == "" then "auth:revoked:" else l.revokedPrefix
    case Replay => if l.replayPrefix == "" then "auth:replay:" else l.replayPrefix
  }

  function KeyOf(l: Layout, t: TableName, id: string): string {
    PrefixOf(l, t) + id
  }

  // No prefix is a prefix of another.
  ghost predicate PrefixFree(l: Layout) {
    forall t, u :: t != u ==> !(PrefixOf(l, t) <= PrefixOf(l, u))
  }

  function Tag(t: TableName): string {
    match t
    case Sessions => ":session:"
    case Pkce => ":pkce:"
    case RefreshLocks => ":refresh_lock:"
    case Revoked => ":revoked:"
    case Replay => ":replay:"
  }

  lemma CancelPrefix(p: string, a: string, b: string)
    requires p + a <= p + b
    ensures a <= b
  {
    assert a == (p + a)[|p|..] && b == (p + b)[|p|..];
  }

  lemma TagsDiffer(t: TableName, u: TableName)
    requires Tag(t) <= Tag(u)
    ensures t == u
  {
    assert Tag(t)[1] == Tag(u)[1] && Tag(t)[3] == Tag(u)[3];
  }

  // Whatever prefix is configured, the agent's layout is prefix-free.
  lemma AgentLayoutIsPrefixFree(configured: string)
    ensures PrefixFree(AgentLayout(configured))
  {
    var l := AgentLayout(configured);
    var p := if configured == "" then "auth" else configured;
    forall t, u | PrefixOf(l, t) <= PrefixOf(l, u) ensures t == u {
      assert PrefixOf(l, t) == p + Tag(t) && PrefixOf(l, u) == p + Tag(u);
      CancelPrefix(p, Tag(t), Tag(u));
      TagsDiffer(t, u);
    }
  }

  lemma PrefixesCompare(a: string, b: string, k: string)
    requires a <= k && b <= k
    ensures a <= b || b <= a
  {
    if |a| <= |b| {
      assert a == k[..|a|] && b == k[..|b|];
    }
  }

  // Two keys coincide only for the same table and the same ID.
  lemma KeysAreSeparate(l: Layout, t: TableName, u: TableName, a: string, b: string)
    requires PrefixFree(l)
    ensures KeyOf(l, t, a) == KeyOf(l, u, b) <==> t == u && a == b
  {
    var k := KeyOf(l, t, a);
    if k == KeyOf(l, u, b) {
      PrefixesCompare(PrefixOf(l, t), PrefixOf(l, u), k);
      assert a == k[|PrefixOf(l, t)|..] && b == k[|PrefixOf(l, u)|..];
    }
  }

  ghost predicate Separate(l: Layout) {
    forall t, u, a, b :: KeyOf(l, t, a) == KeyOf(l, u, b) ==> t == u && a == b
  }

  // For any layout at all, the keys are separate exactly when it is prefix-free.
  lemma SeparateExactly(l: Layout)
    ensures Separate(l) <==> PrefixFree(l)
  {
    if PrefixFree(l) {
      forall t, u, a, b | KeyOf(l, t, a) == KeyOf(l, u, b) ensures t == u && a == b {
        KeysAreSeparate(l, t, u, a, b);
      }
    }
    if Separate(l) {
      forall t, u | PrefixOf(l, t) <= PrefixOf(l, u) ensures t == u {
        var rest := PrefixOf(l, u)[|PrefixOf(l, t)|..];
        assert KeyOf(l, t, rest) == KeyOf(l, u, "");
      }
    }
  }

  // ------------------------------------------------------------------------------------
  // The flat keyspace as five tables
  // ------------------------------------------------------------------------------------

  function Suffixes<V>(flat: Table<V>, prefix: string): set<string> {
    set k | k in flat && prefix <= k :: k[|prefix|..]
  }

  function TableAt<V>(flat: Table<V>, prefix: string): Table<V> {
    map id | id in Suffixes(flat, prefix) && prefix + id in flat :: flat[prefix + id]
  }

  function Project<V>(l: Layout, flat: Table<V>, t: TableName): Table<V> {
    TableAt(flat, PrefixOf(l, t))
  }

  lemma TableHas<V>(flat: Table<V>, prefix: string, id: string)
    ensures id in TableAt(flat, prefix) <==> prefix + id in flat
    ensures id in TableAt(flat, prefix) ==> TableAt(flat, prefix)[id] == flat[prefix + id]
  {
    if prefix + id in flat {
      assert prefix <= prefix + id && (prefix + id)[|prefix|..] == id;
    }
  }

  // A lookup through the key is a lookup in the table.
  lemma ProjectGet<V>(l: Layout, flat: Table<V>, t: TableName, id: string, now: int)
    ensures Get(flat, KeyOf(l, t, id), now) == Get(Project(l, flat, t), id, now)
  {
    TableHas(flat, PrefixOf(l, t), id);
  }

  lemma ProjectChangeAt<V>(l: Layout, before: Table<V>, after: Table<V>, t: TableName, id: string, e: Option<Entry<V>>, u: TableName, a: string)
    requires PrefixFree(l)
    requires after == Changed(before, KeyOf(l, t, id), e)
    ensures a in Project(l, after, u) <==> if u == t && a == id then e.Some? else a in Project(l, before, u)
    ensures a in Project(l, after, u) ==>
              Project(l, after, u)[a] == if u == t && a == id then e.value else Project(l, before, u)[a]
  {
    KeysAreSeparate(l, t, u, id, a);
    TableHas(before, PrefixOf(l, u), a);
    TableHas(after, PrefixOf(l, u), a);
  }

  function Changed<V>(t: Table<V>, k: string, e: Option<Entry<V>>): Table<V> {
    match e
    case None => t - {k}
    case Some(e) => t[k := e]
  }

  // Changing one key of a table changes that entry and leaves the other four tables alone.
  lemma ProjectChange<V>(l: Layout, before: Table<V>, after: Table<V>, t: TableName, id: string, e: Option<Entry<V>>)
    requires PrefixFree(l)
    requires after == Changed(before, KeyOf(l, t, id), e)
    ensures forall u :: Project(l, after, u) == if u == t then Changed(Project(l, before, u), id, e) else Project(l, before, u)
  {
    forall u ensures Project(l, after, u) == if u == t then Changed(Project(l, before, u), id, e) else Project(l, before, u) {
      forall a
        ensures a in Project(l, after, u) <==> if u == t && a == id then e.Some? else a in Project(l, before, u)
        ensures a in Project(l, after, u) ==>
                  Project(l, after, u)[a] == if u == t && a == id then e.value else Project(l, before, u)[a]
      {
        ProjectChangeAt(l, before, after, t, id, e, u, a);
      }
    }
  }
}
