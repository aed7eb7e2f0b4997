// The plugin registry of pkg/pluginregistry/registry.go: two indexes over shared, mutable
// registrations, and the startup order computed from capabilities.
module PluginRegistry {
  import opened Wrappers
  import opened DependencyGraph

  type Capability = string

  datatype Kind = Pipeline | Provider | Integration

  datatype Descriptor = Descriptor(id: Id, kind: Kind, name: string, version: string,
                                   capabilities: seq<Capability>, dependsOn: seq<Capability>)

  datatype RegistryError = AlreadyRegistered(id: Id) | UnknownPlugin(id: Id)

  datatype BuildError = NoProviders(id: Id, capability: Capability) | DependencyCycle

  // ------------------------------------------------------------------------------------
  // Specification: the plugins in registration order, and which of them are enabled
  // ------------------------------------------------------------------------------------

  type Catalog = seq<Descriptor>

  predicate DistinctIds(catalog: Catalog) {
    forall i, j :: 0 <= i < j < |catalog| ==> catalog[i].id != catalog[j].id
  }

  function IdsOf(catalog: Catalog): set<Id> {
    set d | d in catalog :: d.id
  }

  function Repeat<T>(x: T, n: nat): (s: seq<T>)
    ensures |s| == n
  {
    if n == 0 then [] else Repeat(x, n - 1) + [x]
  }

  // The plugins listing c, in registration order, as often as they list it.
  function Offers(catalog: Catalog, c: Capability): seq<Descriptor> {
    if catalog == [] then []
    else
      var d := catalog[|catalog| - 1];
      Offers(catalog[..|catalog| - 1], c) + Repeat(d, multiset(d.capabilities)[c])
  }

  function Only(catalog: seq<Descriptor>, enabled: set<Id>): seq<Descriptor> {
    if catalog == [] then []
    else
      var d := catalog[|catalog| - 1];
      Only(catalog[..|catalog| - 1], enabled) + (if d.id in enabled then [d] else [])
  }

  function Identifiers(offers: seq<Descriptor>): seq<Id> {
    seq(|offers|, i requires 0 <= i < |offers| => offers[i].id)
  }

  // The providers of all needed capabilities, with repetitions.
  function SourcesOf(catalog: Catalog, needs: seq<Capability>): seq<Id> {
    if needs == [] then []
    else SourcesOf(catalog, needs[..|needs| - 1]) + Identifiers(Offers(catalog, needs[|needs| - 1]))
  }

  lemma SourcesMore(catalog: Catalog, needs: seq<Capability>, i: nat)
    requires i < |needs|
    ensures SourcesOf(catalog, needs[..i + 1]) == SourcesOf(catalog, needs[..i]) + Identifiers(Offers(catalog, needs[i]))
  {
    assert needs[..i + 1][..i] == needs[..i];
  }

  function Lookup(catalog: Catalog, id: Id): (d: Descriptor)
    requires id in IdsOf(catalog)
    ensures d in catalog && d.id == id
  {
    var last := catalog[|catalog| - 1];
    if last.id == id then last
    else
      assert catalog == catalog[..|catalog| - 1] + [last];
      Lookup(catalog[..|catalog| - 1], id)
  }

  function GraphOf(catalog: Catalog): Graph {
    map id | id in IdsOf(catalog) :: SourcesOf(catalog, Lookup(catalog, id).dependsOn)
  }

  ghost predicate SomeProviderMissing(catalog: Catalog) {
    exists d, c :: d in catalog && c in d.dependsOn && Offers(catalog, c) == []
  }

  datatype Operation = Register(d: Descriptor) | Enable(id: Id) | Disable(id: Id)

  datatype View = View(catalog: Catalog, enabled: set<Id>)

  // A duplicate registration or an unknown ID changes nothing.
  function Apply(v: View, op: Operation): View {
    match op
    case Register(d) => if d.id in IdsOf(v.catalog) then v else View(v.catalog + [d], v.enabled + {d.id})
    case Enable(id) => if id in IdsOf(v.catalog) then v.(enabled := v.enabled + {id}) else v
    case Disable(id) => if id in IdsOf(v.catalog) then v.(enabled := v.enabled - {id}) else v
  }

  function History(ops: seq<Operation>): View {
    if ops == [] then View([], {}) else Apply(History(ops[..|ops| - 1]), ops[|ops| - 1])
  }

  // The enabled plugins listing c, in registration order and with multiplicity.
  function Resolved(v: View, c: Capability): seq<Descriptor> {
    Offers(Only(v.catalog, v.enabled), c)
  }

  // ---- What a history of operations leads to ---------------------------------------------

  predicate Registers(op: Operation, id: Id) {
    op.Register? && op.d.id == id
  }

  predicate RegisteredBefore(ops: seq<Operation>, n: nat, id: Id)
    requires n <= |ops|
  {
    exists j :: 0 <= j < n && Registers(ops[j], id)
  }

  // Operation i enables the ID: its first registration, or an Enable after one.
  predicate TurnsOn(ops: seq<Operation>, i: nat, id: Id)
    requires i < |ops|
  {
    if RegisteredBefore(ops, i, id) then ops[i] == Enable(id) else Registers(ops[i], id)
  }

  // Some operation enables the ID and no later one disables it.
  ghost predicate LastWordIsOn(ops: seq<Operation>, id: Id) {
    exists i: nat :: i < |ops| && TurnsOn(ops, i, id) && forall j :: i < j < |ops| ==> ops[j] != Disable(id)
  }

  lemma PrefixRegistered(ops: seq<Operation>, m: nat, n: nat, id: Id)
    requires m <= n <= |ops|
    ensures RegisteredBefore(ops[..n], m, id) <==> RegisteredBefore(ops, m, id)
  {
    assert forall j :: 0 <= j < m ==> ops[..n][j] == ops[j];
  }

  lemma {:induction false} HistoryRegisters(ops: seq<Operation>, id: Id)
    ensures id in IdsOf(History(ops).catalog) <==> RegisteredBefore(ops, |ops|, id)
    ensures DistinctIds(History(ops).catalog) && History(ops).enabled <= IdsOf(History(ops).catalog)
  {
    if ops != [] {
      var n := |ops| - 1;
      HistoryRegisters(ops[..n], id);
      PrefixRegistered(ops, n, n, id);
      assert RegisteredBefore(ops, n + 1, id) <==> RegisteredBefore(ops, n, id) || Registers(ops[n], id);
    }
  }

  // After any history exactly those plugins are enabled whose last word is "on".
  lemma {:induction false} HistoryDecides(ops: seq<Operation>, id: Id)
    ensures id in History(ops).enabled <==> LastWordIsOn(ops, id)
  {
    if ops != [] {
      var n := |ops| - 1;
      HistoryDecides(ops[..n], id);
      HistoryRegisters(ops[..n], id);
      PrefixRegistered(ops, n, n, id);
      LastWord(ops, id);
    }
  }

  lemma LastWord(ops: seq<Operation>, id: Id)
    requires ops != []
    ensures var n := |ops| - 1;
            LastWordIsOn(ops, id) <==> TurnsOn(ops, n, id) || (LastWordIsOn(ops[..n], id) && ops[n] != Disable(id))
  {
    var n := |ops| - 1;
    forall i: nat | i < n ensures TurnsOn(ops[..n], i, id) <==> TurnsOn(ops, i, id) {
      PrefixRegistered(ops, i, n, id);
    }
    assert forall j :: 0 <= j < n ==> ops[..n][j] == ops[j];
    if LastWordIsOn(ops, id) {
      var i: nat :| i < |ops| && TurnsOn(ops, i, id) && forall j :: i < j < |ops| ==> ops[j] != Disable(id);
      if i < n {
        assert TurnsOn(ops[..n], i, id);
      }
    }
    if LastWordIsOn(ops[..n], id) && ops[n] != Disable(id) {
      var i: nat :| i < n && TurnsOn(ops[..n], i, id) && forall j :: i < j < n ==> ops[..n][j] != Disable(id);
      assert TurnsOn(ops, i, id);
    }
  }

  // ---- Resolution returns exactly the enabled providers ------------------------------------

  lemma {:induction false} OffersCount(catalog: Catalog, c: Capability, d: Descriptor)
    requires DistinctIds(catalog)
    ensures multiset(Offers(catalog, c))[d] == if d in catalog then multiset(d.capabilities)[c] else 0
  {
    if catalog != [] {
      var n := |catalog| - 1;
      var last := catalog[n];
      assert catalog == catalog[..n] + [last];
      assert d == last ==> d !in catalog[..n];
      OffersCount(catalog[..n], c, d);
      OffersMore(catalog[..n], last, c, d);
    }
  }

  lemma OffersMore(fewer: Catalog, last: Descriptor, c: Capability, d: Descriptor)
    ensures multiset(Offers(fewer + [last], c))[d]
            == multiset(Offers(fewer, c))[d] + (if d == last then multiset(d.capabilities)[c] else 0)
  {
    assert (fewer + [last])[..|fewer|] == fewer;
    RepeatCount(last, multiset(last.capabilities)[c], d);
  }

  lemma {:induction false} RepeatCount<T>(x: T, n: nat, y: T)
    ensures multiset(Repeat(x, n))[y] == if x == y then n else 0
  {
    if n > 0 {
      RepeatCount(x, n - 1, y);
    }
  }

  lemma {:induction false} OnlyMembers(catalog: seq<Descriptor>, enabled: set<Id>)
    ensures forall d :: d in Only(catalog, enabled) <==> d in catalog && d.id in enabled
    ensures DistinctIds(catalog) ==> DistinctIds(Only(catalog, enabled))
  {
    if catalog != [] {
      var n := |catalog| - 1;
      OnlyMembers(catalog[..n], enabled);
      assert catalog == catalog[..n] + [catalog[n]];
      if DistinctIds(catalog) {
        assert forall d :: d in catalog[..n] ==> d.id != catalog[n].id;
      }
    }
  }

  // ---- In registration order --------------------------------------------------------------------

  // Earlier entries were registered earlier.
  ghost predicate InOrderOf(catalog: Catalog, out: seq<Descriptor>) {
    forall i, j, a, b :: 0 <= i < j < |out| && 0 <= a < |catalog| && 0 <= b < |catalog| && out[i] == catalog[a] && out[j] == catalog[b] ==> a <= b
  }

  lemma {:induction false} OffersInOrder(catalog: Catalog, c: Capability)
    requires DistinctIds(catalog)
    ensures InOrderOf(catalog, Offers(catalog, c))
  {
    if catalog != [] {
      var n := |catalog| - 1;
      OffersInOrder(catalog[..n], c);
      OffersMembers(catalog[..n], c);
      RepeatMembers(catalog[n], multiset(catalog[n].capabilities)[c]);
      OrderGrows(catalog, Offers(catalog[..n], c), Repeat(catalog[n], multiset(catalog[n].capabilities)[c]));
    }
  }

  lemma OrderGrows(catalog: Catalog, fewer: seq<Descriptor>, last: seq<Descriptor>)
    requires catalog != [] && DistinctIds(catalog) && InOrderOf(catalog[..|catalog| - 1], fewer)
    requires forall d :: d in fewer ==> d in catalog[..|catalog| - 1]
    requires forall d :: d in last ==> d == catalog[|catalog| - 1]
    ensures InOrderOf(catalog, fewer + last)
  {
    var n := |catalog| - 1;
    var out := fewer + last;
    forall i, j, a, b | 0 <= i < j < |out| && 0 <= a < |catalog| && 0 <= b < |catalog| && out[i] == catalog[a] && out[j] == catalog[b]
      ensures a <= b
    {
      if j < |fewer| {
        assert out[i] == fewer[i] && fewer[i] in fewer && out[j] == fewer[j] && fewer[j] in fewer;
        assert a < n && b < n && catalog[..n][a] == fewer[i] && catalog[..n][b] == fewer[j];
      } else {
        assert out[j] in last;
        assert b == n;
      }
    }
  }

  lemma {:induction false} OnlyInOrder(catalog: Catalog, out: seq<Descriptor>, enabled: set<Id>)
    requires InOrderOf(catalog, out)
    ensures InOrderOf(catalog, Only(out, enabled))
  {
    if out != [] {
      var n := |out| - 1;
      OnlyInOrder(catalog, out[..n], enabled);
      OnlyMembers(out[..n], enabled);
      var fewer := Only(out[..n], enabled);
      forall i, a, b | 0 <= i < |fewer| && 0 <= a < |catalog| && 0 <= b < |catalog| && fewer[i] == catalog[a] && out[n] == catalog[b]
        ensures a <= b
      {
        assert fewer[i] in out[..n];
        var k :| 0 <= k < n && out[k] == fewer[i];
      }
    }
  }

  lemma ResolvedInOrder(v: View, c: Capability)
    requires DistinctIds(v.catalog)
    ensures InOrderOf(v.catalog, Resolved(v, c))
  {
    OffersInOrder(v.catalog, c);
    OnlyInOrder(v.catalog, Offers(v.catalog, c), v.enabled);
    OnlyOffers(v.catalog, v.enabled, c);
  }

  // A plugin is resolved for c as often as it lists c if it is enabled, and else not at all.
  lemma ResolvedExactly(v: View, c: Capability, d: Descriptor)
    requires DistinctIds(v.catalog)
    ensures multiset(Resolved(v, c))[d] == if d in v.catalog && d.id in v.enabled then multiset(d.capabilities)[c] else 0
  {
    OnlyMembers(v.catalog, v.enabled);
    OffersCount(Only(v.catalog, v.enabled), c, d);
  }

  // The enabled plugins that list c, as often as they list it, in registration order.
  ghost predicate Provided(catalog: Catalog, enabled: set<Id>, c: Capability, out: seq<Descriptor>) {
    && InOrderOf(catalog, out)
    && forall d :: multiset(out)[d] == if d in catalog && d.id in enabled then multiset(d.capabilities)[c] else 0
  }

  lemma ResolvedAll(v: View, c: Capability)
    requires DistinctIds(v.catalog)
    ensures Provided(v.catalog, v.enabled, c, Resolved(v, c))
  {
    ResolvedInOrder(v, c);
    forall d ensures multiset(Resolved(v, c))[d] == if d in v.catalog && d.id in v.enabled then multiset(d.capabilities)[c] else 0 {
      ResolvedExactly(v, c, d);
    }
  }

  // Resolution after a history: the plugins registered under their ID first whose last word
  // is "on", with their multiplicity.
  lemma ResolvedAfterHistory(ops: seq<Operation>, c: Capability, d: Descriptor)
    ensures multiset(Resolved(History(ops), c))[d]
            == if d in History(ops).catalog && LastWordIsOn(ops, d.id) then multiset(d.capabilities)[c] else 0
  {
    HistoryRegisters(ops, d.id);
    HistoryDecides(ops, d.id);
    ResolvedExactly(History(ops), c, d);
  }

  lemma {:induction false} OnlyConcat(a: seq<Descriptor>, b: seq<Descriptor>, enabled: set<Id>)
    ensures Only(a + b, enabled) == Only(a, enabled) + Only(b, enabled)
  {
    if b == [] {
      assert a + b == a;
    } else {
      var n := |b| - 1;
      OnlyConcat(a, b[..n], enabled);
      assert (a + b)[..|a| + n] == a + b[..n];
    }
  }

  lemma {:induction false} OnlyRepeat(d: Descriptor, n: nat, enabled: set<Id>)
    ensures Only(Repeat(d, n), enabled) == if d.id in enabled then Repeat(d, n) else []
  {
    if n > 0 {
      OnlyRepeat(d, n - 1, enabled);
      assert Repeat(d, n)[..n - 1] == Repeat(d, n - 1);
    }
  }

  // Filtering the offers is the same as offering from the filtered catalog.
  lemma {:induction false} OnlyOffers(catalog: Catalog, enabled: set<Id>, c: Capability)
    ensures Only(Offers(catalog, c), enabled) == Offers(Only(catalog, enabled), c)
  {
    if catalog != [] {
      var n := |catalog| - 1;
      var d := catalog[n];
      var times := multiset(d.capabilities)[c];
      OnlyOffers(catalog[..n], enabled, c);
      OnlyConcat(Offers(catalog[..n], c), Repeat(d, times), enabled);
      OnlyRepeat(d, times, enabled);
      var kept := Only(catalog[..n], enabled);
      if d.id in enabled {
        assert Only(catalog, enabled) == kept + [d];
        assert (kept + [d])[..|kept|] == kept;
      } else {
        assert Only(catalog, enabled) == kept;
      }
    }
  }

  // ---- The graph of a catalog --------------------------------------------------------------

  lemma {:induction false} OffersMembers(catalog: Catalog, c: Capability)
    ensures forall d :: d in Offers(catalog, c) ==> d in catalog
  {
    if catalog != [] {
      var last := catalog[|catalog| - 1];
      OffersMembers(catalog[..|catalog| - 1], c);
      RepeatMembers(last, multiset(last.capabilities)[c]);
    }
  }

  lemma {:induction false} RepeatMembers<T>(x: T, n: nat)
    ensures forall y :: y in Repeat(x, n) ==> y == x
  {
    if n > 0 { RepeatMembers(x, n - 1); }
  }

  lemma {:induction false} SourcesKnown(catalog: Catalog, needs: seq<Capability>)
    ensures forall p :: p in SourcesOf(catalog, needs) ==> p in IdsOf(catalog)
  {
    if needs != [] {
      SourcesKnown(catalog, needs[..|needs| - 1]);
      OffersMembers(catalog, needs[|needs| - 1]);
    }
  }

  lemma GraphIsClosed(catalog: Catalog)
    ensures Closed(GraphOf(catalog))
  {
    forall x | x in GraphOf(catalog) ensures forall p :: p in GraphOf(catalog)[x] ==> p in GraphOf(catalog) {
      SourcesKnown(catalog, Lookup(catalog, x).dependsOn);
    }
  }

  // p provides one of the needed capabilities.
  ghost predicate Provides(catalog: Catalog, needs: seq<Capability>, p: Id) {
    exists c :: c in needs && p in Identifiers(Offers(catalog, c))
  }

  // There is an edge from p to d exactly when p offers a capability that d needs.
  lemma {:induction false} SourcesAreProviders(catalog: Catalog, needs: seq<Capability>, p: Id)
    ensures p in SourcesOf(catalog, needs) <==> Provides(catalog, needs, p)
  {
    if needs != [] {
      var n := |needs| - 1;
      SourcesAreProviders(catalog, needs[..n], p);
      assert needs == needs[..n] + [needs[n]];
      assert Provides(catalog, needs, p) <==> Provides(catalog, needs[..n], p) || p in Identifiers(Offers(catalog, needs[n]));
    }
  }

  // ---- The graph in terms of what plugins list -------------------------------------------------

  lemma OffersExactly(catalog: Catalog, c: Capability, d: Descriptor)
    requires DistinctIds(catalog)
    ensures d in Offers(catalog, c) <==> d in catalog && c in d.capabilities
  {
    OffersCount(catalog, c, d);
  }

  // d needs something that e offers.
  ghost predicate DependsOn(d: Descriptor, e: Descriptor) {
    exists c :: c in d.dependsOn && c in e.capabilities
  }

  // There is an edge from e to d exactly when d needs something that e offers.
  lemma EdgesExactly(catalog: Catalog, d: Descriptor, e: Descriptor)
    requires DistinctIds(catalog) && d in catalog && e in catalog
    ensures d.id in GraphOf(catalog)
    ensures e.id in GraphOf(catalog)[d.id] <==> DependsOn(d, e)
  {
    SourcesAreProviders(catalog, d.dependsOn, e.id);
    assert Lookup(catalog, d.id) == d;
    forall c ensures e.id in Identifiers(Offers(catalog, c)) <==> c in e.capabilities {
      OffersExactly(catalog, c, e);
      OffersMembers(catalog, c);
      IdentifiersHave(Offers(catalog, c), e, catalog);
    }
  }

  lemma IdentifiersHave(offers: seq<Descriptor>, e: Descriptor, catalog: Catalog)
    requires DistinctIds(catalog) && e in catalog && forall d :: d in offers ==> d in catalog
    ensures e.id in Identifiers(offers) <==> e in offers
  {
    if e in offers {
      var i :| 0 <= i < |offers| && offers[i] == e;
      assert Identifiers(offers)[i] == e.id;
    }
    if e.id in Identifiers(offers) {
      var i :| 0 <= i < |offers| && Identifiers(offers)[i] == e.id;
      assert offers[i] in catalog;
    }
  }

  // A plugin needs something that no plugin offers.
  ghost predicate NeedsTheUnoffered(catalog: Catalog) {
    exists d, c :: d in catalog && c in d.dependsOn && forall e :: e in catalog ==> c !in e.capabilities
  }

  lemma MissingExactly(catalog: Catalog)
    requires DistinctIds(catalog)
    ensures SomeProviderMissing(catalog) <==> NeedsTheUnoffered(catalog)
  {
    if d, c :| d in catalog && c in d.dependsOn && Offers(catalog, c) == [] {
      UnofferedExactly(catalog, c);
    }
    if d, c :| d in catalog && c in d.dependsOn && forall e :: e in catalog ==> c !in e.capabilities {
      UnofferedExactly(catalog, c);
    }
  }

  lemma UnofferedExactly(catalog: Catalog, c: Capability)
    requires DistinctIds(catalog)
    ensures Offers(catalog, c) == [] <==> forall e :: e in catalog ==> c !in e.capabilities
  {
    forall e ensures e in Offers(catalog, c) <==> e in catalog && c in e.capabilities {
      OffersExactly(catalog, c, e);
    }
    if Offers(catalog, c) != [] {
      assert Offers(catalog, c)[0] in Offers(catalog, c);
    }
  }

  // Every plugin is started after all plugins that offer something it needs.
  ghost predicate StartsAfterNeeds(catalog: Catalog, order: seq<Id>) {
    forall i, d, e :: 0 <= i < |order| && d in catalog && e in catalog && d.id == order[i] && DependsOn(d, e) ==> e.id in order[..i]
  }

  lemma EdgeBetween(catalog: Catalog, x: Id, p: Id)
    requires DistinctIds(catalog) && x in GraphOf(catalog) && p in GraphOf(catalog)[x]
    ensures x in IdsOf(catalog) && p in IdsOf(catalog) && DependsOn(Lookup(catalog, x), Lookup(catalog, p))
  {
    SourcesKnown(catalog, Lookup(catalog, x).dependsOn);
    EdgesExactly(catalog, Lookup(catalog, x), Lookup(catalog, p));
  }

  lemma NeedsComeFirst(catalog: Catalog, order: seq<Id>)
    requires DistinctIds(catalog) && ProvidersFirst(GraphOf(catalog), order)
    ensures StartsAfterNeeds(catalog, order)
  {
    forall i, d, e | 0 <= i < |order| && d in catalog && e in catalog && d.id == order[i] && DependsOn(d, e) ensures e.id in order[..i] {
      EdgesExactly(catalog, d, e);
    }
  }

  // Providers come first in the graph exactly when every plugin starts after what it needs.
  lemma ProvidersFirstExactly(catalog: Catalog, order: seq<Id>)
    requires DistinctIds(catalog)
    ensures ProvidersFirst(GraphOf(catalog), order) <==> StartsAfterNeeds(catalog, order)
  {
    if ProvidersFirst(GraphOf(catalog), order) {
      NeedsComeFirst(catalog, order);
    } else {
      var i, p :| 0 <= i < |order| && order[i] in GraphOf(catalog) && p in GraphOf(catalog)[order[i]] && p !in order[..i];
      EdgeBetween(catalog, order[i], p);
      var d, e := Lookup(catalog, order[i]), Lookup(catalog, p);
      assert d in catalog && e in catalog && d.id == order[i] && DependsOn(d, e) && e.id == p;
    }
  }

  // ---- Bookkeeping of the edges ------------------------------------------------------------

  // `after` has one more edge from each of `sources` to id than `before`.
  ghost predicate Linked(before: Dependents, after: Dependents, id: Id, sources: seq<Id>) {
    forall p, x :: Edges(after, p, x) == Edges(before, p, x) + (if x == id then multiset(sources)[p] else 0)
  }

  // `after` has the edges of the graph into the plugins of `done` more than `before`.
  ghost predicate AllLinked(before: Dependents, after: Dependents, g: Graph, done: set<Id>) {
    forall p, x :: Edges(after, p, x) == Edges(before, p, x) + (if x in done && x in g then multiset(g[x])[p] else 0)
  }

  lemma LinkOne(before: Dependents, id: Id, p: Id)
    ensures Linked(before, before[p := DependentsOf(before, p) + [id]], id, [p])
  {
    var after := before[p := DependentsOf(before, p) + [id]];
    forall q, x ensures Edges(after, q, x) == Edges(before, q, x) + (if x == id then multiset([p])[q] else 0) {
      assert multiset([p])[q] == if q == p then 1 else 0;
    }
  }

  lemma LinkMore(a: Dependents, b: Dependents, c: Dependents, id: Id, s: seq<Id>, t: seq<Id>)
    requires Linked(a, b, id, s) && Linked(b, c, id, t)
    ensures Linked(a, c, id, s + t)
  {
    forall p, x ensures Edges(c, p, x) == Edges(a, p, x) + (if x == id then multiset(s + t)[p] else 0) {
      assert Edges(b, p, x) == Edges(a, p, x) + (if x == id then multiset(s)[p] else 0);
      assert multiset(s + t) == multiset(s) + multiset(t);
    }
  }

  lemma LinkPlugin(a: Dependents, b: Dependents, c: Dependents, g: Graph, done: set<Id>, id: Id)
    requires id in g && id !in done && AllLinked(a, b, g, done) && Linked(b, c, id, g[id])
    ensures AllLinked(a, c, g, done + {id})
  {
    forall p, x ensures Edges(c, p, x) == Edges(a, p, x) + (if x in done + {id} && x in g then multiset(g[x])[p] else 0) {
      assert Edges(b, p, x) == Edges(a, p, x) + (if x in done && x in g then multiset(g[x])[p] else 0);
    }
  }

  // A call adds every edge of the graph once.
  ghost predicate CallAdds(g: Graph, before: Dependents, after: Dependents) {
    forall x, p :: x in g ==> Edges(after, p, x) == Edges(before, p, x) + multiset(g[x])[p]
  }

  lemma AllLinkedAdds(before: Dependents, after: Dependents, g: Graph, done: set<Id>)
    requires AllLinked(before, after, g, done) && forall x :: x in g && x !in done ==> g[x] == []
    ensures CallAdds(g, before, after)
  {
    forall x, p | x in g ensures Edges(after, p, x) == Edges(before, p, x) + multiset(g[x])[p] {
      assert Edges(after, p, x) == Edges(before, p, x) + (if x in done && x in g then multiset(g[x])[p] else 0);
      if x !in done {
        assert multiset(g[x]) == multiset{};
      }
    }
  }

  // After a call the lists cover the graph, and they are exact if they were empty before.
  lemma AddedCovers(g: Graph, before: Dependents, after: Dependents)
    requires CallAdds(g, before, after)
    ensures Covers(g, after) && (before == map[] ==> Exact(g, after))
  {
    forall x, p | x in g
      ensures Edges(after, p, x) >= multiset(g[x])[p]
      ensures before == map[] ==> Edges(after, p, x) == multiset(g[x])[p]
    {
      assert Edges(after, p, x) == Edges(before, p, x) + multiset(g[x])[p];
      assert before == map[] ==> Edges(before, p, x) == 0;
    }
  }

  // The n-th call on the same plugins leaves every edge n times in the notification lists.
  lemma CallsAddUp(g: Graph, before: Dependents, after: Dependents, n: nat)
    requires Copies(g, before, n) && CallAdds(g, before, after)
    ensures Copies(g, after, n + 1)
  {
    forall x, p | x in g ensures Edges(after, p, x) == (n + 1) * multiset(g[x])[p] {
      assert Edges(after, p, x) == Edges(before, p, x) + multiset(g[x])[p];
      OneMoreTime(n, multiset(g[x])[p]);
    }
  }

  lemma OneMoreTime(n: nat, k: nat)
    ensures (n + 1) * k == n * k + k
  {
  }

  lemma NoCopiesYet(g: Graph)
    ensures Copies(g, map[], 0)
  {
  }

  // ---- Every closed graph is the graph of some plugins ---------------------------------------

  // A plugin that offers its own name.
  function Plugin(id: Id, needs: seq<Capability>): Descriptor {
    Descriptor(id, Pipeline, id, "", [id], needs)
  }

  function CatalogOf(g: Graph, ids: seq<Id>): Catalog
    requires forall x :: x in ids ==> x in g
  {
    if ids == [] then []
    else
      var n := |ids| - 1;
      CatalogOf(g, ids[..n]) + [Plugin(ids[n], g[ids[n]])]
  }

  predicate Names(g: Graph, ids: seq<Id>, catalog: Catalog) {
    && DistinctIds(catalog) && IdsOf(catalog) == Elements(ids)
    && forall d :: d in catalog ==> d.id in g && d.capabilities == [d.id] && d.dependsOn == g[d.id]
  }

  lemma {:induction false} CatalogNames(g: Graph, ids: seq<Id>)
    requires Distinct(ids) && forall x :: x in ids ==> x in g
    ensures Names(g, ids, CatalogOf(g, ids))
  {
    if ids != [] {
      var n := |ids| - 1;
      CatalogNames(g, ids[..n]);
      LastElement(ids);
      NamesMore(g, ids[..n], CatalogOf(g, ids[..n]), ids[n]);
      assert ids == ids[..n] + [ids[n]];
    }
  }

  lemma OneMorePlugin(g: Graph, ids: seq<Id>, i: nat)
    requires Distinct(ids) && i < |ids| && forall x :: x in ids ==> x in g
    ensures CatalogOf(g, ids[..i + 1]) == CatalogOf(g, ids[..i]) + [Plugin(ids[i], g[ids[i]])]
    ensures ids[i] !in IdsOf(CatalogOf(g, ids[..i]))
  {
    assert ids[..i + 1][..i] == ids[..i];
    CatalogNames(g, ids[..i]);
  }

  lemma NamesMore(g: Graph, ids: seq<Id>, catalog: Catalog, id: Id)
    requires Names(g, ids, catalog) && id in g && id !in Elements(ids)
    ensures Names(g, ids + [id], catalog + [Plugin(id, g[id])])
  {
    var more := catalog + [Plugin(id, g[id])];
    assert forall i :: 0 <= i < |catalog| ==> catalog[i].id in IdsOf(catalog);
    assert IdsOf(more) == IdsOf(catalog) + {id};
    assert Elements(ids + [id]) == Elements(ids) + {id};
  }

  lemma IdentifiersMore(offers: seq<Descriptor>, d: Descriptor)
    ensures Identifiers(offers + [d]) == Identifiers(offers) + [d.id]
    ensures Repeat(d, 0) == [] && Repeat(d, 1) == [d]
  {
    assert Repeat(d, 1) == Repeat(d, 0) + [d];
  }

  lemma OneMoreNamed(fewer: Catalog, last: Descriptor, c: Capability)
    requires last.capabilities == [last.id]
    ensures Identifiers(Offers(fewer + [last], c)) == Identifiers(Offers(fewer, c)) + (if last.id == c then [c] else [])
    ensures IdsOf(fewer + [last]) == IdsOf(fewer) + {last.id}
  {
    assert (fewer + [last])[..|fewer|] == fewer;
    IdentifiersMore(Offers(fewer, c), last);
    assert multiset(last.capabilities) == multiset{last.id};
    assert Offers(fewer, c) + [] == Offers(fewer, c);
  }

  predicate OwnNames(catalog: Catalog) {
    forall i :: 0 <= i < |catalog| ==> catalog[i].capabilities == [catalog[i].id]
  }

  lemma {:induction false} NamedOffers(catalog: Catalog, c: Capability)
    requires DistinctIds(catalog) && OwnNames(catalog)
    ensures Identifiers(Offers(catalog, c)) == if c in IdsOf(catalog) then [c] else []
  {
    if catalog != [] {
      var n := |catalog| - 1;
      assert catalog == catalog[..n] + [catalog[n]];
      NamedOffers(catalog[..n], c);
      OneMoreNamed(catalog[..n], catalog[n], c);
      assert catalog[n].id !in IdsOf(catalog[..n]);
    }
  }

  lemma {:induction false} NamedSources(catalog: Catalog, needs: seq<Capability>, n: nat)
    requires DistinctIds(catalog) && OwnNames(catalog) && n <= |needs|
    requires forall i :: 0 <= i < |needs| ==> needs[i] in IdsOf(catalog)
    ensures SourcesOf(catalog, needs[..n]) == needs[..n]
  {
    if n > 0 {
      NamedSources(catalog, needs, n - 1);
      NamedSource(catalog, needs, n - 1);
    }
  }

  lemma NamedSource(catalog: Catalog, needs: seq<Capability>, n: nat)
    requires DistinctIds(catalog) && OwnNames(catalog) && n < |needs| && needs[n] in IdsOf(catalog)
    requires SourcesOf(catalog, needs[..n]) == needs[..n]
    ensures SourcesOf(catalog, needs[..n + 1]) == needs[..n + 1]
  {
    SourcesMore(catalog, needs, n);
    NamedOffers(catalog, needs[n]);
    OneMoreOf(needs, n);
  }

  lemma OneMoreOf<T>(s: seq<T>, n: nat)
    requires n < |s|
    ensures s[..n + 1] == s[..n] + [s[n]]
  {
  }

  lemma NamedSourcesAt(g: Graph, ids: seq<Id>, catalog: Catalog, id: Id)
    requires Closed(g) && Names(g, ids, catalog) && Elements(ids) == g.Keys && id in g
    ensures id in GraphOf(catalog) && GraphOf(catalog)[id] == g[id]
  {
    var d := Lookup(catalog, id);
    assert OwnNames(catalog);
    NamedSources(catalog, d.dependsOn, |d.dependsOn|);
    assert d.dependsOn[..|d.dependsOn|] == d.dependsOn;
  }

  lemma NamedGraph(g: Graph, ids: seq<Id>, catalog: Catalog)
    requires Closed(g) && Names(g, ids, catalog) && Elements(ids) == g.Keys
    ensures GraphOf(catalog) == g
  {
    var h := GraphOf(catalog);
    assert h.Keys == IdsOf(catalog);
    forall id | id in g ensures h[id] == g[id] {
      NamedSourcesAt(g, ids, catalog, id);
    }
    SameGraph(g, h);
  }

  lemma SameGraph(g: Graph, h: Graph)
    requires g.Keys == h.Keys && forall id :: id in g ==> h[id] == g[id]
    ensures h == g
  {
  }

  // Plugins that need their providers by name have the given graph, and none is missing.
  lemma CatalogHasGraph(g: Graph, ids: seq<Id>)
    requires Closed(g) && StartsAll(g, ids)
    ensures forall x :: x in ids ==> x in g
    ensures GraphOf(CatalogOf(g, ids)) == g && !SomeProviderMissing(CatalogOf(g, ids))
  {
    assert forall x :: x in ids ==> x in Elements(ids);
    CatalogNames(g, ids);
    NamedGraph(g, ids, CatalogOf(g, ids));
    NoneMissingByName(g, ids, CatalogOf(g, ids));
  }

  lemma NoneMissingByName(g: Graph, ids: seq<Id>, catalog: Catalog)
    requires Closed(g) && Names(g, ids, catalog) && Elements(ids) == g.Keys
    ensures !SomeProviderMissing(catalog)
  {
    assert OwnNames(catalog);
    forall d, c | d in catalog && c in d.dependsOn ensures Offers(catalog, c) != [] {
      NamedOffers(catalog, c);
    }
  }

  // ------------------------------------------------------------------------------------
  // The registry
  // ------------------------------------------------------------------------------------

  class Registration {
    const descriptor: Descriptor
    var enabled: bool

    constructor (descriptor: Descriptor)
      ensures this.descriptor == descriptor && enabled
    {
      this.descriptor := descriptor;
      enabled := true;
    }
  }

  function DescriptorsOf(regs: seq<Registration>): seq<Descriptor> {
    seq(|regs|, i requires 0 <= i < |regs| => regs[i].descriptor)
  }

  lemma {:induction false} ServesMore(regs: seq<Registration>, reg: Registration, times: nat)
    ensures DescriptorsOf(regs + Repeat(reg, times)) == DescriptorsOf(regs) + Repeat(reg.descriptor, times)
  {
    if times == 0 {
      assert regs + [] == regs;
    } else {
      ServesMore(regs, reg, times - 1);
      var fewer := regs + Repeat(reg, times - 1);
      assert regs + Repeat(reg, times) == fewer + [reg];
      assert DescriptorsOf(fewer + [reg]) == DescriptorsOf(fewer) + [reg.descriptor];
    }
  }

  type Index = map<Capability, seq<Registration>>

  function At(index: Index, c: Capability): seq<Registration> {
    if c in index then index[c] else []
  }

  // `after` lists the registration once more under each of the capabilities.
  ghost predicate Grown(before: Index, after: Index, reg: Registration, caps: seq<Capability>) {
    forall c {:trigger At(after, c)} :: At(after, c) == At(before, c) + Repeat(reg, multiset(caps)[c])
  }

  lemma GrowNone(index: Index, reg: Registration)
    ensures Grown(index, index, reg, [])
  {
    forall c ensures At(index, c) == At(index, c) + Repeat(reg, multiset([])[c]) {
      assert At(index, c) + [] == At(index, c);
    }
  }

  lemma GrowOne(before: Index, now: Index, reg: Registration, caps: seq<Capability>, cap: Capability)
    requires Grown(before, now, reg, caps)
    ensures Grown(before, now[cap := At(now, cap) + [reg]], reg, caps + [cap])
  {
    var after := now[cap := At(now, cap) + [reg]];
    forall c ensures At(after, c) == At(before, c) + Repeat(reg, multiset(caps + [cap])[c]) {
      GrowAt(before, now, reg, caps, cap, c);
    }
  }

  lemma GrowAt(before: Index, now: Index, reg: Registration, caps: seq<Capability>, cap: Capability, c: Capability)
    requires At(now, c) == At(before, c) + Repeat(reg, multiset(caps)[c])
    ensures At(now[cap := At(now, cap) + [reg]], c) == At(before, c) + Repeat(reg, multiset(caps + [cap])[c])
  {
    CountOne(caps, cap, c);
    if c == cap {
      RepeatMore(At(before, c), reg, multiset(caps)[c]);
    }
  }

  lemma CountOne(caps: seq<Capability>, cap: Capability, c: Capability)
    ensures multiset(caps + [cap])[c] == multiset(caps)[c] + (if c == cap then 1 else 0)
  {
  }

  lemma RepeatMore<T>(front: seq<T>, x: T, n: nat)
    ensures front + Repeat(x, n) + [x] == front + Repeat(x, n + 1)
  {
  }

  // The capabilities needed by the plugins of `done` are all offered.
  ghost predicate Supplied(catalog: Catalog, dependencies: map<Id, seq<Capability>>, done: set<Id>) {
    forall id, c :: id in done && id in dependencies && c in dependencies[id] ==> Offers(catalog, c) != []
  }

  // The in-degrees of the plugins of `done` are computed, the others are still zero.
  ghost predicate DegreesOf(inDegree: map<Id, int>, g: Graph, done: set<Id>) {
    inDegree.Keys == g.Keys && forall id :: id in g ==> inDegree[id] == if id in done then |g[id]| else 0
  }

  lemma OneLess<T>(all: set<T>, rest: set<T>, x: T)
    requires rest <= all && x in rest
    ensures all - (rest - {x}) == all - rest + {x}
  {
  }

  lemma SuppliedOne(catalog: Catalog, dependencies: map<Id, seq<Capability>>, done: set<Id>, id: Id)
    requires Supplied(catalog, dependencies, done) && id in dependencies
    requires forall c :: c in dependencies[id] ==> Offers(catalog, c) != []
    ensures Supplied(catalog, dependencies, done + {id})
  {
  }

  lemma DegreesStart(inDegree: map<Id, int>, g: Graph, done: set<Id>)
    requires inDegree.Keys == g.Keys && (forall id :: id in g ==> inDegree[id] == 0) && done == {}
    ensures DegreesOf(inDegree, g, done)
  {
  }

  lemma DegreeOne(inDegree: map<Id, int>, g: Graph, done: set<Id>, id: Id)
    requires DegreesOf(inDegree, g, done) && id in g && id !in done
    ensures DegreesOf(inDegree[id := inDegree[id] + |g[id]|], g, done + {id})
  {
  }

  lemma DegreesComplete(inDegree: map<Id, int>, g: Graph, done: set<Id>)
    requires DegreesOf(inDegree, g, done) && forall x :: x in g && x !in done ==> g[x] == []
    ensures inDegree == InDegrees(g)
  {
  }

  // The two indexes describe the catalog and share their registrations.
  ghost predicate Describes(byId: map<Id, Registration>, index: Index, dependencies: map<Id, seq<Capability>>, catalog: Catalog) {
    && DistinctIds(catalog)
    && byId.Keys == IdsOf(catalog)
    && dependencies.Keys <= byId.Keys
    && (forall d {:trigger Recorded(byId, dependencies, d)} :: d in catalog ==> Recorded(byId, dependencies, d))
    && (forall c {:trigger Serves(byId, index, catalog, c)} :: Serves(byId, index, catalog, c))
  }

  ghost predicate Recorded(byId: map<Id, Registration>, dependencies: map<Id, seq<Capability>>, d: Descriptor) {
    && d.id in byId && byId[d.id].descriptor == d
    && (d.id in dependencies <==> d.dependsOn != [])
    && (d.id in dependencies ==> dependencies[d.id] == d.dependsOn)
  }

  ghost predicate Serves(byId: map<Id, Registration>, index: Index, catalog: Catalog, c: Capability) {
    && DescriptorsOf(At(index, c)) == Offers(catalog, c)
    && forall reg :: reg in At(index, c) ==> reg.descriptor.id in byId && byId[reg.descriptor.id] == reg
  }

  // A new registration, entered in both indexes, extends the catalog.
  lemma RegisterDescribes(byId: map<Id, Registration>, index: Index, dependencies: map<Id, seq<Capability>>, catalog: Catalog,
                          reg: Registration, index': Index)
    requires Describes(byId, index, dependencies, catalog) && reg.descriptor.id !in byId
    requires Grown(index, index', reg, reg.descriptor.capabilities)
    ensures var d := reg.descriptor;
            Describes(byId[d.id := reg], index', if d.dependsOn == [] then dependencies else dependencies[d.id := d.dependsOn],
                      catalog + [d])
  {
    var d := reg.descriptor;
    var byId', catalog' := byId[d.id := reg], catalog + [d];
    var dependencies' := if d.dependsOn == [] then dependencies else dependencies[d.id := d.dependsOn];
    assert IdsOf(catalog') == IdsOf(catalog) + {d.id};
    assert d.id !in IdsOf(catalog);
    forall e | e in catalog' ensures Recorded(byId', dependencies', e) {
      if e != d {
        assert Recorded(byId, dependencies, e);
      }
    }
    forall c ensures Serves(byId', index', catalog', c) {
      assert Serves(byId, index, catalog, c);
      RegisterServes(byId, index, catalog, reg, index', c);
    }
  }

  lemma RegisterServes(byId: map<Id, Registration>, index: Index, catalog: Catalog, reg: Registration, index': Index, c: Capability)
    requires Serves(byId, index, catalog, c) && reg.descriptor.id !in byId
    requires Grown(index, index', reg, reg.descriptor.capabilities)
    ensures Serves(byId[reg.descriptor.id := reg], index', catalog + [reg.descriptor], c)
  {
    var times := multiset(reg.descriptor.capabilities)[c];
    assert At(index', c) == At(index, c) + Repeat(reg, times);
    assert (catalog + [reg.descriptor])[..|catalog|] == catalog;
    ServesMore(At(index, c), reg, times);
    RepeatMembers(reg, times);
  }

  class Registry {
    var byId: map<Id, Registration>
    var byCapability: Index
    var dependencies: map<Id, seq<Capability>>
    var dependents: Dependents
    var sortedStartup: seq<Id>
    ghost var catalog: Catalog

    function RegsFor(c: Capability): seq<Registration>
      reads this`byCapability
    {
      At(byCapability, c)
    }

    // The startup order is empty or that of a build, so it lists registered plugins once.
    ghost predicate Valid()
      reads this
    {
      && Indexed() && KnowsAll(dependents, byId.Keys)
      && Distinct(sortedStartup) && Elements(sortedStartup) <= byId.Keys
    }

    ghost predicate Indexed()
      reads this`byId, this`byCapability, this`dependencies, this`catalog
    {
      Describes(byId, byCapability, dependencies, catalog)
    }

    ghost function Enabled(): set<Id>
      reads this, byId.Values
    {
      set id | id in byId && byId[id].enabled
    }

    ghost function State(): View
      reads this, byId.Values
    {
      View(catalog, Enabled())
    }

    constructor ()
      ensures Valid() && State() == View([], {}) && dependents == map[] && sortedStartup == []
    {
      byId, byCapability, dependencies, dependents, sortedStartup := map[], map[], map[], map[], [];
      catalog := [];
    }

    method Register(descriptor: Descriptor) returns (err: Option<RegistryError>)
      requires Valid()
      modifies this`byId, this`byCapability, this`dependencies, this`catalog
      ensures Valid()
      ensures State() == Apply(old(State()), Operation.Register(descriptor))
      ensures err == if descriptor.id in old(byId) then Some(AlreadyRegistered(descriptor.id)) else None
      ensures err.Some? ==> byId == old(byId) && byCapability == old(byCapability) && dependencies == old(dependencies)
      ensures err.None? ==> descriptor.id in byId && fresh(byId[descriptor.id]) && byId == old(byId)[descriptor.id := byId[descriptor.id]]
    {
      if descriptor.id in byId {
        return Some(AlreadyRegistered(descriptor.id));
      }
      Insert(descriptor);
      return None;
    }

    method Insert(descriptor: Descriptor)
      requires Indexed() && descriptor.id !in byId
      modifies this`byId, this`byCapability, this`dependencies, this`catalog
      ensures Indexed() && catalog == old(catalog) + [descriptor]
      ensures descriptor.id in byId && fresh(byId[descriptor.id]) && byId[descriptor.id].enabled
      ensures byId == old(byId)[descriptor.id := byId[descriptor.id]]
    {
      var reg := new Registration(descriptor);
      byId := byId[descriptor.id := reg];
      AddToIndex(reg);
      if |descriptor.dependsOn| > 0 {
        dependencies := dependencies[descriptor.id := descriptor.dependsOn];
      }
      catalog := catalog + [descriptor];
      RegisterDescribes(old(byId), old(byCapability), old(dependencies), old(catalog), reg, byCapability);
    }

    // The loop over the capabilities of a new registration.
    method AddToIndex(reg: Registration)
      modifies this`byCapability
      ensures Grown(old(byCapability), byCapability, reg, reg.descriptor.capabilities)
    {
      var caps := reg.descriptor.capabilities;
      GrowNone(byCapability, reg);
      ghost var before := byCapability;
      for i := 0 to |caps|
        invariant Grown(before, byCapability, reg, caps[..i])
      {
        var cap := caps[i];
        GrowOne(before, byCapability, reg, caps[..i], cap);
        assert caps[..i + 1] == caps[..i] + [cap];
        byCapability := byCapability[cap := At(byCapability, cap) + [reg]];
      }
      assert caps[..|caps|] == caps;
    }

    // Toggling one plugin touches no other registration and neither index.
    method Enable(id: Id) returns (err: Option<RegistryError>)
      requires Valid()
      modifies if id in byId then {byId[id]} else {}
      ensures Valid() && State() == Apply(old(State()), Operation.Enable(id))
      ensures err == if id in byId then None else Some(UnknownPlugin(id))
    {
      if id !in byId {
        return Some(UnknownPlugin(id));
      }
      NotShared();
      byId[id].enabled := true;
      return None;
    }

    method Disable(id: Id) returns (err: Option<RegistryError>)
      requires Valid()
      modifies if id in byId then {byId[id]} else {}
      ensures Valid() && State() == Apply(old(State()), Operation.Disable(id))
      ensures err == if id in byId then None else Some(UnknownPlugin(id))
    {
      if id !in byId {
        return Some(UnknownPlugin(id));
      }
      NotShared();
      byId[id].enabled := false;
      return None;
    }

    // Reads the capability index only; toggles made through the ID index are seen.
    method ResolveByCapability(cap: Capability) returns (out: seq<Descriptor>)
      requires Valid()
      ensures out == Resolved(State(), cap)
      ensures Provided(catalog, Enabled(), cap, out)
    {
      var regs := RegsFor(cap);
      assert Serves(byId, byCapability, catalog, cap);
      out := [];
      for i := 0 to |regs|
        invariant out == Only(Offers(catalog, cap)[..i], Enabled())
      {
        var reg := regs[i];
        assert DescriptorsOf(regs)[i] == reg.descriptor;
        assert Offers(catalog, cap)[..i + 1][..i] == Offers(catalog, cap)[..i];
        assert reg in RegsFor(cap);
        if reg.enabled {
          out := out + [reg.descriptor];
        }
      }
      assert Offers(catalog, cap)[..|regs|] == Offers(catalog, cap);
      OnlyOffers(catalog, Enabled(), cap);
      ResolvedAll(State(), cap);
    }

    // Every enabled plugin of the kind, once, in an order Go leaves open.
    method ResolveAllByKind(kind: Kind) returns (out: seq<Descriptor>)
      requires Valid()
      ensures Distinct(out)
      ensures forall d :: d in out <==> d in catalog && d.id in Enabled() && d.kind == kind
    {
      out := [];
      var rest := byId.Keys;
      while rest != {}
        invariant rest <= byId.Keys && Distinct(out)
        invariant forall d :: d in out <==> d in catalog && d.id !in rest && d.id in Enabled() && d.kind == kind
        decreases rest
      {
        var id :| id in rest;
        var reg := byId[id];
        IdIsRecorded(id);
        if reg.enabled && reg.descriptor.kind == kind {
          out := out + [reg.descriptor];
        }
        rest := rest - {id};
      }
    }

    // ---- The dependency graph ------------------------------------------------------------

    lemma IdIsRecorded(id: Id)
      requires Indexed() && id in byId
      ensures byId[id].descriptor in catalog && byId[id].descriptor.id == id
      ensures Lookup(catalog, id) == byId[id].descriptor
    {
      assert Recorded(byId, dependencies, Lookup(catalog, id));
    }

    // Every ID has a registration of its own.
    lemma NotShared()
      requires Indexed()
      ensures forall x, y :: x in byId && y in byId && byId[x] == byId[y] ==> x == y
    {
      forall x | x in byId ensures byId[x].descriptor.id == x {
        IdIsRecorded(x);
      }
    }

    lemma NoneMissing()
      requires Indexed()
      ensures Supplied(catalog, dependencies, dependencies.Keys) <==> !SomeProviderMissing(catalog)
    {
      if !Supplied(catalog, dependencies, dependencies.Keys) {
        var id, c :| id in dependencies && c in dependencies[id] && Offers(catalog, c) == [];
        IdIsRecorded(id);
        assert Recorded(byId, dependencies, byId[id].descriptor);
      } else {
        forall d, c | d in catalog && c in d.dependsOn ensures Offers(catalog, c) != [] {
          assert Recorded(byId, dependencies, d);
        }
      }
    }

    lemma NeedsOf(id: Id)
      requires Indexed() && id in byId
      ensures id in GraphOf(catalog)
      ensures GraphOf(catalog)[id] == if id in dependencies then SourcesOf(catalog, dependencies[id]) else []
      ensures id in dependencies ==> exists d :: d in catalog && d.dependsOn == dependencies[id]
    {
      assert Recorded(byId, dependencies, Lookup(catalog, id));
    }

    lemma GraphKeys()
      requires Indexed()
      ensures GraphOf(catalog).Keys == byId.Keys && |GraphOf(catalog)| == |byId|
    {
      var g := GraphOf(catalog);
      assert g.Keys == byId.Keys;
      assert |g.Keys| == |g| && |byId.Keys| == |byId|;
    }

    lemma OthersNeedNothing()
      requires Indexed()
      ensures forall x :: x in GraphOf(catalog) && x !in dependencies.Keys ==> GraphOf(catalog)[x] == []
    {
      forall x | x in GraphOf(catalog) && x !in dependencies.Keys ensures GraphOf(catalog)[x] == [] {
        NeedsOf(x);
      }
    }

    // The innermost loop of the edge construction: one edge per provider.
    method LinkEach(id: Id, providers: seq<Registration>)
      requires id in byId && KnowsAll(dependents, byId.Keys)
      modifies this`dependents
      ensures KnowsAll(dependents, byId.Keys)
      ensures Linked(old(dependents), dependents, id, Identifiers(DescriptorsOf(providers)))
    {
      ghost var ids := Identifiers(DescriptorsOf(providers));
      for i := 0 to |providers|
        invariant KnowsAll(dependents, byId.Keys)
        invariant Linked(old(dependents), dependents, id, ids[..i])
      {
        var p := providers[i].descriptor.id;
        LinkOne(dependents, id, p);
        ghost var before := dependents;
        dependents := dependents[p := DependentsOf(dependents, p) + [id]];
        LinkMore(old(dependents), before, dependents, id, ids[..i], [p]);
        assert ids[..i + 1] == ids[..i] + [p];
      }
      assert ids[..|providers|] == ids;
    }

    // The loop over the capabilities that one plugin needs.
    method LinkProviders(id: Id, caps: seq<Capability>) returns (missing: Option<Capability>)
      requires Valid() && id in byId
      modifies this`dependents
      ensures Valid()
      ensures missing.Some? ==> missing.value in caps && Offers(catalog, missing.value) == []
      ensures missing.None? ==> forall c :: c in caps ==> Offers(catalog, c) != []
      ensures missing.None? ==> Linked(old(dependents), dependents, id, SourcesOf(catalog, caps))
    {
      for i := 0 to |caps|
        invariant KnowsAll(dependents, byId.Keys)
        invariant forall c :: c in caps[..i] ==> Offers(catalog, c) != []
        invariant Linked(old(dependents), dependents, id, SourcesOf(catalog, caps[..i]))
      {
        assert caps[..i + 1] == caps[..i] + [caps[i]];
        SourcesMore(catalog, caps, i);
        var providers := RegsFor(caps[i]);
        assert Serves(byId, byCapability, catalog, caps[i]);
        if |providers| == 0 {
          return Some(caps[i]);
        }
        ghost var before := dependents;
        LinkEach(id, providers);
        LinkMore(old(dependents), before, dependents, id, SourcesOf(catalog, caps[..i]), Identifiers(DescriptorsOf(providers)));
      }
      assert caps[..|caps|] == caps;
      return None;
    }

    // The edges into one more plugin.
    method LinkNext(id: Id, ghost start: Dependents, ghost done: set<Id>) returns (missing: Option<Capability>)
      requires Valid() && id in dependencies && id !in done
      requires AllLinked(start, dependents, GraphOf(catalog), done) && Supplied(catalog, dependencies, done)
      modifies this`dependents
      ensures Valid()
      ensures missing.Some? ==> missing.value in dependencies[id] && Offers(catalog, missing.value) == []
      ensures missing.None? ==> Supplied(catalog, dependencies, done + {id})
      ensures missing.None? ==> AllLinked(start, dependents, GraphOf(catalog), done + {id})
    {
      missing := LinkProviders(id, dependencies[id]);
      if missing.None? {
        NeedsOf(id);
        SuppliedOne(catalog, dependencies, done, id);
        LinkPlugin(start, old(dependents), dependents, GraphOf(catalog), done, id);
      }
    }

    // The edges of all plugins, in any order. It stops at the first capability nobody offers.
    method LinkAll() returns (err: Option<BuildError>)
      requires Valid()
      modifies this`dependents
      ensures Valid()
      ensures err.None? ==> Supplied(catalog, dependencies, dependencies.Keys)
      ensures err.Some? ==>
                && err.value.NoProviders? && err.value.id in dependencies
                && err.value.capability in dependencies[err.value.id] && Offers(catalog, err.value.capability) == []
      ensures err.None? ==> CallAdds(GraphOf(catalog), old(dependents), dependents)
    {
      var rest := dependencies.Keys;
      while rest != {}
        invariant rest <= dependencies.Keys && Valid()
        invariant Supplied(catalog, dependencies, dependencies.Keys - rest)
        invariant AllLinked(old(dependents), dependents, GraphOf(catalog), dependencies.Keys - rest)
        decreases rest
      {
        var id :| id in rest;
        OneLess(dependencies.Keys, rest, id);
        var missing := LinkNext(id, old(dependents), dependencies.Keys - rest);
        if missing.Some? {
          return Some(NoProviders(id, missing.value));
        }
        rest := rest - {id};
      }
      assert dependencies.Keys - rest == dependencies.Keys;
      OthersNeedNothing();
      AllLinkedAdds(old(dependents), dependents, GraphOf(catalog), dependencies.Keys);
      return None;
    }

    // The loop over the capabilities that one plugin needs.
    method CountProviders(caps: seq<Capability>) returns (n: nat)
      requires Indexed()
      ensures n == |SourcesOf(catalog, caps)|
    {
      n := 0;
      for i := 0 to |caps|
        invariant n == |SourcesOf(catalog, caps[..i])|
      {
        SourcesMore(catalog, caps, i);
        assert Serves(byId, byCapability, catalog, caps[i]);
        n := n + |RegsFor(caps[i])|;
      }
      assert caps[..|caps|] == caps;
    }

    method ComputeInDegrees() returns (inDegree: map<Id, int>)
      requires Valid()
      ensures inDegree == InDegrees(GraphOf(catalog))
    {
      inDegree := map id | id in byId :: 0;
      ghost var g := GraphOf(catalog);
      GraphKeys();
      var rest := dependencies.Keys;
      DegreesStart(inDegree, g, dependencies.Keys - rest);
      while rest != {}
        invariant rest <= dependencies.Keys && DegreesOf(inDegree, g, dependencies.Keys - rest)
        decreases rest
      {
        var id :| id in rest;
        var n := CountProviders(dependencies[id]);
        NeedsOf(id);
        DegreeOne(inDegree, g, dependencies.Keys - rest, id);
        OneLess(dependencies.Keys, rest, id);
        inDegree := inDegree[id := inDegree[id] + n];
        rest := rest - {id};
      }
      OthersNeedNothing();
      DegreesComplete(inDegree, g, dependencies.Keys - rest);
    }

    // The plugins with in-degree zero, in any order.
    method FindRoots(inDegree: map<Id, int>) returns (queue: seq<Id>)
      requires forall id :: id in inDegree ==> inDegree[id] >= 0
      ensures Starting(inDegree, Kahn(inDegree, queue, []))
    {
      queue := [];
      var rest := inDegree.Keys;
      while rest != {}
        invariant rest <= inDegree.Keys && Distinct(queue)
        invariant forall id :: id in queue <==> id in inDegree && id !in rest && inDegree[id] == 0
        decreases rest
      {
        var id :| id in rest;
        if inDegree[id] == 0 {
          queue := queue + [id];
        }
        rest := rest - {id};
      }
    }

    // Kahn's loop.
    method Sort(inDegree0: map<Id, int>, queue0: seq<Id>) returns (order: seq<Id>)
      requires Valid() && inDegree0.Keys == byId.Keys && Starting(inDegree0, Kahn(inDegree0, queue0, []))
      ensures exists steps: nat :: Completes(dependents, Kahn(inDegree0, queue0, []), steps, order)
    {
      ghost var start := Kahn(inDegree0, queue0, []);
      var inDegree, queue := inDegree0, queue0;
      order := [];
      ghost var steps: nat := 0;
      StartInvariant(dependents, inDegree0, start);
      while |queue| > 0
        invariant Invariant(dependents, inDegree0, Kahn(inDegree, queue, order))
        invariant Run(dependents, start, steps) == Kahn(inDegree, queue, order)
        decreases |byId| - |order|
      {
        StepInvariant(dependents, inDegree0, Kahn(inDegree, queue, order));
        RoomForOne(order, queue[0], byId.Keys);
        var id := queue[0];
        queue := queue[1..];
        order := order + [id];
        inDegree, queue := DeliverTo(DependentsOf(dependents, id), inDegree, queue);
        steps := steps + 1;
      }
      assert Completes(dependents, start, steps, order);
    }

    // The inner loop of Kahn's algorithm.
    method DeliverTo(deps: seq<Id>, inDegree0: map<Id, int>, queue0: seq<Id>) returns (inDegree: map<Id, int>, queue: seq<Id>)
      requires forall x :: x in deps ==> x in inDegree0
      ensures (inDegree, queue) == Deliver(deps, inDegree0, queue0)
    {
      inDegree, queue := inDegree0, queue0;
      for i := 0 to |deps|
        invariant inDegree.Keys == inDegree0.Keys
        invariant Deliver(deps[i..], inDegree, queue) == Deliver(deps, inDegree0, queue0)
      {
        var depId := deps[i];
        assert deps[i..][0] == depId && deps[i..][1..] == deps[i + 1..];
        inDegree := inDegree[depId := inDegree[depId] - 1];
        if inDegree[depId] == 0 {
          queue := queue + [depId];
        }
      }
    }

    // On every call: a missing provider is reported and an error leaves the startup order
    // as it was; without one the call succeeds exactly when no set of plugins is starved, as
    // on an acyclic graph; success starts every plugin once. On a first call success also
    // means that the graph is acyclic and that providers come first.
    method BuildDependencyGraph() returns (err: Option<BuildError>)
      requires Valid()
      modifies this`dependents, this`sortedStartup
      ensures Valid()
      ensures err.Some? && err.value.NoProviders? <==> SomeProviderMissing(catalog)
      ensures err.Some? && err.value.NoProviders? ==>
                && err.value.id in dependencies && err.value.capability in dependencies[err.value.id]
                && Offers(catalog, err.value.capability) == []
      ensures err.Some? ==> sortedStartup == old(sortedStartup)
      ensures err.None? ==> StartsAll(GraphOf(catalog), sortedStartup)
      ensures !SomeProviderMissing(catalog) && Acyclic(GraphOf(catalog)) ==> err.None?
      ensures old(dependents) == map[] && err.None? ==>
                && Acyclic(GraphOf(catalog)) && ProvidersFirst(GraphOf(catalog), sortedStartup)
                && StartsAfterNeeds(catalog, sortedStartup)
      ensures !SomeProviderMissing(catalog) ==> CallAdds(GraphOf(catalog), old(dependents), dependents)
      ensures !SomeProviderMissing(catalog) ==> (err.None? <==> NoneStarved(GraphOf(catalog), dependents))
      ensures err.None? ==> OrderOfARun(GraphOf(catalog), dependents, sortedStartup)
      ensures err.Some? && err.value.NoProviders? <==> NeedsTheUnoffered(catalog)
    {
      MissingExactly(catalog);
      err := LinkAndStart();
      ProvidersFirstExactly(catalog, sortedStartup);
    }

    // Links all plugins and computes the startup order.
    method LinkAndStart() returns (err: Option<BuildError>)
      requires Valid()
      modifies this`dependents, this`sortedStartup
      ensures Valid()
      ensures err.Some? && err.value.NoProviders? <==> SomeProviderMissing(catalog)
      ensures err.Some? && err.value.NoProviders? ==>
                && err.value.id in dependencies && err.value.capability in dependencies[err.value.id]
                && Offers(catalog, err.value.capability) == []
      ensures err.Some? ==> sortedStartup == old(sortedStartup)
      ensures err.None? ==> StartsAll(GraphOf(catalog), sortedStartup)
      ensures !SomeProviderMissing(catalog) && Acyclic(GraphOf(catalog)) ==> err.None?
      ensures old(dependents) == map[] && err.None? ==>
                Acyclic(GraphOf(catalog)) && ProvidersFirst(GraphOf(catalog), sortedStartup)
      ensures !SomeProviderMissing(catalog) ==> CallAdds(GraphOf(catalog), old(dependents), dependents)
      ensures !SomeProviderMissing(catalog) ==> (err.None? <==> NoneStarved(GraphOf(catalog), dependents))
      ensures err.None? ==> OrderOfARun(GraphOf(catalog), dependents, sortedStartup)
    {
      NoneMissing();
      var linkError := LinkAll();
      if linkError.Some? {
        return linkError;
      }
      AddedCovers(GraphOf(catalog), old(dependents), dependents);
      err := ComputeStartup();
    }

    // The second half of the build, over the linked graph.
    method ComputeStartup() returns (err: Option<BuildError>)
      requires Valid() && Covers(GraphOf(catalog), dependents)
      modifies this`sortedStartup
      ensures err.Some? ==> err == Some(DependencyCycle) && sortedStartup == old(sortedStartup)
      ensures err.None? <==> NoneStarved(GraphOf(catalog), dependents)
      ensures err.None? ==> StartsAll(GraphOf(catalog), sortedStartup) && OrderOfARun(GraphOf(catalog), dependents, sortedStartup)
      ensures Acyclic(GraphOf(catalog)) ==> err.None?
      ensures Exact(GraphOf(catalog), dependents) && err.None? ==>
                Acyclic(GraphOf(catalog)) && ProvidersFirst(GraphOf(catalog), sortedStartup)
    {
      var order := ComputeOrder();
      LengthDecides(order);
      if |order| != |byId| {
        return Some(DependencyCycle);
      }
      sortedStartup := order;
      return None;
    }

    // What the length test tells of an order that was computed.
    lemma LengthDecides(order: seq<Id>)
      requires Indexed() && Covers(GraphOf(catalog), dependents) && OrderOfARun(GraphOf(catalog), dependents, order)
      ensures |order| == |byId| <==> NoneStarved(GraphOf(catalog), dependents)
      ensures |order| == |byId| ==> StartsAll(GraphOf(catalog), order)
      ensures Acyclic(GraphOf(catalog)) ==> |order| == |byId|
      ensures Exact(GraphOf(catalog), dependents) && |order| == |byId| ==>
                Acyclic(GraphOf(catalog)) && ProvidersFirst(GraphOf(catalog), order)
    {
      GraphKeys();
      GraphIsClosed(catalog);
      OrderDecides(GraphOf(catalog), dependents, order);
    }

    // In-degrees, roots and Kahn's loop over the linked graph.
    method ComputeOrder() returns (order: seq<Id>)
      requires Valid()
      ensures OrderOfARun(GraphOf(catalog), dependents, order)
    {
      GraphKeys();
      var inDegree := ComputeInDegrees();
      var queue := FindRoots(inDegree);
      order := Sort(inDegree, queue);
      ghost var start := Kahn(inDegree, queue, []);
      ghost var steps: nat :| Completes(dependents, start, steps, order);
      assert RunsTo(GraphOf(catalog), dependents, start, steps, order);
    }

    // What the last successful build stored, nothing before the first one: registered IDs,
    // each once.
    method StartupOrder() returns (out: seq<Id>)
      requires Valid()
      ensures out == sortedStartup
      ensures Distinct(out) && forall id :: id in out ==> id in IdsOf(catalog)
    {
      out := sortedStartup;
      assert forall id :: id in out ==> id in Elements(sortedStartup);
    }
  }

  method RegisterAll(g: Graph, ids: seq<Id>) returns (r: Registry)
    requires Closed(g) && StartsAll(g, ids)
    ensures fresh(r) && r.Valid() && r.dependents == map[]
    ensures GraphOf(r.catalog) == g && !SomeProviderMissing(r.catalog)
  {
    assert forall x :: x in ids ==> x in Elements(ids);
    r := new Registry();
    for i := 0 to |ids|
      invariant fresh(r) && r.Valid() && r.dependents == map[]
      invariant r.catalog == CatalogOf(g, ids[..i])
    {
      OneMorePlugin(g, ids, i);
      var err := r.Register(Plugin(ids[i], g[ids[i]]));
    }
    assert ids[..|ids|] == ids;
    CatalogHasGraph(g, ids);
  }

  // For any plugins and any number of calls: the n-th call succeeds if and only if no set of
  // plugins is starved after n calls.
  method BuildRepeatedly(g: Graph, ids: seq<Id>, n: nat)
    returns (err: Option<BuildError>, order: seq<Id>, ghost dependents: Dependents)
    requires Closed(g) && StartsAll(g, ids) && n >= 1
    ensures err.None? <==> forall rest :: StarvedAfter(g, n, rest) ==> rest == {}
    ensures err.Some? ==> err.value == DependencyCycle
    ensures Copies(g, dependents, n)
    ensures err.None? ==> StartsAll(g, order) && OrderOfARun(g, dependents, order)
  {
    var r := RegisterAll(g, ids);
    NoCopiesYet(g);
    err := None;
    for k := 0 to n
      invariant fresh(r) && r.Valid()
      invariant GraphOf(r.catalog) == g && !SomeProviderMissing(r.catalog) && Copies(g, r.dependents, k)
      invariant k > 0 ==> (err.None? <==> NoneStarved(g, r.dependents))
      invariant k > 0 && err.Some? ==> err.value == DependencyCycle
      invariant k > 0 && err.None? ==> StartsAll(g, r.sortedStartup) && OrderOfARun(g, r.dependents, r.sortedStartup)
    {
      ghost var before := r.dependents;
      err := r.BuildDependencyGraph();
      CallsAddUp(g, before, r.dependents, k);
    }
    order := r.StartupOrder();
    dependents := r.dependents;
    forall rest ensures Starved(g, dependents, rest) <==> StarvedAfter(g, n, rest) {
      StarvedByCalls(g, dependents, n, rest);
    }
  }

  lemma CyclicStarves(a: Id, b: Id, c: Id, dependents: Dependents, n: nat)
    requires Distinct([a, b, c]) && n >= 1 && Copies(Cyclic(a, b, c), dependents, n)
    ensures NoneStarved(Cyclic(a, b, c), dependents) <==> n >= 2
  {
    if n >= 2 {
      RepeatedCallAcceptsACycle(a, b, c, dependents, n);
    } else {
      CyclicStarvesAtFirst(a, b, c, dependents, n);
    }
  }

  lemma CyclicStarvesAtFirst(a: Id, b: Id, c: Id, dependents: Dependents, n: nat)
    requires Distinct([a, b, c]) && n == 1 && Copies(Cyclic(a, b, c), dependents, n)
    ensures !NoneStarved(Cyclic(a, b, c), dependents)
  {
    CyclicIsClosed(a, b, c);
    OnceIsExact(Cyclic(a, b, c), dependents, n);
    FirstCallStarves(Cyclic(a, b, c), dependents);
  }

  lemma OnceIsExact(g: Graph, dependents: Dependents, n: nat)
    requires n == 1 && Copies(g, dependents, n)
    ensures Exact(g, dependents)
  {
    forall x, p | x in g ensures Edges(dependents, p, x) == multiset(g[x])[p] {
      assert Edges(dependents, p, x) == n * multiset(g[x])[p];
    }
  }

  // From the second call on the cycle of these three plugins goes unnoticed.
  method CycleGoesUnnoticed(a: Id, b: Id, c: Id, n: nat) returns (err: Option<BuildError>)
    requires Distinct([a, b, c]) && n >= 1
    ensures !Acyclic(Cyclic(a, b, c))
    ensures err.None? <==> n >= 2
  {
    var order;
    ghost var dependents;
    CyclicIsClosed(a, b, c);
    err, order, dependents := BuildRepeatedly(Cyclic(a, b, c), [a, b, c], n);
    CyclicStarves(a, b, c, dependents, n);
    NoneStarvedByCalls(Cyclic(a, b, c), dependents, n);
  }

  // From the second call on d is started before its provider b, in whatever order maps are
  // visited.
  method DiamondIsMisordered(a: Id, b: Id, c: Id, d: Id, n: nat) returns (err: Option<BuildError>, order: seq<Id>)
    requires Different(a, b, c, d) && n >= 2
    ensures Acyclic(Diamond(a, b, c, d)) && err.None?
    ensures StartsAll(Diamond(a, b, c, d), order) && !ProvidersFirst(Diamond(a, b, c, d), order)
  {
    var g := Diamond(a, b, c, d);
    ghost var dependents;
    DiamondIsAcyclic(a, b, c, d);
    assert Elements([a, b, c, d]) == {a, b, c, d} == g.Keys;
    err, order, dependents := BuildRepeatedly(g, [a, b, c, d], n);
    AcyclicCompletes(g, dependents, n);
    NoneStarvedByCalls(g, dependents, n);
    MisorderedRun(a, b, c, d, dependents, n, order);
  }

  // A distinct sequence of members that misses one is shorter than the set.
  lemma RoomForOne(order: seq<Id>, id: Id, ids: set<Id>)
    requires Distinct(order) && id !in order && id in ids && forall x :: x in order ==> x in ids
    ensures |order| < |ids|
  {
    assert Distinct(order + [id]);
    DistinctSize(order + [id]);
    SubsetSize(Elements(order + [id]), ids);
  }
}
