// Exactly when the rule by which Kahn's algorithm releases plugins keeps providers before
// their dependents, whatever edges earlier calls have left behind.
module ReleaseOrder {
  import opened DependencyGraph

  // x cannot be ordered before p: nothing in `rest`, to which x belongs, is released by all
  // notifications from outside, except perhaps p. A plugin does not come before itself.
  ghost predicate Guards(g: Graph, dependents: Dependents, p: Id, x: Id, rest: set<Id>) {
    && x in rest && rest <= g.Keys
    && forall y :: y in rest && (y == p ==> y == x) ==> Deliveries(dependents, g.Keys - rest, y) < |g[y]|
  }

  ghost predicate Guarded(g: Graph, dependents: Dependents) {
    forall x, p :: x in g && p in g[x] ==> exists rest :: Guards(g, dependents, p, x, rest)
  }

  // ---- A guarded plugin comes after its provider ----------------------------------------------

  lemma {:induction false} FirstIn(order: seq<Id>, rest: set<Id>, i: nat) returns (first: nat)
    requires i < |order| && order[i] in rest
    ensures first <= i && order[first] in rest && forall j :: 0 <= j < first ==> order[j] !in rest
    decreases i
  {
    if j: nat :| j < i && order[j] in rest {
      first := FirstIn(order, rest, j);
    } else {
      first := i;
    }
  }

  // The first plugin of a set to be released is not starved in it.
  lemma FirstIsFed(g: Graph, dependents: Dependents, order: seq<Id>, rest: set<Id>, i: nat)
    requires Distinct(order) && Released(g, dependents, order) && rest <= g.Keys
    requires i < |order| && forall j :: 0 <= j < i ==> order[j] !in rest
    ensures order[i] in g && Deliveries(dependents, g.Keys - rest, order[i]) >= |g[order[i]]|
  {
    assert ReleasedAt(g, dependents, order, i);
    ReceivedIsDeliveries(dependents, order[..i], order[i]);
    forall y | y in Elements(order[..i]) ensures y in g.Keys - rest {
      var j :| 0 <= j < i && order[j] == y;
      assert ReleasedAt(g, dependents, order, j);
    }
    DeliveriesGrow(dependents, Elements(order[..i]), g.Keys - rest, order[i]);
  }

  lemma GuardedComesAfter(g: Graph, dependents: Dependents, order: seq<Id>, p: Id, rest: set<Id>, i: nat)
    requires Distinct(order) && Released(g, dependents, order) && i < |order| && Guards(g, dependents, p, order[i], rest)
    ensures p in order[..i]
  {
    var first := FirstIn(order, rest, i);
    FirstIsFed(g, dependents, order, rest, first);
    assert order[first] == p;
  }

  lemma GuardedIsProvidersFirst(g: Graph, dependents: Dependents, order: seq<Id>)
    requires Guarded(g, dependents) && Distinct(order) && Released(g, dependents, order)
    ensures ProvidersFirst(g, order)
  {
    forall i, p | 0 <= i < |order| && order[i] in g && p in g[order[i]] ensures p in order[..i] {
      var rest :| Guards(g, dependents, p, order[i], rest);
      GuardedComesAfter(g, dependents, order, p, rest, i);
    }
  }

  // ---- Without a guard, some order of release puts the plugin first -----------------------------

  // Nothing outside `order` and `withheld` is released.
  ghost predicate Exhausted(g: Graph, dependents: Dependents, order: seq<Id>, withheld: set<Id>) {
    forall y :: y in g && y !in order && y !in withheld ==> Received(dependents, order, y) < |g[y]|
  }

  // Go on releasing plugins, but none of those withheld.
  lemma Exhaust(g: Graph, dependents: Dependents, order: seq<Id>, withheld: set<Id>) returns (more: seq<Id>)
    requires Distinct(order) && Released(g, dependents, order)
    ensures order <= more && Distinct(more) && Released(g, dependents, more) && Exhausted(g, dependents, more, withheld)
    ensures forall y :: y in withheld && y !in order ==> y !in more
  {
    more := order;
    while !Exhausted(g, dependents, more, withheld)
      invariant order <= more && Distinct(more) && Released(g, dependents, more)
      invariant forall y :: y in withheld && y !in order ==> y !in more
      decreases g.Keys - Elements(more)
    {
      var y :| y in g && y !in more && y !in withheld && Received(dependents, more, y) >= |g[y]|;
      ReleaseNext(g, dependents, more, y);
      assert Elements(more + [y]) == Elements(more) + {y} && y in g.Keys - Elements(more);
      more := more + [y];
    }
  }

  lemma ExhaustedIsUnfed(g: Graph, dependents: Dependents, order: seq<Id>, withheld: set<Id>, y: Id)
    requires Distinct(order) && Elements(order) <= g.Keys && Exhausted(g, dependents, order, withheld)
    requires y in g.Keys - Elements(order) && y !in withheld
    ensures Deliveries(dependents, g.Keys - (g.Keys - Elements(order)), y) < |g[y]|
  {
    ReceivedIsDeliveries(dependents, order, y);
    assert g.Keys - (g.Keys - Elements(order)) == Elements(order);
  }

  lemma ReleasedAreKnown(g: Graph, dependents: Dependents, order: seq<Id>)
    requires Released(g, dependents, order)
    ensures Elements(order) <= g.Keys
  {
    forall y | y in Elements(order) ensures y in g {
      var i :| 0 <= i < |order| && order[i] == y;
      assert ReleasedAt(g, dependents, order, i);
    }
  }

  lemma UnguardedComesFirst(g: Graph, dependents: Dependents, p: Id, x: Id) returns (order: seq<Id>)
    requires x in g && !exists rest :: Guards(g, dependents, p, x, rest)
    ensures Distinct(order) && Released(g, dependents, order) && x in order && (p in order ==> p == x)
  {
    var withheld := if p == x then {} else {p};
    order := Exhaust(g, dependents, [], withheld);
    ReleasedAreKnown(g, dependents, order);
    var rest := g.Keys - Elements(order);
    if x !in order {
      forall y | y in rest && (y == p ==> y == x) ensures Deliveries(dependents, g.Keys - rest, y) < |g[y]| {
        ExhaustedIsUnfed(g, dependents, order, withheld, y);
      }
      assert Guards(g, dependents, p, x, rest);
    }
  }

  // When nothing is starved, releasing plugins goes on until all are ordered.
  lemma Complete(g: Graph, dependents: Dependents, order: seq<Id>) returns (all: seq<Id>)
    requires NoneStarved(g, dependents) && Distinct(order) && Released(g, dependents, order)
    ensures order <= all && StartsAll(g, all) && Released(g, dependents, all)
  {
    all := Exhaust(g, dependents, order, {});
    ReleasedAreKnown(g, dependents, all);
    var rest := g.Keys - Elements(all);
    forall y | y in rest ensures Deliveries(dependents, g.Keys - rest, y) < |g[y]| {
      ExhaustedIsUnfed(g, dependents, all, {}, y);
    }
    assert Starved(g, dependents, rest);
  }

  lemma MisplacedInPrefix(g: Graph, order: seq<Id>, all: seq<Id>, p: Id, x: Id)
    requires order <= all && Distinct(all) && x in order && (p in order ==> p == x) && x in g && p in g[x]
    ensures !ProvidersFirst(g, all)
  {
    var i :| 0 <= i < |order| && order[i] == x;
    assert all[i] == x && all[..i] == order[..i];
  }

  // Every way of releasing all plugins.
  ghost predicate EveryReleaseKeepsOrder(g: Graph, dependents: Dependents) {
    forall order :: StartsAll(g, order) && Released(g, dependents, order) ==> ProvidersFirst(g, order)
  }

  // On any call that succeeds: every order in which the counters let plugins be released puts
  // providers first if and only if each plugin is guarded by each of its providers.
  lemma GuardedExactly(g: Graph, dependents: Dependents)
    requires NoneStarved(g, dependents)
    ensures EveryReleaseKeepsOrder(g, dependents) <==> Guarded(g, dependents)
  {
    if Guarded(g, dependents) {
      forall order | StartsAll(g, order) && Released(g, dependents, order) ensures ProvidersFirst(g, order) {
        GuardedIsProvidersFirst(g, dependents, order);
      }
    } else {
      var x, p :| x in g && p in g[x] && !exists rest :: Guards(g, dependents, p, x, rest);
      var order := UnguardedComesFirst(g, dependents, p, x);
      var all := Complete(g, dependents, order);
      MisplacedInPrefix(g, order, all, p, x);
    }
  }

  // The queue's discipline is one way of releasing plugins: a run on guarded plugins orders
  // them providers first, on a first call and on any other.
  lemma GuardedRun(g: Graph, dependents: Dependents, order: seq<Id>)
    requires Guarded(g, dependents) && OrderOfARun(g, dependents, order)
    ensures ProvidersFirst(g, order)
  {
    RunIsReleased(g, dependents, order);
    GuardedIsProvidersFirst(g, dependents, order);
  }

  // On a first call, a plugin and its provider guard each other in an acyclic graph.
  lemma FirstCallIsGuarded(g: Graph, dependents: Dependents)
    requires Closed(g) && Exact(g, dependents) && Acyclic(g)
    ensures Guarded(g, dependents)
  {
    FirstCallStarves(g, dependents);
    forall order | StartsAll(g, order) && Released(g, dependents, order) ensures ProvidersFirst(g, order) {
      ReleasedIsProvidersFirst(g, dependents, order);
    }
    GuardedExactly(g, dependents);
  }
}
