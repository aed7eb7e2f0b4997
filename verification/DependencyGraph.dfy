// Kahn's algorithm as pkg/pluginregistry/registry.go runs it, on values: an in-degree per
// plugin, a queue and the order so far, over a multigraph given by the providers of each plugin.
module DependencyGraph {

  type Id = string

  // For every plugin the providers it depends on, one entry per (needed capability,
  // provider of it) pair, so that a provider can occur several times.
  type Graph = map<Id, seq<Id>>

  function Elements<T>(s: seq<T>): set<T> {
    set x | x in s
  }

  predicate Distinct<T(==)>(s: seq<T>) {
    forall i, j :: 0 <= i < j < |s| ==> s[i] != s[j]
  }

  predicate Closed(g: Graph) {
    forall x, p :: x in g && p in g[x] ==> p in g
  }

  // Every step of the path goes from a provider to one of its dependents.
  predicate IsPath(g: Graph, path: seq<Id>) {
    && (forall i :: 0 <= i < |path| ==> path[i] in g)
    && (forall i, j :: 0 <= i < |path| && 0 <= j < |path| && j == i + 1 ==> path[i] in g[path[j]])
  }

  ghost predicate Acyclic(g: Graph) {
    !exists path :: |path| >= 2 && IsPath(g, path) && path[0] == path[|path| - 1]
  }

  // Every provider comes strictly before each of its dependents.
  ghost predicate ProvidersFirst(g: Graph, order: seq<Id>) {
    forall i, p :: 0 <= i < |order| && order[i] in g && p in g[order[i]] ==> p in order[..i]
  }

  ghost predicate StartsAll(g: Graph, order: seq<Id>) {
    Distinct(order) && Elements(order) == g.Keys
  }

  // How many entries of `sources` are not in `done`.
  function Outside(sources: seq<Id>, done: set<Id>): nat {
    if sources == [] then 0
    else Outside(sources[1..], done) + (if sources[0] in done then 0 else 1)
  }

  // ------------------------------------------------------------------------------------
  // The algorithm
  // ------------------------------------------------------------------------------------

  // For every provider the plugins to notify, with repetitions.
  type Dependents = map<Id, seq<Id>>

  function DependentsOf(dependents: Dependents, p: Id): seq<Id> {
    if p in dependents then dependents[p] else []
  }

  function Edges(dependents: Dependents, p: Id, x: Id): nat {
    multiset(DependentsOf(dependents, p))[x]
  }

  datatype Kahn = Kahn(inDegree: map<Id, int>, queue: seq<Id>, order: seq<Id>)

  // Count down the in-degree of each listed plugin and queue it when it reaches zero.
  function Deliver(deps: seq<Id>, inDegree: map<Id, int>, queue: seq<Id>): (map<Id, int>, seq<Id>)
    requires forall x :: x in deps ==> x in inDegree
  {
    if deps == [] then (inDegree, queue)
    else
      var x := deps[0];
      var degree := inDegree[x] - 1;
      Deliver(deps[1..], inDegree[x := degree], if degree == 0 then queue + [x] else queue)
  }

  predicate KnowsAll(dependents: Dependents, ids: set<Id>) {
    forall p, x :: p in dependents && x in dependents[p] ==> x in ids
  }

  function Step(dependents: Dependents, s: Kahn): Kahn
    requires s.queue != [] && KnowsAll(dependents, s.inDegree.Keys)
  {
    var id := s.queue[0];
    var (inDegree, queue) := Deliver(DependentsOf(dependents, id), s.inDegree, s.queue[1..]);
    Kahn(inDegree, queue, s.order + [id])
  }

  // One step, if there is anything to do.
  function Next(dependents: Dependents, s: Kahn): (r: Kahn)
    requires KnowsAll(dependents, s.inDegree.Keys)
    ensures r.inDegree.Keys == s.inDegree.Keys
  {
    if s.queue == [] then s
    else
      DeliverCounts(DependentsOf(dependents, s.queue[0]), s.inDegree, s.queue[1..]);
      Step(dependents, s)
  }

  // The state after n steps (fewer if the queue runs empty).
  function Run(dependents: Dependents, s: Kahn, n: nat): (r: Kahn)
    requires KnowsAll(dependents, s.inDegree.Keys)
    ensures r.inDegree.Keys == s.inDegree.Keys
  {
    if n == 0 then s else Next(dependents, Run(dependents, s, n - 1))
  }

  // The queue runs empty within n steps and leaves this order.
  predicate Completes(dependents: Dependents, start: Kahn, n: nat, order: seq<Id>)
    requires KnowsAll(dependents, start.inDegree.Keys)
  {
    Run(dependents, start, n).queue == [] && Run(dependents, start, n).order == order
  }

  // ------------------------------------------------------------------------------------
  // What one delivery does
  // ------------------------------------------------------------------------------------

  lemma {:induction false} DeliverCounts(deps: seq<Id>, inDegree: map<Id, int>, queue: seq<Id>)
    requires forall x :: x in deps ==> x in inDegree
    ensures var r := Deliver(deps, inDegree, queue).0;
            r.Keys == inDegree.Keys && forall x :: x in inDegree ==> r[x] == inDegree[x] - multiset(deps)[x]
  {
    if deps != [] {
      var degree := inDegree[deps[0]] - 1;
      assert deps == [deps[0]] + deps[1..];
      DeliverCounts(deps[1..], inDegree[deps[0] := degree], if degree == 0 then queue + [deps[0]] else queue);
    }
  }

  // The queue gains exactly the plugins whose count went from positive to zero or below.
  ghost predicate Queued(before: map<Id, int>, after: map<Id, int>, queue: seq<Id>, queue': seq<Id>) {
    && after.Keys == before.Keys
    && (forall x :: x in before ==> after[x] <= before[x])
    && Distinct(queue')
    && (forall x :: x in queue' <==> x in queue || (x in before && before[x] > 0 >= after[x]))
  }

  // Counting x down by one and then going on from there.
  lemma QueueOne(x: Id, before: map<Id, int>, after: map<Id, int>, queue: seq<Id>, queue': seq<Id>)
    requires x in before
    requires var degree := before[x] - 1;
             Queued(before[x := degree], after, if degree == 0 then queue + [x] else queue, queue')
    ensures Queued(before, after, queue, queue')
  {
    assert forall y :: y in queue + [x] <==> y in queue || y == x;
  }

  lemma {:induction false} DeliverQueues(deps: seq<Id>, inDegree: map<Id, int>, queue: seq<Id>)
    requires forall x :: x in deps ==> x in inDegree
    requires Distinct(queue) && forall x :: x in queue ==> x in inDegree && inDegree[x] <= 0
    ensures var r := Deliver(deps, inDegree, queue);
            Queued(inDegree, r.0, queue, r.1)
  {
    if deps != [] {
      var x := deps[0];
      var degree := inDegree[x] - 1;
      var r := Deliver(deps, inDegree, queue);
      DeliverQueues(deps[1..], inDegree[x := degree], if degree == 0 then queue + [x] else queue);
      QueueOne(x, inDegree, r.0, queue, r.1);
    }
  }

  // ------------------------------------------------------------------------------------
  // The loop invariant
  // ------------------------------------------------------------------------------------

  // Deliveries to x from the providers in `order`.
  function Received(dependents: Dependents, order: seq<Id>, x: Id): nat {
    if order == [] then 0
    else Received(dependents, order[..|order| - 1], x) + Edges(dependents, order[|order| - 1], x)
  }

  // Holds on every call: queued or ordered plugins are exactly those counted down to zero or
  // below, none is queued twice, and the in-degree is what is left of the initial one.
  ghost predicate Invariant(dependents: Dependents, initial: map<Id, int>, s: Kahn) {
    && s.inDegree.Keys == initial.Keys
    && Distinct(s.order) && Distinct(s.queue)
    && (forall x :: x in s.order ==> x !in s.queue)
    && (forall x :: x in s.order || x in s.queue <==> x in initial && s.inDegree[x] <= 0)
    && (forall x :: x in initial ==> s.inDegree[x] == initial[x] - Received(dependents, s.order, x))
  }

  // The queue holds, in some order, the plugins with nothing to wait for.
  ghost predicate Starting(initial: map<Id, int>, s: Kahn) {
    && s.inDegree == initial && s.order == []
    && Distinct(s.queue)
    && (forall x :: x in s.queue <==> x in initial && initial[x] == 0)
    && (forall x :: x in initial ==> initial[x] >= 0)
  }

  lemma StartInvariant(dependents: Dependents, initial: map<Id, int>, s: Kahn)
    requires Starting(initial, s)
    ensures Invariant(dependents, initial, s)
  {
  }

  lemma StepInvariant(dependents: Dependents, initial: map<Id, int>, s: Kahn)
    requires KnowsAll(dependents, initial.Keys) && Invariant(dependents, initial, s) && s.queue != []
    ensures Invariant(dependents, initial, Step(dependents, s))
  {
    var id, rest := s.queue[0], s.queue[1..];
    var t := Step(dependents, s);
    HeadAndRest(s.queue);
    DeliverCounts(DependentsOf(dependents, id), s.inDegree, rest);
    DeliverQueues(DependentsOf(dependents, id), s.inDegree, rest);
    StepMembers(s.order, id, rest, s.inDegree, t.inDegree, t.queue);
    assert t.order[..|s.order|] == s.order;
  }

  lemma HeadAndRest(queue: seq<Id>)
    requires queue != [] && Distinct(queue)
    ensures queue[0] !in queue[1..] && Distinct(queue[1..])
    ensures forall x :: x in queue <==> x == queue[0] || x in queue[1..]
  {
    assert forall i :: 0 <= i < |queue[1..]| ==> queue[1..][i] == queue[i + 1];
    assert queue == [queue[0]] + queue[1..];
  }

  // The processed plugin moves to the order; those counted down to zero join the queue.
  lemma StepMembers(order: seq<Id>, id: Id, rest: seq<Id>, before: map<Id, int>, after: map<Id, int>, queue: seq<Id>)
    requires Queued(before, after, rest, queue)
    requires Distinct(order) && id !in order && id !in rest && forall x :: x in order ==> x !in rest
    requires forall x :: x in order || x == id || x in rest <==> x in before && before[x] <= 0
    ensures Distinct(order + [id])
    ensures forall x :: x in order + [id] ==> x !in queue
    ensures forall x :: x in order + [id] || x in queue <==> x in before && after[x] <= 0
  {
    assert forall x :: x in order + [id] <==> x in order || x == id;
  }

  lemma {:induction false} RunInvariant(dependents: Dependents, initial: map<Id, int>, s: Kahn, n: nat)
    requires KnowsAll(dependents, initial.Keys) && Starting(initial, s)
    ensures Invariant(dependents, initial, Run(dependents, s, n))
  {
    StartInvariant(dependents, initial, s);
    if n > 0 {
      RunInvariant(dependents, initial, s, n - 1);
      var before := Run(dependents, s, n - 1);
      if before.queue != [] {
        StepInvariant(dependents, initial, before);
      }
    }
  }

  // ------------------------------------------------------------------------------------
  // Edges and in-degrees
  // ------------------------------------------------------------------------------------

  // The notification lists hold exactly the edges of the graph.
  ghost predicate Exact(g: Graph, dependents: Dependents) {
    forall x, p :: x in g ==> Edges(dependents, p, x) == multiset(g[x])[p]
  }

  // ... or at least them, as after a repeated call.
  ghost predicate Covers(g: Graph, dependents: Dependents) {
    forall x, p :: x in g ==> Edges(dependents, p, x) >= multiset(g[x])[p]
  }

  function InDegrees(g: Graph): map<Id, int> {
    map x | x in g :: |g[x]|
  }

  lemma {:induction false} OutsideAdd(sources: seq<Id>, done: set<Id>, p: Id)
    requires p !in done
    ensures Outside(sources, done) == Outside(sources, done + {p}) + multiset(sources)[p]
  {
    if sources != [] {
      assert sources == [sources[0]] + sources[1..];
      OutsideAdd(sources[1..], done, p);
    }
  }

  lemma {:induction false} OutsideNone(sources: seq<Id>)
    ensures Outside(sources, {}) == |sources|
  {
    if sources != [] { OutsideNone(sources[1..]); }
  }

  lemma {:induction false} OutsideMember(sources: seq<Id>, done: set<Id>)
    ensures Outside(sources, done) == 0 <==> forall p :: p in sources ==> p in done
  {
    if sources != [] {
      OutsideMember(sources[1..], done);
      assert forall p :: p in sources <==> p == sources[0] || p in sources[1..];
    }
  }

  lemma LastElement<T>(s: seq<T>)
    requires s != [] && Distinct(s)
    ensures var n := |s| - 1;
            Distinct(s[..n]) && s[n] !in Elements(s[..n]) && Elements(s) == Elements(s[..n]) + {s[n]}
  {
    assert s == s[..|s| - 1] + [s[|s| - 1]];
  }

  // What x has received is the number of its edges from the ordered providers.
  lemma {:induction false} ReceivedIsCounted(g: Graph, dependents: Dependents, order: seq<Id>, x: Id)
    requires x in g && Distinct(order) && Covers(g, dependents)
    ensures |g[x]| - Received(dependents, order, x) <= Outside(g[x], Elements(order))
    ensures Exact(g, dependents) ==> |g[x]| - Received(dependents, order, x) == Outside(g[x], Elements(order))
  {
    if order == [] {
      OutsideNone(g[x]);
      assert Elements(order) == {};
    } else {
      var n := |order| - 1;
      var p := order[n];
      ReceivedIsCounted(g, dependents, order[..n], x);
      LastElement(order);
      OutsideAdd(g[x], Elements(order[..n]), p);
    }
  }

  // On a first call the in-degree is always the number of edges not yet delivered.
  lemma InDegreeIsUndelivered(g: Graph, dependents: Dependents, s: Kahn, x: Id)
    requires x in g && Covers(g, dependents) && Invariant(dependents, InDegrees(g), s)
    ensures s.inDegree[x] <= Outside(g[x], Elements(s.order))
    ensures Exact(g, dependents) ==> s.inDegree[x] == Outside(g[x], Elements(s.order))
  {
    ReceivedIsCounted(g, dependents, s.order, x);
  }

  // ------------------------------------------------------------------------------------
  // The order respects the graph on a first call
  // ------------------------------------------------------------------------------------

  // Every ID was ordered once the IDs before it had sent it as many notifications as it
  // has edges.
  ghost predicate Released(g: Graph, dependents: Dependents, order: seq<Id>) {
    forall i :: 0 <= i < |order| ==> ReleasedAt(g, dependents, order, i)
  }

  ghost predicate ReleasedAt(g: Graph, dependents: Dependents, order: seq<Id>, i: nat)
    requires i < |order|
  {
    order[i] in g && Received(dependents, order[..i], order[i]) >= |g[order[i]]|
  }

  lemma ReleaseNext(g: Graph, dependents: Dependents, order: seq<Id>, id: Id)
    requires Released(g, dependents, order) && id in g && Received(dependents, order, id) >= |g[id]|
    ensures Released(g, dependents, order + [id])
  {
    var after := order + [id];
    forall i | 0 <= i < |after| ensures ReleasedAt(g, dependents, after, i) {
      if i < |order| {
        assert ReleasedAt(g, dependents, order, i) && after[..i] == order[..i];
      } else {
        assert after[..i] == order;
      }
    }
  }

  lemma NextReleases(g: Graph, dependents: Dependents, s: Kahn)
    requires KnowsAll(dependents, g.Keys) && Invariant(dependents, InDegrees(g), s) && Released(g, dependents, s.order)
    ensures Invariant(dependents, InDegrees(g), Next(dependents, s)) && Released(g, dependents, Next(dependents, s).order)
  {
    if s.queue != [] {
      StepInvariant(dependents, InDegrees(g), s);
      assert s.queue[0] in s.queue;
      ReleaseNext(g, dependents, s.order, s.queue[0]);
    }
  }

  // On any call, whatever edges the notification lists hold.
  lemma {:induction false} RunReleases(g: Graph, dependents: Dependents, s: Kahn, n: nat)
    requires KnowsAll(dependents, g.Keys) && Starting(InDegrees(g), s)
    ensures Invariant(dependents, InDegrees(g), Run(dependents, s, n)) && Released(g, dependents, Run(dependents, s, n).order)
  {
    if n == 0 {
      StartInvariant(dependents, InDegrees(g), s);
    } else {
      RunReleases(g, dependents, s, n - 1);
      NextReleases(g, dependents, Run(dependents, s, n - 1));
    }
  }

  // With every edge listed once, being released means that all providers came before.
  lemma ReleasedIsProvidersFirst(g: Graph, dependents: Dependents, order: seq<Id>)
    requires Exact(g, dependents) && Distinct(order) && forall x :: x in order ==> x in g
    ensures Released(g, dependents, order) <==> ProvidersFirst(g, order)
  {
    forall i | 0 <= i < |order|
      ensures ReleasedAt(g, dependents, order, i) <==> forall p :: p in g[order[i]] ==> p in order[..i]
    {
      var x := order[i];
      ReceivedIsCounted(g, dependents, order[..i], x);
      OutsideMember(g[x], Elements(order[..i]));
    }
  }

  lemma RunPutsProvidersFirst(g: Graph, dependents: Dependents, s: Kahn, n: nat)
    requires KnowsAll(dependents, g.Keys) && Exact(g, dependents) && Starting(InDegrees(g), s)
    ensures ProvidersFirst(g, Run(dependents, s, n).order)
  {
    RunInvariant(dependents, InDegrees(g), s, n);
    RunReleases(g, dependents, s, n);
    ReleasedIsProvidersFirst(g, dependents, Run(dependents, s, n).order);
  }

  lemma {:induction false} PathGoesForward(g: Graph, order: seq<Id>, path: seq<Id>, i: nat, j: nat)
    requires StartsAll(g, order) && ProvidersFirst(g, order)
    requires IsPath(g, path) && |path| >= 2 && i < |order| && j < |order|
    requires order[i] == path[0] && order[j] == path[|path| - 1]
    ensures i < j
    decreases |path|
  {
    var before := path[|path| - 2];
    assert before in g[order[j]];
    var k :| 0 <= k < j && order[k] == before;
    if |path| > 2 {
      assert path[..|path| - 1][|path| - 2] == before;
      PathGoesForward(g, order, path[..|path| - 1], i, k);
    }
  }

  lemma OrderedIsAcyclic(g: Graph, order: seq<Id>)
    requires StartsAll(g, order) && ProvidersFirst(g, order)
    ensures Acyclic(g)
  {
    forall path | |path| >= 2 && IsPath(g, path) ensures path[0] != path[|path| - 1] {
      assert path[0] in Elements(order) && path[|path| - 1] in Elements(order);
      var i :| 0 <= i < |order| && order[i] == path[0];
      var j :| 0 <= j < |order| && order[j] == path[|path| - 1];
      PathGoesForward(g, order, path, i, j);
    }
  }

  // ------------------------------------------------------------------------------------
  // A run that gets stuck has found a cycle
  // ------------------------------------------------------------------------------------

  ghost predicate WaitsFor(g: Graph, rest: set<Id>, x: Id) {
    x in g && exists p :: p in rest && p in g[x]
  }

  // Every plugin of `rest` depends on a plugin of `rest`.
  ghost predicate Stuck(g: Graph, rest: set<Id>) {
    && rest <= g.Keys
    && forall x {:trigger WaitsFor(g, rest, x)} :: x in rest ==> WaitsFor(g, rest, x)
  }

  lemma ExtendPath(g: Graph, p: Id, path: seq<Id>)
    requires IsPath(g, path) && path != [] && p in g && p in g[path[0]]
    ensures IsPath(g, [p] + path)
  {
    var longer := [p] + path;
    assert forall i :: 0 < i < |longer| ==> longer[i] == path[i - 1];
  }

  lemma {:induction false} LongPath(g: Graph, rest: set<Id>, n: nat) returns (path: seq<Id>)
    requires Stuck(g, rest) && rest != {} && n > 0
    ensures |path| == n && IsPath(g, path) && forall i :: 0 <= i < n ==> path[i] in rest
  {
    if n == 1 {
      var x :| x in rest;
      path := [x];
    } else {
      var shorter := LongPath(g, rest, n - 1);
      assert WaitsFor(g, rest, shorter[0]);
      var p :| p in rest && p in g[shorter[0]];
      ExtendPath(g, p, shorter);
      path := [p] + shorter;
    }
  }

  lemma {:induction false} Repetition(s: seq<Id>, rest: set<Id>) returns (i: nat, j: nat)
    requires |s| > |rest| && forall k :: 0 <= k < |s| ==> s[k] in rest
    ensures i < j < |s| && s[i] == s[j]
  {
    var n := |s| - 1;
    if s[n] in s[..n] {
      i :| 0 <= i < n && s[i] == s[n];
      j := n;
    } else {
      i, j := Repetition(s[..n], rest - {s[n]});
    }
  }

  lemma CutPath(g: Graph, path: seq<Id>, i: nat, j: nat)
    requires IsPath(g, path) && i <= j <= |path|
    ensures IsPath(g, path[i..j])
  {
    var cut := path[i..j];
    assert forall k :: 0 <= k < |cut| ==> cut[k] == path[i + k];
  }

  lemma StuckIsCyclic(g: Graph, rest: set<Id>)
    requires Stuck(g, rest) && rest != {}
    ensures !Acyclic(g)
  {
    var path := LongPath(g, rest, |rest| + 1);
    var i, j := Repetition(path, rest);
    CutPath(g, path, i, j + 1);
    ClosedPath(g, path[i..j + 1]);
  }

  lemma ClosedPath(g: Graph, path: seq<Id>)
    requires |path| >= 2 && IsPath(g, path) && path[0] == path[|path| - 1]
    ensures !Acyclic(g)
  {
    assert |path| >= 2 && IsPath(g, path);
  }

  // Plugins that are never ordered wait for each other.
  lemma LeftoverIsStuck(g: Graph, dependents: Dependents, s: Kahn)
    requires Closed(g) && Covers(g, dependents) && Invariant(dependents, InDegrees(g), s) && s.queue == []
    ensures Stuck(g, g.Keys - Elements(s.order))
  {
    forall x | x in g.Keys - Elements(s.order) ensures WaitsFor(g, g.Keys - Elements(s.order), x) {
      InDegreeIsUndelivered(g, dependents, s, x);
      OutsideMember(g[x], Elements(s.order));
      var p :| p in g[x] && p !in Elements(s.order);
      assert p in g.Keys - Elements(s.order);
    }
  }

  lemma {:induction false} DistinctSize<T>(s: seq<T>)
    requires Distinct(s)
    ensures |Elements(s)| == |s|
  {
    if s != [] {
      LastElement(s);
      DistinctSize(s[..|s| - 1]);
    } else {
      assert Elements(s) == {};
    }
  }

  // The length test at the end of the build: the order is complete exactly when it lists
  // every plugin once.
  lemma CompleteIsAll(g: Graph, dependents: Dependents, s: Kahn)
    requires Invariant(dependents, InDegrees(g), s) && s.queue == []
    ensures Distinct(s.order) && Elements(s.order) <= g.Keys && |s.order| <= |g|
    ensures |s.order| == |g| <==> StartsAll(g, s.order)
    ensures |s.order| != |g| ==> g.Keys - Elements(s.order) != {}
  {
    DistinctSize(s.order);
    SubsetSize(Elements(s.order), g.Keys);
    assert |g.Keys| == |g|;
    if g.Keys - Elements(s.order) == {} {
      assert forall x :: x in g.Keys ==> x !in g.Keys - Elements(s.order);
      assert Elements(s.order) == g.Keys;
    }
  }

  lemma SubsetSize<T>(a: set<T>, b: set<T>)
    requires a <= b
    ensures |a| <= |b| && (|a| == |b| ==> a == b)
  {
    var rest := b - a;
    assert b == a + rest;
    assert |b| == |a| + |rest|;
  }

  // On a first call the whole run succeeds if and only if the graph is acyclic, and then
  // every provider precedes its dependents. On any call an acyclic graph succeeds.
  lemma FinishedRun(g: Graph, dependents: Dependents, start: Kahn, n: nat)
    requires Closed(g) && KnowsAll(dependents, g.Keys) && Covers(g, dependents) && Starting(InDegrees(g), start)
    requires Run(dependents, start, n).queue == []
    ensures var order := Run(dependents, start, n).order;
            && (|order| == |g| ==> StartsAll(g, order))
            && (Acyclic(g) ==> |order| == |g|)
            && (Exact(g, dependents) && |order| == |g| ==> Acyclic(g) && ProvidersFirst(g, order))
  {
    var s := Run(dependents, start, n);
    RunInvariant(dependents, InDegrees(g), start, n);
    CompleteIsAll(g, dependents, s);
    if |s.order| != |g| {
      IncompleteIsCyclic(g, dependents, s);
    } else if Exact(g, dependents) {
      RunPutsProvidersFirst(g, dependents, start, n);
      OrderedIsAcyclic(g, s.order);
    }
  }

  lemma IncompleteIsCyclic(g: Graph, dependents: Dependents, s: Kahn)
    requires Closed(g) && Covers(g, dependents) && Invariant(dependents, InDegrees(g), s) && s.queue == []
    requires |s.order| != |g|
    ensures !Acyclic(g)
  {
    CompleteIsAll(g, dependents, s);
    LeftoverIsStuck(g, dependents, s);
    StuckIsCyclic(g, g.Keys - Elements(s.order));
  }

  // ------------------------------------------------------------------------------------
  // Exactly when a run completes, whatever edges earlier calls have left behind
  // ------------------------------------------------------------------------------------

  // How many notifications the plugins of `done` send to x.
  ghost function Deliveries(dependents: Dependents, done: set<Id>, x: Id): nat {
    if done == {} then 0
    else
      var p :| p in done;
      Edges(dependents, p, x) + Deliveries(dependents, done - {p}, x)
  }

  lemma {:induction false} DeliveriesSplit(dependents: Dependents, done: set<Id>, p: Id, x: Id)
    requires p in done
    ensures Deliveries(dependents, done, x) == Edges(dependents, p, x) + Deliveries(dependents, done - {p}, x)
  {
    var q :| q in done && Deliveries(dependents, done, x) == Edges(dependents, q, x) + Deliveries(dependents, done - {q}, x);
    if q != p {
      DeliveriesSplit(dependents, done - {q}, p, x);
      DeliveriesSplit(dependents, done - {p}, q, x);
      assert done - {q} - {p} == done - {p} - {q};
    }
  }

  lemma {:induction false} DeliveriesGrow(dependents: Dependents, fewer: set<Id>, more: set<Id>, x: Id)
    requires fewer <= more
    ensures Deliveries(dependents, fewer, x) <= Deliveries(dependents, more, x)
  {
    if fewer != {} {
      var p :| p in fewer;
      DeliveriesSplit(dependents, fewer, p, x);
      DeliveriesSplit(dependents, more, p, x);
      DeliveriesGrow(dependents, fewer - {p}, more - {p}, x);
    }
  }

  lemma {:induction false} ReceivedIsDeliveries(dependents: Dependents, order: seq<Id>, x: Id)
    requires Distinct(order)
    ensures Received(dependents, order, x) == Deliveries(dependents, Elements(order), x)
  {
    if order == [] {
      assert Elements(order) == {};
    } else {
      var n := |order| - 1;
      LastElement(order);
      ReceivedIsDeliveries(dependents, order[..n], x);
      DeliveriesSplit(dependents, Elements(order), order[n], x);
      assert Elements(order) - {order[n]} == Elements(order[..n]);
    }
  }

  // Even all notifications from outside `rest` together release none of it.
  ghost predicate Starved(g: Graph, dependents: Dependents, rest: set<Id>) {
    && rest <= g.Keys
    && forall x :: x in rest ==> Deliveries(dependents, g.Keys - rest, x) < |g[x]|
  }

  ghost predicate NoneStarved(g: Graph, dependents: Dependents) {
    forall rest {:trigger Starved(g, dependents, rest)} :: Starved(g, dependents, rest) ==> rest == {}
  }

  lemma FirstOf(order: seq<Id>, rest: set<Id>) returns (i: nat)
    requires exists x :: x in order && x in rest
    ensures i < |order| && order[i] in rest && forall j :: 0 <= j < i ==> order[j] !in rest
  {
    i := 0;
    while order[i] !in rest
      invariant i < |order| && forall j :: 0 <= j < i ==> order[j] !in rest
      invariant exists x :: x in order[i..] && x in rest
      decreases |order| - i
    {
      assert order[i..] == [order[i]] + order[i + 1..];
      i := i + 1;
    }
  }

  // A run that orders everything shows that nothing was starved.
  lemma ReleasedStarvesNone(g: Graph, dependents: Dependents, order: seq<Id>, rest: set<Id>)
    requires StartsAll(g, order) && Released(g, dependents, order) && Starved(g, dependents, rest)
    ensures rest == {}
  {
    if rest != {} {
      var some :| some in rest;
      assert some in Elements(order);
      var i := FirstOf(order, rest);
      assert ReleasedAt(g, dependents, order, i);
      ReceivedIsDeliveries(dependents, order[..i], order[i]);
      DeliveriesGrow(dependents, Elements(order[..i]), g.Keys - rest, order[i]);
    }
  }

  lemma LeftoverIsStarved(g: Graph, dependents: Dependents, s: Kahn)
    requires Invariant(dependents, InDegrees(g), s) && s.queue == []
    ensures Starved(g, dependents, g.Keys - Elements(s.order))
  {
    var rest := g.Keys - Elements(s.order);
    assert g.Keys - rest == Elements(s.order);
    forall x | x in rest ensures Deliveries(dependents, g.Keys - rest, x) < |g[x]| {
      ReceivedIsDeliveries(dependents, s.order, x);
    }
  }

  // On any call, for every order of the queue and of the lists: the length test succeeds if
  // and only if no nonempty set of plugins is starved.
  lemma CompletesExactly(g: Graph, dependents: Dependents, start: Kahn, n: nat)
    requires KnowsAll(dependents, g.Keys) && Starting(InDegrees(g), start) && Run(dependents, start, n).queue == []
    ensures |Run(dependents, start, n).order| == |g| <==> NoneStarved(g, dependents)
  {
    var s := Run(dependents, start, n);
    RunInvariant(dependents, InDegrees(g), start, n);
    RunReleases(g, dependents, start, n);
    CompleteIsAll(g, dependents, s);
    if |s.order| == |g| {
      forall rest | Starved(g, dependents, rest) ensures rest == {} {
        ReleasedStarvesNone(g, dependents, s.order, rest);
      }
    } else {
      LeftoverIsStarved(g, dependents, s);
    }
  }

  // The order of some run, for some order of the queue.
  ghost predicate OrderOfARun(g: Graph, dependents: Dependents, order: seq<Id>) {
    KnowsAll(dependents, g.Keys) && exists start, n :: RunsTo(g, dependents, start, n, order)
  }

  ghost predicate RunsTo(g: Graph, dependents: Dependents, start: Kahn, n: nat, order: seq<Id>)
    requires KnowsAll(dependents, g.Keys)
  {
    Starting(InDegrees(g), start) && Completes(dependents, start, n, order)
  }

  // What the length test at the end of a call tells about the order and the graph.
  lemma OrderDecides(g: Graph, dependents: Dependents, order: seq<Id>)
    requires Closed(g) && Covers(g, dependents) && OrderOfARun(g, dependents, order)
    ensures |order| == |g| ==> StartsAll(g, order)
    ensures |order| == |g| <==> NoneStarved(g, dependents)
    ensures Acyclic(g) ==> |order| == |g|
    ensures Exact(g, dependents) && |order| == |g| ==> Acyclic(g) && ProvidersFirst(g, order)
  {
    var start, n :| RunsTo(g, dependents, start, n, order);
    FinishedRun(g, dependents, start, n);
    CompletesExactly(g, dependents, start, n);
  }

  // Whatever edges earlier calls have left, every ID is ordered once enough IDs before it
  // have sent it as many notifications as it has edges.
  lemma RunIsReleased(g: Graph, dependents: Dependents, order: seq<Id>)
    requires OrderOfARun(g, dependents, order)
    ensures Distinct(order) && Released(g, dependents, order)
  {
    var start, n :| RunsTo(g, dependents, start, n, order);
    RunReleases(g, dependents, start, n);
  }

  // ---- n calls on the same plugins list every edge n times ----------------------------------

  ghost predicate Copies(g: Graph, dependents: Dependents, n: nat) {
    forall x, p :: x in g ==> Edges(dependents, p, x) == n * multiset(g[x])[p]
  }

  function Times(n: nat, k: int): int {
    if n == 0 then 0 else k + Times(n - 1, k)
  }

  lemma {:induction false} TimesIsProduct(n: nat, k: int)
    ensures Times(n, k) == n * k
  {
    if n > 0 { TimesIsProduct(n - 1, k); }
  }

  lemma {:induction false} TimesAdds(n: nat, a: int, b: int)
    ensures Times(n, a + b) == Times(n, a) + Times(n, b)
  {
    if n > 0 { TimesAdds(n - 1, a, b); }
  }

  lemma {:induction false} DeliveriesOfTimes(dependents: Dependents, n: nat, sources: seq<Id>, done: set<Id>, x: Id)
    requires forall p :: Edges(dependents, p, x) == Times(n, multiset(sources)[p])
    ensures Deliveries(dependents, done, x) == Times(n, |sources| - Outside(sources, done))
  {
    if done == {} {
      OutsideNone(sources);
      TimesIsProduct(n, 0);
    } else {
      var p :| p in done;
      var fewer := done - {p};
      DeliveriesSplit(dependents, done, p, x);
      DeliveriesOfTimes(dependents, n, sources, fewer, x);
      OutsideAdd(sources, fewer, p);
      assert fewer + {p} == done;
      TimesAdds(n, multiset(sources)[p], |sources| - Outside(sources, fewer));
    }
  }

  lemma DeliveriesOfCopies(g: Graph, dependents: Dependents, n: nat, done: set<Id>, x: Id)
    requires x in g && Copies(g, dependents, n)
    ensures Deliveries(dependents, done, x) == n * (|g[x]| - Outside(g[x], done))
  {
    forall p ensures Edges(dependents, p, x) == Times(n, multiset(g[x])[p]) {
      TimesIsProduct(n, multiset(g[x])[p]);
    }
    DeliveriesOfTimes(dependents, n, g[x], done, x);
    TimesIsProduct(n, |g[x]| - Outside(g[x], done));
  }

  // After n calls a plugin is starved if n times its edges from outside do not make up for
  // all its edges. For n = 1: if it has an edge from inside.
  ghost predicate StarvedAfter(g: Graph, n: nat, rest: set<Id>) {
    && rest <= g.Keys
    && forall x :: x in rest ==> n * (|g[x]| - Outside(g[x], g.Keys - rest)) < |g[x]|
  }

  lemma StarvedByCalls(g: Graph, dependents: Dependents, n: nat, rest: set<Id>)
    requires Copies(g, dependents, n)
    ensures Starved(g, dependents, rest) <==> StarvedAfter(g, n, rest)
  {
    if rest <= g.Keys {
      forall x | x in rest
        ensures Deliveries(dependents, g.Keys - rest, x) == n * (|g[x]| - Outside(g[x], g.Keys - rest))
      {
        DeliveriesOfCopies(g, dependents, n, g.Keys - rest, x);
      }
    }
  }

  lemma NoneStarvedByCalls(g: Graph, dependents: Dependents, n: nat)
    requires Copies(g, dependents, n)
    ensures NoneStarved(g, dependents) <==> forall rest :: StarvedAfter(g, n, rest) ==> rest == {}
  {
    forall rest ensures Starved(g, dependents, rest) <==> StarvedAfter(g, n, rest) {
      StarvedByCalls(g, dependents, n, rest);
    }
  }

  // No call starves the plugins of an acyclic graph.
  lemma AcyclicCompletes(g: Graph, dependents: Dependents, n: nat)
    requires Closed(g) && Acyclic(g) && n >= 1 && Copies(g, dependents, n)
    ensures NoneStarved(g, dependents)
  {
    forall rest | Starved(g, dependents, rest) ensures rest == {} {
      StarvedByCalls(g, dependents, n, rest);
      MoreCallsStarveLess(g, n, rest);
      StuckIsStarved(g, rest);
      if rest != {} { StuckIsCyclic(g, rest); }
    }
  }

  lemma MoreCallsStarveLess(g: Graph, n: nat, rest: set<Id>)
    requires n >= 1 && StarvedAfter(g, n, rest)
    ensures StarvedAfter(g, 1, rest)
  {
    forall x | x in rest ensures 1 * (|g[x]| - Outside(g[x], g.Keys - rest)) < |g[x]| {
      OutsideAtMost(g[x], g.Keys - rest);
      AtLeastOnce(n, |g[x]| - Outside(g[x], g.Keys - rest));
    }
  }

  lemma {:induction false} OutsideAtMost(sources: seq<Id>, done: set<Id>)
    ensures Outside(sources, done) <= |sources|
  {
    if sources != [] { OutsideAtMost(sources[1..], done); }
  }

  // On a first call nothing is starved exactly when the graph is acyclic.
  lemma FirstCallStarves(g: Graph, dependents: Dependents)
    requires Closed(g) && Exact(g, dependents)
    ensures NoneStarved(g, dependents) <==> Acyclic(g)
  {
    assert Copies(g, dependents, 1);
    forall rest ensures Starved(g, dependents, rest) <==> Stuck(g, rest) {
      StarvedByCalls(g, dependents, 1, rest);
      StuckIsStarved(g, rest);
    }
    if !NoneStarved(g, dependents) {
      var rest :| Starved(g, dependents, rest) && rest != {};
      StuckIsCyclic(g, rest);
    }
    if !Acyclic(g) {
      var path :| |path| >= 2 && IsPath(g, path) && path[0] == path[|path| - 1];
      CycleIsStuck(g, path);
      assert path[0] in Elements(path);
    }
  }

  lemma StuckIsStarved(g: Graph, rest: set<Id>)
    requires Closed(g)
    ensures Stuck(g, rest) <==> StarvedAfter(g, 1, rest)
  {
    if rest <= g.Keys {
      forall x | x in rest ensures WaitsFor(g, rest, x) <==> |g[x]| - Outside(g[x], g.Keys - rest) < |g[x]| {
        OutsideMember(g[x], g.Keys - rest);
      }
    }
  }

  lemma CycleIsStuck(g: Graph, path: seq<Id>)
    requires |path| >= 2 && IsPath(g, path) && path[0] == path[|path| - 1]
    ensures Stuck(g, Elements(path))
  {
    forall x | x in Elements(path) ensures WaitsFor(g, Elements(path), x) {
      var i :| 0 <= i < |path| && path[i] == x;
      var j := if i == 0 then |path| - 1 else i;
      assert path[j - 1] in g[path[j]] && path[j - 1] in Elements(path);
    }
  }

  // ---- Every repeated call can accept a cycle and misplace a plugin --------------------------

  // b and c depend on each other, b also on a.
  function Cyclic(a: Id, b: Id, c: Id): Graph {
    map[a := [], b := [a, c], c := [b]]
  }

  // From the second call on one provider alone releases a plugin with at most two edges.
  lemma OneSuffices(g: Graph, dependents: Dependents, n: nat, rest: set<Id>, p: Id, x: Id)
    requires n >= 2 && Copies(g, dependents, n) && Starved(g, dependents, rest)
    requires p in g && p !in rest && x in g && multiset(g[x])[p] == 1 && |g[x]| <= 2
    ensures x !in rest
  {
    DeliveriesSplit(dependents, g.Keys - rest, p, x);
    assert Edges(dependents, p, x) == n * multiset(g[x])[p] == n;
  }

  lemma CyclicIsClosed(a: Id, b: Id, c: Id)
    requires Distinct([a, b, c])
    ensures Closed(Cyclic(a, b, c)) && StartsAll(Cyclic(a, b, c), [a, b, c]) && !Acyclic(Cyclic(a, b, c))
  {
    assert [a, b, c][0] == a && [a, b, c][1] == b && [a, b, c][2] == c;
    assert Elements([a, b, c]) == {a, b, c} == Cyclic(a, b, c).Keys;
    ClosedPath(Cyclic(a, b, c), [b, c, b]);
  }

  // From the second call on, however often it is repeated: a alone releases b, so that no
  // run on this cyclic graph fails.
  lemma RepeatedCallAcceptsACycle(a: Id, b: Id, c: Id, dependents: Dependents, n: nat)
    requires Distinct([a, b, c]) && n >= 2 && Copies(Cyclic(a, b, c), dependents, n)
    ensures Closed(Cyclic(a, b, c)) && !Acyclic(Cyclic(a, b, c)) && NoneStarved(Cyclic(a, b, c), dependents)
  {
    var g := Cyclic(a, b, c);
    assert [a, b, c][0] == a && [a, b, c][1] == b && [a, b, c][2] == c;
    ClosedPath(g, [b, c, b]);
    forall rest | Starved(g, dependents, rest) ensures rest == {} {
      assert g[a] == [] && a !in rest;
      assert multiset([a, c])[a] == 1 && multiset([b])[b] == 1;
      OneSuffices(g, dependents, n, rest, a, b);
      OneSuffices(g, dependents, n, rest, b, c);
    }
  }

  // With one provider each, plugins come after their providers on every call.
  ghost predicate OneProviderEach(g: Graph) {
    forall x, p, q :: x in g && p in g[x] && q in g[x] ==> p == q
  }

  lemma {:induction false} SomeoneSent(dependents: Dependents, order: seq<Id>, x: Id) returns (p: Id)
    requires Received(dependents, order, x) > 0
    ensures p in order && Edges(dependents, p, x) > 0
  {
    var n := |order| - 1;
    if Edges(dependents, order[n], x) > 0 {
      p := order[n];
    } else {
      p := SomeoneSent(dependents, order[..n], x);
    }
  }

  lemma OneProviderKeepsOrder(g: Graph, dependents: Dependents, n: nat, order: seq<Id>)
    requires OneProviderEach(g) && Copies(g, dependents, n) && Released(g, dependents, order)
    ensures ProvidersFirst(g, order)
  {
    forall i, p | 0 <= i < |order| && order[i] in g && p in g[order[i]] ensures p in order[..i] {
      assert ReleasedAt(g, dependents, order, i);
      var q := SomeoneSent(dependents, order[..i], order[i]);
      assert Edges(dependents, q, order[i]) == n * multiset(g[order[i]])[q];
      assert q in g[order[i]];
    }
  }

  // The queue is first in, first out: what is ordered followed by what is queued only grows.
  lemma {:induction false} DeliverAppends(deps: seq<Id>, inDegree: map<Id, int>, queue: seq<Id>)
    requires forall x :: x in deps ==> x in inDegree
    ensures queue <= Deliver(deps, inDegree, queue).1
  {
    if deps != [] {
      var degree := inDegree[deps[0]] - 1;
      DeliverAppends(deps[1..], inDegree[deps[0] := degree], if degree == 0 then queue + [deps[0]] else queue);
    }
  }

  lemma StepGrows(dependents: Dependents, s: Kahn)
    requires s.queue != [] && KnowsAll(dependents, s.inDegree.Keys)
    ensures var t := Step(dependents, s); s.order + s.queue <= t.order + t.queue
  {
    var t := Step(dependents, s);
    DeliverAppends(DependentsOf(dependents, s.queue[0]), s.inDegree, s.queue[1..]);
    assert s.order + s.queue == s.order + [s.queue[0]] + s.queue[1..];
    assert t.queue == s.queue[1..] + t.queue[|s.queue| - 1..];
    assert t.order + t.queue == s.order + s.queue + t.queue[|s.queue| - 1..];
  }

  lemma {:induction false} RunGrows(dependents: Dependents, s: Kahn, m: nat, n: nat)
    requires KnowsAll(dependents, s.inDegree.Keys) && m <= n
    ensures var early, late := Run(dependents, s, m), Run(dependents, s, n);
            early.order + early.queue <= late.order + late.queue
  {
    if m < n {
      RunGrows(dependents, s, m, n - 1);
      var before := Run(dependents, s, n - 1);
      if before.queue != [] {
        StepGrows(dependents, before);
      }
    }
  }

  // Only a is a root; c needs a, b needs c, and d needs a and b.
  function Diamond(a: Id, b: Id, c: Id, d: Id): Graph {
    map[a := [], b := [c], c := [a], d := [a, b]]
  }

  predicate Different(a: Id, b: Id, c: Id, d: Id) {
    a != b && a != c && a != d && b != c && b != d && c != d
  }

  // Processing the only root queues the plugins it counts down.
  lemma FirstStep(dependents: Dependents, initial: map<Id, int>, start: Kahn, a: Id)
    requires KnowsAll(dependents, initial.Keys) && Starting(initial, start) && start.queue == [a]
    ensures var s := Step(dependents, start);
            forall x :: x in s.order || x in s.queue <==> x in initial && initial[x] - Edges(dependents, a, x) <= 0
  {
    StartInvariant(dependents, initial, start);
    StepInvariant(dependents, initial, start);
    var s := Step(dependents, start);
    assert s.order == [a] && [a][..0] == [];
    forall x | x in initial ensures s.inDegree[x] == initial[x] - Edges(dependents, a, x) {
      assert Received(dependents, [], x) == 0;
    }
  }

  lemma DiamondEdges(a: Id, b: Id, c: Id, d: Id, dependents: Dependents, n: nat)
    requires Different(a, b, c, d) && Copies(Diamond(a, b, c, d), dependents, n)
    ensures Edges(dependents, a, b) == 0 && Edges(dependents, a, d) == n
  {
    var g := Diamond(a, b, c, d);
    assert g[b] == [c] && g[d] == [a, b] && multiset([c])[a] == 0 && multiset([a, b])[a] == 1;
    assert Edges(dependents, a, b) == n * multiset(g[b])[a] && Edges(dependents, a, d) == n * multiset(g[d])[a];
  }

  lemma OnlyRoot(a: Id, b: Id, c: Id, d: Id, start: Kahn)
    requires Different(a, b, c, d) && Starting(InDegrees(Diamond(a, b, c, d)), start)
    ensures start.queue == [a]
  {
    var initial := InDegrees(Diamond(a, b, c, d));
    assert initial[a] == 0 && initial[b] == 1 && initial[c] == 1 && initial[d] == 2;
    assert forall x :: x in start.queue <==> x == a;
    assert Elements(start.queue) == {a};
    DistinctSize(start.queue);
    assert start.queue == [start.queue[0]] && start.queue[0] in Elements(start.queue);
  }

  lemma DiamondIsAcyclic(a: Id, b: Id, c: Id, d: Id)
    requires Different(a, b, c, d)
    ensures Acyclic(Diamond(a, b, c, d)) && Closed(Diamond(a, b, c, d))
  {
    var order := [a, c, b, d];
    var g := Diamond(a, b, c, d);
    assert Elements(order) == {a, b, c, d} == g.Keys;
    assert order[..1] == [a] && order[..2] == [a, c] && order[..3] == [a, c, b];
    OrderedIsAcyclic(g, order);
  }

  // From the second call on, however often it is repeated and in whatever order maps are
  // visited: every run on this acyclic graph completes and starts d before its provider b.
  lemma RepeatedCallMisorders(a: Id, b: Id, c: Id, d: Id, dependents: Dependents, n: nat, start: Kahn, m: nat)
    requires Different(a, b, c, d) && n >= 2
    requires Copies(Diamond(a, b, c, d), dependents, n) && KnowsAll(dependents, Diamond(a, b, c, d).Keys)
    requires Starting(InDegrees(Diamond(a, b, c, d)), start) && Run(dependents, start, m).queue == []
    ensures Acyclic(Diamond(a, b, c, d)) && Closed(Diamond(a, b, c, d))
    ensures var order := Run(dependents, start, m).order;
            StartsAll(Diamond(a, b, c, d), order) && !ProvidersFirst(Diamond(a, b, c, d), order)
  {
    var g := Diamond(a, b, c, d);
    DiamondIsAcyclic(a, b, c, d);
    CopiesCover(g, dependents, n);
    FinishedRun(g, dependents, start, m);
    OnlyRoot(a, b, c, d, start);
    FirstStep(dependents, InDegrees(g), start, a);
    DiamondEdges(a, b, c, d, dependents, n);
    assert InDegrees(g)[b] == 1 && InDegrees(g)[d] == 2;
    FinishedGrows(dependents, start, m);
    var s := Step(dependents, start);
    Misplaced(g, s.order + s.queue, Run(dependents, start, m).order, b, d);
  }

  lemma FinishedGrows(dependents: Dependents, start: Kahn, m: nat)
    requires KnowsAll(dependents, start.inDegree.Keys) && start.queue != [] && Run(dependents, start, m).queue == []
    ensures var s := Step(dependents, start); s.order + s.queue <= Run(dependents, start, m).order
  {
    assert Run(dependents, start, 0) == start;
    RunGrows(dependents, start, 1, m);
    var order := Run(dependents, start, m).order;
    assert order + [] == order;
  }

  lemma MisorderedRun(a: Id, b: Id, c: Id, d: Id, dependents: Dependents, n: nat, order: seq<Id>)
    requires Different(a, b, c, d) && n >= 2
    requires Copies(Diamond(a, b, c, d), dependents, n) && OrderOfARun(Diamond(a, b, c, d), dependents, order)
    ensures !ProvidersFirst(Diamond(a, b, c, d), order)
  {
    var start, m :| RunsTo(Diamond(a, b, c, d), dependents, start, m, order);
    RepeatedCallMisorders(a, b, c, d, dependents, n, start, m);
  }

  lemma CopiesCover(g: Graph, dependents: Dependents, n: nat)
    requires n >= 1 && Copies(g, dependents, n)
    ensures Covers(g, dependents)
  {
    forall x, p | x in g ensures Edges(dependents, p, x) >= multiset(g[x])[p] {
      AtLeastOnce(n, multiset(g[x])[p]);
    }
  }

  lemma AtLeastOnce(n: nat, k: nat)
    requires n >= 1
    ensures n * k >= k
  {
  }

  lemma Misplaced(g: Graph, early: seq<Id>, order: seq<Id>, b: Id, d: Id)
    requires early <= order && d in early && b !in early && d in g && b in g[d]
    ensures !ProvidersFirst(g, order)
  {
    var i :| 0 <= i < |early| && early[i] == d;
    assert order[i] == d && order[..i] == early[..i];
  }
}
