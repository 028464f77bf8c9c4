/**
 `TopologicalSort`: Kahn's algorithm with a fallback branch.

 What can be started is the least set of services closed under "all my dependencies are
 already in the set". The algorithm emits exactly that set, dependencies first, and then
 appends whatever is left in its original order.
 */
module Ordering {
  import opened Graphs
  import opened Sequences
  import opened Services

  // ----- What can be started

  ghost predicate ClosedUnder<N>(g: Graph<N>, s: set<N>) {
    forall n :: n in g && Elements(g[n]) <= s ==> n in s
  }

  ghost predicate InEveryClosedSet<N(!new)>(g: Graph<N>, n: N) {
    forall s :: ClosedUnder(g, s) ==> n in s
  }

  /** The least closed set. */
  ghost function Startable<N(!new)>(g: Graph<N>): set<N> {
    set n | n in g && InEveryClosedSet(g, n)
  }

  lemma StartableIsLeastClosed<N(!new)>(g: Graph<N>)
    ensures ClosedUnder(g, Startable(g))
    ensures forall s :: ClosedUnder(g, s) ==> Startable(g) <= s
    ensures Startable(g) <= g.Keys
  {
    forall n | n in g && Elements(g[n]) <= Startable(g) ensures InEveryClosedSet(g, n) {
      forall s | ClosedUnder(g, s) ensures n in s {
        assert Elements(g[n]) <= s;
      }
    }
  }

  lemma {:induction false} ListingStaysInside<N>(g: Graph<N>, order: seq<N>, s: set<N>)
    requires DepsFirst(g, order) && Elements(order) <= g.Keys && ClosedUnder(g, s)
    ensures Elements(order) <= s
  {
    if order != [] {
      var init, last := order[..|order| - 1], order[|order| - 1];
      assert order == init + [last];
      ElementsAppend(init, last);
      ListingStaysInside(g, init, s);
    }
  }

  /** Any dependencies-first listing that cannot be extended lists the least closed set. */
  lemma MaximalListingIsStartable<N(!new)>(g: Graph<N>, order: seq<N>)
    requires DepsFirst(g, order) && Elements(order) <= g.Keys && ClosedUnder(g, Elements(order))
    ensures Elements(order) == Startable(g)
  {
    StartableIsLeastClosed(g);
    ListingStaysInside(g, order, Startable(g));
  }

  lemma CycleSuccessor<N(!new)>(g: Graph<N>, p: seq<N>, n: N) returns (d: N)
    requires IsCycle(g, p) && n in Elements(p)
    ensures n in g && d in Elements(g[n]) && d in Elements(p)
  {
    var i :| 0 <= i < |p| && p[i] == n;
    var j := if i == |p| - 1 then 0 else i;
    WalkEdge(g, p, j);
    d := p[j + 1];
  }

  lemma CyclesNeverStart<N(!new)>(g: Graph<N>, p: seq<N>)
    requires IsCycle(g, p)
    ensures Startable(g) !! Elements(p) && Elements(p) * g.Keys != {}
  {
    var s := Startable(g) - Elements(p);
    StartableIsLeastClosed(g);
    forall n | n in g && Elements(g[n]) <= s ensures n in s {
      if n in Elements(p) {
        var d := CycleSuccessor(g, p, n);
        assert false;
      }
    }
    assert ClosedUnder(g, s);
    var d := CycleSuccessor(g, p, p[0]);
    assert p[0] in Elements(p) * g.Keys;
  }

  lemma UndefinedNeverStart<N(!new)>(g: Graph<N>, n: N, d: N)
    requires n in g && d in g[n] && d !in g
    ensures n !in Startable(g)
  {
    assert d in Elements(g[n]);
    assert ClosedUnder(g, g.Keys - {n});
    StartableIsLeastClosed(g);
  }

  ghost predicate DependenciesDefined<N>(g: Graph<N>) {
    forall n :: n in g ==> Elements(g[n]) <= g.Keys
  }

  lemma StuckMeansCycle<N(!new)>(g: Graph<N>, s: set<N>, n: N)
    requires DependenciesDefined(g) && ClosedUnder(g, s) && n in g && n !in s
    ensures Cyclic(g)
  {
    var stuck := g.Keys - s;
    forall n | n in stuck ensures DependsInside(g, stuck, n) {
      var d :| d in Elements(g[n]) && d !in s;
      assert Edge(g, n, d) && d in stuck;
    }
    ExtendToCycle(g, stuck, [n]);
  }

  lemma OutsideOf<N>(a: set<N>, b: set<N>) returns (n: N)
    requires a <= b && a != b
    ensures n in b && n !in a
  {
    assert a + (b - a) == b;
    n :| n in b - a;
  }

  lemma EverythingStartedIsAcyclic<N(!new)>(g: Graph<N>)
    requires Startable(g) == g.Keys
    ensures !Cyclic(g) && DependenciesDefined(g)
  {
    forall p | IsCycle(g, p) ensures false {
      CyclesNeverStart(g, p);
    }
    forall n, d | n in g && d in Elements(g[n]) ensures d in g {
      if d !in g {
        UndefinedNeverStart(g, n, d);
      }
    }
  }

  /** Everything starts exactly when there is no cycle and every dependency is defined. */
  lemma EverythingStartsIffAcyclic<N(!new)>(g: Graph<N>)
    ensures Startable(g) == g.Keys <==> !Cyclic(g) && DependenciesDefined(g)
  {
    if Startable(g) == g.Keys {
      EverythingStartedIsAcyclic(g);
    } else if DependenciesDefined(g) {
      StartableIsLeastClosed(g);
      var n := OutsideOf(Startable(g), g.Keys);
      StuckMeansCycle(g, Startable(g), n);
    }
  }

  // ----- Counting dependencies that have not been emitted yet

  ghost function Missing<N>(ds: seq<N>, emitted: set<N>): nat {
    if ds == [] then 0
    else (if ds[0] in emitted then 0 else 1) + Missing(ds[1..], emitted)
  }

  lemma {:induction false} MissingZero<N>(ds: seq<N>, emitted: set<N>)
    ensures Missing(ds, emitted) == 0 <==> Elements(ds) <= emitted
  {
    if ds != [] {
      MissingZero(ds[1..], emitted);
      assert Elements(ds) == {ds[0]} + Elements(ds[1..]);
    }
  }

  lemma {:induction false} MissingNothingEmitted<N>(ds: seq<N>)
    ensures Missing(ds, {}) == |ds|
  {
    if ds != [] {
      MissingNothingEmitted(ds[1..]);
    }
  }

  lemma {:induction false} MissingAfterEmit<N>(ds: seq<N>, emitted: set<N>, n: N)
    requires n !in emitted
    ensures Missing(ds, emitted) == Missing(ds, emitted + {n}) + multiset(ds)[n]
  {
    if ds != [] {
      MissingAfterEmit(ds[1..], emitted, n);
      assert ds == [ds[0]] + ds[1..];
    }
  }

  /** The in-degree of each service counts the entries of its list that are still missing. */
  ghost predicate Counts<N>(g: Graph<N>, inDegree: map<N, int>, emitted: set<N>) {
    inDegree.Keys == g.Keys && forall n :: n in g ==> inDegree[n] == Missing(g[n], emitted)
  }

  /** `dependents` holds one entry for every occurrence in a `depends_on` list. */
  ghost predicate Reversed<N(!new)>(g: Graph<N>, dependents: Graph<N>) {
    forall n, d :: SameOccurrences(g, dependents, n, d)
  }

  ghost predicate SameOccurrences<N>(g: Graph<N>, dependents: Graph<N>, n: N, d: N) {
    multiset(Deps(dependents, d))[n] == multiset(Deps(g, n))[d]
  }

  lemma ReversedAppend<N(!new)>(g: Graph<N>, dependents: Graph<N>, n: N, ds: seq<N>, d: N)
    requires Reversed(g[n := ds], dependents)
    ensures Reversed(g[n := ds + [d]], dependents[d := Deps(dependents, d) + [n]])
  {
    var g', dependents' := g[n := ds + [d]], dependents[d := Deps(dependents, d) + [n]];
    forall a, b ensures SameOccurrences(g', dependents', a, b) {
      assert SameOccurrences(g[n := ds], dependents, a, b);
    }
  }

  // ----- The phases of the algorithm

  method RegisterDependents<N(==,!new)>(ghost g: Graph<N>, name: N, dependsOn: seq<N>, dependents: Graph<N>)
    returns (r: Graph<N>)
    requires Reversed(g, dependents) && name !in g
    ensures Reversed(g[name := dependsOn], r)
  {
    r := dependents;
    ghost var g' := g[name := dependsOn[..0]];
    forall n, d ensures SameOccurrences(g', r, n, d) {
      assert SameOccurrences(g, r, n, d);
    }
    for j := 0 to |dependsOn|
      invariant Reversed(g[name := dependsOn[..j]], r)
    {
      ReversedAppend(g, r, name, dependsOn[..j], dependsOn[j]);
      assert dependsOn[..j + 1] == dependsOn[..j] + [dependsOn[j]];
      r := r[dependsOn[j] := Deps(r, dependsOn[j]) + [name]];
    }
    assert dependsOn[..|dependsOn|] == dependsOn;
  }

  /** Visits the keys in an arbitrary order. */
  method InitialQueue<N(==)>(inDegree: map<N, int>) returns (queue: seq<N>)
    ensures NoDuplicates(queue)
    ensures forall n :: n in queue <==> n in inDegree && inDegree[n] == 0
  {
    queue := [];
    var remaining := inDegree.Keys;
    while remaining != {}
      invariant remaining <= inDegree.Keys && NoDuplicates(queue)
      invariant forall n :: n in queue <==> n in inDegree.Keys - remaining && inDegree[n] == 0
    {
      var name :| name in remaining;
      remaining := remaining - {name};
      if inDegree[name] == 0 {
        queue := queue + [name];
      }
    }
  }

  /** In-degrees while `followers` are still to be decremented for the last emitted node. */
  ghost predicate Pending<N>(g: Graph<N>, inDegree: map<N, int>, followers: seq<N>, emitted: set<N>) {
    && inDegree.Keys == g.Keys
    && forall n :: n in g ==> inDegree[n] == Missing(g[n], emitted) + multiset(followers)[n]
  }

  /** The queue holds, once each, the nodes that reached in-degree zero and were not emitted. */
  ghost predicate Queued<N>(inDegree: map<N, int>, emitted: set<N>, queue: seq<N>) {
    && NoDuplicates(queue)
    && emitted !! Elements(queue)
    && emitted + Elements(queue) == set n | n in inDegree && inDegree[n] == 0
  }

  lemma DecrementStep<N>(g: Graph<N>, inDegree: map<N, int>, f: N, rest: seq<N>, emitted: set<N>)
    requires Pending(g, inDegree, [f] + rest, emitted) && f in g
    ensures inDegree[f] > 0 && Pending(g, inDegree[f := inDegree[f] - 1], rest, emitted)
  {
    assert multiset([f] + rest) == multiset{f} + multiset(rest);
  }

  lemma EnqueueStep<N>(inDegree: map<N, int>, f: N, emitted: set<N>, queue: seq<N>)
    requires Queued(inDegree, emitted, queue) && f in inDegree && inDegree[f] > 0
    ensures Queued(inDegree[f := inDegree[f] - 1], emitted, if inDegree[f] == 1 then queue + [f] else queue)
  {
    ElementsAppend(queue, f);
    assert f !in Elements(queue);
  }

  /** The inner loop: one decrement per occurrence of the emitted node. */
  method Release<N(==)>(ghost g: Graph<N>, followers: seq<N>, inDegree0: map<N, int>, queue0: seq<N>,
                        ghost emitted: set<N>)
    returns (inDegree: map<N, int>, queue: seq<N>)
    requires Pending(g, inDegree0, followers, emitted) && Queued(inDegree0, emitted, queue0)
    requires Elements(followers) <= g.Keys
    ensures Counts(g, inDegree, emitted) && Queued(inDegree, emitted, queue)
  {
    inDegree, queue := inDegree0, queue0;
    for k := 0 to |followers|
      invariant Pending(g, inDegree, followers[k..], emitted) && Queued(inDegree, emitted, queue)
    {
      var dep := followers[k];
      assert dep in Elements(followers);
      assert followers[k..] == [dep] + followers[k + 1..];
      DecrementStep(g, inDegree, dep, followers[k + 1..], emitted);
      EnqueueStep(inDegree, dep, emitted, queue);
      inDegree := inDegree[dep := inDegree[dep] - 1];
      if inDegree[dep] == 0 {
        queue := queue + [dep];
      }
    }
  }

  ghost function Lookup<N, S>(m: map<N, S>, names: seq<N>): seq<S>
    requires Elements(names) <= m.Keys
  {
    seq(|names|, i requires 0 <= i < |names| => assert names[i] in Elements(names); m[names[i]])
  }

  /** A dependencies-first listing, without repetition, of everything that can be started. */
  ghost predicate ListsStartable<N(!new)>(g: Graph<N>, emitted: seq<N>) {
    NoDuplicates(emitted) && DepsFirst(g, emitted) && Elements(emitted) == Startable(g)
  }

  lemma EmitStep<N(!new)>(g: Graph<N>, dependents: Graph<N>, inDegree: map<N, int>, emitted: seq<N>, queue: seq<N>)
    requires Counts(g, inDegree, Elements(emitted)) && Queued(inDegree, Elements(emitted), queue)
    requires Reversed(g, dependents) && DepsFirst(g, emitted) && NoDuplicates(emitted) && queue != []
    ensures DepsFirst(g, emitted + [queue[0]]) && NoDuplicates(emitted + [queue[0]])
    ensures Elements(emitted + [queue[0]]) == Elements(emitted) + {queue[0]}
    ensures queue[0] in g && queue[0] !in Elements(emitted)
    ensures Pending(g, inDegree, Deps(dependents, queue[0]), Elements(emitted + [queue[0]]))
    ensures Queued(inDegree, Elements(emitted + [queue[0]]), queue[1..])
    ensures Elements(Deps(dependents, queue[0])) <= g.Keys
  {
    var name := queue[0];
    assert name in Elements(queue);
    ElementsAppend(emitted, name);
    MissingZero(g[name], Elements(emitted));
    assert (emitted + [name])[..|emitted|] == emitted;
    assert Elements(queue) == {name} + Elements(queue[1..]) by {
      assert queue == [name] + queue[1..];
    }
    forall n | n in g
      ensures inDegree[n] == Missing(g[n], Elements(emitted + [name])) + multiset(Deps(dependents, name))[n]
    {
      MissingAfterEmit(g[n], Elements(emitted), name);
      assert SameOccurrences(g, dependents, n, name);
    }
    forall f | f in Elements(Deps(dependents, name)) ensures f in g {
      assert SameOccurrences(g, dependents, f, name);
    }
  }

  lemma LookupNext<N, S>(serviceMap: map<N, S>, emitted: seq<N>, name: N)
    requires Elements(emitted) <= serviceMap.Keys && name in serviceMap
    ensures Elements(emitted + [name]) <= serviceMap.Keys
    ensures Lookup(serviceMap, emitted + [name]) == Lookup(serviceMap, emitted) + [serviceMap[name]]
  {
  }

  /** Once the queue is empty, everything that can be started is emitted. */
  lemma NothingReadyLeft<N(!new)>(g: Graph<N>, inDegree: map<N, int>, emitted: seq<N>)
    requires Counts(g, inDegree, Elements(emitted)) && Queued(inDegree, Elements(emitted), [])
    requires NoDuplicates(emitted) && DepsFirst(g, emitted) && Elements(emitted) <= g.Keys
    ensures ListsStartable(g, emitted)
  {
    forall n | n in g && Elements(g[n]) <= Elements(emitted) ensures n in Elements(emitted) {
      MissingZero(g[n], Elements(emitted));
    }
    MaximalListingIsStartable(g, emitted);
  }

  /** The queue loop: emits exactly what can be started. */
  method Drain<N(==,!new), S>(ghost g: Graph<N>, serviceMap: map<N, S>, inDegree0: map<N, int>,
                              dependents: Graph<N>, queue0: seq<N>)
    returns (result: seq<S>, ghost emitted: seq<N>)
    requires serviceMap.Keys == g.Keys && Reversed(g, dependents)
    requires Counts(g, inDegree0, {}) && Queued(inDegree0, {}, queue0)
    ensures ListsStartable(g, emitted) && result == Lookup(serviceMap, emitted)
  {
    var inDegree, queue := inDegree0, queue0;
    result, emitted := [], [];
    assert Elements(emitted) == {};
    while queue != []
      invariant Counts(g, inDegree, Elements(emitted)) && Queued(inDegree, Elements(emitted), queue)
      invariant NoDuplicates(emitted) && DepsFirst(g, emitted) && Elements(emitted) <= g.Keys
      invariant result == Lookup(serviceMap, emitted)
      decreases g.Keys - Elements(emitted)
    {
      var name := queue[0];
      EmitStep(g, dependents, inDegree, emitted, queue);
      LookupNext(serviceMap, emitted, name);
      if name in serviceMap {
        result := result + [serviceMap[name]];
      }
      emitted := emitted + [name];
      inDegree, queue := Release(g, Deps(dependents, name), inDegree, queue[1..], Elements(emitted));
    }
    NothingReadyLeft(g, inDegree, emitted);
  }

  // ----- The whole function

  function NameList(services: seq<Service>): seq<string> {
    seq(|services|, i requires 0 <= i < |services| => services[i].name)
  }

  /** The services whose names are not in the set, in their original order. */
  ghost function Leftover(services: seq<Service>, started: set<string>): seq<Service> {
    if services == [] then []
    else
      var last := services[|services| - 1];
      Leftover(services[..|services| - 1], started) + if last.name in started then [] else [last]
  }

  /**
   What the result must be: first everything that can be started, dependencies first, then
   the rest in its original order; nothing is lost, repeated or invented.
   */
  ghost predicate IsStartOrder(services: seq<Service>, result: seq<Service>) {
    var startable := Startable(DependencyGraph(services));
    && |startable| <= |result|
    && ListsStartable(DependencyGraph(services), NameList(result[..|startable|]))
    && result[|startable|..] == Leftover(services, startable)
    && multiset(result) == multiset(services)
  }

  method BuildGraph(services: seq<Service>)
    returns (serviceMap: map<string, Service>, inDegree: map<string, int>, dependents: Graph<string>)
    requires DistinctNames(services)
    ensures serviceMap.Keys == DependencyGraph(services).Keys
    ensures forall n :: n in serviceMap ==> serviceMap[n] in services && serviceMap[n].name == n
    ensures Counts(DependencyGraph(services), inDegree, {})
    ensures Reversed(DependencyGraph(services), dependents)
  {
    serviceMap, inDegree, dependents := map[], map[], map[];
    for i := 0 to |services|
      invariant serviceMap.Keys == DependencyGraph(services[..i]).Keys
      invariant forall n :: n in serviceMap ==> serviceMap[n] in services && serviceMap[n].name == n
      invariant Counts(DependencyGraph(services[..i]), inDegree, {})
      invariant Reversed(DependencyGraph(services[..i]), dependents)
    {
      var svc := services[i];
      ghost var g := DependencyGraph(services[..i]);
      assert services[..i + 1][..i] == services[..i];
      NamesAreKeys(services[..i]);
      MissingNothingEmitted(svc.dependsOn);
      serviceMap := serviceMap[svc.name := svc];
      inDegree := inDegree[svc.name := |svc.dependsOn|];
      dependents := RegisterDependents(g, svc.name, svc.dependsOn, dependents);
    }
    assert services[..|services|] == services;
  }

  lemma InNameList(services: seq<Service>, n: string)
    ensures n in Elements(NameList(services)) <==> exists s :: s in services && s.name == n
  {
    if n in Elements(NameList(services)) {
      var i :| 0 <= i < |services| && NameList(services)[i] == n;
      assert services[i] in services;
    }
    if s :| s in services && s.name == n {
      var i :| 0 <= i < |services| && services[i] == s;
      assert NameList(services)[i] == n;
    }
  }

  lemma FoundMeansStarted(services: seq<Service>, i: nat, started: seq<Service>, result: seq<Service>,
                          names: set<string>)
    requires DistinctNames(services) && i < |services| && names == Elements(NameList(started))
    requires forall r :: r in result <==> r in started || (r in services[..i] && r.name !in names)
    ensures services[i].name in names <==> exists r :: r in result && r.name == services[i].name
  {
    InNameList(started, services[i].name);
    forall r | r in services[..i] ensures r.name != services[i].name {
    }
  }

  method IsListed(result: seq<Service>, name: string) returns (found: bool)
    ensures found <==> exists r :: r in result && r.name == name
  {
    for j := 0 to |result|
      invariant forall k :: 0 <= k < j ==> result[k].name != name
    {
      if result[j].name == name {
        return true;
      }
    }
    return false;
  }

  /** The fallback: appends every service that no entry of the result so far is named after. */
  method AppendMissing(services: seq<Service>, started: seq<Service>) returns (result: seq<Service>)
    requires DistinctNames(services)
    ensures result == started + Leftover(services, Elements(NameList(started)))
  {
    result := started;
    ghost var names := Elements(NameList(started));
    for i := 0 to |services|
      invariant result == started + Leftover(services[..i], names)
      invariant forall r :: r in result <==> r in started || (r in services[..i] && r.name !in names)
    {
      var svc := services[i];
      var found := IsListed(result, svc.name);
      FoundMeansStarted(services, i, started, result, names);
      if !found {
        result := result + [svc];
      }
      assert services[..i + 1][..i] == services[..i];
    }
    assert services[..|services|] == services;
  }

  // ----- The result is a permutation

  lemma {:induction false} LeftoverOccurrences(services: seq<Service>, started: set<string>, x: Service)
    ensures multiset(Leftover(services, started))[x] == if x.name in started then 0 else multiset(services)[x]
  {
    if services != [] {
      var init, last := services[..|services| - 1], services[|services| - 1];
      LeftoverOccurrences(init, started, x);
      assert services == init + [last];
    }
  }

  lemma EmittedOccurrences(services: seq<Service>, e: seq<Service>, x: Service)
    requires DistinctNames(services) && NoDuplicates(NameList(e))
    requires forall s :: s in e ==> s in services
    ensures multiset(e)[x] == if x.name in Elements(NameList(e)) then multiset(services)[x] else 0
  {
    InNameList(e, x.name);
    assert NoDuplicates(e) by {
      assert forall i :: 0 <= i < |e| ==> NameList(e)[i] == e[i].name;
    }
    OccursOnce(services, x);
    OccursOnce(e, x);
    if s :| x in services && s in e && s.name == x.name {
      var i, j :| 0 <= i < |services| && services[i] == s && 0 <= j < |services| && services[j] == x;
    }
  }

  lemma EmittedPlusLeftover(services: seq<Service>, e: seq<Service>)
    requires DistinctNames(services) && NoDuplicates(NameList(e))
    requires forall s :: s in e ==> s in services
    ensures multiset(e + Leftover(services, Elements(NameList(e)))) == multiset(services)
  {
    var rest := Leftover(services, Elements(NameList(e)));
    forall x ensures multiset(e)[x] + multiset(rest)[x] == multiset(services)[x] {
      LeftoverOccurrences(services, Elements(NameList(e)), x);
      EmittedOccurrences(services, e, x);
    }
    assert multiset(e) + multiset(rest) == multiset(services);
  }

  lemma StartOrderOf(services: seq<Service>, e: seq<Service>)
    requires DistinctNames(services) && ListsStartable(DependencyGraph(services), NameList(e))
    requires forall s :: s in e ==> s in services
    ensures IsStartOrder(services, e + Leftover(services, Elements(NameList(e))))
    ensures |e| >= |services| ==> Leftover(services, Elements(NameList(e))) == []
  {
    var g := DependencyGraph(services);
    NamesAreKeys(services);
    DistinctCardinality(NameList(e));
    EmittedPlusLeftover(services, e);
    var result := e + Leftover(services, Startable(g));
    assert result[..|e|] == e && result[|e|..] == Leftover(services, Startable(g));
    assert |multiset(result)| == |multiset(services)|;
  }

  lemma LookupGivesServices(services: seq<Service>, serviceMap: map<string, Service>, emitted: seq<string>)
    requires Elements(emitted) <= serviceMap.Keys
    requires forall n :: n in serviceMap ==> serviceMap[n] in services && serviceMap[n].name == n
    ensures NameList(Lookup(serviceMap, emitted)) == emitted
    ensures forall s :: s in Lookup(serviceMap, emitted) ==> s in services
  {
    assert forall i :: 0 <= i < |emitted| ==> emitted[i] in Elements(emitted);
  }

  /** The source's function: the lists need not be acyclic or name listed services. */
  method TopologicalSort(services: seq<Service>) returns (result: seq<Service>)
    requires DistinctNames(services)
    ensures IsStartOrder(services, result)
  {
    var serviceMap, inDegree, dependents := BuildGraph(services);
    var queue := InitialQueue(inDegree);
    ghost var emitted;
    result, emitted := Drain(DependencyGraph(services), serviceMap, inDegree, dependents, queue);
    LookupGivesServices(services, serviceMap, emitted);
    StartOrderOf(services, result);
    if |result| < |services| {
      result := AppendMissing(services, result);
    } else {
      assert result + [] == result;
    }
  }

  lemma DefinedInGraph(services: seq<Service>)
    requires DistinctNames(services) && AllDependenciesDefined(services)
    ensures DependenciesDefined(DependencyGraph(services))
  {
    var g := DependencyGraph(services);
    NamesAreKeys(services);
    GraphOfDistinctNames(services);
    forall n | n in g ensures Elements(g[n]) <= g.Keys {
      var s :| s in services && s.name == n;
      assert g[n] == Deps(g, s.name) == s.dependsOn;
    }
  }

  lemma {:induction false} NothingLeftOver(services: seq<Service>, started: set<string>)
    requires Names(services) <= started
    ensures Leftover(services, started) == []
  {
    if services != [] {
      assert services[|services| - 1].name in Names(services);
      NothingLeftOver(services[..|services| - 1], started);
    }
  }

  /** An accepted specification: a permutation with dependencies first, and nothing for the fallback to add. */
  lemma AcceptedSpecStartsInOrder(services: seq<Service>, result: seq<Service>)
    requires DistinctNames(services) && IsStartOrder(services, result)
    requires !Cyclic(DependencyGraph(services)) && AllDependenciesDefined(services)
    ensures DepsFirst(DependencyGraph(services), NameList(result))
    ensures |Startable(DependencyGraph(services))| == |result| == |services|
    ensures multiset(result) == multiset(services)
  {
    var g := DependencyGraph(services);
    DefinedInGraph(services);
    NamesAreKeys(services);
    EverythingStartsIffAcyclic(g);
    NothingLeftOver(services, Startable(g));
    PermutationHasLength(result, services);
    assert result[..|Startable(g)|] == result;
  }
}
