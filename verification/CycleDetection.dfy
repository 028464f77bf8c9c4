/**
 `detectCircularDependencies`: depth-first search over the `depends_on` lists with a visited
 map and a recursion-stack map.
 */
module CycleDetection {
  import opened Graphs
  import opened Sequences
  import opened Services

  /** Looking up a missing key gives false. */
  predicate Marked<N>(m: map<N, bool>, n: N) {
    n in m && m[n]
  }

  ghost function MarkedSet<N>(m: map<N, bool>): set<N> {
    set n | n in m && m[n]
  }

  /** Every node that can be visited, for the termination measure. */
  ghost predicate Within<N>(g: Graph<N>, nodes: set<N>) {
    g.Keys <= nodes && forall a :: a in g ==> Elements(g[a]) <= nodes
  }

  ghost function Nodes<N>(g: Graph<N>): (nodes: set<N>)
    ensures Within(g, nodes)
  {
    g.Keys + (set n, d | n in g && d in g[n] :: d)
  }

  /** The walk from the outermost open call to the innermost one. */
  ghost predicate WalkOver<N>(g: Graph<N>, path: seq<N>, active: set<N>) {
    IsWalk(g, path) && Elements(path) == active
  }

  /** The set can be listed with dependencies first, so it is closed and has no cycle inside. */
  ghost predicate Settled<N(!new)>(g: Graph<N>, done: set<N>) {
    exists order :: DepsFirst(g, order) && Elements(order) == done
  }

  lemma SettledGrows<N(!new)>(g: Graph<N>, done: set<N>, n: N)
    requires Settled(g, done) && Elements(Deps(g, n)) <= done
    ensures Settled(g, done + {n})
  {
    var order :| DepsFirst(g, order) && Elements(order) == done;
    assert (order + [n])[..|order|] == order;
    ElementsAppend(order, n);
  }

  class Detector<N(==,!new)> {
    const deps: Graph<N>
    ghost const nodes: set<N>
    var visited: map<N, bool>
    var recStack: map<N, bool>

    // The open calls, outermost first, and the nodes whose calls returned false.
    ghost var path: seq<N>
    ghost var done: set<N>

    ghost predicate Valid()
      reads this
    {
      && Within(deps, nodes)
      && WalkOver(deps, path, MarkedSet(recStack))
      && Settled(deps, done)
      && MarkedSet(recStack) !! done
      && MarkedSet(visited) == MarkedSet(recStack) + done
    }

    ghost function Unvisited(): set<N>
      reads this
    {
      nodes - MarkedSet(visited)
    }

    constructor (deps: Graph<N>)
      ensures Valid() && this.deps == deps && path == [] && done == {}
    {
      this.deps, nodes := deps, Nodes(deps);
      visited, recStack := map[], map[];
      path, done := [], {};
      new;
      assert DepsFirst(deps, []) && Elements<N>([]) == {};
    }

    method Enter(node: N)
      requires Valid() && !Marked(visited, node)
      requires path != [] ==> Edge(deps, path[|path| - 1], node)
      modifies this
      ensures Valid() && path == old(path) + [node] && done == old(done)
      ensures MarkedSet(visited) == old(MarkedSet(visited)) + {node}
    {
      assert node !in MarkedSet(visited);
      WalkExtends(deps, path, node);
      ElementsAppend(path, node);
      visited := visited[node := true];
      recStack := recStack[node := true];
      path := path + [node];
      assert MarkedSet(visited) == old(MarkedSet(visited)) + {node};
      assert MarkedSet(recStack) == old(MarkedSet(recStack)) + {node};
    }

    /** Explores everything reachable from `node`; true as soon as a cycle is met. */
    method HasCycle(node: N) returns (cycle: bool)
      requires Valid() && !Marked(visited, node) && node in nodes
      requires path != [] ==> Edge(deps, path[|path| - 1], node)
      modifies this
      ensures cycle ==> Cyclic(deps)
      ensures !cycle ==> Valid() && path == old(path) && old(done) + {node} <= done
      ensures !cycle ==> Unvisited() <= old(Unvisited())
      decreases |Unvisited()|, 0
    {
      Enter(node);
      SubsetStrict(Unvisited(), old(Unvisited()), node);
      cycle := FollowAll(node);
      if !cycle {
        Leave(node);
      }
    }

    /** The loop of `HasCycle` over the dependencies of the innermost open node. */
    method FollowAll(node: N) returns (cycle: bool)
      requires Valid() && path != [] && path[|path| - 1] == node
      modifies this
      ensures cycle ==> Cyclic(deps)
      ensures !cycle ==> Valid() && path == old(path)
      ensures !cycle ==> old(done) <= done && Elements(Deps(deps, node)) <= done
      decreases |Unvisited()|, 2
    {
      var ds := Deps(deps, node);
      for i := 0 to |ds|
        invariant Valid() && path == old(path) && Unvisited() <= old(Unvisited())
        invariant old(done) <= done && Elements(ds[..i]) <= done
      {
        SubsetSize(Unvisited(), old(Unvisited()));
        var found := Follow(node, ds[i]);
        if found {
          return true;
        }
        PrefixGrows(ds, i);
      }
      assert ds[..|ds|] == ds;
      return false;
    }

    /** One dependency of the innermost open node: the body of the loop in `HasCycle`. */
    method Follow(node: N, dep: N) returns (cycle: bool)
      requires Valid() && path != [] && path[|path| - 1] == node && Edge(deps, node, dep)
      modifies this
      ensures cycle ==> Cyclic(deps)
      ensures !cycle ==> Valid() && path == old(path) && old(done) + {dep} <= done
      ensures !cycle ==> Unvisited() <= old(Unvisited())
      decreases |Unvisited()|, 1
    {
      if dep == node {
        BackEdgeCloses(deps, path, dep);
        return true;
      }
      if !Marked(visited, dep) {
        cycle := HasCycle(dep);
      } else if Marked(recStack, dep) {
        assert dep in MarkedSet(recStack);
        BackEdgeCloses(deps, path, dep);
        return true;
      } else {
        assert dep in MarkedSet(visited) - MarkedSet(recStack);
        return false;
      }
    }

    method Leave(node: N)
      requires Valid() && path != [] && path[|path| - 1] == node && node !in path[..|path| - 1]
      requires Elements(Deps(deps, node)) <= done
      modifies this
      ensures Valid() && path == old(path)[..|old(path)| - 1] && done == old(done) + {node}
    {
      ghost var outer := path[..|path| - 1];
      assert path == outer + [node];
      ElementsAppend(outer, node);
      SettledGrows(deps, done, node);
      recStack := recStack[node := false];
      assert MarkedSet(recStack) == old(MarkedSet(recStack)) - {node};
      path, done := outer, done + {node};
    }
  }

  lemma SettledIsAcyclic<N(!new)>(g: Graph<N>, done: set<N>)
    requires Settled(g, done) && g.Keys <= done
    ensures !Cyclic(g)
  {
    var order :| DepsFirst(g, order) && Elements(order) == done;
    NoCycleThroughListing(g, order);
  }

  method AdjacencyLists(services: seq<Service>) returns (deps: Graph<string>)
    ensures deps == DependencyGraph(services)
  {
    deps := map[];
    for i := 0 to |services|
      invariant deps == DependencyGraph(services[..i])
    {
      assert services[..i + 1][..i] == services[..i];
      deps := deps[services[i].name := services[i].dependsOn];
    }
    assert services[..|services|] == services;
  }

  /** The search answers the graph question exactly, on every list of services. */
  method DetectCircularDependencies(services: seq<Service>) returns (circular: bool)
    ensures circular <==> Cyclic(DependencyGraph(services))
  {
    var deps := AdjacencyLists(services);
    NamesAreKeys(services);

    var detector := new Detector(deps);
    for i := 0 to |services|
      invariant detector.Valid() && detector.path == [] && detector.deps == deps
      invariant Names(services[..i]) <= detector.done
    {
      assert services[i] in services;
      assert services[..i + 1] == services[..i] + [services[i]];
      if !Marked(detector.visited, services[i].name) {
        var found := detector.HasCycle(services[i].name);
        if found {
          return true;
        }
      } else {
        assert services[i].name in MarkedSet(detector.visited);
      }
    }
    assert services[..|services|] == services;
    SettledIsAcyclic(deps, detector.done);
    return false;
  }
}
