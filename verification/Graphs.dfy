/**
 Directed graphs as adjacency lists.

 The two facts everything else rests on: a listing in which dependencies come first rules out
 cycles, and a finite set in which every node depends on another member contains a cycle.
 */
module Graphs {
  import opened Sequences

  /** Adjacency lists. */
  type Graph<!N> = map<N, seq<N>>

  /** Looking up a missing key gives the empty list. */
  function Deps<N>(g: Graph<N>, n: N): seq<N> {
    if n in g then g[n] else []
  }

  ghost predicate Edge<N>(g: Graph<N>, a: N, b: N) {
    b in Deps(g, a)
  }

  /** Each node of the walk depends on the next one. */
  ghost predicate IsWalk<N>(g: Graph<N>, p: seq<N>) {
    |p| <= 1 || (Edge(g, p[|p| - 2], p[|p| - 1]) && IsWalk(g, p[..|p| - 1]))
  }

  ghost predicate IsCycle<N>(g: Graph<N>, p: seq<N>) {
    |p| >= 2 && p[0] == p[|p| - 1] && IsWalk(g, p)
  }

  ghost predicate Cyclic<N(!new)>(g: Graph<N>) {
    exists p :: IsCycle(g, p)
  }

  /** Every node of the listing comes after all of its own dependencies. */
  ghost predicate DepsFirst<N>(g: Graph<N>, order: seq<N>) {
    order == [] ||
    var init := order[..|order| - 1];
    DepsFirst(g, init) && Elements(Deps(g, order[|order| - 1])) <= Elements(init)
  }

  lemma {:induction false} DepsBefore<N>(g: Graph<N>, order: seq<N>, i: nat)
    requires DepsFirst(g, order) && i < |order|
    ensures Elements(Deps(g, order[i])) <= Elements(order[..i])
  {
    var init := order[..|order| - 1];
    if i < |init| {
      DepsBefore(g, init, i);
      assert init[..i] == order[..i];
    }
  }

  // ----- A dependencies-first listing leaves no room for a cycle

  ghost function FirstIndex<N>(s: seq<N>, x: N): (i: nat)
    requires x in s
    ensures i < |s| && s[i] == x && forall j :: 0 <= j < i ==> s[j] != x
  {
    if s[0] == x then 0 else 1 + FirstIndex(s[1..], x)
  }

  lemma {:induction false} WalkDescends<N>(g: Graph<N>, order: seq<N>, p: seq<N>)
    requires DepsFirst(g, order) && IsWalk(g, p)
    requires p != [] && p[0] in order
    ensures p[|p| - 1] in order
    ensures FirstIndex(order, p[|p| - 1]) + |p| - 1 <= FirstIndex(order, p[0])
  {
    if |p| > 1 {
      var init := p[..|p| - 1];
      WalkDescends(g, order, init);
      var i := FirstIndex(order, init[|init| - 1]);
      DepsBefore(g, order, i);
      assert p[|p| - 1] in Elements(order[..i]);
      var j :| 0 <= j < i && order[j] == p[|p| - 1];
    }
  }

  lemma NoCycleThroughListing<N(!new)>(g: Graph<N>, order: seq<N>)
    requires DepsFirst(g, order)
    requires forall n :: n in g ==> n in order
    ensures !Cyclic(g)
  {
    forall p | IsCycle(g, p) ensures false {
      WalkEdge(g, p, 0);
      WalkDescends(g, order, p);
    }
  }

  lemma {:induction false} WalkEdge<N>(g: Graph<N>, p: seq<N>, i: nat)
    requires IsWalk(g, p) && i + 1 < |p|
    ensures Edge(g, p[i], p[i + 1])
  {
    if i + 2 < |p| {
      WalkEdge(g, p[..|p| - 1], i);
    }
  }

  // ----- Walking forever inside a finite set closes a cycle

  lemma WalkExtends<N>(g: Graph<N>, p: seq<N>, n: N)
    requires IsWalk(g, p)
    requires p != [] ==> Edge(g, p[|p| - 1], n)
    ensures IsWalk(g, p + [n])
  {
    assert (p + [n])[..|p|] == p;
  }

  lemma {:induction false} WalkSuffix<N>(g: Graph<N>, p: seq<N>, k: nat)
    requires IsWalk(g, p) && k <= |p|
    ensures IsWalk(g, p[k..])
  {
    if k < |p| {
      WalkSuffix(g, p[..|p| - 1], k);
      assert p[k..][..|p[k..]| - 1] == p[..|p| - 1][k..];
    }
  }

  lemma BackEdgeCloses<N(!new)>(g: Graph<N>, p: seq<N>, n: N)
    requires IsWalk(g, p) && n in Elements(p) && Edge(g, p[|p| - 1], n)
    ensures Cyclic(g)
  {
    var k :| 0 <= k < |p| && p[k] == n;
    WalkSuffix(g, p, k);
    WalkExtends(g, p[k..], n);
    assert IsCycle(g, p[k..] + [n]);
  }

  ghost predicate DependsInside<N(!new)>(g: Graph<N>, among: set<N>, n: N) {
    exists d :: d in among && Edge(g, n, d)
  }

  lemma {:induction false} ExtendToCycle<N(!new)>(g: Graph<N>, trapped: set<N>, p: seq<N>)
    requires p != [] && IsWalk(g, p) && Elements(p) <= trapped
    requires forall n {:trigger DependsInside(g, trapped, n)} :: n in trapped ==> DependsInside(g, trapped, n)
    ensures Cyclic(g)
    decreases |trapped - Elements(p)|
  {
    var last := p[|p| - 1];
    assert last in Elements(p);
    assert DependsInside(g, trapped, last);
    var d :| d in trapped && Edge(g, last, d);
    if d in p {
      BackEdgeCloses(g, p, d);
    } else {
      WalkExtends(g, p, d);
      ElementsAppend(p, d);
      SubsetStrict(trapped - Elements(p + [d]), trapped - Elements(p), d);
      ExtendToCycle(g, trapped, p + [d]);
    }
  }

}
