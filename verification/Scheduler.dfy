/**
 Node selection: `Schedule` with its fused filters and best-score choice, the separate filter
 functions it refines, and the score. Floating-point numbers are reals here.
 */
module Scheduler {
  import opened Wrappers

  datatype Status = Online | Offline | Maintenance

  datatype Capacity = Capacity(cpu: real, memory: int, disk: int, cpuUsed: real, memoryUsed: int, diskUsed: int) {
    function AvailableCpu(): real {
      if cpu - cpuUsed < 0.0 then 0.0 else cpu - cpuUsed
    }

    function AvailableMemory(): int {
      if memory - memoryUsed < 0 then 0 else memory - memoryUsed
    }

    function AvailableDisk(): int {
      if disk - diskUsed < 0 then 0 else disk - diskUsed
    }

    predicate CanHandle(r: Resources) {
      AvailableCpu() >= r.cpu && AvailableMemory() >= r.memory && AvailableDisk() >= r.disk
    }
  }

  datatype Resources = Resources(cpu: real, memory: int, disk: int)

  datatype Node = Node(ref: string, status: Status, capabilities: seq<string>, capacity: Capacity) {
    predicate HasAllCapabilities(caps: seq<string>) {
      forall c :: c in caps ==> c in capabilities
    }

    predicate HasAnyCapability(caps: seq<string>) {
      caps == [] || exists c :: c in caps && c in capabilities
    }
  }

  /** Empty capability lists mean no restriction. */
  datatype Request = Request(nodes: seq<Node>, resources: Resources, required: seq<string>, allowed: seq<string>)

  datatype Filter = ByStatus | ByCapabilities | ByPlan | ByCapacity

  predicate Passes(f: Filter, n: Node, req: Request) {
    match f
    case ByStatus => n.status == Online
    case ByCapabilities => req.required == [] || n.HasAllCapabilities(req.required)
    case ByPlan => req.allowed == [] || n.HasAnyCapability(req.allowed)
    case ByCapacity => n.capacity.CanHandle(req.resources)
  }

  // ----- The separate filters

  function Filtered(f: Filter, nodes: seq<Node>, req: Request): seq<Node> {
    if nodes == [] then []
    else
      var last := nodes[|nodes| - 1];
      Filtered(f, nodes[..|nodes| - 1], req) + if Passes(f, last, req) then [last] else []
  }

  method FilterNodes(f: Filter, nodes: seq<Node>, req: Request) returns (result: seq<Node>)
    ensures result == Filtered(f, nodes, req)
  {
    result := [];
    for i := 0 to |nodes|
      invariant result == Filtered(f, nodes[..i], req)
    {
      assert nodes[..i + 1][..i] == nodes[..i];
      if Passes(f, nodes[i], req) {
        result := result + [nodes[i]];
      }
    }
    assert nodes[..|nodes|] == nodes;
  }

  function Pipeline(filters: seq<Filter>, nodes: seq<Node>, req: Request): seq<Node> {
    if filters == [] then nodes else Filtered(filters[0], Pipeline(filters[1..], nodes, req), req)
  }

  // ----- What passes every filter

  predicate PassesAll(filters: seq<Filter>, n: Node, req: Request) {
    forall f :: f in filters ==> Passes(f, n, req)
  }

  function Kept(filters: seq<Filter>, nodes: seq<Node>, req: Request): seq<Node> {
    if nodes == [] then []
    else
      var last := nodes[|nodes| - 1];
      Kept(filters, nodes[..|nodes| - 1], req) + if PassesAll(filters, last, req) then [last] else []
  }

  const FILTERS := [ByStatus, ByCapabilities, ByPlan, ByCapacity]

  /** What passes all four. */
  function Candidates(nodes: seq<Node>, req: Request): seq<Node> {
    Kept(FILTERS, nodes, req)
  }

  lemma {:induction false} FilteringKept(f: Filter, filters: seq<Filter>, nodes: seq<Node>, req: Request)
    ensures Filtered(f, Kept(filters, nodes, req), req) == Kept([f] + filters, nodes, req)
  {
    if nodes != [] {
      var init, last := nodes[..|nodes| - 1], nodes[|nodes| - 1];
      FilteringKept(f, filters, init, req);
      var kept := Kept(filters, init, req);
      assert (kept + [last])[..|kept|] == kept && kept + [] == kept;
      assert PassesAll([f] + filters, last, req) <==> Passes(f, last, req) && PassesAll(filters, last, req);
    }
  }

  lemma {:induction false} PipelineKeeps(filters: seq<Filter>, nodes: seq<Node>, req: Request)
    ensures Pipeline(filters, nodes, req) == Kept(filters, nodes, req)
  {
    if filters == [] {
      NothingFiltered(nodes, req);
    } else {
      PipelineKeeps(filters[1..], nodes, req);
      FilteringKept(filters[0], filters[1..], nodes, req);
      assert filters == [filters[0]] + filters[1..];
    }
  }

  lemma {:induction false} NothingFiltered(nodes: seq<Node>, req: Request)
    ensures Kept([], nodes, req) == nodes
  {
    if nodes != [] {
      NothingFiltered(nodes[..|nodes| - 1], req);
      assert nodes == nodes[..|nodes| - 1] + [nodes[|nodes| - 1]];
    }
  }

  /** Composing all four filters gives the candidates, whatever the order and with repetitions. */
  lemma AnyFilterOrderGivesCandidates(filters: seq<Filter>, nodes: seq<Node>, req: Request)
    requires forall f :: f in filters
    ensures Pipeline(filters, nodes, req) == Candidates(nodes, req)
  {
    PipelineKeeps(filters, nodes, req);
    KeptByAllFilters(filters, nodes, req);
  }

  lemma EveryFilterListed(f: Filter)
    ensures f in FILTERS
  {
    match f
    case ByStatus => assert FILTERS[0] == f;
    case ByCapabilities => assert FILTERS[1] == f;
    case ByPlan => assert FILTERS[2] == f;
    case ByCapacity => assert FILTERS[3] == f;
  }

  lemma {:induction false} KeptByAllFilters(filters: seq<Filter>, nodes: seq<Node>, req: Request)
    requires forall f :: f in filters
    ensures Kept(filters, nodes, req) == Candidates(nodes, req)
  {
    if nodes != [] {
      KeptByAllFilters(filters, nodes[..|nodes| - 1], req);
      forall f: Filter ensures f in FILTERS {
        EveryFilterListed(f);
      }
    }
  }

  // ----- The score

  /** The share of the capacity that would be left, as a percentage between 0 and 100. */
  function Percent(left: real, capacity: real): real {
    if capacity > 0.0 then Clamp((left / capacity) * 100.0) else 0.0
  }

  function Clamp(x: real): real {
    if x < 0.0 then 0.0 else if x > 100.0 then 100.0 else x
  }

  function ScoreNode(n: Node, required: Resources): real {
    var c := n.capacity;
    Percent(c.AvailableCpu() - required.cpu, c.cpu) * 0.3
      + Percent((c.AvailableMemory() - required.memory) as real, c.memory as real) * 0.4
      + Percent((c.AvailableDisk() - required.disk) as real, c.disk as real) * 0.3
  }

  lemma ScoreInRange(n: Node, required: Resources)
    ensures 0.0 <= ScoreNode(n, required) <= 100.0
  {
    var c := n.capacity;
    var p := Percent(c.AvailableCpu() - required.cpu, c.cpu);
    var q := Percent((c.AvailableMemory() - required.memory) as real, c.memory as real);
    var r := Percent((c.AvailableDisk() - required.disk) as real, c.disk as real);
    assert 0.0 <= p <= 100.0 && 0.0 <= q <= 100.0 && 0.0 <= r <= 100.0;
  }

  lemma PercentMonotone(a: real, b: real, capacity: real)
    requires a <= b
    ensures Percent(a, capacity) <= Percent(b, capacity)
  {
    if capacity > 0.0 {
      assert b / capacity - a / capacity == (b - a) / capacity;
    }
  }

  /** The same machine with at least as much of everything in use. */
  predicate BusierThan(a: Capacity, b: Capacity) {
    && a.cpu == b.cpu && a.memory == b.memory && a.disk == b.disk
    && a.cpuUsed >= b.cpuUsed && a.memoryUsed >= b.memoryUsed && a.diskUsed >= b.diskUsed
  }

  predicate AsksMore(a: Resources, b: Resources) {
    a.cpu >= b.cpu && a.memory >= b.memory && a.disk >= b.disk
  }

  /** More usage or a larger request never raises the score, nor makes an unfit node fit. */
  lemma ScoreIsAntitone(n: Node, busier: Capacity, required: Resources, more: Resources)
    requires BusierThan(busier, n.capacity) && AsksMore(more, required)
    ensures ScoreNode(n.(capacity := busier), more) <= ScoreNode(n, required)
    ensures busier.CanHandle(more) ==> n.capacity.CanHandle(required)
  {
    var c := n.capacity;
    PercentMonotone(busier.AvailableCpu() - more.cpu, c.AvailableCpu() - required.cpu, c.cpu);
    PercentMonotone((busier.AvailableMemory() - more.memory) as real,
                    (c.AvailableMemory() - required.memory) as real, c.memory as real);
    PercentMonotone((busier.AvailableDisk() - more.disk) as real,
                    (c.AvailableDisk() - required.disk) as real, c.disk as real);
  }

  // ----- Schedule

  datatype Error = NoNodesAvailable | NoCapableNodes | NoPlanCapabilities | InsufficientCapacity

  datatype Selection = Selection(node: Node, score: real)

  datatype Outcome = Outcome(result: Result<Selection, Error>, considered: nat, reasons: map<Filter, nat>)

  function CountOf(reasons: map<Filter, nat>, f: Filter): nat {
    if f in reasons then reasons[f] else 0
  }

  function CountOne(reasons: map<Filter, nat>, f: Filter): (r: map<Filter, nat>)
    ensures forall g :: CountOf(r, g) == CountOf(reasons, g) + if f == g then 1 else 0
  {
    reasons[f := CountOf(reasons, f) + 1]
  }

  /** The first filter a node fails, in the order of the fused loop. */
  function FirstFailure(n: Node, req: Request): Option<Filter> {
    if !Passes(ByStatus, n, req) then Some(ByStatus)
    else if !Passes(ByCapabilities, n, req) then Some(ByCapabilities)
    else if !Passes(ByPlan, n, req) then Some(ByPlan)
    else if !Passes(ByCapacity, n, req) then Some(ByCapacity)
    else None
  }

  function Failures(nodes: seq<Node>, req: Request, f: Filter): nat {
    if nodes == [] then 0
    else Failures(nodes[..|nodes| - 1], req, f) + if FirstFailure(nodes[|nodes| - 1], req) == Some(f) then 1 else 0
  }

  ghost predicate IsBest(s: Selection, candidates: seq<Node>, req: Request) {
    && s.node in candidates && s.score == ScoreNode(s.node, req.resources)
    && forall n :: n in candidates ==> ScoreNode(n, req.resources) <= s.score
  }

  /** Which error an empty candidate list leads to. */
  function ErrorFor(nodes: seq<Node>, req: Request): Error {
    if Failures(nodes, req, ByPlan) > 0 && Failures(nodes, req, ByCapabilities) == 0 then NoPlanCapabilities
    else if Failures(nodes, req, ByCapabilities) > 0 then NoCapableNodes
    else if Failures(nodes, req, ByCapacity) > 0 then InsufficientCapacity
    else NoNodesAvailable
  }

  lemma CandidateIffNoFailure(n: Node, req: Request)
    ensures PassesAll(FILTERS, n, req) <==> FirstFailure(n, req).None?
  {
    forall f: Filter ensures f in FILTERS {
      EveryFilterListed(f);
    }
  }

  // ----- Sorting by descending score

  ghost predicate Descending<T>(s: seq<T>, score: T -> real) {
    forall i, j :: 0 <= i < j < |s| ==> score(s[i]) >= score(s[j])
  }

  function Swap<T>(s: seq<T>, i: nat, j: nat): (t: seq<T>)
    requires i < |s| && j < |s|
    ensures multiset(t) == multiset(s)
  {
    s[i := s[j]][j := s[i]]
  }

  /** Up to `i` only the item at `j` may score higher than one before it. */
  ghost predicate DescendingBut<T>(s: seq<T>, i: nat, j: nat, score: T -> real)
    requires j <= i < |s|
  {
    forall a, b :: 0 <= a < b <= i && b != j ==> score(s[a]) >= score(s[b])
  }

  lemma SinkStep<T>(s: seq<T>, i: nat, j: nat, score: T -> real)
    requires 0 < j <= i < |s| && DescendingBut(s, i, j, score) && score(s[j]) > score(s[j - 1])
    ensures DescendingBut(Swap(s, j, j - 1), i, j - 1, score)
  {
  }

  /** Highest score first; the order of equal scores is left open by the contract, as by `sort.Slice`. */
  method SortDescending<T>(items: seq<T>, score: T -> real) returns (sorted: seq<T>)
    ensures multiset(sorted) == multiset(items) && Descending(sorted, score)
  {
    sorted := items;
    for i := 0 to |items|
      invariant |sorted| == |items| && multiset(sorted) == multiset(items)
      invariant Descending(sorted[..i], score)
    {
      var j := i;
      while j > 0 && score(sorted[j]) > score(sorted[j - 1])
        invariant 0 <= j <= i && |sorted| == |items| && multiset(sorted) == multiset(items)
        invariant DescendingBut(sorted, i, j, score)
      {
        SinkStep(sorted, i, j, score);
        sorted := Swap(sorted, j, j - 1);
        j := j - 1;
      }
    }
  }

  lemma FirstIsBest<T>(items: seq<T>, sorted: seq<T>, score: T -> real)
    requires items != [] && multiset(sorted) == multiset(items) && Descending(sorted, score)
    ensures sorted != [] && sorted[0] in items && forall x :: x in items ==> score(x) <= score(sorted[0])
  {
    assert |multiset(sorted)| == |multiset(items)| && sorted[0] in multiset(items);
    forall x | x in items ensures score(x) <= score(sorted[0]) {
      assert x in multiset(sorted);
      var i :| 0 <= i < |sorted| && sorted[i] == x;
    }
  }

  method SortByScore(nodes: seq<Node>, required: Resources) returns (sorted: seq<Node>)
    ensures multiset(sorted) == multiset(nodes) && Descending(sorted, n => ScoreNode(n, required))
  {
    sorted := SortDescending(nodes, n => ScoreNode(n, required));
  }

  /** The simple way to choose: all the filters one after the other, then the first node by score. */
  lemma SimpleChoiceScoresTheSame(filters: seq<Filter>, req: Request, sorted: seq<Node>, s: Selection)
    requires (forall f :: f in filters) && IsBest(s, Candidates(req.nodes, req), req)
    requires multiset(sorted) == multiset(Pipeline(filters, req.nodes, req))
    requires Descending(sorted, n => ScoreNode(n, req.resources))
    ensures sorted != [] && ScoreNode(sorted[0], req.resources) == s.score
  {
    AnyFilterOrderGivesCandidates(filters, req.nodes, req);
    FirstIsBest(Candidates(req.nodes, req), sorted, n => ScoreNode(n, req.resources));
  }

  function Scored(nodes: seq<Node>, required: Resources): seq<Selection> {
    seq(|nodes|, i requires 0 <= i < |nodes| => Selection(nodes[i], ScoreNode(nodes[i], required)))
  }

  lemma NextNode(req: Request, i: nat)
    requires i < |req.nodes|
    ensures var failure := FirstFailure(req.nodes[i], req);
            && Scored(Candidates(req.nodes[..i + 1], req), req.resources)
            == Scored(Candidates(req.nodes[..i], req), req.resources)
               + (if failure.None? then [Selection(req.nodes[i], ScoreNode(req.nodes[i], req.resources))] else [])
            && forall f :: Failures(req.nodes[..i + 1], req, f)
                        == Failures(req.nodes[..i], req, f) + if failure == Some(f) then 1 else 0
  {
    assert req.nodes[..i + 1][..i] == req.nodes[..i];
    CandidateIffNoFailure(req.nodes[i], req);
  }

  /** One round of the fused loop: the reason to leave the node out, if any. */
  method FindReason(node: Node, req: Request) returns (reason: Option<Filter>)
    ensures reason == FirstFailure(node, req)
  {
    if node.status != Online {
      return Some(ByStatus);
    }
    if |req.required| > 0 {
      if !node.HasAllCapabilities(req.required) {
        return Some(ByCapabilities);
      }
    }
    if |req.allowed| > 0 {
      if !node.HasAnyCapability(req.allowed) {
        return Some(ByPlan);
      }
    }
    if !node.capacity.CanHandle(req.resources) {
      return Some(ByCapacity);
    }
    return None;
  }

  /** The fused loop, then the best candidate or the error that the counts call for. */
  method Schedule(req: Request) returns (o: Outcome)
    ensures o.considered == |req.nodes|
    ensures forall f :: CountOf(o.reasons, f) == Failures(req.nodes, req, f)
    ensures match o.result
            case Success(s) => IsBest(s, Candidates(req.nodes, req), req)
            case Failure(e) => Candidates(req.nodes, req) == [] && e == ErrorFor(req.nodes, req)
  {
    if |req.nodes| == 0 {
      return Outcome(Failure(NoNodesAvailable), 0, map[]);
    }
    var considered := 0;
    var reasons: map<Filter, nat> := map[];
    var candidates: seq<Selection> := [];
    for i := 0 to |req.nodes|
      invariant considered == i
      invariant forall f :: CountOf(reasons, f) == Failures(req.nodes[..i], req, f)
      invariant candidates == Scored(Candidates(req.nodes[..i], req), req.resources)
    {
      var node := req.nodes[i];
      NextNode(req, i);
      considered := considered + 1;
      var reason := FindReason(node, req);
      if reason.Some? {
        reasons := CountOne(reasons, reason.value);
        continue;
      }
      candidates := candidates + [Selection(node, ScoreNode(node, req.resources))];
    }
    assert req.nodes[..|req.nodes|] == req.nodes;
    if |candidates| == 0 {
      if CountOf(reasons, ByPlan) > 0 && CountOf(reasons, ByCapabilities) == 0 {
        return Outcome(Failure(NoPlanCapabilities), considered, reasons);
      }
      if CountOf(reasons, ByCapabilities) > 0 {
        return Outcome(Failure(NoCapableNodes), considered, reasons);
      }
      if CountOf(reasons, ByCapacity) > 0 {
        return Outcome(Failure(InsufficientCapacity), considered, reasons);
      }
      return Outcome(Failure(NoNodesAvailable), considered, reasons);
    }
    var sorted := SortDescending(candidates, (s: Selection) => s.score);
    FirstIsBest(candidates, sorted, (s: Selection) => s.score);
    BestOfScored(Candidates(req.nodes, req), req, sorted[0]);
    return Outcome(Success(sorted[0]), considered, reasons);
  }

  lemma BestOfScored(nodes: seq<Node>, req: Request, best: Selection)
    requires best in Scored(nodes, req.resources)
    requires forall s :: s in Scored(nodes, req.resources) ==> s.score <= best.score
    ensures IsBest(best, nodes, req)
  {
    forall n | n in nodes ensures ScoreNode(n, req.resources) <= best.score {
      var i :| 0 <= i < |nodes| && nodes[i] == n;
      assert Scored(nodes, req.resources)[i] in Scored(nodes, req.resources);
    }
  }

  /** Every node is either a candidate or counted under exactly one reason. */
  lemma {:induction false} CountsAddUp(nodes: seq<Node>, req: Request)
    ensures |nodes| == |Candidates(nodes, req)| + Failures(nodes, req, ByStatus) + Failures(nodes, req, ByCapabilities)
                       + Failures(nodes, req, ByPlan) + Failures(nodes, req, ByCapacity)
  {
    if nodes != [] {
      CountsAddUp(nodes[..|nodes| - 1], req);
      CandidateIffNoFailure(nodes[|nodes| - 1], req);
    }
  }

  lemma {:induction false} SomeoneFails(nodes: seq<Node>, req: Request, f: Filter)
    ensures Failures(nodes, req, f) > 0 <==> exists n :: n in nodes && FirstFailure(n, req) == Some(f)
  {
    if nodes != [] {
      var init, last := nodes[..|nodes| - 1], nodes[|nodes| - 1];
      SomeoneFails(init, req, f);
      assert nodes == init + [last];
    }
  }

  lemma {:induction false} CandidatesAreMembers(nodes: seq<Node>, req: Request)
    ensures forall n :: n in Candidates(nodes, req) <==> n in nodes && PassesAll(FILTERS, n, req)
  {
    if nodes != [] {
      var init, last := nodes[..|nodes| - 1], nodes[|nodes| - 1];
      CandidatesAreMembers(init, req);
      assert nodes == init + [last];
    }
  }

  /** "No nodes available" is the error exactly when no node is online. */
  lemma NoNodesMeansNoneOnline(nodes: seq<Node>, req: Request)
    ensures Candidates(nodes, req) == [] && ErrorFor(nodes, req) == NoNodesAvailable
       <==> forall n :: n in nodes ==> n.status != Online
  {
    CandidatesAreMembers(nodes, req);
    SomeoneFails(nodes, req, ByCapabilities);
    SomeoneFails(nodes, req, ByPlan);
    SomeoneFails(nodes, req, ByCapacity);
    if n :| n in nodes && n.status == Online {
      CandidateIffNoFailure(n, req);
      match FirstFailure(n, req)
      case None => assert n in Candidates(nodes, req);
      case Some(f) =>
    } else {
      assert Candidates(nodes, req) != [] ==> Candidates(nodes, req)[0] in Candidates(nodes, req);
    }
  }
}
