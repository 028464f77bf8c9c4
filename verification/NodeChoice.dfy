/**
 Node selection seen from its results: what the score weighs, which nodes are candidates and which errors
 there are, said in the fields of nodes and requests alone.
 */
module NodeChoice {
  import opened Scheduler
  import opened Wrappers

  // ----- What the score weighs

  const NOTHING_ASKED := Resources(0.0, 0, 0)

  lemma FullShare(capacity: real)
    requires capacity > 0.0
    ensures Percent(capacity, capacity) == 100.0
  {
    assert capacity / capacity == 1.0;
  }

  lemma NoShare(capacity: real)
    requires capacity > 0.0
    ensures Percent(0.0, capacity) == 0.0
  {
    assert 0.0 / capacity == 0.0;
  }

  /**
   A machine with nothing but its whole CPU left scores 30, with nothing but its memory 40, with nothing but
   its disk 30, and an idle one 100.
   */
  lemma WholeResourcesScore(n: Node, cpu: bool, memory: bool, disk: bool)
    requires n.capacity.cpu > 0.0 && n.capacity.cpuUsed == if cpu then 0.0 else n.capacity.cpu
    requires n.capacity.memory > 0 && n.capacity.memoryUsed == if memory then 0 else n.capacity.memory
    requires n.capacity.disk > 0 && n.capacity.diskUsed == if disk then 0 else n.capacity.disk
    ensures ScoreNode(n, NOTHING_ASKED)
         == (if cpu then 30.0 else 0.0) + (if memory then 40.0 else 0.0) + (if disk then 30.0 else 0.0)
  {
    FullShare(n.capacity.cpu);
    FullShare(n.capacity.memory as real);
    FullShare(n.capacity.disk as real);
    NoShare(n.capacity.cpu);
    NoShare(n.capacity.memory as real);
    NoShare(n.capacity.disk as real);
  }

  /** What would be left of each resource is between nothing and all of it. */
  predicate InRange(c: Capacity, r: Resources) {
    && c.cpu > 0.0 && c.cpuUsed <= c.cpu && 0.0 <= c.cpu - c.cpuUsed - r.cpu <= c.cpu
    && c.memory > 0 && c.memoryUsed <= c.memory && 0 <= c.memory - c.memoryUsed - r.memory <= c.memory
    && c.disk > 0 && c.diskUsed <= c.disk && 0 <= c.disk - c.diskUsed - r.disk <= c.disk
  }

  lemma SharePoints(a: real, b: real, capacity: real, points: real)
    requires capacity > 0.0 && 0.0 <= a <= capacity && 0.0 <= b <= capacity
    requires (b - a) * 100.0 == points * capacity
    ensures Percent(b, capacity) == Percent(a, capacity) + points
  {
    InsideIsNotClamped(a, capacity);
    InsideIsNotClamped(b, capacity);
    assert (b / capacity) * 100.0 - (a / capacity) * 100.0 == ((b - a) * 100.0) / capacity;
    assert points * capacity / capacity == points;
  }

  lemma InsideIsNotClamped(a: real, capacity: real)
    requires capacity > 0.0 && 0.0 <= a <= capacity
    ensures Percent(a, capacity) == (a / capacity) * 100.0
  {
    assert a / capacity <= capacity / capacity == 1.0;
  }

  /** So many percentage points more of the CPU, the memory and the disk are left on `b` than on `a`. */
  predicate PointsMore(a: Capacity, b: Capacity, cpu: real, memory: real, disk: real) {
    && a.cpu == b.cpu && (a.cpuUsed - b.cpuUsed) * 100.0 == cpu * a.cpu
    && a.memory == b.memory && (a.memoryUsed - b.memoryUsed) as real * 100.0 == memory * a.memory as real
    && a.disk == b.disk && (a.diskUsed - b.diskUsed) as real * 100.0 == disk * a.disk as real
  }

  lemma AvailableInRange(c: Capacity, r: Resources)
    requires InRange(c, r)
    ensures c.AvailableCpu() == c.cpu - c.cpuUsed && c.AvailableMemory() == c.memory - c.memoryUsed
    ensures c.AvailableDisk() == c.disk - c.diskUsed
  {
  }

  lemma PointsOfEach(c: Capacity, d: Capacity, r: Resources, cpu: real, memory: real, disk: real)
    requires InRange(c, r) && InRange(d, r) && PointsMore(c, d, cpu, memory, disk)
    ensures Percent(d.AvailableCpu() - r.cpu, d.cpu) == Percent(c.AvailableCpu() - r.cpu, c.cpu) + cpu
    ensures Percent((d.AvailableMemory() - r.memory) as real, d.memory as real)
         == Percent((c.AvailableMemory() - r.memory) as real, c.memory as real) + memory
    ensures Percent((d.AvailableDisk() - r.disk) as real, d.disk as real)
         == Percent((c.AvailableDisk() - r.disk) as real, c.disk as real) + disk
  {
    AvailableInRange(c, r);
    AvailableInRange(d, r);
    SharePoints(c.cpu - c.cpuUsed - r.cpu, d.cpu - d.cpuUsed - r.cpu, c.cpu, cpu);
    SharePoints((c.memory - c.memoryUsed - r.memory) as real, (d.memory - d.memoryUsed - r.memory) as real,
                c.memory as real, memory);
    SharePoints((c.disk - c.diskUsed - r.disk) as real, (d.disk - d.diskUsed - r.disk) as real, c.disk as real, disk);
  }

  /** A percentage point of the CPU left is worth 0.3, one of the memory 0.4 and one of the disk 0.3. */
  lemma PointsAreWeighted(a: Node, b: Node, r: Resources, cpu: real, memory: real, disk: real)
    requires InRange(a.capacity, r) && InRange(b.capacity, r)
    requires PointsMore(a.capacity, b.capacity, cpu, memory, disk)
    ensures ScoreNode(b, r) == ScoreNode(a, r) + 0.3 * cpu + 0.4 * memory + 0.3 * disk
  {
    PointsOfEach(a.capacity, b.capacity, r, cpu, memory, disk);
  }

  /** Of two candidates that trade the same share of disk for memory, the one with less memory left is not selected. */
  lemma MemoryBeatsDisk(a: Node, b: Node, req: Request, points: real, s: Selection)
    requires InRange(a.capacity, req.resources) && InRange(b.capacity, req.resources)
    requires points > 0.0 && PointsMore(a.capacity, b.capacity, 0.0, points, -points)
    requires b in Candidates(req.nodes, req) && IsBest(s, Candidates(req.nodes, req), req)
    ensures s.node != a
  {
    PointsAreWeighted(a, b, req.resources, 0.0, points, -points);
    assert 0.4 * points > 0.3 * points;
  }

  /** So of two nodes that trade them, the one with more memory left is selected. */
  lemma MoreMemoryIsSelected(a: Node, b: Node, req: Request, points: real, s: Selection)
    requires InRange(a.capacity, req.resources) && InRange(b.capacity, req.resources)
    requires points > 0.0 && PointsMore(a.capacity, b.capacity, 0.0, points, -points)
    requires b in Candidates(req.nodes, req) && IsBest(s, Candidates(req.nodes, req), req)
    requires forall n :: n in req.nodes ==> n == a || n == b
    ensures s.node == b
  {
    MemoryBeatsDisk(a, b, req, points, s);
    CandidatesAreSuitable(req.nodes, req, s.node);
  }

  const DISK_IN_USE := Capacity(4.0, 8000, 100000, 0.0, 0, 80000)
  const MEMORY_IN_USE := Capacity(4.0, 8000, 100000, 0.0, 6400, 0)
  const SOME_OF_EACH := Resources(1.0, 500, 1000)

  /** Such a pair: 80 percent of the memory in use on one node, and of the disk on the other. */
  lemma EightyPointsTraded()
    ensures InRange(MEMORY_IN_USE, SOME_OF_EACH) && InRange(DISK_IN_USE, SOME_OF_EACH)
    ensures PointsMore(MEMORY_IN_USE, DISK_IN_USE, 0.0, 80.0, -80.0)
    ensures HasRoom(MEMORY_IN_USE, SOME_OF_EACH) && HasRoom(DISK_IN_USE, SOME_OF_EACH)
  {
  }

  // ----- Who is a candidate

  /** The capabilities of the node meet the request, and of each resource enough is free or none is asked. */
  ghost predicate HasRequired(n: Node, req: Request) {
    forall c :: c in req.required ==> c in n.capabilities
  }

  ghost predicate IsAllowed(n: Node, req: Request) {
    req.allowed == [] || exists c :: c in req.allowed && c in n.capabilities
  }

  predicate HasRoom(c: Capacity, r: Resources) {
    && (r.cpu <= 0.0 || c.cpu - c.cpuUsed >= r.cpu)
    && (r.memory <= 0 || c.memory - c.memoryUsed >= r.memory)
    && (r.disk <= 0 || c.disk - c.diskUsed >= r.disk)
  }

  /** The first thing in the way of a node, in the order in which the loop looks. */
  lemma WhyLeftOut(n: Node, req: Request)
    ensures FirstFailure(n, req)
         == if n.status != Online then Some(ByStatus)
            else if !HasRequired(n, req) then Some(ByCapabilities)
            else if !IsAllowed(n, req) then Some(ByPlan)
            else if !HasRoom(n.capacity, req.resources) then Some(ByCapacity)
            else None
  {
  }

  /** Selected is the best scored node that is online, capable, allowed and large enough, if there is one. */
  lemma CandidatesAreSuitable(nodes: seq<Node>, req: Request, n: Node)
    ensures n in Candidates(nodes, req) <==>
      n in nodes && n.status == Online && HasRequired(n, req) && IsAllowed(n, req) && HasRoom(n.capacity, req.resources)
  {
    CandidatesAreMembers(nodes, req);
    CandidateIffNoFailure(n, req);
    WhyLeftOut(n, req);
  }

  // ----- What the errors mean

  ghost predicate SomeoneOnline(nodes: seq<Node>) {
    exists n :: n in nodes && n.status == Online
  }

  ghost predicate SomeoneLacksRequired(nodes: seq<Node>, req: Request) {
    exists n :: n in nodes && n.status == Online && !HasRequired(n, req)
  }

  ghost predicate SomeoneIsNotAllowed(nodes: seq<Node>, req: Request) {
    exists n :: n in nodes && n.status == Online && HasRequired(n, req) && !IsAllowed(n, req)
  }

  lemma FailuresMean(nodes: seq<Node>, req: Request)
    ensures Failures(nodes, req, ByCapabilities) > 0 <==> SomeoneLacksRequired(nodes, req)
    ensures Failures(nodes, req, ByPlan) > 0 <==> SomeoneIsNotAllowed(nodes, req)
  {
    SomeoneFails(nodes, req, ByCapabilities);
    SomeoneFails(nodes, req, ByPlan);
    forall n ensures FirstFailure(n, req) == Some(ByCapabilities) <==> n.status == Online && !HasRequired(n, req) {
      WhyLeftOut(n, req);
    }
    forall n
      ensures FirstFailure(n, req) == Some(ByPlan) <==>
        n.status == Online && HasRequired(n, req) && !IsAllowed(n, req)
    {
      WhyLeftOut(n, req);
    }
  }

  /** The four errors, by what stands in the way of the nodes that are online. */
  lemma ErrorsMean(nodes: seq<Node>, req: Request)
    requires Candidates(nodes, req) == []
    ensures ErrorFor(nodes, req)
         == if !SomeoneOnline(nodes) then NoNodesAvailable
            else if SomeoneLacksRequired(nodes, req) then NoCapableNodes
            else if SomeoneIsNotAllowed(nodes, req) then NoPlanCapabilities
            else InsufficientCapacity
  {
    NoNodesMeansNoneOnline(nodes, req);
    FailuresMean(nodes, req);
  }
}
