/** `AllocatePort`: the first unused port of a range. */
module Ports {
  import opened Wrappers

  /** Both ends are included. */
  datatype PortRange = PortRange(start: int, end: int)

  const DEFAULT_RANGE := PortRange(30000, 39999)

  predicate ValidatePort(port: int, range: PortRange) {
    range.start <= port <= range.end
  }

  ghost function PortsIn(range: PortRange): set<int> {
    set p: int | range.start <= p <= range.end && ValidatePort(p, range)
  }

  ghost predicate IsLeastUnused(used: set<int>, range: PortRange, p: int) {
    p !in used && ValidatePort(p, range) && forall q :: range.start <= q < p ==> q in used
  }

  method AllocatePort(usedPorts: seq<int>, range: PortRange) returns (r: Option<int>)
    ensures r == FirstUnused((set p | p in usedPorts), range)
  {
    var used: set<int> := {};
    for i := 0 to |usedPorts|
      invariant used == set p | p in usedPorts[..i]
    {
      assert usedPorts[..i + 1] == usedPorts[..i] + [usedPorts[i]];
      used := used + {usedPorts[i]};
    }
    assert usedPorts[..|usedPorts|] == usedPorts;
    var port := range.start;
    while port <= range.end
      invariant FirstUnused(used, range.(start := port)) == FirstUnused(used, range)
      decreases range.end - port
    {
      if port !in used {
        return Some(port);
      }
      port := port + 1;
    }
    return None;
  }

  ghost function FirstUnused(used: set<int>, range: PortRange): Option<int>
    decreases range.end - range.start
  {
    if range.start > range.end then None
    else if range.start !in used then Some(range.start)
    else FirstUnused(used, range.(start := range.start + 1))
  }

  /** The least unused port when there is one; failure exactly when the whole range is used. */
  lemma {:induction false} FirstUnusedIsLeast(used: set<int>, range: PortRange)
    ensures FirstUnused(used, range).Some? ==> IsLeastUnused(used, range, FirstUnused(used, range).value)
    ensures FirstUnused(used, range).None? <==> PortsIn(range) <= used
    decreases range.end - range.start
  {
    if range.start <= range.end && range.start in used {
      var rest := range.(start := range.start + 1);
      FirstUnusedIsLeast(used, rest);
      assert PortsIn(range) == PortsIn(rest) + {range.start};
    }
  }

  /** Fewer distinct used ports than the range holds always leave one, whatever else is listed. */
  lemma RoomLeavesAPort(used: set<int>, range: PortRange)
    requires |used * PortsIn(range)| < |PortsIn(range)|
    ensures FirstUnused(used, range).Some?
  {
    FirstUnusedIsLeast(used, range);
    assert PortsIn(range) <= used ==> used * PortsIn(range) == PortsIn(range);
  }

  lemma {:induction false} RangeSize(range: PortRange)
    requires range.start <= range.end + 1
    ensures |PortsIn(range)| == range.end + 1 - range.start
    decreases range.end - range.start
  {
    if range.start <= range.end {
      var rest := range.(start := range.start + 1);
      RangeSize(rest);
      assert PortsIn(range) == PortsIn(rest) + {range.start};
    } else {
      assert PortsIn(range) == {};
    }
  }
}
