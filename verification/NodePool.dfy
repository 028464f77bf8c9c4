/**
 The pool of SSH clients, one per node, behind a read-write lock.

 Every lock section is one atomic step, so an interleaving of any number of callers is a
 sequence of such steps; a caller between its two sections is remembered with the node it asked
 for. Clients are numbered in the order in which the pool, or a ping, is done creating them: the
 client of a ping is its own until the ping ends.
 */
module NodePool {
  import opened Wrappers

  /** `Stored` stands for a client that a ping put in the cache. */
  datatype Entry =
    | Returned(node: string, client: nat)
    | Removed(node: string)
    | RemovedAll
    | Stored(node: string)

  /** `closed` counts the Close calls of each client; `waiting` and `pinging` map callers to their node. */
  datatype Pool = Pool(
    clients: map<string, nat>,
    created: nat,
    closed: multiset<nat>,
    waiting: map<nat, string>,
    pinging: map<nat, string>,
    history: seq<Entry>)

  const EMPTY := Pool(map[], 0, multiset{}, map[], map[], [])

  datatype PingOutcome = NoConnection | Unanswered | Answered

  /** What a caller finds out on the way to a connection. */
  datatype Lookup = Lookup(
    nodeFound: bool,
    nodeOnline: bool,
    hasKey: bool,
    keyFound: bool,
    decrypts: bool,
    dials: bool)
  {
    predicate Connects() {
      nodeOnline && Reaches()
    }

    /** A ping does not ask for the status of the node. */
    predicate Reaches() {
      nodeFound && hasKey && keyFound && decrypts && dials
    }

    function Ping(answers: bool): PingOutcome {
      if !Reaches() then NoConnection else if answers then Answered else Unanswered
    }
  }

  datatype Step =
    | FastPath(caller: nat, node: string)
    | SlowPath(caller: nat, connects: bool)
    | Remove(node: string)
    | CloseAll
    | PingLook(caller: nat, node: string)
    | PingEnd(caller: nat, outcome: PingOutcome)

  function Return(p: Pool, node: string): Pool
    requires node in p.clients
  {
    p.(history := p.history + [Returned(node, p.clients[node])])
  }

  function Connect(p: Pool, node: string): Pool {
    p.(clients := p.clients[node := p.created], created := p.created + 1)
  }

  /** The section under the read lock: a hit returns, a miss queues for the write lock. */
  function Fast(p: Pool, caller: nat, node: string): Pool {
    if node in p.clients then Return(p, node) else p.(waiting := p.waiting[caller := node])
  }

  /** The section under the write lock, with its second look at the cache. */
  function Slow(p: Pool, caller: nat, connects: bool): Pool
    requires caller in p.waiting
  {
    var node := p.waiting[caller];
    var q := p.(waiting := p.waiting - {caller});
    if node in p.clients then Return(q, node)
    else if connects then Return(Connect(q, node), node)
    else q
  }

  function Drop(p: Pool, node: string): Pool {
    if node !in p.clients then p
    else p.(clients := p.clients - {node}, closed := p.closed + multiset{p.clients[node]},
            history := p.history + [Removed(node)])
  }

  function DropAll(p: Pool): Pool {
    p.(clients := map[], closed := p.closed + multiset(p.clients.Values), history := p.history + [RemovedAll])
  }

  /** A client that is closed by the ping that created it. */
  function Discard(p: Pool): Pool {
    p.(created := p.created + 1, closed := p.closed + multiset{p.created})
  }

  /** Without a second look at the cache. */
  function Store(p: Pool, node: string): Pool {
    Connect(p, node).(history := p.history + [Stored(node)])
  }

  function Ping(p: Pool, caller: nat, outcome: PingOutcome): Pool
    requires caller in p.pinging
  {
    var q := p.(pinging := p.pinging - {caller});
    match outcome
    case NoConnection => q
    case Unanswered => Discard(q)
    case Answered => Store(q, p.pinging[caller])
  }

  function Apply(p: Pool, s: Step): Pool {
    match s
    case FastPath(caller, node) => Fast(p, caller, node)
    case SlowPath(caller, connects) => if caller in p.waiting then Slow(p, caller, connects) else p
    case Remove(node) => Drop(p, node)
    case CloseAll => DropAll(p)
    case PingLook(caller, node) => if node in p.clients then p else p.(pinging := p.pinging[caller := node])
    case PingEnd(caller, outcome) => if caller in p.pinging then Ping(p, caller, outcome) else p
  }

  function Run(p: Pool, steps: seq<Step>): Pool {
    if steps == [] then p else Apply(Run(p, steps[..|steps| - 1]), steps[|steps| - 1])
  }

  // ----- Which clients leak

  ghost predicate Cached(p: Pool, client: nat) {
    exists n :: n in p.clients && p.clients[n] == client
  }

  ghost predicate OneNodePerClient(clients: map<string, nat>) {
    forall m, n :: m in clients && n in clients && m != n ==> clients[m] != clients[n]
  }

  /** No client is closed twice, or while it is cached, or before it was created. */
  ghost predicate ClosedOnce(p: Pool) {
    && OneNodePerClient(p.clients)
    && (forall n :: n in p.clients ==> p.clients[n] < p.created)
    && (forall c: nat :: p.closed[c] <= if c < p.created && !Cached(p, c) then 1 else 0)
  }

  /** Every client created so far is cached for one node and open, or uncached and closed exactly once. */
  ghost predicate NoLeak(p: Pool) {
    && OneNodePerClient(p.clients)
    && (forall n :: n in p.clients ==> p.clients[n] < p.created)
    && (forall c: nat :: p.closed[c] == if c < p.created && !Cached(p, c) then 1 else 0)
  }

  /** Open, but nobody can find it any more. */
  ghost predicate Lost(p: Pool, client: nat) {
    client < p.created && !Cached(p, client) && p.closed[client] == 0
  }

  lemma NoLeakIffNothingLost(p: Pool)
    ensures NoLeak(p) <==> ClosedOnce(p) && forall c :: !Lost(p, c)
  {
    if NoLeak(p) {
      assert forall c :: !Lost(p, c);
    } else if ClosedOnce(p) {
      var c: nat :| p.closed[c] != if c < p.created && !Cached(p, c) then 1 else 0;
      assert Lost(p, c);
    }
  }

  /** The step stores the client of a ping over a cached one. */
  predicate Overwrites(p: Pool, s: Step) {
    s.PingEnd? && s.caller in p.pinging && s.outcome == Answered && p.pinging[s.caller] in p.clients
  }

  function Victim(p: Pool, s: Step): nat
    requires Overwrites(p, s)
  {
    p.clients[p.pinging[s.caller]]
  }

  lemma ConnectLoses(p: Pool, node: string)
    requires ClosedOnce(p)
    ensures ClosedOnce(Connect(p, node))
    ensures forall c :: Lost(Connect(p, node), c) <==> Lost(p, c) || (node in p.clients && c == p.clients[node])
  {
    var q := Connect(p, node);
    assert p.closed[p.created] == 0;
    forall c: nat
      ensures Cached(q, c) <==> c == p.created || (Cached(p, c) && !(node in p.clients && c == p.clients[node]))
    {
      assert q.clients[node] == p.created;
      if n :| n in p.clients && p.clients[n] == c {
        assert n != node ==> q.clients[n] == c;
      }
    }
  }

  lemma SameClientsLoseNothing(p: Pool, q: Pool)
    requires ClosedOnce(p) && q.clients == p.clients && q.created == p.created && q.closed == p.closed
    ensures ClosedOnce(q) && forall c :: Lost(q, c) <==> Lost(p, c)
  {
    forall c: nat ensures Cached(q, c) == Cached(p, c) {
    }
  }

  lemma DropLosesNothing(p: Pool, node: string)
    requires ClosedOnce(p) && node in p.clients
    ensures ClosedOnce(Drop(p, node)) && forall c :: Lost(Drop(p, node), c) <==> Lost(p, c)
  {
    var q := Drop(p, node);
    assert Cached(p, p.clients[node]);
    forall c: nat ensures Cached(q, c) <==> Cached(p, c) && c != p.clients[node] {
      if n :| n in p.clients && p.clients[n] == c {
        assert n != node ==> q.clients[n] == c;
      }
    }
  }

  lemma DropAllLosesNothing(p: Pool)
    requires ClosedOnce(p)
    ensures ClosedOnce(DropAll(p)) && forall c :: Lost(DropAll(p), c) <==> Lost(p, c)
  {
    forall c: nat ensures c in p.clients.Values <==> Cached(p, c) {
    }
  }

  lemma DiscardLosesNothing(p: Pool)
    requires ClosedOnce(p)
    ensures ClosedOnce(Discard(p)) && forall c :: Lost(Discard(p), c) <==> Lost(p, c)
  {
    forall c: nat ensures Cached(Discard(p), c) == Cached(p, c) {
    }
  }

  lemma SlowLosesNothing(p: Pool, caller: nat, connects: bool)
    requires ClosedOnce(p) && caller in p.waiting
    ensures ClosedOnce(Slow(p, caller, connects)) && forall c :: Lost(Slow(p, caller, connects), c) <==> Lost(p, c)
  {
    var node := p.waiting[caller];
    if node !in p.clients && connects {
      ConnectLoses(p, node);
      SameClientsLoseNothing(Connect(p, node), Slow(p, caller, connects));
    } else {
      SameClientsLoseNothing(p, Slow(p, caller, connects));
    }
  }

  lemma PingLoses(p: Pool, caller: nat, outcome: PingOutcome)
    requires ClosedOnce(p) && caller in p.pinging
    ensures ClosedOnce(Ping(p, caller, outcome))
    ensures forall c :: Lost(Ping(p, caller, outcome), c) <==>
      Lost(p, c) || (Overwrites(p, PingEnd(caller, outcome)) && c == p.clients[p.pinging[caller]])
  {
    match outcome
    case NoConnection => SameClientsLoseNothing(p, Ping(p, caller, outcome));
    case Unanswered =>
      DiscardLosesNothing(p);
      SameClientsLoseNothing(Discard(p), Ping(p, caller, outcome));
    case Answered =>
      ConnectLoses(p, p.pinging[caller]);
      SameClientsLoseNothing(Connect(p, p.pinging[caller]), Ping(p, caller, outcome));
  }

  lemma OtherStepLosesNothing(p: Pool, s: Step)
    requires ClosedOnce(p) && !s.PingEnd?
    ensures ClosedOnce(Apply(p, s)) && forall c :: Lost(Apply(p, s), c) <==> Lost(p, c)
  {
    match s
    case FastPath(caller, node) => SameClientsLoseNothing(p, Fast(p, caller, node));
    case SlowPath(caller, connects) =>
      if caller in p.waiting {
        SlowLosesNothing(p, caller, connects);
      }
    case Remove(node) =>
      if node in p.clients {
        DropLosesNothing(p, node);
      }
    case CloseAll => DropAllLosesNothing(p);
    case PingLook(caller, node) => SameClientsLoseNothing(p, Apply(p, s));
  }

  /** A step loses no client but the one that a ping overwrites, and a lost client stays lost. */
  lemma StepLoses(p: Pool, s: Step)
    requires ClosedOnce(p)
    ensures ClosedOnce(Apply(p, s))
    ensures forall c :: Lost(Apply(p, s), c) <==> Lost(p, c) || (Overwrites(p, s) && c == Victim(p, s))
  {
    if !s.PingEnd? {
      OtherStepLosesNothing(p, s);
    } else if s.caller in p.pinging {
      PingLoses(p, s.caller, s.outcome);
    }
  }

  /** The clients that pings of the run stored theirs over. */
  ghost function Victims(p: Pool, steps: seq<Step>): set<nat> {
    if steps == [] then {}
    else
      var init, last := steps[..|steps| - 1], steps[|steps| - 1];
      Victims(p, init) + if Overwrites(Run(p, init), last) then {Victim(Run(p, init), last)} else {}
  }

  /** In every interleaving nothing is closed twice, and the clients lost are those that pings overwrote. */
  lemma {:induction false} LostAreOverwritten(p: Pool, steps: seq<Step>)
    requires NoLeak(p)
    ensures ClosedOnce(Run(p, steps))
    ensures forall c :: Lost(Run(p, steps), c) <==> c in Victims(p, steps)
  {
    if steps == [] {
      NoLeakIffNothingLost(p);
    } else {
      LostAreOverwritten(p, steps[..|steps| - 1]);
      StepLoses(Run(p, steps[..|steps| - 1]), steps[|steps| - 1]);
    }
  }

  /** No step of the run is a ping that stores over a cached client. */
  ghost predicate NeverOverwrites(p: Pool, steps: seq<Step>) {
    steps == [] ||
    var init := steps[..|steps| - 1];
    NeverOverwrites(p, init) && !Overwrites(Run(p, init), steps[|steps| - 1])
  }

  lemma {:induction false} NoVictimsIffNeverOverwrites(p: Pool, steps: seq<Step>)
    ensures Victims(p, steps) == {} <==> NeverOverwrites(p, steps)
  {
    if steps != [] {
      var init, last := steps[..|steps| - 1], steps[|steps| - 1];
      NoVictimsIffNeverOverwrites(p, init);
      if Overwrites(Run(p, init), last) {
        assert Victim(Run(p, init), last) in Victims(p, steps);
      }
    }
  }

  /** An interleaving leaks no client exactly when no ping of it stores over a cached client. */
  lemma EveryRunKeepsNoLeakIff(p: Pool, steps: seq<Step>)
    requires NoLeak(p)
    ensures NoLeak(Run(p, steps)) <==> NeverOverwrites(p, steps)
  {
    var victims := Victims(p, steps);
    LostAreOverwritten(p, steps);
    NoLeakIffNothingLost(Run(p, steps));
    NoVictimsIffNeverOverwrites(p, steps);
    if c: nat :| c in victims {
      assert Lost(Run(p, steps), c);
    }
  }

  lemma {:induction false} NoPingsNoOverwrites(p: Pool, steps: seq<Step>)
    requires forall s :: s in steps ==> !s.PingEnd?
    ensures NeverOverwrites(p, steps)
  {
    if steps != [] {
      NoPingsNoOverwrites(p, steps[..|steps| - 1]);
    }
  }

  /** In particular every interleaving of the other calls. */
  lemma EveryRunKeepsNoLeak(p: Pool, steps: seq<Step>)
    requires NoLeak(p) && forall s :: s in steps ==> !s.PingEnd?
    ensures NoLeak(Run(p, steps))
  {
    NoPingsNoOverwrites(p, steps);
    EveryRunKeepsNoLeakIff(p, steps);
  }

  /** A ping misses, another caller caches a client, and the ping stores its own: the first one is lost. */
  lemma PingCanLeak(node: string)
    ensures var p := Run(EMPTY, [PingLook(0, node), FastPath(1, node), SlowPath(1, true), PingEnd(0, Answered)]);
            p.clients == map[node := 1] && p.closed == multiset{} && Lost(p, 0)
  {
    var q := Apply(Apply(EMPTY, PingLook(0, node)), FastPath(1, node));
    var steps := [PingLook(0, node), FastPath(1, node), SlowPath(1, true)];
    ThreeSteps(EMPTY, steps[0], steps[1], steps[2]);
    var all := [PingLook(0, node), FastPath(1, node), SlowPath(1, true), PingEnd(0, Answered)];
    assert all[..3] == steps;
  }

  // ----- Without a removal in between, every call returns the same client

  /** The client that calls for the node returned since it was last removed, if any. */
  function Standing(history: seq<Entry>, node: string): Option<nat> {
    if history == [] then None
    else
      match history[|history| - 1]
      case Returned(n, c) => if n == node then Some(c) else Standing(history[..|history| - 1], node)
      case Removed(n) => if n == node then None else Standing(history[..|history| - 1], node)
      case RemovedAll => None
      case Stored(n) => if n == node then None else Standing(history[..|history| - 1], node)
  }

  ghost predicate Stable(p: Pool) {
    && (forall n :: Standing(p.history, n).Some? ==> n in p.clients && p.clients[n] == Standing(p.history, n).value)
    && Agreeing(p.history)
  }

  /** Every return repeats the standing client of its node. */
  ghost predicate Agreeing(history: seq<Entry>) {
    forall i :: 0 <= i < |history| && history[i].Returned? ==>
      Standing(history[..i], history[i].node) in {None, Some(history[i].client)}
  }

  lemma OneMoreEntry(history: seq<Entry>, e: Entry, node: string)
    ensures Standing(history + [e], node)
         == match e
            case Returned(n, c) => if n == node then Some(c) else Standing(history, node)
            case Removed(n) => if n == node then None else Standing(history, node)
            case RemovedAll => None
            case Stored(n) => if n == node then None else Standing(history, node)
  {
    assert (history + [e])[..|history|] == history;
  }

  lemma AgreeingGrows(history: seq<Entry>, e: Entry)
    requires Agreeing(history)
    requires e.Returned? ==> Standing(history, e.node) in {None, Some(e.client)}
    ensures Agreeing(history + [e])
  {
    var after := history + [e];
    forall i | 0 <= i < |after| && after[i].Returned?
      ensures Standing(after[..i], after[i].node) in {None, Some(after[i].client)}
    {
      assert after[..i] == history[..i];
      assert history[..|history|] == history;
    }
  }

  ghost predicate SameElsewhere(p: Pool, q: Pool, node: string) {
    forall m :: m in p.clients && m != node ==> m in q.clients && q.clients[m] == p.clients[m]
  }

  lemma EntryKeepsStable(p: Pool, q: Pool, e: Entry)
    requires Stable(p) && q.history == p.history + [e]
    requires match e
             case Returned(n, c) =>
               && n in q.clients && q.clients[n] == c && (n in p.clients ==> p.clients[n] == c)
               && SameElsewhere(p, q, n)
             case Removed(n) => SameElsewhere(p, q, n)
             case RemovedAll => true
             case Stored(n) => SameElsewhere(p, q, n)
    ensures Stable(q)
  {
    AgreeingGrows(p.history, e);
    forall n ensures Standing(q.history, n).Some? ==> n in q.clients && q.clients[n] == Standing(q.history, n).value {
      OneMoreEntry(p.history, e, n);
    }
  }

  lemma UnrecordedKeepsStable(p: Pool, q: Pool)
    requires Stable(p) && q.history == p.history && q.clients == p.clients
    ensures Stable(q)
  {
  }

  lemma SlowKeepsStable(p: Pool, caller: nat, connects: bool)
    requires Stable(p) && caller in p.waiting
    ensures Stable(Slow(p, caller, connects))
  {
    var q, node := Slow(p, caller, connects), p.waiting[caller];
    if node in p.clients || connects {
      EntryKeepsStable(p, q, Returned(node, q.clients[node]));
    } else {
      UnrecordedKeepsStable(p, q);
    }
  }

  lemma PingKeepsStable(p: Pool, caller: nat, outcome: PingOutcome)
    requires Stable(p) && caller in p.pinging
    ensures Stable(Ping(p, caller, outcome))
  {
    if outcome == Answered {
      EntryKeepsStable(p, Ping(p, caller, outcome), Stored(p.pinging[caller]));
    } else {
      UnrecordedKeepsStable(p, Ping(p, caller, outcome));
    }
  }

  lemma ApplyKeepsStable(p: Pool, s: Step)
    requires Stable(p)
    ensures Stable(Apply(p, s))
  {
    var q := Apply(p, s);
    match s
    case FastPath(caller, node) =>
      if node in p.clients {
        EntryKeepsStable(p, q, Returned(node, p.clients[node]));
      } else {
        UnrecordedKeepsStable(p, q);
      }
    case SlowPath(caller, connects) =>
      if caller in p.waiting {
        SlowKeepsStable(p, caller, connects);
      }
    case Remove(node) =>
      if node in p.clients {
        EntryKeepsStable(p, q, Removed(node));
      }
    case CloseAll => EntryKeepsStable(p, q, RemovedAll);
    case PingLook(caller, node) => UnrecordedKeepsStable(p, q);
    case PingEnd(caller, outcome) =>
      if caller in p.pinging {
        PingKeepsStable(p, caller, outcome);
      }
  }

  lemma {:induction false} EveryRunKeepsStable(steps: seq<Step>)
    ensures Stable(Run(EMPTY, steps))
  {
    if steps != [] {
      EveryRunKeepsStable(steps[..|steps| - 1]);
      ApplyKeepsStable(Run(EMPTY, steps[..|steps| - 1]), steps[|steps| - 1]);
    }
  }

  /** The cached client of the node is given up, or replaced by that of a ping. */
  predicate Removes(e: Entry, node: string) {
    e.RemovedAll? || e == Removed(node) || e == Stored(node)
  }

  lemma {:induction false} StandingUntilRemoved(history: seq<Entry>, i: nat, j: nat)
    requires Agreeing(history) && i < j <= |history| && history[i].Returned?
    requires forall k :: i < k < j ==> !Removes(history[k], history[i].node)
    ensures Standing(history[..j], history[i].node) == Some(history[i].client)
  {
    var last := history[j - 1];
    OneMoreEntry(history[..j - 1], last, history[i].node);
    assert history[..j] == history[..j - 1] + [last];
    if i < j - 1 {
      StandingUntilRemoved(history, i, j - 1);
    }
  }

  /** Two calls for a node with no removal or stored ping between them return the same client, in every interleaving. */
  lemma SameClientUntilRemoved(steps: seq<Step>, i: nat, j: nat)
    requires var h := Run(EMPTY, steps).history;
             && i < j < |h| && h[i].Returned? && h[j].Returned? && h[i].node == h[j].node
             && forall k :: i < k < j ==> !Removes(h[k], h[i].node)
    ensures var h := Run(EMPTY, steps).history; h[i].client == h[j].client
  {
    EveryRunKeepsStable(steps);
    StandingUntilRemoved(Run(EMPTY, steps).history, i, j);
  }

  // ----- What each call achieves

  /** Removing a node's client closes that client, which was open, and touches no other. */
  lemma RemoveClosesOne(p: Pool, node: string)
    requires NoLeak(p) && node in p.clients
    ensures var q, c := Apply(p, Remove(node)), p.clients[node];
            && p.closed[c] == 0 && q.closed == p.closed + multiset{c}
            && q.clients.Keys == p.clients.Keys - {node} && SameElsewhere(p, q, node)
  {
    assert Cached(p, p.clients[node]);
  }

  /** Closing all leaves nothing cached, and every client there ever was closed exactly once. */
  lemma CloseAllClosesEverything(p: Pool)
    requires NoLeak(p)
    ensures var q := Apply(p, CloseAll);
            q.clients == map[] && q.created == p.created && forall c: nat :: c < p.created ==> q.closed[c] == 1
  {
    var q := Apply(p, CloseAll);
    forall c: nat | c < p.created ensures q.closed[c] == 1 {
      assert c in p.clients.Values <==> Cached(p, c);
    }
  }

  /** A call returns the cached client, or queues; once it is its turn it returns what is cached by then or connects. */
  lemma CallReturnsCached(p: Pool, caller: nat, node: string, connects: bool)
    ensures node in p.clients ==>
      Apply(p, FastPath(caller, node)) == p.(history := p.history + [Returned(node, p.clients[node])])
    ensures node !in p.clients ==>
      Apply(p, FastPath(caller, node)) == p.(waiting := p.waiting[caller := node])
    ensures caller in p.waiting && p.waiting[caller] == node ==>
      var q := Apply(p, SlowPath(caller, connects));
      && q.waiting == p.waiting - {caller}
      && (node in p.clients || !connects ==> q.clients == p.clients && q.created == p.created)
      && (node !in p.clients && connects ==> q.clients == p.clients[node := p.created] && q.created == p.created + 1)
      && q.history == p.history + if node in q.clients then [Returned(node, q.clients[node])] else []
  {
  }

  /** Refreshing a cached client closes it and caches another one, unless the connection fails. */
  lemma RefreshReplaces(p: Pool, node: string, caller: nat, connects: bool)
    requires NoLeak(p) && node in p.clients
    ensures var q := Run(p, [Remove(node), FastPath(caller, node), SlowPath(caller, connects)]);
            && q.closed[p.clients[node]] == 1
            && (if connects then node in q.clients && q.clients[node] == p.created > p.clients[node]
                else node !in q.clients)
  {
    ThreeSteps(p, Remove(node), FastPath(caller, node), SlowPath(caller, connects));
    RemoveClosesOne(p, node);
  }

  // ----- The lock sections

  class SharedPool {
    var clients: map<string, nat>
    var created: nat
    ghost var closed: multiset<nat>
    ghost var waiting: map<nat, string>
    ghost var pinging: map<nat, string>
    ghost var history: seq<Entry>

    ghost function Contents(): Pool
      reads this
    {
      Pool(clients, created, closed, waiting, pinging, history)
    }

    constructor ()
      ensures Contents() == EMPTY
    {
      clients, created := map[], 0;
      closed, waiting, pinging, history := multiset{}, map[], map[], [];
    }

    method LookUp(ghost caller: nat, node: string) returns (client: Option<nat>)
      modifies this
      ensures Contents() == Apply(old(Contents()), FastPath(caller, node))
      ensures client == if node in old(clients) then Some(old(clients)[node]) else None
    {
      if node in clients {
        history := history + [Returned(node, clients[node])];
        return Some(clients[node]);
      }
      waiting := waiting[caller := node];
      return None;
    }

    method CreateLocked(ghost caller: nat, node: string, w: Lookup) returns (client: Option<nat>)
      requires caller in waiting && waiting[caller] == node
      modifies this
      ensures Contents() == Apply(old(Contents()), SlowPath(caller, w.Connects()))
      ensures client == if node in clients then Some(clients[node]) else None
    {
      waiting := waiting - {caller};
      if node in clients {
        history := history + [Returned(node, clients[node])];
        return Some(clients[node]);
      }
      if !w.nodeFound || !w.nodeOnline || !w.hasKey || !w.keyFound || !w.decrypts || !w.dials {
        return None;
      }
      client := Some(created);
      clients := clients[node := created];
      created := created + 1;
      history := history + [Returned(node, clients[node])];
    }

    /** A call that nobody interrupts. */
    method GetClient(ghost caller: nat, node: string, w: Lookup) returns (client: Option<nat>)
      requires caller !in waiting
      modifies this
      ensures Contents() == if node in old(clients) then Apply(old(Contents()), FastPath(caller, node))
                            else Apply(Apply(old(Contents()), FastPath(caller, node)), SlowPath(caller, w.Connects()))
      ensures client.Some? <==> node in old(clients)
                                || (w.nodeFound && w.nodeOnline && w.hasKey && w.keyFound && w.decrypts && w.dials)
      ensures client.Some? ==> node in clients && clients[node] == client.value
    {
      client := LookUp(caller, node);
      if client.None? {
        client := CreateLocked(caller, node, w);
      }
    }

    method RemoveClient(node: string, closes: bool) returns (ok: bool)
      modifies this
      ensures Contents() == Apply(old(Contents()), Remove(node))
      ensures ok <==> node !in old(clients) || closes
    {
      if node !in clients {
        return true;
      }
      history := history + [Removed(node)];
      closed := closed + multiset{clients[node]};
      clients := clients - {node};
      return closes;
    }

    /** Closes every client, in an arbitrary order; a failed Close is still a Close. */
    method CloseAllClients()
      requires OneNodePerClient(clients)
      modifies this
      ensures Contents() == Apply(old(Contents()), CloseAll)
    {
      ghost var all := closed + multiset(clients.Values);
      while clients != map[]
        invariant OneNodePerClient(clients) && closed + multiset(clients.Values) == all
        invariant created == old(created) && waiting == old(waiting) && pinging == old(pinging)
        invariant history == old(history)
        decreases |clients|
      {
        var node :| node in clients;
        CloseOne(closed, clients, node);
        closed := closed + multiset{clients[node]};
        clients := clients - {node};
      }
      assert multiset(clients.Values) == multiset{};
      history := history + [RemovedAll];
    }

    /** If the old client cannot be closed, no new one is asked for. */
    method RefreshClient(ghost caller: nat, node: string, closes: bool, w: Lookup) returns (client: Option<nat>)
      requires caller !in waiting
      modifies this
      ensures node in old(clients) && !closes ==> Contents() == Apply(old(Contents()), Remove(node)) && client.None?
      ensures node !in old(clients) || closes ==>
        Contents() == Run(old(Contents()), [Remove(node), FastPath(caller, node), SlowPath(caller, w.Connects())])
    {
      ghost var before := Contents();
      var ok := RemoveClient(node, closes);
      if !ok {
        return None;
      }
      ThreeSteps(before, Remove(node), FastPath(caller, node), SlowPath(caller, w.Connects()));
      client := GetClient(caller, node, w);
    }

    /** The cached client answers the ping itself; a miss goes on without the lock. */
    method PingCached(ghost caller: nat, node: string) returns (client: Option<nat>)
      modifies this
      ensures Contents() == Apply(old(Contents()), PingLook(caller, node))
      ensures client == if node in clients then Some(clients[node]) else None
    {
      if node in clients {
        return Some(clients[node]);
      }
      pinging := pinging[caller := node];
      return None;
    }

    /** Connects whatever the status of the node, and keeps the client if it answers. */
    method PingNew(ghost caller: nat, node: string, w: Lookup, answers: bool) returns (ok: bool)
      requires caller in pinging && pinging[caller] == node
      modifies this
      ensures Contents() == Ping(old(Contents()), caller, w.Ping(answers))
      ensures ok <==> answers && w.nodeFound && w.hasKey && w.keyFound && w.decrypts && w.dials
    {
      pinging := pinging - {caller};
      if !w.nodeFound || !w.hasKey || !w.keyFound || !w.decrypts || !w.dials {
        return false;
      }
      var newClient := created;
      created := created + 1;
      if !answers {
        closed := closed + multiset{newClient};
        return false;
      }
      clients := clients[node := newClient];
      history := history + [Stored(node)];
      return true;
    }

    /** A ping that nobody interrupts. */
    method PingNode(ghost caller: nat, node: string, w: Lookup, answers: bool) returns (ok: bool)
      modifies this
      ensures Contents() == if node in old(clients) then old(Contents())
                            else Apply(Apply(old(Contents()), PingLook(caller, node)), PingEnd(caller, w.Ping(answers)))
      ensures ok <==> answers && (node in old(clients)
                                  || (w.nodeFound && w.hasKey && w.keyFound && w.decrypts && w.dials))
    {
      var client := PingCached(caller, node);
      if client.Some? {
        return answers;
      }
      ok := PingNew(caller, node, w, answers);
    }
  }

  lemma ThreeSteps(p: Pool, a: Step, b: Step, c: Step)
    ensures Run(p, [a, b, c]) == Apply(Apply(Apply(p, a), b), c)
  {
    assert [a][..0] == [] && Run(p, [a]) == Apply(p, a);
    assert [a, b][..1] == [a] && Run(p, [a, b]) == Apply(Apply(p, a), b);
    assert [a, b, c][..2] == [a, b];
  }

  lemma CloseOne(closed: multiset<nat>, m: map<string, nat>, n: string)
    requires n in m && OneNodePerClient(m)
    ensures OneNodePerClient(m - {n}) && |m - {n}| < |m|
    ensures closed + multiset{m[n]} + multiset((m - {n}).Values) == closed + multiset(m.Values)
  {
    var rest := m - {n};
    assert rest.Keys == m.Keys - {n};
    assert m.Values == rest.Values + {m[n]} by {
      forall x | x in m.Values ensures x in rest.Values + {m[n]} {
        var k :| k in m && m[k] == x;
        assert k != n ==> rest[k] == x;
      }
    }
    assert m[n] !in rest.Values;
  }
}
