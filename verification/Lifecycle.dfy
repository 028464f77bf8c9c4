/**
 What a deployment goes through: each user action together with the command it dispatches is
 one step from a resting state to a resting state. The step-by-step handlers are in
 DeploymentStore and are proved to have exactly these effects.
 */
module Lifecycle {
  import opened Ports
  import opened Wrappers

  datatype Status =
    | Pending | Scheduled | Starting | Running | Stopping | Stopped | Deleting | Deleted | Failed

  /** `node` is empty and `port` is 0 when not set; `customer` is 0 for an unknown owner. */
  datatype Deployment = Deployment(customer: int, node: string, port: int, status: Status)

  datatype EventKind = EventCreated | EventStarted | EventStopped | EventDeleted

  datatype UsageEvent = UsageEvent(customer: int, kind: EventKind, deployment: nat)

  /**
   Rows by reference id. Ids are handed out in order and never again, as fresh UUIDs are.
   `leased` remembers whose port came from the allocator rather than from the client.
   */
  datatype State = State(rows: map<nat, Deployment>, events: seq<UsageEvent>, next: nat, leased: set<nat>)

  const EMPTY := State(map[], [], 0, {})

  /** The answers of the outside world during one action. */
  datatype World = World(
    nodes: map<string, string>,
    poolConfigured: bool,
    clientAvailable: bool,
    composeSpec: Option<string>,
    containersStart: bool)
  {
    predicate Online(node: string) {
      node in nodes && nodes[node] == "online"
    }

    predicate BringsUp() {
      poolConfigured && clientAvailable && composeSpec.Some? && composeSpec.value != "" && containersStart
    }
  }

  datatype Action =
    | Create(customer: int, node: string, port: int)
    | Start(id: nat, user: int, world: World)
    | Stop(id: nat, user: int)
    | Delete(id: nat, user: int)

  // ----- The effect of each action

  /** Rows outside stopped and deleted keep their port out of the allocator's reach. */
  predicate HoldsPort(d: Deployment) {
    d.status != Stopped && d.status != Deleted
  }

  function UsedPorts(rows: map<nat, Deployment>, node: string): set<int> {
    set id | id in rows && rows[id].node == node && HoldsPort(rows[id]) && rows[id].port > 0 :: rows[id].port
  }

  /** No event is recorded for a deployment without an owner. */
  function Recorded(events: seq<UsageEvent>, customer: int, kind: EventKind, id: nat): seq<UsageEvent> {
    if customer == 0 then events else events + [UsageEvent(customer, kind, id)]
  }

  function WithStatus(s: State, id: nat, status: Status): State
    requires id in s.rows
  {
    s.(rows := s.rows[id := s.rows[id].(status := status)])
  }

  /** Starting ends in running, with a usage event, or in failed. */
  function Launch(s: State, id: nat, w: World): State
    requires id in s.rows
  {
    if w.BringsUp()
    then WithStatus(s, id, Running).(events := Recorded(s.events, s.rows[id].customer, EventStarted, id))
    else WithStatus(s, id, Failed)
  }

  /** The port to bind: the one on the row, or else the first unused one on the node. */
  ghost function PortFor(s: State, id: nat): Option<int>
    requires id in s.rows
  {
    var d := s.rows[id];
    if d.port != 0 then Some(d.port) else FirstUnused(UsedPorts(s.rows, d.node), DEFAULT_RANGE)
  }

  /** Scheduling launches on the chosen node if it is online and a port is left. */
  ghost function Schedule(s: State, id: nat, w: World): State
    requires id in s.rows
  {
    var d := s.rows[id];
    if d.node == "" || !w.Online(d.node) || PortFor(s, id).None? then WithStatus(s, id, Scheduled)
    else
      var leased := if d.port == 0 then s.leased + {id} else s.leased;
      Launch(s.(rows := s.rows[id := d.(port := PortFor(s, id).value)], leased := leased), id, w)
  }

  predicate OwnedBy(s: State, id: nat, user: int) {
    id in s.rows && s.rows[id].customer == user
  }

  ghost function Apply(s: State, a: Action): State {
    match a
    case Create(customer, node, port) =>
      State(s.rows[s.next := Deployment(customer, node, port, Pending)],
            if customer > 0 then Recorded(s.events, customer, EventCreated, s.next) else s.events,
            s.next + 1, s.leased)
    case Start(id, user, w) =>
      if !OwnedBy(s, id, user) then s
      else (match s.rows[id].status
            case Pending => Schedule(s, id, w)
            case Scheduled => if s.rows[id].node == "" then s else Launch(s, id, w)
            case Stopped => if s.rows[id].node == "" then s else Launch(s, id, w)
            case Failed => if s.rows[id].node == "" then s else Launch(s, id, w)
            case _ => s)
    case Stop(id, user) =>
      if OwnedBy(s, id, user) && s.rows[id].status == Running
      then WithStatus(s, id, Stopped).(events := Recorded(s.events, user, EventStopped, id))
      else s
    case Delete(id, user) =>
      if !OwnedBy(s, id, user) then s
      else s.(rows := s.rows - {id},
              events := if s.rows[id].status == Stopped || s.rows[id].status == Failed
                        then Recorded(s.events, user, EventDeleted, id) else s.events)
  }

  ghost function Run(s: State, actions: seq<Action>): State {
    if actions == [] then s else Apply(Run(s, actions[..|actions| - 1]), actions[|actions| - 1])
  }

  // ----- What every run keeps

  function Change(kind: EventKind): int {
    if kind == EventStarted then 1 else if kind == EventStopped then -1 else 0
  }

  /** Started events minus stopped events of one deployment. */
  function Net(events: seq<UsageEvent>, id: nat): int {
    if events == [] then 0
    else
      var last := events[|events| - 1];
      Net(events[..|events| - 1], id) + if last.deployment == id then Change(last.kind) else 0
  }

  predicate Resting(status: Status) {
    status in {Pending, Scheduled, Running, Stopped, Failed}
  }

  /** A deployment is billed as running exactly while it is. */
  predicate RowInvariant(d: Deployment, net: int) {
    && Resting(d.status)
    && (d.status == Running ==> d.node != "")
    && net == if d.status == Running && d.customer != 0 then 1 else 0
  }

  /** Ids not handed out yet have no usage, and no id ever has more than one start in excess. */
  ghost predicate InvariantAt(s: State, id: nat) {
    && (id in s.rows ==> id < s.next && RowInvariant(s.rows[id], Net(s.events, id)))
    && (id >= s.next ==> Net(s.events, id) == 0)
    && 0 <= Net(s.events, id) <= 1
  }

  ghost predicate Invariant(s: State) {
    forall id :: InvariantAt(s, id)
  }

  lemma NetOfRecorded(events: seq<UsageEvent>, customer: int, kind: EventKind, id: nat, i: nat)
    ensures Net(Recorded(events, customer, kind, id), i)
         == Net(events, i) + if customer != 0 && i == id then Change(kind) else 0
  {
    var e := UsageEvent(customer, kind, id);
    assert (events + [e])[..|events|] == events;
  }

  /** A row changes status together with the matching event; everything else stays. */
  lemma ChangeKeepsInvariant(s: State, t: State, id: nat, customer: int, kind: EventKind)
    requires Invariant(s) && t.next >= s.next && id < t.next
    requires t.events == Recorded(s.events, customer, kind, id)
    requires forall i :: i in t.rows && i != id ==> i in s.rows && t.rows[i] == s.rows[i]
    requires var net := Net(s.events, id) + if customer != 0 then Change(kind) else 0;
             0 <= net <= 1 && (id in t.rows ==> RowInvariant(t.rows[id], net))
    ensures Invariant(t)
  {
    forall i ensures InvariantAt(t, i) {
      assert InvariantAt(s, i);
      NetOfRecorded(s.events, customer, kind, id, i);
    }
  }

  lemma NoEventKeepsInvariant(s: State, t: State, id: nat)
    requires Invariant(s) && t.next >= s.next && id < t.next && t.events == s.events
    requires forall i :: i in t.rows && i != id ==> i in s.rows && t.rows[i] == s.rows[i]
    requires id in t.rows ==> RowInvariant(t.rows[id], Net(t.events, id))
    ensures Invariant(t)
  {
    forall i ensures InvariantAt(t, i) {
      assert InvariantAt(s, i);
    }
  }

  lemma StartedKeepsInvariant(s: State, id: nat)
    requires Invariant(s) && id in s.rows && s.rows[id].node != "" && s.rows[id].status != Running
    ensures Invariant(WithStatus(s, id, Running).(events := Recorded(s.events, s.rows[id].customer, EventStarted, id)))
  {
    var d := s.rows[id];
    var t := WithStatus(s, id, Running).(events := Recorded(s.events, d.customer, EventStarted, id));
    assert InvariantAt(s, id);
    ChangeKeepsInvariant(s, t, id, d.customer, EventStarted);
  }

  lemma LaunchKeepsInvariant(s: State, id: nat, w: World)
    requires Invariant(s) && id in s.rows && s.rows[id].node != "" && s.rows[id].status != Running
    ensures Invariant(Launch(s, id, w))
  {
    if w.BringsUp() {
      StartedKeepsInvariant(s, id);
    } else {
      assert InvariantAt(s, id);
      NoEventKeepsInvariant(s, WithStatus(s, id, Failed), id);
    }
  }

  lemma ScheduleKeepsInvariant(s: State, id: nat, w: World)
    requires Invariant(s) && id in s.rows && s.rows[id].status == Pending
    ensures Invariant(Schedule(s, id, w))
  {
    var d := s.rows[id];
    assert InvariantAt(s, id);
    if d.node == "" || !w.Online(d.node) || PortFor(s, id).None? {
      NoEventKeepsInvariant(s, Schedule(s, id, w), id);
    } else {
      var leased := if d.port == 0 then s.leased + {id} else s.leased;
      var placed := s.(rows := s.rows[id := d.(port := PortFor(s, id).value)], leased := leased);
      NoEventKeepsInvariant(s, placed, id);
      LaunchKeepsInvariant(placed, id, w);
    }
  }

  lemma CreateKeepsInvariant(s: State, customer: int, node: string, port: int)
    requires Invariant(s)
    ensures Invariant(Apply(s, Create(customer, node, port)))
  {
    var t := Apply(s, Create(customer, node, port));
    assert InvariantAt(s, s.next);
    if customer > 0 {
      ChangeKeepsInvariant(s, t, s.next, customer, EventCreated);
    } else {
      NoEventKeepsInvariant(s, t, s.next);
    }
  }

  lemma StopKeepsInvariant(s: State, id: nat, user: int)
    requires Invariant(s)
    ensures Invariant(Apply(s, Stop(id, user)))
  {
    var t := Apply(s, Stop(id, user));
    assert InvariantAt(s, id);
    if t != s {
      ChangeKeepsInvariant(s, t, id, user, EventStopped);
    }
  }

  lemma DeleteKeepsInvariant(s: State, id: nat, user: int)
    requires Invariant(s)
    ensures Invariant(Apply(s, Delete(id, user)))
  {
    var t := Apply(s, Delete(id, user));
    assert InvariantAt(s, id);
    if OwnedBy(s, id, user) {
      if s.rows[id].status in {Stopped, Failed} {
        ChangeKeepsInvariant(s, t, id, user, EventDeleted);
      } else {
        NoEventKeepsInvariant(s, t, id);
      }
    }
  }

  lemma ApplyKeepsInvariant(s: State, a: Action)
    requires Invariant(s)
    ensures Invariant(Apply(s, a))
  {
    match a
    case Create(customer, node, port) => CreateKeepsInvariant(s, customer, node, port);
    case Start(id, user, w) =>
      if OwnedBy(s, id, user) {
        if s.rows[id].status == Pending {
          ScheduleKeepsInvariant(s, id, w);
        } else if s.rows[id].status in {Scheduled, Stopped, Failed} && s.rows[id].node != "" {
          LaunchKeepsInvariant(s, id, w);
        }
      }
    case Stop(id, user) => StopKeepsInvariant(s, id, user);
    case Delete(id, user) => DeleteKeepsInvariant(s, id, user);
  }

  /** Over every sequence of user actions, whatever the world answers. */
  lemma {:induction false} EveryRunKeepsInvariant(s: State, actions: seq<Action>)
    requires Invariant(s)
    ensures Invariant(Run(s, actions))
  {
    if actions != [] {
      EveryRunKeepsInvariant(s, actions[..|actions| - 1]);
      ApplyKeepsInvariant(Run(s, actions[..|actions| - 1]), actions[|actions| - 1]);
    }
  }

  /** The events of one deployment alternate: at no point of the log has it been started twice or stopped twice. */
  lemma {:induction false} StartsAndStopsAlternate(actions: seq<Action>, k: nat, id: nat)
    requires k <= |Run(EMPTY, actions).events|
    ensures 0 <= Net(Run(EMPTY, actions).events[..k], id) <= 1
  {
    var s := Run(EMPTY, actions);
    if k == |s.events| {
      EveryRunKeepsInvariant(EMPTY, actions);
      assert s.events[..k] == s.events && InvariantAt(s, id);
    } else {
      var before := Run(EMPTY, actions[..|actions| - 1]);
      assert before.events <= s.events && |s.events| <= |before.events| + 1;
      StartsAndStopsAlternate(actions[..|actions| - 1], k, id);
      assert s.events[..k] == before.events[..k];
    }
  }

  // ----- Deleting a running deployment leaves its usage open for good

  lemma DeleteClosesUsageUnlessRunning(s: State, id: nat, user: int)
    requires Invariant(s) && OwnedBy(s, id, user) && user != 0
    ensures Net(Apply(s, Delete(id, user)).events, id) == 0 <==> s.rows[id].status != Running
  {
    assert InvariantAt(s, id);
    assert Net(Apply(s, Delete(id, user)).events, id) == Net(s.events, id) by {
      NetOfRecorded(s.events, user, EventDeleted, id, id);
    }
  }

  lemma ApplyLeavesDeletedAlone(s: State, a: Action, id: nat)
    requires id !in s.rows && id < s.next
    ensures id !in Apply(s, a).rows && id < Apply(s, a).next
    ensures Net(Apply(s, a).events, id) == Net(s.events, id)
  {
    forall customer: int, kind, i: nat | i != id
      ensures Net(Recorded(s.events, customer, kind, i), id) == Net(s.events, id)
    {
      NetOfRecorded(s.events, customer, kind, i, id);
    }
  }

  lemma {:induction false} DeletedUsageNeverChanges(s: State, actions: seq<Action>, id: nat)
    requires id !in s.rows && id < s.next
    ensures id !in Run(s, actions).rows && id < Run(s, actions).next
    ensures Net(Run(s, actions).events, id) == Net(s.events, id)
  {
    if actions != [] {
      DeletedUsageNeverChanges(s, actions[..|actions| - 1], id);
      ApplyLeavesDeletedAlone(Run(s, actions[..|actions| - 1]), actions[|actions| - 1], id);
    }
  }

  // ----- Ports

  ghost predicate SamePlace(a: Deployment, b: Deployment) {
    a.node == b.node && a.port == b.port
  }

  ghost predicate Leased(s: State, id: nat) {
    id in s.leased && id in s.rows && HoldsPort(s.rows[id])
  }

  /** Ports from the allocator that are not given back are pairwise distinct on each node. */
  ghost predicate PortsDistinct(s: State) {
    && (forall a :: a in s.leased ==> a < s.next)
    && (forall a :: a in s.leased && a in s.rows ==> s.rows[a].port > 0)
    && (forall a, b :: Leased(s, a) && Leased(s, b) && a != b ==> !SamePlace(s.rows[a], s.rows[b]))
  }

  /** The action brings a stopped deployment back. */
  predicate Restarts(s: State, a: Action) {
    a.Start? && OwnedBy(s, a.id, a.user) && s.rows[a.id].status == Stopped && s.rows[a.id].node != ""
  }

  /** Some other deployment was given the same port on the same node in the meantime. */
  ghost predicate PortTaken(s: State, id: nat)
    requires id in s.rows
  {
    exists b :: b != id && Leased(s, b) && SamePlace(s.rows[id], s.rows[b])
  }

  lemma FreshPortIsFree(s: State, id: nat)
    requires id in s.rows && s.rows[id].port == 0 && PortFor(s, id).Some?
    ensures PortFor(s, id).value > 0
    ensures forall b :: b in s.rows && HoldsPort(s.rows[b]) && s.rows[b].port > 0 ==>
                          !SamePlace(s.rows[id].(port := PortFor(s, id).value), s.rows[b])
  {
    var d := s.rows[id];
    FirstUnusedIsLeast(UsedPorts(s.rows, d.node), DEFAULT_RANGE);
  }

  lemma ChangeKeepsPortsDistinct(s: State, t: State, id: nat)
    requires PortsDistinct(s) && t.next >= s.next && id < t.next
    requires s.leased <= t.leased <= s.leased + {id}
    requires forall i :: i in t.rows && i != id ==> i in s.rows && t.rows[i] == s.rows[i]
    requires id in t.leased && id in t.rows ==> t.rows[id].port > 0
    requires Leased(t, id) ==> forall b :: Leased(s, b) && b != id ==> !SamePlace(t.rows[id], s.rows[b])
    ensures PortsDistinct(t)
  {
    forall a, b | Leased(t, a) && Leased(t, b) && a != b ensures !SamePlace(t.rows[a], t.rows[b]) {
      assert a != id ==> Leased(s, a);
      assert b != id ==> Leased(s, b);
    }
  }

  lemma StatusKeepsPortsDistinct(s: State, t: State, id: nat, status: Status)
    requires PortsDistinct(s) && id in s.rows && id < s.next
    requires t == WithStatus(s, id, status).(events := t.events)
    requires HoldsPort(s.rows[id]) || !HoldsPort(t.rows[id])
    ensures PortsDistinct(t)
  {
    assert Leased(t, id) ==> Leased(s, id);
    ChangeKeepsPortsDistinct(s, t, id);
  }

  lemma ScheduleKeepsPortsDistinct(s: State, id: nat, w: World)
    requires PortsDistinct(s) && id in s.rows && id < s.next && s.rows[id].status == Pending
    ensures PortsDistinct(Schedule(s, id, w))
  {
    var d := s.rows[id];
    if d.node == "" || !w.Online(d.node) || PortFor(s, id).None? {
      StatusKeepsPortsDistinct(s, Schedule(s, id, w), id, Scheduled);
    } else {
      var leased := if d.port == 0 then s.leased + {id} else s.leased;
      var placed := s.(rows := s.rows[id := d.(port := PortFor(s, id).value)], leased := leased);
      if d.port == 0 {
        FreshPortIsFree(s, id);
      } else {
        assert Leased(placed, id) ==> Leased(s, id);
      }
      ChangeKeepsPortsDistinct(s, placed, id);
      StatusKeepsPortsDistinct(placed, Launch(placed, id, w), id, if w.BringsUp() then Running else Failed);
    }
  }

  lemma ApplyKeepsPortsDistinct(s: State, a: Action)
    requires Invariant(s) && PortsDistinct(s) && !Restarts(s, a)
    ensures PortsDistinct(Apply(s, a))
  {
    var t := Apply(s, a);
    assert !a.Create? ==> InvariantAt(s, a.id);
    match a
    case Create(customer, node, port) =>
      ChangeKeepsPortsDistinct(s, t, s.next);
    case Start(id, user, w) =>
      if OwnedBy(s, id, user) && s.rows[id].status == Pending {
        ScheduleKeepsPortsDistinct(s, id, w);
      } else if t != s {
        StatusKeepsPortsDistinct(s, t, id, t.rows[id].status);
      }
    case Stop(id, user) =>
      if t != s {
        StatusKeepsPortsDistinct(s, t, id, Stopped);
      }
    case Delete(id, user) =>
      if OwnedBy(s, id, user) {
        ChangeKeepsPortsDistinct(s, t, id);
      }
  }

  /** The action restarts a deployment whose allocated port was given to another one meanwhile. */
  ghost predicate Clashes(s: State, a: Action) {
    Restarts(s, a) && a.id in s.leased && PortTaken(s, a.id)
  }

  lemma RestartKeepsPortsDistinct(s: State, a: Action)
    requires Invariant(s) && PortsDistinct(s) && Restarts(s, a) && !Clashes(s, a)
    ensures PortsDistinct(Apply(s, a))
  {
    assert InvariantAt(s, a.id);
    ChangeKeepsPortsDistinct(s, Apply(s, a), a.id);
  }

  /** An action makes two deployments share an allocated port exactly when it is such a restart. */
  lemma ActionKeepsPortsDistinctIff(s: State, a: Action)
    requires Invariant(s) && PortsDistinct(s)
    ensures PortsDistinct(Apply(s, a)) <==> !Clashes(s, a)
  {
    if Clashes(s, a) {
      var t := Apply(s, a);
      var b :| b != a.id && Leased(s, b) && SamePlace(s.rows[a.id], s.rows[b]);
      assert Leased(t, a.id) && Leased(t, b);
    } else if Restarts(s, a) {
      RestartKeepsPortsDistinct(s, a);
    } else {
      ApplyKeepsPortsDistinct(s, a);
    }
  }

  /** At no point of the run does a restart clash. */
  ghost predicate NeverClashes(s: State, actions: seq<Action>) {
    actions == [] ||
    var init := actions[..|actions| - 1];
    NeverClashes(s, init) && !Clashes(Run(s, init), actions[|actions| - 1])
  }

  /** The ports are distinct at every point of the run. */
  ghost predicate AlwaysDistinct(s: State, actions: seq<Action>) {
    PortsDistinct(Run(s, actions)) && (actions == [] || AlwaysDistinct(s, actions[..|actions| - 1]))
  }

  /** Over every run, no two deployments ever share an allocated port exactly when no restart takes one. */
  lemma {:induction false} EveryRunKeepsPortsDistinctIff(s: State, actions: seq<Action>)
    requires Invariant(s) && PortsDistinct(s)
    ensures AlwaysDistinct(s, actions) <==> NeverClashes(s, actions)
  {
    if actions != [] {
      var init := actions[..|actions| - 1];
      EveryRunKeepsPortsDistinctIff(s, init);
      EveryRunKeepsInvariant(s, init);
      if AlwaysDistinct(s, init) {
        ActionKeepsPortsDistinctIff(Run(s, init), actions[|actions| - 1]);
      }
    }
  }

  ghost predicate NoRestart(s: State, actions: seq<Action>) {
    forall i :: 0 <= i < |actions| ==> !Restarts(Run(s, actions[..i]), actions[i])
  }

  lemma {:induction false} NoRestartNoClash(s: State, actions: seq<Action>)
    requires NoRestart(s, actions)
    ensures NeverClashes(s, actions)
  {
    if actions != [] {
      var init := actions[..|actions| - 1];
      assert forall i :: 0 <= i < |init| ==> init[..i] == actions[..i] && init[i] == actions[i];
      NoRestartNoClash(s, init);
    }
  }

  /** In particular over every run in which no stopped deployment is restarted. */
  lemma EveryRunKeepsPortsDistinct(s: State, actions: seq<Action>)
    requires Invariant(s) && PortsDistinct(s) && NoRestart(s, actions)
    ensures PortsDistinct(Run(s, actions))
  {
    NoRestartNoClash(s, actions);
    EveryRunKeepsPortsDistinctIff(s, actions);
  }

  lemma OneMoreAction(s: State, actions: seq<Action>, a: Action)
    ensures Run(s, actions + [a]) == Apply(Run(s, actions), a)
  {
    assert (actions + [a])[..|actions|] == actions;
  }

  lemma FirstLaunchGetsFirstPort(s: State, id: nat, user: int, w: World)
    requires OwnedBy(s, id, user) && s.rows[id] == Deployment(user, "n", 0, Pending) && w.Online("n") && w.BringsUp()
    requires UsedPorts(s.rows, "n") == {}
    ensures Apply(s, Start(id, user, w)).rows == s.rows[id := Deployment(user, "n", 30000, Running)]
    ensures id in Apply(s, Start(id, user, w)).leased && s.leased <= Apply(s, Start(id, user, w)).leased
  {
    assert FirstUnused({}, DEFAULT_RANGE) == Some(30000);
  }

  lemma FirstStart(w: World)
    requires w.Online("n") && w.BringsUp()
    ensures var s := Run(EMPTY, [Create(7, "n", 0)] + [Start(0, 7, w)]);
            s.rows == map[0 := Deployment(7, "n", 30000, Running)] && s.next == 1 && s.leased >= {0}
  {
    var a1 := [Create(7, "n", 0)];
    OneMoreAction(EMPTY, [], a1[0]);
    assert [] + [a1[0]] == a1 && Run(EMPTY, []) == EMPTY;
    var s1 := Run(EMPTY, a1);
    assert s1.rows == map[0 := Deployment(7, "n", 0, Pending)] && UsedPorts(s1.rows, "n") == {};
    FirstLaunchGetsFirstPort(s1, 0, 7, w);
    OneMoreAction(EMPTY, a1, Start(0, 7, w));
  }

  /** A reachable clash: a restarted deployment runs on the same node with the same port as another. */
  lemma RestartCanClash(w: World)
    requires w.Online("n") && w.BringsUp()
    ensures !PortsDistinct(Run(EMPTY, [Create(7, "n", 0), Start(0, 7, w), Stop(0, 7),
                                       Create(7, "n", 0), Start(1, 7, w), Start(0, 7, w)]))
  {
    var before := [Create(7, "n", 0), Start(0, 7, w), Stop(0, 7), Create(7, "n", 0), Start(1, 7, w)];
    RestartCandidates(w);
    OneMoreAction(EMPTY, before, Start(0, 7, w));
    assert before + [Start(0, 7, w)] == [Create(7, "n", 0), Start(0, 7, w), Stop(0, 7),
                                         Create(7, "n", 0), Start(1, 7, w), Start(0, 7, w)];
    var s := Run(EMPTY, before);
    assert Leased(Apply(s, Start(0, 7, w)), 0) && Leased(Apply(s, Start(0, 7, w)), 1);
  }

  lemma RestartCandidates(w: World)
    requires w.Online("n") && w.BringsUp()
    ensures var s := Run(EMPTY, [Create(7, "n", 0), Start(0, 7, w), Stop(0, 7), Create(7, "n", 0), Start(1, 7, w)]);
            && s.rows == map[0 := Deployment(7, "n", 30000, Stopped), 1 := Deployment(7, "n", 30000, Running)]
            && s.leased >= {0, 1}
  {
    var a2 := [Create(7, "n", 0)] + [Start(0, 7, w)];
    var a3 := a2 + [Stop(0, 7)];
    var a4 := a3 + [Create(7, "n", 0)];
    FirstStart(w);
    OneMoreAction(EMPTY, a2, Stop(0, 7));
    OneMoreAction(EMPTY, a3, Create(7, "n", 0));
    var s4 := Run(EMPTY, a4);
    assert s4.rows == map[0 := Deployment(7, "n", 30000, Stopped), 1 := Deployment(7, "n", 0, Pending)];
    assert UsedPorts(s4.rows, "n") == {};
    FirstLaunchGetsFirstPort(s4, 1, 7, w);
    OneMoreAction(EMPTY, a4, Start(1, 7, w));
    assert a4 + [Start(1, 7, w)] == [Create(7, "n", 0), Start(0, 7, w), Stop(0, 7), Create(7, "n", 0), Start(1, 7, w)];
  }

  lemma StartedThenDeleted(w: World)
    requires w.Online("n") && w.BringsUp()
    ensures var s := Apply(Run(EMPTY, [Create(7, "n", 0)] + [Start(0, 7, w)]), Delete(0, 7));
            0 !in s.rows && 0 < s.next && Net(s.events, 0) == 1
  {
    var s := Run(EMPTY, [Create(7, "n", 0)] + [Start(0, 7, w)]);
    FirstStart(w);
    EveryRunKeepsInvariant(EMPTY, [Create(7, "n", 0)] + [Start(0, 7, w)]);
    assert InvariantAt(s, 0);
    assert Apply(s, Delete(0, 7)).events == s.events;
  }

  /** A reachable run that leaves usage open: started, deleted while running, and never stopped again. */
  lemma DeletedWhileRunningStaysOpen(w: World, later: seq<Action>)
    requires w.Online("n") && w.BringsUp()
    ensures var s := Run(EMPTY, [Create(7, "n", 0), Start(0, 7, w), Delete(0, 7)]);
            0 !in s.rows && Net(s.events, 0) == 1 && Net(Run(s, later).events, 0) == 1
  {
    var started := [Create(7, "n", 0)] + [Start(0, 7, w)];
    StartedThenDeleted(w);
    OneMoreAction(EMPTY, started, Delete(0, 7));
    assert started + [Delete(0, 7)] == [Create(7, "n", 0), Start(0, 7, w), Delete(0, 7)];
    DeletedUsageNeverChanges(Run(EMPTY, started + [Delete(0, 7)]), later, 0);
  }
}
