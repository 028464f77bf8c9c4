/**
 What one user action does to the rows and to the usage log, said in the fields of the row and of the
 world alone, and where the events of a run come from.
 */
module ActionEffects {
  import opened Lifecycle
  import opened Ports
  import opened Wrappers

  // ----- Starting

  /** No row on the node outside stopped and deleted has the port. */
  ghost predicate PortFree(s: State, node: string, p: int) {
    forall b :: b in s.rows && s.rows[b].node == node && s.rows[b].status != Stopped && s.rows[b].status != Deleted ==>
      s.rows[b].port != p
  }

  ghost predicate LeastFreePort(s: State, node: string, p: int) {
    && 30000 <= p <= 39999 && PortFree(s, node, p)
    && forall q :: 30000 <= q < p ==> !PortFree(s, node, q)
  }

  /**
   A pending deployment is launched on an online node with a port of its own or a free one; a scheduled,
   stopped or failed one on whatever node it has.
   */
  ghost predicate IsLaunched(s: State, id: nat, w: World)
    requires id in s.rows
  {
    var d := s.rows[id];
    && d.node != ""
    && (|| d.status in {Scheduled, Stopped, Failed}
        || (&& d.status == Pending && d.node in w.nodes && w.nodes[d.node] == "online"
            && (d.port != 0 || exists p :: 30000 <= p <= 39999 && PortFree(s, d.node, p))))
  }

  /** What a launch needs to end in running. */
  predicate ContainersUp(w: World) {
    && w.poolConfigured && w.clientAvailable
    && w.composeSpec.Some? && w.composeSpec.value != ""
    && w.containersStart
  }

  lemma UsedIffNotFree(s: State, node: string, p: int)
    requires p > 0
    ensures p in UsedPorts(s.rows, node) <==> !PortFree(s, node, p)
  {
  }

  lemma FirstUnusedIsLeastFree(s: State, node: string)
    ensures var r := FirstUnused(UsedPorts(s.rows, node), DEFAULT_RANGE);
            && (r.Some? ==> LeastFreePort(s, node, r.value))
            && (r.None? <==> forall p :: 30000 <= p <= 39999 ==> !PortFree(s, node, p))
  {
    var used := UsedPorts(s.rows, node);
    FirstUnusedIsLeast(used, DEFAULT_RANGE);
    forall p | 30000 <= p <= 39999 ensures p in used <==> !PortFree(s, node, p) {
      UsedIffNotFree(s, node, p);
    }
    assert forall p :: p in PortsIn(DEFAULT_RANGE) <==> 30000 <= p <= 39999;
  }
  /** The row, changed in port and status only, and the events that were there before and one more or not. */
  ghost predicate Becomes(s: State, t: State, id: nat, port: int, status: Status, logged: seq<UsageEvent>)
    requires id in s.rows
  {
    && t.rows == s.rows[id := Deployment(s.rows[id].customer, s.rows[id].node, port, status)]
    && t.events == s.events + logged && t.next == s.next
  }

  function ForOwner(customer: int, kind: EventKind, id: nat): seq<UsageEvent> {
    if customer == 0 then [] else [UsageEvent(customer, kind, id)]
  }

  lemma LaunchEnds(s: State, id: nat, w: World)
    requires id in s.rows
    ensures var d, up := s.rows[id], ContainersUp(w);
            Becomes(s, Launch(s, id, w), id, d.port, if up then Running else Failed,
                    if up then ForOwner(d.customer, EventStarted, id) else [])
  {
  }

  lemma ScheduleEnds(s: State, id: nat, w: World) returns (port: int)
    requires id in s.rows && s.rows[id].status == Pending
    ensures var d, t := s.rows[id], Schedule(s, id, w);
            if !IsLaunched(s, id, w) then Becomes(s, t, id, d.port, Scheduled, [])
            else (d.port != 0 ==> port == d.port) && (d.port == 0 ==> LeastFreePort(s, d.node, port))
                 && Becomes(s, t, id, port, if ContainersUp(w) then Running else Failed,
                            if ContainersUp(w) then ForOwner(d.customer, EventStarted, id) else [])
  {
    var d := s.rows[id];
    FirstUnusedIsLeastFree(s, d.node);
    port := 0;
    if IsLaunched(s, id, w) {
      port := PortFor(s, id).value;
      var leased := if d.port == 0 then s.leased + {id} else s.leased;
      var placed := s.(rows := s.rows[id := d.(port := port)], leased := leased);
      LaunchEnds(placed, id, w);
    }
  }

  /**
   A start ends in running, with a started event, exactly when the deployment is launched and pool, client,
   a compose specification and all its containers are there; a launch that lacks one ends in failed.
   */
  lemma StartEnds(s: State, id: nat, user: int, w: World) returns (port: int)
    requires id in s.rows && s.rows[id].customer == user
    ensures var d, t := s.rows[id], Apply(s, Start(id, user, w));
            if !IsLaunched(s, id, w) then
              Becomes(s, t, id, d.port, if d.status == Pending then Scheduled else d.status, [])
            else
              var up := w.poolConfigured && w.clientAvailable && w.composeSpec.Some? && w.composeSpec.value != ""
                        && w.containersStart;
              && (d.status != Pending || d.port != 0 ==> port == d.port)
              && (d.status == Pending && d.port == 0 ==> LeastFreePort(s, d.node, port))
              && Becomes(s, t, id, port, if up then Running else Failed,
                         if up then ForOwner(user, EventStarted, id) else [])
  {
    var d := s.rows[id];
    port := d.port;
    if d.status == Pending {
      port := ScheduleEnds(s, id, w);
    } else {
      LaunchEnds(s, id, w);
    }
  }

  // ----- The other actions

  lemma CreateEnds(s: State, customer: int, node: string, port: int)
    ensures var t := Apply(s, Create(customer, node, port));
            && t.rows == s.rows[s.next := Deployment(customer, node, port, Pending)] && t.next == s.next + 1
            && t.events == s.events + if customer > 0 then [UsageEvent(customer, EventCreated, s.next)] else []
  {
  }

  lemma StopEnds(s: State, id: nat, user: int)
    requires id in s.rows && s.rows[id].customer == user
    ensures var d, t := s.rows[id], Apply(s, Stop(id, user));
            if d.status == Running then Becomes(s, t, id, d.port, Stopped, ForOwner(user, EventStopped, id)) else t == s
  {
  }

  lemma DeleteEnds(s: State, id: nat, user: int)
    requires id in s.rows && s.rows[id].customer == user
    ensures var t := Apply(s, Delete(id, user));
            && t.rows == s.rows - {id} && t.next == s.next
            && t.events == s.events + if s.rows[id].status in {Stopped, Failed} then ForOwner(user, EventDeleted, id)
                                      else []
  {
  }

  /** Nobody acts on another's deployment. */
  lemma OthersChangeNothing(s: State, a: Action)
    requires !a.Create? && !(a.id in s.rows && s.rows[a.id].customer == a.user)
    ensures Apply(s, a) == s
  {
  }

  // ----- Where the events of a run come from

  /** The event that the action has to log, and nothing if it has none to log. */
  ghost function Logged(s: State, a: Action): seq<UsageEvent> {
    match a
    case Create(customer, _, _) => if customer > 0 then [UsageEvent(customer, EventCreated, s.next)] else []
    case Start(id, user, w) =>
      if id in s.rows && s.rows[id].customer == user && IsLaunched(s, id, w) && ContainersUp(w)
      then ForOwner(user, EventStarted, id) else []
    case Stop(id, user) =>
      if id in s.rows && s.rows[id].customer == user && s.rows[id].status == Running
      then ForOwner(user, EventStopped, id) else []
    case Delete(id, user) =>
      if id in s.rows && s.rows[id].customer == user && s.rows[id].status in {Stopped, Failed}
      then ForOwner(user, EventDeleted, id) else []
  }

  lemma ActionLogs(s: State, a: Action)
    ensures Apply(s, a).events == s.events + Logged(s, a)
  {
    match a
    case Create(customer, node, port) => CreateEnds(s, customer, node, port);
    case Start(id, user, w) =>
      if id in s.rows && s.rows[id].customer == user {
        var port := StartEnds(s, id, user, w);
      } else {
        OthersChangeNothing(s, a);
      }
    case Stop(id, user) =>
      if id in s.rows && s.rows[id].customer == user {
        StopEnds(s, id, user);
      } else {
        OthersChangeNothing(s, a);
      }
    case Delete(id, user) =>
      if id in s.rows && s.rows[id].customer == user {
        DeleteEnds(s, id, user);
      } else {
        OthersChangeNothing(s, a);
      }
  }

  /** Every event of a run was logged, at its place in the log, by an action of the run that had it to log. */
  lemma {:induction false} EveryEventHasItsAction(actions: seq<Action>, k: nat) returns (i: nat)
    requires k < |Run(EMPTY, actions).events|
    ensures i < |actions|
    ensures var s := Run(EMPTY, actions[..i]);
            |s.events| == k && Logged(s, actions[i]) == [Run(EMPTY, actions).events[k]]
  {
    var n := |actions| - 1;
    var init := actions[..n];
    ActionLogs(Run(EMPTY, init), actions[n]);
    if k < |Run(EMPTY, init).events| {
      i := EveryEventHasItsAction(init, k);
      assert init[..i] == actions[..i];
    } else {
      i := n;
    }
  }

  /** Who is billed for a start owns the deployment, and its containers came up. */
  lemma StartedMeansContainersUp(actions: seq<Action>, k: nat) returns (i: nat)
    requires k < |Run(EMPTY, actions).events| && Run(EMPTY, actions).events[k].kind == EventStarted
    ensures i < |actions|
    ensures var s, a, e := Run(EMPTY, actions[..i]), actions[i], Run(EMPTY, actions).events[k];
            && a.Start? && a.id == e.deployment && a.user == e.customer != 0
            && e.deployment in s.rows && s.rows[e.deployment].customer == e.customer
            && a.world.poolConfigured && a.world.clientAvailable && a.world.composeSpec.Some?
            && a.world.composeSpec.value != "" && a.world.containersStart
            && Apply(s, a).rows[e.deployment].status == Running
  {
    i := EveryEventHasItsAction(actions, k);
    var s, a := Run(EMPTY, actions[..i]), actions[i];
    assert Logged(s, a)[0].kind == EventStarted;
    var port := StartEnds(s, a.id, a.user, a.world);
  }

  lemma {:induction false} RowsBelongToTheirCreator(actions: seq<Action>, id: nat) returns (i: nat)
    requires id in Run(EMPTY, actions).rows
    ensures i < |actions| && actions[i].Create? && Run(EMPTY, actions[..i]).next == id
    ensures actions[i].customer == Run(EMPTY, actions).rows[id].customer
  {
    var n := |actions| - 1;
    var s, a := Run(EMPTY, actions[..n]), actions[n];
    if a.Create? && id == s.next {
      CreateEnds(s, a.customer, a.node, a.port);
      i := n;
    } else {
      ActionKeepsCustomers(s, a, id);
      i := RowsBelongToTheirCreator(actions[..n], id);
      assert actions[..n][..i] == actions[..i];
    }
  }

  lemma ActionKeepsCustomers(s: State, a: Action, id: nat)
    requires id in Apply(s, a).rows && !(a.Create? && id == s.next)
    ensures id in s.rows && s.rows[id].customer == Apply(s, a).rows[id].customer
  {
    if !a.Create? && !(a.id in s.rows && s.rows[a.id].customer == a.user) {
      OthersChangeNothing(s, a);
    } else {
      match a
      case Create(customer, node, port) => CreateEnds(s, customer, node, port);
      case Start(i, user, w) => var port := StartEnds(s, i, user, w);
      case Stop(i, user) => StopEnds(s, i, user);
      case Delete(i, user) => DeleteEnds(s, i, user);
    }
  }

  /** Every event of a run names the customer that the deployment was created for. */
  lemma EventNamesTheCreator(actions: seq<Action>, k: nat) returns (i: nat)
    requires k < |Run(EMPTY, actions).events|
    ensures i < |actions| && actions[i].Create?
    ensures var e := Run(EMPTY, actions).events[k];
            Run(EMPTY, actions[..i]).next == e.deployment && actions[i].customer == e.customer
  {
    var e := Run(EMPTY, actions).events[k];
    var j := EveryEventHasItsAction(actions, k);
    if e.kind == EventCreated {
      i := j;
    } else {
      i := RowsBelongToTheirCreator(actions[..j], e.deployment);
      assert actions[..j][..i] == actions[..i];
    }
  }
}
