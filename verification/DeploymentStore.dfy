/**
 The deployment rows, the state machine that guards their status, the action handlers and the
 command handlers they dispatch. Each action is proved to have exactly the effect that
 Lifecycle.Apply gives it, whatever the outside world answers.
 */
module DeploymentStore {
  import opened Lifecycle
  import opened Ports
  import opened Wrappers

  datatype Command =
    | ScheduleDeployment | StartDeployment | StopDeployment | DeleteDeployment | DeploymentRunning | DeploymentFailed

  datatype TransitionError = NotFound | InvalidTransition | GuardFailed

  datatype Response = Accepted | NoSuchDeployment | NotAuthorized | Conflict

  // ----- The state machine of the deployments resource

  function Targets(from: Status): seq<Status> {
    match from
    case Pending => [Scheduled]
    case Scheduled => [Starting]
    case Starting => [Running, Failed]
    case Running => [Stopping, Failed]
    case Stopping => [Stopped]
    case Stopped => [Starting, Deleting]
    case Deleting => [Deleted]
    case Failed => [Starting, Deleting]
    case Deleted => []
  }

  predicate CanTransition(from: Status, to: Status) {
    to in Targets(from)
  }

  /** The moves that the table allows, each once. */
  lemma AllowedTransitions(from: Status, to: Status)
    ensures CanTransition(from, to) <==>
      (from, to) in {(Pending, Scheduled), (Scheduled, Starting), (Starting, Running), (Starting, Failed),
                     (Running, Stopping), (Running, Failed), (Stopping, Stopped), (Stopped, Starting),
                     (Stopped, Deleting), (Deleting, Deleted), (Failed, Starting), (Failed, Deleting)}
  {
  }

  predicate Startable(d: Deployment) {
    d.status == Pending || (d.status in {Scheduled, Stopped, Failed} && d.node != "")
  }

  /** Entering starting requires a node. */
  predicate GuardHolds(d: Deployment, to: Status) {
    to == Starting ==> d.node != ""
  }

  function OnEnter(to: Status): Option<Command> {
    match to
    case Scheduled => Some(ScheduleDeployment)
    case Starting => Some(StartDeployment)
    case Stopping => Some(StopDeployment)
    case Deleting => Some(DeleteDeployment)
    case Running => Some(DeploymentRunning)
    case Failed => Some(DeploymentFailed)
    case _ => None
  }

  // ----- Launching and scheduling do not depend on the status the row is left in

  lemma LaunchIgnoresStatus(s: State, id: nat, status: Status, w: World)
    requires id in s.rows
    ensures Launch(WithStatus(s, id, status), id, w) == Launch(s, id, w)
  {
  }

  lemma PortsIgnoreScheduled(s: State, id: nat)
    requires id in s.rows && s.rows[id].status == Pending
    ensures PortFor(WithStatus(s, id, Scheduled), id) == PortFor(s, id)
  {
    var rows, after := s.rows, WithStatus(s, id, Scheduled).rows;
    assert UsedPorts(after, rows[id].node) == UsedPorts(rows, rows[id].node) by {
      forall i | i in rows
        ensures i in after && after[i].port == rows[i].port && after[i].node == rows[i].node
        ensures HoldsPort(after[i]) == HoldsPort(rows[i])
      {
      }
    }
  }

  lemma ScheduleIgnoresScheduled(s: State, id: nat, w: World)
    requires id in s.rows && s.rows[id].status == Pending
    ensures Schedule(WithStatus(s, id, Scheduled), id, w) == Schedule(s, id, w)
  {
    var t, d := WithStatus(s, id, Scheduled), s.rows[id];
    PortsIgnoreScheduled(s, id);
    if d.node == "" || !w.Online(d.node) || PortFor(s, id).None? {
      assert t.rows[id := t.rows[id].(status := Scheduled)] == t.rows;
    } else {
      var port, leased := PortFor(s, id).value, if d.port == 0 then s.leased + {id} else s.leased;
      var placed := s.(rows := s.rows[id := d.(port := port)], leased := leased);
      assert t.rows[id := t.rows[id].(port := port)] == WithStatus(placed, id, Scheduled).rows;
      LaunchIgnoresStatus(placed, id, Scheduled, w);
    }
  }

  class Store {
    var rows: map<nat, Deployment>
    var events: seq<UsageEvent>
    var next: nat
    ghost var leased: set<nat>

    ghost function Contents(): State
      reads this
    {
      State(rows, events, next, leased)
    }

    constructor ()
      ensures Contents() == EMPTY
    {
      rows, events, next, leased := map[], [], 0, {};
    }

    method Transition(id: nat, to: Status) returns (r: Result<(Deployment, Option<Command>), TransitionError>)
      modifies this`rows
      ensures r == if id !in old(rows) then Failure(NotFound)
                   else if !CanTransition(old(rows)[id].status, to) then Failure(InvalidTransition)
                   else if !GuardHolds(old(rows)[id], to) then Failure(GuardFailed)
                   else Success((old(rows)[id].(status := to), OnEnter(to)))
      ensures rows == if r.Success? then old(rows)[id := r.value.0] else old(rows)
    {
      if id !in rows {
        return Failure(NotFound);
      }
      var row := rows[id];
      if !CanTransition(row.status, to) {
        return Failure(InvalidTransition);
      }
      if !GuardHolds(row, to) {
        return Failure(GuardFailed);
      }
      rows := rows[id := row.(status := to)];
      return Success((rows[id], OnEnter(to)));
    }

    /** Nothing is recorded for an unknown owner. */
    method RecordBillingEvent(id: nat, customer: int, kind: EventKind)
      modifies this`events
      ensures events == Recorded(old(events), customer, kind, id)
    {
      if customer == 0 {
        return;
      }
      events := events + [UsageEvent(customer, kind, id)];
    }

    /** The positive ports on the node that are not given back, in whatever order the rows come. */
    method GetUsedProxyPorts(node: string) returns (ports: seq<int>)
      ensures (set p | p in ports) == UsedPorts(rows, node)
    {
      ports := [];
      var remaining := rows.Keys;
      while remaining != {}
        invariant remaining <= rows.Keys
        invariant forall p :: p in ports <==>
          exists id :: id in rows.Keys - remaining && rows[id].node == node && HoldsPort(rows[id])
                    && rows[id].port > 0 && rows[id].port == p
      {
        var id :| id in remaining;
        remaining := remaining - {id};
        if rows[id].node == node && rows[id].status != Deleted && rows[id].status != Stopped {
          if rows[id].port > 0 {
            ports := ports + [rows[id].port];
          }
        }
      }
      assert forall p :: p in ports <==> p in UsedPorts(rows, node);
    }

    /** The transition is attempted and its outcome ignored. */
    method FailDeployment(id: nat)
      modifies this`rows
      ensures rows == if id in old(rows) && CanTransition(old(rows)[id].status, Failed)
                      then old(rows)[id := old(rows)[id].(status := Failed)] else old(rows)
    {
      var r := Transition(id, Failed);
    }

    // ----- Command handlers, given the row as it was when the command was dispatched

    method HandleStart(id: nat, data: Deployment, w: World)
      requires id in rows && rows[id] == data && data.status == Starting
      modifies this
      ensures Contents() == old(Launch(Contents(), id, w))
      ensures rows[id].status == if w.poolConfigured && w.clientAvailable && w.composeSpec.Some?
                                    && w.composeSpec.value != "" && w.containersStart then Running else Failed
      ensures rows[id].status == Failed ==> events == old(events)
    {
      if !w.poolConfigured || !w.clientAvailable {
        FailDeployment(id);
        return;
      }
      if w.composeSpec.None? || w.composeSpec.value == "" {
        FailDeployment(id);
        return;
      }
      if !w.containersStart {
        FailDeployment(id);
        return;
      }
      var r := Transition(id, Running);
      if r.Success? {
        RecordBillingEvent(id, data.customer, EventStarted);
      }
    }

    method HandleSchedule(id: nat, data: Deployment, w: World)
      requires id in rows && rows[id] == data && data.status == Scheduled
      modifies this
      ensures Contents() == old(Schedule(Contents(), id, w))
    {
      if data.node == "" || data.node !in w.nodes || w.nodes[data.node] != "online" {
        FailDeployment(id);
        return;
      }
      var port := data.port;
      if port == 0 {
        var used := GetUsedProxyPorts(data.node);
        var free := AllocatePort(used, DEFAULT_RANGE);
        if free.None? {
          return;
        }
        port := free.value;
        leased := leased + {id};
      }
      rows := rows[id := rows[id].(node := data.node, port := port)];
      ghost var placed := Contents();
      LaunchIgnoresStatus(placed, id, Starting, w);
      var r := Transition(id, Starting);
      if r.Success? && r.value.1 == Some(StartDeployment) {
        HandleStart(id, rows[id], w);
      }
    }

    method HandleStop(id: nat, data: Deployment)
      requires id in rows && rows[id] == data && data.status == Stopping
      modifies this
      ensures Contents() == old(WithStatus(Contents(), id, Stopped)
                                .(events := Recorded(events, data.customer, EventStopped, id)))
    {
      var r := Transition(id, Stopped);
      if r.Success? {
        RecordBillingEvent(id, data.customer, EventStopped);
      }
    }

    method HandleDelete(id: nat, data: Deployment)
      requires id in rows && rows[id] == data && data.status == Deleting
      modifies this
      ensures Contents() == old(WithStatus(Contents(), id, Deleted)
                                .(events := Recorded(events, data.customer, EventDeleted, id)))
    {
      var r := Transition(id, Deleted);
      if r.Success? {
        RecordBillingEvent(id, data.customer, EventDeleted);
      }
    }

    // ----- Actions, each with the command it dispatches

    method CreateAction(customer: int, node: string, port: int) returns (id: nat)
      modifies this
      ensures id == old(next) && Contents() == Apply(old(Contents()), Create(customer, node, port))
    {
      id := next;
      next := next + 1;
      rows := rows[id := Deployment(customer, node, port, Pending)];
      if customer > 0 {
        RecordBillingEvent(id, customer, EventCreated);
      }
    }

    method StartAction(id: nat, user: int, w: World) returns (response: Response)
      modifies this
      ensures Contents() == Apply(old(Contents()), Start(id, user, w))
      ensures response.NoSuchDeployment? <==> id !in old(rows)
      ensures response.NotAuthorized? <==> id in old(rows) && old(rows)[id].customer != user
      ensures response.Accepted? <==> OwnedBy(old(Contents()), id, user) && Startable(old(rows)[id])
    {
      if id !in rows {
        return NoSuchDeployment;
      }
      var existing := rows[id];
      if existing.customer != user {
        return NotAuthorized;
      }
      var target;
      match existing.status {
        case Pending => target := Scheduled;
        case Scheduled => target := Starting;
        case Stopped => target := Starting;
        case Failed => target := Starting;
        case _ => return Conflict;
      }
      ghost var before := Contents();
      var r := Transition(id, target);
      if r.Failure? {
        return Conflict;
      }
      Dispatch(id, r.value.0, r.value.1, w);
      if target == Scheduled {
        ScheduleIgnoresScheduled(before, id, w);
      } else {
        LaunchIgnoresStatus(before, id, Starting, w);
      }
      return Accepted;
    }

    /** The command bus, for the commands that entering scheduled and starting emits. */
    method Dispatch(id: nat, row: Deployment, command: Option<Command>, w: World)
      requires id in rows && rows[id] == row && command == OnEnter(row.status)
      requires row.status == Scheduled || row.status == Starting
      modifies this
      ensures row.status == Scheduled ==> Contents() == old(Schedule(Contents(), id, w))
      ensures row.status == Starting ==> Contents() == old(Launch(Contents(), id, w))
    {
      if command == Some(ScheduleDeployment) {
        HandleSchedule(id, row, w);
      } else if command == Some(StartDeployment) {
        HandleStart(id, row, w);
      }
    }

    method StopAction(id: nat, user: int) returns (response: Response)
      modifies this
      ensures Contents() == Apply(old(Contents()), Stop(id, user))
      ensures response.NoSuchDeployment? <==> id !in old(rows)
      ensures response.NotAuthorized? <==> id in old(rows) && old(rows)[id].customer != user
      ensures response.Accepted? <==> OwnedBy(old(Contents()), id, user) && old(rows)[id].status == Running
    {
      if id !in rows {
        return NoSuchDeployment;
      }
      if rows[id].customer != user {
        return NotAuthorized;
      }
      var r := Transition(id, Stopping);
      if r.Failure? {
        return Conflict;
      }
      var (row, command) := r.value;
      if command == Some(StopDeployment) {
        HandleStop(id, row);
      }
      return Accepted;
    }

    /** States with a transition to deleting run the delete command first; any other row is just removed. */
    method DeleteAction(id: nat, user: int) returns (response: Response)
      modifies this
      ensures Contents() == Apply(old(Contents()), Delete(id, user))
      ensures response == if id !in old(rows) then NoSuchDeployment
                          else if old(rows)[id].customer != user then NotAuthorized
                          else Accepted
    {
      if id !in rows {
        return NoSuchDeployment;
      }
      if rows[id].customer != user {
        return NotAuthorized;
      }
      var dispatched := false;
      if Deleting in Targets(rows[id].status) {
        var r := Transition(id, Deleting);
        if r.Success? && r.value.1 == Some(DeleteDeployment) {
          dispatched := true;
          HandleDelete(id, r.value.0);
        }
      }
      if dispatched && id in rows && rows[id].status == Failed {
        return Conflict;
      }
      rows := rows - {id};
      return Accepted;
    }
  }
}
