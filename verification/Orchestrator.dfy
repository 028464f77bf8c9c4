/**
 `Orchestrator.StartDeployment`: network, volumes and images, then the container loop in
 dependency order, with clean-up when a Docker call of the loop fails.

 Docker is an engine with arbitrary answers, one for each call; it keeps the log of its calls.
 */
module Orchestrator {
  import opened Graphs
  import opened Sequences
  import opened Services
  import opened CycleDetection
  import opened Ordering
  import opened Wrappers

  datatype StartOutcome = Started | AlreadyRunning | StartFailed

  datatype Info = Info(id: string, status: string)

  datatype ContainerInfo = ContainerInfo(id: string, serviceName: string, image: string, status: string)

  /** Calls made on behalf of a service carry its name. */
  datatype Call =
    | CreateNetwork(network: Option<string>)
    | CreateVolume(volume: string, made: bool)
    | ImageExists(image: string, present: bool)
    | PullImage(image: string, pulled: bool)
    | ListContainers(existing: map<string, string>)
    | CreateContainer(service: string, primary: bool, created: Option<string>)
    | StartContainer(service: string, id: string, outcome: StartOutcome)
    | InspectContainer(service: string, id: string, info: Option<Info>)
    | StopContainer(id: string)
    | RemoveContainer(id: string)
    | RemoveNetwork(id: string)

  /** What Docker says to a call, whichever call it turns out to be. */
  datatype Answer = Answer(
    id: Option<string>,
    ok: bool,
    existing: map<string, string>,
    outcome: StartOutcome,
    info: Option<Info>)
  {
    predicate Gives(c: Call) {
      match c
      case CreateNetwork(network) => network == id
      case CreateVolume(_, made) => made == ok
      case ImageExists(_, present) => present == ok
      case PullImage(_, pulled) => pulled == ok
      case ListContainers(found) => found == existing
      case CreateContainer(_, _, created) => created == id
      case StartContainer(_, _, o) => o == outcome
      case InspectContainer(_, _, i) => i == info
      case _ => true
    }
  }

  class Docker {
    /** The answer to each call, by its position in the log. */
    const answers: nat -> Answer
    var calls: seq<Call>

    constructor (answers: nat -> Answer)
      ensures this.answers == answers && calls == []
    {
      this.answers := answers;
      calls := [];
    }

    method NetworkCreate() returns (network: Option<string>)
      modifies this
      ensures network == answers(|old(calls)|).id && calls == old(calls) + [CreateNetwork(network)]
    {
      network := answers(|calls|).id;
      calls := calls + [CreateNetwork(network)];
    }

    method VolumeCreate(volume: string) returns (created: bool)
      modifies this
      ensures created == answers(|old(calls)|).ok && calls == old(calls) + [CreateVolume(volume, created)]
    {
      created := answers(|calls|).ok;
      calls := calls + [CreateVolume(volume, created)];
    }

    method HasImage(image: string) returns (present: bool)
      modifies this
      ensures present == answers(|old(calls)|).ok && calls == old(calls) + [ImageExists(image, present)]
    {
      present := answers(|calls|).ok;
      calls := calls + [ImageExists(image, present)];
    }

    method Pull(image: string) returns (pulled: bool)
      modifies this
      ensures pulled == answers(|old(calls)|).ok && calls == old(calls) + [PullImage(image, pulled)]
    {
      pulled := answers(|calls|).ok;
      calls := calls + [PullImage(image, pulled)];
    }

    /** The containers that carry the deployment's label, by their service label. */
    method List() returns (existing: map<string, string>)
      modifies this
      ensures existing == answers(|old(calls)|).existing && calls == old(calls) + [ListContainers(existing)]
    {
      existing := answers(|calls|).existing;
      calls := calls + [ListContainers(existing)];
    }

    method Create(service: string, primary: bool) returns (id: Option<string>)
      modifies this
      ensures id == answers(|old(calls)|).id && calls == old(calls) + [CreateContainer(service, primary, id)]
    {
      id := answers(|calls|).id;
      calls := calls + [CreateContainer(service, primary, id)];
    }

    method Start(service: string, id: string) returns (outcome: StartOutcome)
      modifies this
      ensures outcome == answers(|old(calls)|).outcome && calls == old(calls) + [StartContainer(service, id, outcome)]
    {
      outcome := answers(|calls|).outcome;
      calls := calls + [StartContainer(service, id, outcome)];
    }

    method Inspect(service: string, id: string) returns (info: Option<Info>)
      modifies this
      ensures info == answers(|old(calls)|).info && calls == old(calls) + [InspectContainer(service, id, info)]
    {
      info := answers(|calls|).info;
      calls := calls + [InspectContainer(service, id, info)];
    }

    method Stop(id: string)
      modifies this
      ensures calls == old(calls) + [StopContainer(id)]
    {
      calls := calls + [StopContainer(id)];
    }

    method Remove(id: string)
      modifies this
      ensures calls == old(calls) + [RemoveContainer(id)]
    {
      calls := calls + [RemoveContainer(id)];
    }

    method NetworkRemove(id: string)
      modifies this
      ensures calls == old(calls) + [RemoveNetwork(id)]
    {
      calls := calls + [RemoveNetwork(id)];
    }
  }

  // ----- The shape of one run of the container loop

  /** A service whose container was started and inspected. */
  datatype Step = Step(service: Service, id: string, outcome: StartOutcome, info: Info)

  /** The call that ended the loop early. */
  datatype Fault =
    | CreateFailed
    | StartRejected(id: string)
    | InspectFailed(id: string, outcome: StartOutcome)

  datatype Run = Run(steps: seq<Step>, fault: Option<Fault>, cleanup: seq<string>)

  datatype Loop = Loop(ordered: seq<Service>, existing: map<string, string>, primary: string, network: string)

  function Acquire(loop: Loop, name: string, id: string): seq<Call> {
    if name in loop.existing then [] else [CreateContainer(name, name == loop.primary, Some(id))]
  }

  function StepCalls(loop: Loop, s: Step): seq<Call> {
    Acquire(loop, s.service.name, s.id)
      + [StartContainer(s.service.name, s.id, s.outcome), InspectContainer(s.service.name, s.id, Some(s.info))]
  }

  function AllStepCalls(loop: Loop, steps: seq<Step>): seq<Call> {
    if steps == [] then [] else AllStepCalls(loop, steps[..|steps| - 1]) + StepCalls(loop, steps[|steps| - 1])
  }

  function FaultCalls(loop: Loop, name: string, f: Fault): seq<Call> {
    match f
    case CreateFailed => [CreateContainer(name, name == loop.primary, None)]
    case StartRejected(id) => Acquire(loop, name, id) + [StartContainer(name, id, StartFailed)]
    case InspectFailed(id, outcome) =>
      Acquire(loop, name, id) + [StartContainer(name, id, outcome), InspectContainer(name, id, None)]
  }

  function CleanupCalls(created: map<string, string>, names: seq<string>): seq<Call>
    requires forall n :: n in names ==> n in created
  {
    if names == [] then []
    else
      var id := created[names[|names| - 1]];
      CleanupCalls(created, names[..|names| - 1]) + [StopContainer(id), RemoveContainer(id)]
  }

  /** `createdContainers` after the given steps: service name to container id. */
  function CreatedBy(steps: seq<Step>): map<string, string> {
    if steps == [] then map[]
    else
      var last := steps[|steps| - 1];
      CreatedBy(steps[..|steps| - 1])[last.service.name := last.id]
  }

  /** The container of the service that broke the loop is recorded as soon as it has an id. */
  function Record(created: map<string, string>, name: string, f: Fault): map<string, string> {
    match f
    case CreateFailed => created
    case StartRejected(id) => created[name := id]
    case InspectFailed(id, _) => created[name := id]
  }

  function Created(loop: Loop, run: Run): map<string, string>
    requires run.fault.Some? ==> |run.steps| < |loop.ordered|
  {
    match run.fault
    case None => CreatedBy(run.steps)
    case Some(f) => Record(CreatedBy(run.steps), loop.ordered[|run.steps|].name, f)
  }

  /** The acquired id is the existing container's, when there is one. */
  ghost predicate IdFits(loop: Loop, name: string, id: string) {
    name in loop.existing ==> id == loop.existing[name]
  }

  ghost predicate StepsFit(loop: Loop, steps: seq<Step>) {
    && |steps| <= |loop.ordered|
    && forall i :: 0 <= i < |steps| ==>
         && steps[i].service == loop.ordered[i]
         && steps[i].outcome != StartFailed
         && IdFits(loop, steps[i].service.name, steps[i].id)
  }

  ghost predicate FaultFits(loop: Loop, name: string, f: Fault) {
    match f
    case CreateFailed => name !in loop.existing
    case StartRejected(id) => IdFits(loop, name, id)
    case InspectFailed(id, outcome) => IdFits(loop, name, id) && outcome != StartFailed
  }

  ghost predicate Fits(loop: Loop, run: Run) {
    && StepsFit(loop, run.steps)
    && (run.fault.None? ==> |run.steps| == |loop.ordered| && run.cleanup == [])
    && (run.fault.Some? ==>
          && |run.steps| < |loop.ordered|
          && FaultFits(loop, loop.ordered[|run.steps|].name, run.fault.value)
          && NoDuplicates(run.cleanup)
          && Elements(run.cleanup) == Created(loop, run).Keys)
  }

  ghost function RunCalls(loop: Loop, run: Run): seq<Call>
    requires Fits(loop, run)
  {
    AllStepCalls(loop, run.steps) +
    match run.fault
    case None => []
    case Some(f) =>
      assert forall n :: n in run.cleanup ==> n in Elements(run.cleanup);
      FaultCalls(loop, loop.ordered[|run.steps|].name, f)
        + CleanupCalls(Created(loop, run), run.cleanup) + [RemoveNetwork(loop.network)]
  }

  function Report(s: Step): ContainerInfo {
    ContainerInfo(s.info.id, s.service.name, s.service.image, s.info.status)
  }

  // ----- The loop

  /** Stops and removes every container of the map, in an arbitrary order of its keys. */
  method CleanupCreatedContainers(docker: Docker, created: map<string, string>) returns (ghost names: seq<string>)
    modifies docker
    ensures NoDuplicates(names) && Elements(names) == created.Keys
    ensures (forall n :: n in names ==> n in created)
         && docker.calls == old(docker.calls) + CleanupCalls(created, names)
  {
    names := [];
    var remaining := created.Keys;
    assert docker.calls == old(docker.calls) + CleanupCalls(created, names);
    while remaining != {}
      invariant remaining <= created.Keys && NoDuplicates(names) && Elements(names) == created.Keys - remaining
      invariant forall n :: n in names ==> n in created
      invariant docker.calls == old(docker.calls) + CleanupCalls(created, names)
    {
      var name :| name in remaining;
      remaining := remaining - {name};
      docker.Stop(created[name]);
      docker.Remove(created[name]);
      ElementsAppend(names, name);
      assert name !in Elements(names) && (names + [name])[..|names|] == names;
      names := names + [name];
    }
  }

  lemma AssociateAll<T>(a: seq<T>, b: seq<T>, c: seq<T>, d: seq<T>)
    ensures a + b + c + d == a + (b + c + d)
  {
  }

  datatype StartError =
    | CircularDependency
    | NetworkError
    | VolumeError(volume: string)
    | PullError(image: string)
    | CreateError(service: string)
    | StartError(service: string)
    | InspectError(service: string)

  lemma AddStep(loop: Loop, before: seq<Call>, steps: seq<Step>, s: Step)
    requires StepsFit(loop, steps) && |steps| < |loop.ordered| && s.service == loop.ordered[|steps|]
    requires s.outcome != StartFailed && IdFits(loop, s.service.name, s.id)
    ensures StepsFit(loop, steps + [s])
    ensures before + AllStepCalls(loop, steps) + StepCalls(loop, s) == before + AllStepCalls(loop, steps + [s])
    ensures CreatedBy(steps + [s]) == CreatedBy(steps)[s.service.name := s.id]
    ensures Reports(steps + [s]) == Reports(steps) + [Report(s)]
  {
    assert (steps + [s])[..|steps|] == steps;
    AssociateAll(before, AllStepCalls(loop, steps), StepCalls(loop, s), []);
  }

  lemma CompleteRun(loop: Loop, before: seq<Call>, steps: seq<Step>)
    requires StepsFit(loop, steps) && |steps| == |loop.ordered|
    ensures Fits(loop, Run(steps, None, []))
    ensures RunCalls(loop, Run(steps, None, [])) == AllStepCalls(loop, steps)
  {
    assert AllStepCalls(loop, steps) + [] == AllStepCalls(loop, steps);
  }

  datatype Round = Done(step: Step) | Broken(fault: Fault)

  function ErrorOf(name: string, f: Fault): StartError {
    match f
    case CreateFailed => CreateError(name)
    case StartRejected(_) => StartError(name)
    case InspectFailed(_, _) => InspectError(name)
  }

  /** One round of the loop: create or reuse, start, inspect. */
  method StartService(docker: Docker, loop: Loop, svc: Service) returns (a: Round)
    modifies docker
    ensures match a
            case Done(s) =>
              && s.service == svc && s.outcome != StartFailed && IdFits(loop, svc.name, s.id)
              && docker.calls == old(docker.calls) + StepCalls(loop, s)
            case Broken(f) =>
              && FaultFits(loop, svc.name, f)
              && docker.calls == old(docker.calls) + FaultCalls(loop, svc.name, f)
  {
    var id: string;
    if svc.name in loop.existing {
      id := loop.existing[svc.name];
    } else {
      var c := docker.Create(svc.name, svc.name == loop.primary);
      if c.None? {
        return Broken(CreateFailed);
      }
      id := c.value;
    }
    var outcome := docker.Start(svc.name, id);
    if outcome.StartFailed? {
      return Broken(StartRejected(id));
    }
    var info := docker.Inspect(svc.name, id);
    if info.None? {
      return Broken(InspectFailed(id, outcome));
    }
    return Done(Step(svc, id, outcome, info.value));
  }

  /** What every fault does: clean up the containers of this call, then remove the network. */
  method Abort(docker: Docker, loop: Loop, created: map<string, string>,
               ghost before: seq<Call>, ghost steps: seq<Step>, ghost f: Fault)
    returns (ghost run: Run)
    requires |steps| < |loop.ordered| && StepsFit(loop, steps) && FaultFits(loop, loop.ordered[|steps|].name, f)
    requires created == Record(CreatedBy(steps), loop.ordered[|steps|].name, f)
    requires docker.calls == before + (AllStepCalls(loop, steps) + FaultCalls(loop, loop.ordered[|steps|].name, f))
    modifies docker
    ensures run.steps == steps && run.fault == Some(f) && Fits(loop, run)
    ensures docker.calls == before + RunCalls(loop, run)
  {
    ghost var names := CleanupCreatedContainers(docker, created);
    docker.NetworkRemove(loop.network);
    run := Run(steps, Some(f), names);
    FaultyRun(loop, steps, f, names);
    AssociateAll(before, AllStepCalls(loop, steps) + FaultCalls(loop, loop.ordered[|steps|].name, f),
              CleanupCalls(created, names), [RemoveNetwork(loop.network)]);
  }

  lemma FaultyRun(loop: Loop, steps: seq<Step>, f: Fault, names: seq<string>)
    requires |steps| < |loop.ordered| && StepsFit(loop, steps) && FaultFits(loop, loop.ordered[|steps|].name, f)
    requires NoDuplicates(names) && Elements(names) == Record(CreatedBy(steps), loop.ordered[|steps|].name, f).Keys
    ensures (forall n :: n in names ==> n in Elements(names)) && Fits(loop, Run(steps, Some(f), names))
    ensures RunCalls(loop, Run(steps, Some(f), names))
         == (AllStepCalls(loop, steps) + FaultCalls(loop, loop.ordered[|steps|].name, f))
            + CleanupCalls(Record(CreatedBy(steps), loop.ordered[|steps|].name, f), names)
            + [RemoveNetwork(loop.network)]
  {
    var name := loop.ordered[|steps|].name;
    AssociateAll(AllStepCalls(loop, steps), FaultCalls(loop, name, f),
                 CleanupCalls(Record(CreatedBy(steps), name, f), names), [RemoveNetwork(loop.network)]);
  }

  function Reports(steps: seq<Step>): seq<ContainerInfo> {
    seq(|steps|, i requires 0 <= i < |steps| => Report(steps[i]))
  }

  /** Runs the services in the given order; the first fault cleans up and ends the run. */
  method StartContainers(docker: Docker, loop: Loop)
    returns (r: Result<seq<ContainerInfo>, StartError>, ghost run: Run)
    modifies docker
    ensures Fits(loop, run) && docker.calls == old(docker.calls) + RunCalls(loop, run)
    ensures r == match run.fault
                 case None => Success(Reports(run.steps))
                 case Some(f) => Failure(ErrorOf(loop.ordered[|run.steps|].name, f))
  {
    var containers: seq<ContainerInfo> := [];
    var created: map<string, string> := map[];
    ghost var before := docker.calls;
    ghost var steps: seq<Step> := [];
    for i := 0 to |loop.ordered|
      invariant |steps| == i && StepsFit(loop, steps) && created == CreatedBy(steps)
      invariant containers == Reports(steps)
      invariant docker.calls == before + AllStepCalls(loop, steps)
    {
      var svc := loop.ordered[i];
      var a := StartService(docker, loop, svc);
      match a {
        case Broken(f) =>
          Associate(before, AllStepCalls(loop, steps), FaultCalls(loop, svc.name, f));
          run := Abort(docker, loop, Record(created, svc.name, f), before, steps, f);
          return Failure(ErrorOf(svc.name, f)), run;
        case Done(s) =>
          AddStep(loop, before, steps, s);
          created := created[svc.name := s.id];
          steps := steps + [s];
          containers := containers + [Report(s)];
      }
    }
    CompleteRun(loop, before, steps);
    return Success(containers), Run(steps, None, []);
  }

  // ----- Starts follow dependencies

  /** The services whose start succeeded or that were running already. */
  ghost function StartedServices(calls: seq<Call>): set<string> {
    if calls == [] then {}
    else
      var init, last := calls[..|calls| - 1], calls[|calls| - 1];
      StartedServices(init) + if last.StartContainer? && last.outcome != StartFailed then {last.service} else {}
  }

  /** Whenever a start is issued, all dependencies of the service are up already. */
  ghost predicate StartsFollowDependencies(g: Graph<string>, calls: seq<Call>) {
    calls == [] ||
    var init, last := calls[..|calls| - 1], calls[|calls| - 1];
    && StartsFollowDependencies(g, init)
    && (last.StartContainer? ==> Elements(Deps(g, last.service)) <= StartedServices(init))
  }

  lemma IssueCall(g: Graph<string>, calls: seq<Call>, c: Call)
    requires StartsFollowDependencies(g, calls)
    requires c.StartContainer? ==> Elements(Deps(g, c.service)) <= StartedServices(calls)
    ensures StartsFollowDependencies(g, calls + [c])
    ensures StartedServices(calls + [c])
         == StartedServices(calls) + if c.StartContainer? && c.outcome != StartFailed then {c.service} else {}
  {
    assert (calls + [c])[..|calls|] == calls;
  }

  ghost predicate NoStarts(calls: seq<Call>) {
    calls == [] || (!calls[|calls| - 1].StartContainer? && NoStarts(calls[..|calls| - 1]))
  }

  lemma StillNoStarts(calls: seq<Call>, c: Call)
    requires NoStarts(calls) && !c.StartContainer?
    ensures NoStarts(calls + [c])
  {
    assert (calls + [c])[..|calls|] == calls;
  }

  lemma {:induction false} IssueOtherCalls(g: Graph<string>, calls: seq<Call>, more: seq<Call>)
    requires StartsFollowDependencies(g, calls) && NoStarts(more)
    ensures StartsFollowDependencies(g, calls + more)
    ensures StartedServices(calls + more) == StartedServices(calls)
  {
    if more == [] {
      assert calls + more == calls;
    } else {
      var init, last := more[..|more| - 1], more[|more| - 1];
      IssueOtherCalls(g, calls, init);
      IssueCall(g, calls + init, last);
      Associate(calls, init, [last]);
      assert more == init + [last];
    }
  }

  lemma IssueStart(g: Graph<string>, loop: Loop, calls: seq<Call>, name: string, id: string,
                   outcome: StartOutcome, rest: seq<Call>)
    requires StartsFollowDependencies(g, calls) && Elements(Deps(g, name)) <= StartedServices(calls) && NoStarts(rest)
    ensures StartsFollowDependencies(g, calls + (Acquire(loop, name, id) + [StartContainer(name, id, outcome)] + rest))
    ensures outcome != StartFailed ==>
      StartedServices(calls + (Acquire(loop, name, id) + [StartContainer(name, id, outcome)] + rest))
        == StartedServices(calls) + {name}
  {
    var acquired := calls + Acquire(loop, name, id);
    IssueOtherCalls(g, calls, Acquire(loop, name, id));
    IssueCall(g, acquired, StartContainer(name, id, outcome));
    IssueOtherCalls(g, acquired + [StartContainer(name, id, outcome)], rest);
    AssociateAll(calls, Acquire(loop, name, id), [StartContainer(name, id, outcome)], rest);
  }

  lemma NameListPrefix(services: seq<Service>, i: nat)
    requires i <= |services|
    ensures NameList(services)[..i] == NameList(services[..i])
  {
  }

  lemma StepFollowsDependencies(g: Graph<string>, loop: Loop, calls: seq<Call>, s: Step)
    requires StartsFollowDependencies(g, calls) && s.outcome != StartFailed
    requires Elements(Deps(g, s.service.name)) <= StartedServices(calls)
    ensures StartsFollowDependencies(g, calls + StepCalls(loop, s))
    ensures StartedServices(calls + StepCalls(loop, s)) == StartedServices(calls) + {s.service.name}
  {
    var name, rest := s.service.name, [InspectContainer(s.service.name, s.id, Some(s.info))];
    IssueStart(g, loop, calls, name, s.id, s.outcome, rest);
    assert StepCalls(loop, s) == Acquire(loop, name, s.id) + [StartContainer(name, s.id, s.outcome)] + rest;
  }

  lemma {:induction false} StepsFollowDependencies(g: Graph<string>, loop: Loop, steps: seq<Step>)
    requires StepsFit(loop, steps) && DepsFirst(g, NameList(loop.ordered))
    ensures StartsFollowDependencies(g, AllStepCalls(loop, steps))
    ensures StartedServices(AllStepCalls(loop, steps)) == Elements(NameList(loop.ordered[..|steps|]))
  {
    var names := NameList(loop.ordered);
    if steps != [] {
      var init, last := steps[..|steps| - 1], steps[|steps| - 1];
      StepsFollowDependencies(g, loop, init);
      DepsBefore(g, names, |init|);
      PrefixGrows(names, |init|);
      NameListPrefix(loop.ordered, |init|);
      NameListPrefix(loop.ordered, |steps|);
      StepFollowsDependencies(g, loop, AllStepCalls(loop, init), last);
    } else {
      assert NameList(loop.ordered[..0]) == [];
    }
  }

  lemma {:induction false} CleanupIssuesNoStart(created: map<string, string>, names: seq<string>)
    requires forall n :: n in names ==> n in created
    ensures NoStarts(CleanupCalls(created, names))
  {
    if names != [] {
      var id, init := created[names[|names| - 1]], names[..|names| - 1];
      CleanupIssuesNoStart(created, init);
      StillNoStarts(CleanupCalls(created, init), StopContainer(id));
      StillNoStarts(CleanupCalls(created, init) + [StopContainer(id)], RemoveContainer(id));
      assert CleanupCalls(created, init) + [StopContainer(id)] + [RemoveContainer(id)] == CleanupCalls(created, names);
    }
  }

  /** In every run, whatever Docker answers, a service is started only after its dependencies. */
  lemma RunFollowsDependencies(g: Graph<string>, loop: Loop, run: Run)
    requires Fits(loop, run) && DepsFirst(g, NameList(loop.ordered))
    ensures StartsFollowDependencies(g, RunCalls(loop, run))
  {
    var calls := AllStepCalls(loop, run.steps);
    StepsFollowDependencies(g, loop, run.steps);
    if run.fault.None? {
      assert calls + [] == calls;
    } else {
      var name := loop.ordered[|run.steps|].name;
      DepsBefore(g, NameList(loop.ordered), |run.steps|);
      NameListPrefix(loop.ordered, |run.steps|);
      FaultFollowsDependencies(g, loop, calls, name, run.fault.value);
      UndoFollowsDependencies(g, loop, run);
    }
  }

  lemma UndoFollowsDependencies(g: Graph<string>, loop: Loop, run: Run)
    requires Fits(loop, run) && run.fault.Some?
    requires StartsFollowDependencies(g,
      AllStepCalls(loop, run.steps) + FaultCalls(loop, loop.ordered[|run.steps|].name, run.fault.value))
    ensures StartsFollowDependencies(g, RunCalls(loop, run))
  {
    var done := AllStepCalls(loop, run.steps) + FaultCalls(loop, loop.ordered[|run.steps|].name, run.fault.value);
    FaultyRun(loop, run.steps, run.fault.value, run.cleanup);
    var cleanup := CleanupCalls(Created(loop, run), run.cleanup);
    CleanupIssuesNoStart(Created(loop, run), run.cleanup);
    IssueOtherCalls(g, done, cleanup);
    IssueOtherCalls(g, done + cleanup, [RemoveNetwork(loop.network)]);
  }

  lemma FaultFollowsDependencies(g: Graph<string>, loop: Loop, calls: seq<Call>, name: string, f: Fault)
    requires StartsFollowDependencies(g, calls) && Elements(Deps(g, name)) <= StartedServices(calls)
    ensures StartsFollowDependencies(g, calls + FaultCalls(loop, name, f))
  {
    match f
    case CreateFailed => IssueOtherCalls(g, calls, FaultCalls(loop, name, f));
    case StartRejected(id) =>
      IssueStart(g, loop, calls, name, id, StartFailed, []);
      assert FaultCalls(loop, name, f) == Acquire(loop, name, id) + [StartContainer(name, id, StartFailed)] + [];
    case InspectFailed(id, outcome) =>
      IssueStart(g, loop, calls, name, id, outcome, [InspectContainer(name, id, None)]);
      assert FaultCalls(loop, name, f)
        == Acquire(loop, name, id) + [StartContainer(name, id, outcome)] + [InspectContainer(name, id, None)];
  }

  // ----- A fault undoes exactly what the call did

  datatype Effect = Effect(acquired: set<string>, stopped: set<string>, removed: set<string>) {
    function Then(e: Effect): Effect {
      Effect(acquired + e.acquired, stopped + e.stopped, removed + e.removed)
    }
  }

  const NOTHING := Effect({}, {}, {})

  /** Acquired: the ids created by this call, and those of existing containers it goes on to start. */
  function EffectOf(existing: map<string, string>, c: Call): Effect {
    match c
    case CreateContainer(_, _, Some(id)) => NOTHING.(acquired := {id})
    case StartContainer(service, id, _) => if service in existing then NOTHING.(acquired := {id}) else NOTHING
    case StopContainer(id) => NOTHING.(stopped := {id})
    case RemoveContainer(id) => NOTHING.(removed := {id})
    case _ => NOTHING
  }

  function Effects(existing: map<string, string>, calls: seq<Call>): Effect {
    if calls == [] then NOTHING
    else Effects(existing, calls[..|calls| - 1]).Then(EffectOf(existing, calls[|calls| - 1]))
  }

  lemma OneMoreEffect(existing: map<string, string>, calls: seq<Call>, c: Call)
    ensures Effects(existing, calls + [c]) == Effects(existing, calls).Then(EffectOf(existing, c))
  {
    assert (calls + [c])[..|calls|] == calls;
  }

  lemma {:induction false} EffectsOfConcatenation(existing: map<string, string>, a: seq<Call>, b: seq<Call>)
    ensures Effects(existing, a + b) == Effects(existing, a).Then(Effects(existing, b))
  {
    if b == [] {
      assert a + b == a;
    } else {
      EffectsOfConcatenation(existing, a, b[..|b| - 1]);
      assert (a + b)[..|a + b| - 1] == a + b[..|b| - 1];
    }
  }

  lemma TwoEffects(existing: map<string, string>, c: Call, d: Call)
    ensures Effects(existing, [c, d]) == EffectOf(existing, c).Then(EffectOf(existing, d))
  {
    assert [c, d] == [c] + [d];
    OneMoreEffect(existing, [c], d);
    assert [c] == [] + [c];
    OneMoreEffect(existing, [], c);
  }

  /** Starting a service acquires exactly its container, whether created or reused. */
  lemma AcquireAndStart(loop: Loop, name: string, id: string, outcome: StartOutcome)
    ensures Effects(loop.existing, Acquire(loop, name, id) + [StartContainer(name, id, outcome)])
         == Effect({id}, {}, {})
  {
    OneMoreEffect(loop.existing, Acquire(loop, name, id), StartContainer(name, id, outcome));
    if name !in loop.existing {
      assert Acquire(loop, name, id) == [] + [CreateContainer(name, name == loop.primary, Some(id))];
      OneMoreEffect(loop.existing, [], CreateContainer(name, name == loop.primary, Some(id)));
    }
  }

  lemma StartAcquires(loop: Loop, name: string, id: string, outcome: StartOutcome, d: Call)
    requires EffectOf(loop.existing, d) == NOTHING
    ensures Effects(loop.existing, Acquire(loop, name, id) + [StartContainer(name, id, outcome), d])
         == Effect({id}, {}, {})
  {
    var start := Acquire(loop, name, id) + [StartContainer(name, id, outcome)];
    AcquireAndStart(loop, name, id, outcome);
    OneMoreEffect(loop.existing, start, d);
    assert start + [d] == Acquire(loop, name, id) + [StartContainer(name, id, outcome), d];
  }

  lemma {:induction false} StepsAcquire(loop: Loop, steps: seq<Step>)
    requires StepsFit(loop, steps) && DistinctNames(loop.ordered)
    ensures CreatedBy(steps).Keys == Names(loop.ordered[..|steps|])
    ensures Effects(loop.existing, AllStepCalls(loop, steps)) == Effect(CreatedBy(steps).Values, {}, {})
  {
    if steps != [] {
      var init, last := steps[..|steps| - 1], steps[|steps| - 1];
      StepsAcquire(loop, init);
      NextNameIsNew(loop.ordered, |init|);
      StepAcquires(loop, AllStepCalls(loop, init), CreatedBy(init), last);
    } else {
      assert Names(loop.ordered[..0]) == {};
    }
  }

  lemma StepAcquires(loop: Loop, calls: seq<Call>, created: map<string, string>, s: Step)
    requires Effects(loop.existing, calls) == Effect(created.Values, {}, {}) && s.service.name !in created
    ensures Effects(loop.existing, calls + StepCalls(loop, s))
         == Effect(created[s.service.name := s.id].Values, {}, {})
  {
    StartAcquires(loop, s.service.name, s.id, s.outcome, InspectContainer(s.service.name, s.id, Some(s.info)));
    EffectsOfConcatenation(loop.existing, calls, StepCalls(loop, s));
    NewEntry(created, s.service.name, s.id);
  }

  lemma NextNameIsNew(services: seq<Service>, i: nat)
    requires DistinctNames(services) && i < |services|
    ensures services[i].name !in Names(services[..i])
    ensures Names(services[..i + 1]) == Names(services[..i]) + {services[i].name}
  {
    assert services[..i + 1] == services[..i] + [services[i]];
  }

  lemma NewEntry(m: map<string, string>, k: string, v: string)
    requires k !in m
    ensures m[k := v].Values == m.Values + {v}
  {
    var m' := m[k := v];
    assert m'[k] == v;
    forall x | x in m.Values ensures x in m'.Values {
      var j :| j in m && m[j] == x;
      assert m'[j] == x;
    }
  }

  ghost function IdsOf(created: map<string, string>, names: seq<string>): set<string>
    requires forall n :: n in names ==> n in created
  {
    if names == [] then {}
    else IdsOf(created, names[..|names| - 1]) + {created[names[|names| - 1]]}
  }

  lemma {:induction false} IdsOfListing(created: map<string, string>, names: seq<string>)
    requires forall n :: n in names ==> n in created
    ensures forall id :: id in IdsOf(created, names) <==> exists n :: n in names && created[n] == id
  {
    if names != [] {
      var init, last := names[..|names| - 1], names[|names| - 1];
      IdsOfListing(created, init);
      assert names == init + [last];
    }
  }

  lemma {:induction false} CleanupUndoes(existing: map<string, string>, created: map<string, string>,
                                         names: seq<string>)
    requires forall n :: n in names ==> n in created
    ensures Effects(existing, CleanupCalls(created, names)) == Effect({}, IdsOf(created, names), IdsOf(created, names))
  {
    if names != [] {
      var init, last := names[..|names| - 1], names[|names| - 1];
      CleanupUndoes(existing, created, init);
      StopAndRemove(existing, CleanupCalls(created, init), IdsOf(created, init), created[last]);
    }
  }

  lemma StopAndRemove(existing: map<string, string>, calls: seq<Call>, ids: set<string>, id: string)
    requires Effects(existing, calls) == Effect({}, ids, ids)
    ensures Effects(existing, calls + [StopContainer(id), RemoveContainer(id)]) == Effect({}, ids + {id}, ids + {id})
  {
    TwoEffects(existing, StopContainer(id), RemoveContainer(id));
    EffectsOfConcatenation(existing, calls, [StopContainer(id), RemoveContainer(id)]);
  }

  function FaultIds(f: Fault): set<string> {
    match f
    case CreateFailed => {}
    case StartRejected(id) => {id}
    case InspectFailed(id, _) => {id}
  }

  lemma FaultAcquires(loop: Loop, name: string, f: Fault)
    ensures Effects(loop.existing, FaultCalls(loop, name, f)) == Effect(FaultIds(f), {}, {})
  {
    match f
    case CreateFailed =>
      assert FaultCalls(loop, name, f) == [] + FaultCalls(loop, name, f);
      OneMoreEffect(loop.existing, [], CreateContainer(name, name == loop.primary, None));
    case StartRejected(id) =>
      AcquireAndStart(loop, name, id, StartFailed);
    case InspectFailed(id, outcome) =>
      StartAcquires(loop, name, id, outcome, InspectContainer(name, id, None));
  }

  lemma RecordedIds(created: map<string, string>, name: string, f: Fault)
    requires name !in created
    ensures Record(created, name, f).Values == created.Values + FaultIds(f)
  {
    if !f.CreateFailed? {
      NewEntry(created, name, f.id);
    }
  }

  /** What the steps and the fault acquired is what was recorded. */
  lemma RunAcquires(loop: Loop, steps: seq<Step>, f: Fault)
    requires StepsFit(loop, steps) && |steps| < |loop.ordered| && DistinctNames(loop.ordered)
    ensures Effects(loop.existing, AllStepCalls(loop, steps) + FaultCalls(loop, loop.ordered[|steps|].name, f))
         == Effect(Record(CreatedBy(steps), loop.ordered[|steps|].name, f).Values, {}, {})
  {
    var name := loop.ordered[|steps|].name;
    StepsAcquire(loop, steps);
    NextNameIsNew(loop.ordered, |steps|);
    FaultAcquires(loop, name, f);
    EffectsOfConcatenation(loop.existing, AllStepCalls(loop, steps), FaultCalls(loop, name, f));
    RecordedIds(CreatedBy(steps), name, f);
  }

  lemma UndoAll(loop: Loop, calls: seq<Call>, created: map<string, string>, names: seq<string>)
    requires Effects(loop.existing, calls) == Effect(created.Values, {}, {})
    requires Elements(names) == created.Keys && forall n :: n in names ==> n in created
    ensures Effects(loop.existing, calls + CleanupCalls(created, names) + [RemoveNetwork(loop.network)])
         == Effect(created.Values, created.Values, created.Values)
  {
    CleanupUndoes(loop.existing, created, names);
    AllKeysListed(created, names);
    EffectsOfConcatenation(loop.existing, calls, CleanupCalls(created, names));
    OneMoreEffect(loop.existing, calls + CleanupCalls(created, names), RemoveNetwork(loop.network));
  }

  lemma AllKeysListed(created: map<string, string>, names: seq<string>)
    requires Elements(names) == created.Keys && forall n :: n in names ==> n in created
    ensures IdsOf(created, names) == created.Values
  {
    IdsOfListing(created, names);
    forall id | id in created.Values ensures id in IdsOf(created, names) {
      var n :| n in created && created[n] == id;
      assert n in Elements(names);
    }
  }

  /** Stopped and removed: exactly the containers that were created or reused; last of all, the network. */
  ghost predicate UndoesWhatItAcquired(loop: Loop, run: Run)
    requires Fits(loop, run)
  {
    var calls, e := RunCalls(loop, run), Effects(loop.existing, RunCalls(loop, run));
    && e.stopped == e.acquired && e.removed == e.acquired
    && calls != [] && calls[|calls| - 1] == RemoveNetwork(loop.network)
  }

  /** On a fault, exactly the containers acquired by this call were stopped and removed, and the network removed. */
  lemma FaultUndoesEverything(loop: Loop, run: Run)
    requires Fits(loop, run) && DistinctNames(loop.ordered) && run.fault.Some?
    ensures UndoesWhatItAcquired(loop, run)
    ensures Effects(loop.existing, RunCalls(loop, run)).acquired == Created(loop, run).Values
  {
    var f, name := run.fault.value, loop.ordered[|run.steps|].name;
    RunAcquires(loop, run.steps, f);
    FaultyRun(loop, run.steps, f, run.cleanup);
    UndoAll(loop, AllStepCalls(loop, run.steps) + FaultCalls(loop, name, f), Created(loop, run), run.cleanup);
  }

  lemma SuccessUndoesNothing(loop: Loop, run: Run)
    requires Fits(loop, run) && DistinctNames(loop.ordered) && run.fault.None?
    ensures var e := Effects(loop.existing, RunCalls(loop, run)); e.stopped == e.removed == {}
  {
    StepsAcquire(loop, run.steps);
    assert RunCalls(loop, run) == AllStepCalls(loop, run.steps);
  }

  // ----- The whole function

  datatype Volume = Volume(name: string, external: bool)

  ghost predicate IsPrimary(ordered: seq<Service>, name: string) {
    if exists i :: 0 <= i < |ordered| && ordered[i].ports != [] then
      exists i :: 0 <= i < |ordered| && ordered[i].ports != [] && name == ordered[i].name
               && forall j :: 0 <= j < i ==> ordered[j].ports == []
    else name == ""
  }

  /** The first service in start order that exposes a port is bound to the deployment's proxy port. */
  method PrimaryService(ordered: seq<Service>) returns (name: string)
    ensures IsPrimary(ordered, name)
  {
    name := "";
    for i := 0 to |ordered|
      invariant name == "" && forall j :: 0 <= j < i ==> ordered[j].ports == []
    {
      if |ordered[i].ports| > 0 {
        return ordered[i].name;
      }
    }
  }

  /** One creation for each volume that is not external. */
  function VolumeCalls(volumes: seq<Volume>): seq<Call> {
    if volumes == [] then []
    else
      var last := volumes[|volumes| - 1];
      VolumeCalls(volumes[..|volumes| - 1]) + if last.external then [] else [CreateVolume(last.name, true)]
  }

  /** The calls for one image. */
  function PullSteps(image: string, present: bool, ok: bool): seq<Call> {
    if present then [ImageExists(image, true)] else [ImageExists(image, false), PullImage(image, ok)]
  }

  /** For each service with an image, in order: it is there, or it is pulled; `present` holds the answers. */
  function PullCalls(services: seq<Service>, present: seq<bool>): seq<Call>
    requires |present| == |services|
  {
    if services == [] then []
    else
      var n, image := |services| - 1, services[|services| - 1].image;
      PullCalls(services[..n], present[..n]) + if image == "" then [] else PullSteps(image, present[n], true)
  }

  /** The calls from position `from` on carry Docker's answers. */
  ghost predicate Answered(answers: nat -> Answer, from: nat, calls: seq<Call>) {
    forall i :: 0 <= i < |calls| ==> answers(from + i).Gives(calls[i])
  }

  lemma AppendToLog(answers: nat -> Answer, log: seq<Call>, a: seq<Call>, b: seq<Call>)
    requires Answered(answers, |log|, a) && Answered(answers, |log + a|, b)
    ensures Answered(answers, |log|, a + b) && log + a + b == log + (a + b)
  {
    forall i | 0 <= i < |a + b| ensures answers(|log| + i).Gives((a + b)[i]) {
      if i >= |a| {
        assert answers(|log + a| + (i - |a|)).Gives(b[i - |a|]);
      }
    }
  }

  /** The first volume that cannot be created ends the loop. */
  method CreateVolumes(docker: Docker, volumes: seq<Volume>) returns (failed: Option<nat>, ghost made: seq<Call>)
    modifies docker
    ensures docker.calls == old(docker.calls) + made && Answered(docker.answers, |old(docker.calls)|, made)
    ensures failed.None? ==> made == VolumeCalls(volumes)
    ensures failed.Some? ==>
      && failed.value < |volumes| && !volumes[failed.value].external
      && made == VolumeCalls(volumes[..failed.value]) + [CreateVolume(volumes[failed.value].name, false)]
  {
    made := [];
    for i := 0 to |volumes|
      invariant docker.calls == old(docker.calls) + made && Answered(docker.answers, |old(docker.calls)|, made)
      invariant made == VolumeCalls(volumes[..i])
    {
      var vol := volumes[i];
      assert volumes[..i + 1][..i] == volumes[..i];
      if !vol.external {
        var ok := docker.VolumeCreate(vol.name);
        AppendToLog(docker.answers, old(docker.calls), made, [CreateVolume(vol.name, ok)]);
        made := made + [CreateVolume(vol.name, ok)];
        if !ok {
          return Some(i), made;
        }
      }
    }
    assert volumes[..|volumes|] == volumes;
    return None, made;
  }

  method PullIfMissing(docker: Docker, image: string) returns (ok: bool, ghost present: bool)
    modifies docker
    ensures present ==> ok
    ensures docker.calls == old(docker.calls) + PullSteps(image, present, ok)
    ensures Answered(docker.answers, |old(docker.calls)|, PullSteps(image, present, ok))
  {
    var there := docker.HasImage(image);
    present := there;
    if there {
      return true, present;
    }
    ok := docker.Pull(image);
  }

  lemma OneMorePull(services: seq<Service>, present: seq<bool>, i: nat, there: bool)
    requires i < |services| && |present| == i
    ensures PullCalls(services[..i + 1], present + [there])
         == PullCalls(services[..i], present)
            + if services[i].image == "" then [] else PullSteps(services[i].image, there, true)
  {
    assert services[..i + 1][..i] == services[..i] && (present + [there])[..i] == present;
  }

  /** The first image that cannot be pulled ends the loop. */
  method PullImages(docker: Docker, services: seq<Service>)
    returns (failed: Option<string>, ghost made: seq<Call>, ghost present: seq<bool>)
    modifies docker
    ensures docker.calls == old(docker.calls) + made && Answered(docker.answers, |old(docker.calls)|, made)
    ensures failed.None? ==> |present| == |services| && made == PullCalls(services, present)
    ensures failed.Some? ==>
      && |present| < |services| && failed == Some(services[|present|].image) && failed.value != ""
      && made == PullCalls(services[..|present|], present) + PullSteps(failed.value, false, false)
  {
    made, present := [], [];
    for i := 0 to |services|
      invariant |present| == i && made == PullCalls(services[..i], present)
      invariant docker.calls == old(docker.calls) + made && Answered(docker.answers, |old(docker.calls)|, made)
    {
      var image := services[i].image;
      ghost var there := true;
      if image != "" {
        var ok;
        ok, there := PullIfMissing(docker, image);
        AppendToLog(docker.answers, old(docker.calls), made, PullSteps(image, there, ok));
        made := made + PullSteps(image, there, ok);
        if !ok {
          return Some(image), made, present;
        }
      }
      OneMorePull(services, present, i, there);
      present := present + [there];
    }
    assert services[..|services|] == services;
    return None, made, present;
  }

  /** Everything is there for the container loop, which may reuse the existing containers. */
  ghost predicate Prepared(services: seq<Service>, volumes: seq<Volume>, network: string,
                           existing: map<string, string>, prep: seq<Call>)
  {
    exists present :: |present| == |services|
      && prep == [CreateNetwork(Some(network))] + VolumeCalls(volumes)
                 + (PullCalls(services, present) + [ListContainers(existing)])
  }

  /** A volume cannot be created: the network is removed again. */
  ghost predicate VolumeRefused(volumes: seq<Volume>, network: string, volume: string, prep: seq<Call>) {
    exists k :: 0 <= k < |volumes| && !volumes[k].external && volume == volumes[k].name
      && prep == [CreateNetwork(Some(network))] + VolumeCalls(volumes[..k])
                 + [CreateVolume(volume, false), RemoveNetwork(network)]
  }

  /** An image is neither there nor can it be pulled: that is the end, with nothing undone. */
  ghost predicate PullRefused(services: seq<Service>, volumes: seq<Volume>, network: string, image: string,
                              prep: seq<Call>)
  {
    exists present :: |present| < |services| && image == services[|present|].image && image != ""
      && prep == [CreateNetwork(Some(network))] + VolumeCalls(volumes)
                 + (PullCalls(services[..|present|], present) + PullSteps(image, false, false))
  }

  /** What was issued when the container loop is not reached. */
  ghost predicate EndsEarly(services: seq<Service>, volumes: seq<Volume>, network: Option<string>, e: StartError,
                            prep: seq<Call>)
  {
    match e
    case CircularDependency => network.None? && prep == []
    case NetworkError => network.None? && prep == [CreateNetwork(None)]
    case VolumeError(volume) => network.Some? && VolumeRefused(volumes, network.value, volume, prep)
    case PullError(image) => network.Some? && PullRefused(services, volumes, network.value, image, prep)
    case _ => false
  }

  method PullAndList(docker: Docker, services: seq<Service>)
    returns (r: Result<map<string, string>, StartError>, ghost made: seq<Call>, ghost present: seq<bool>)
    modifies docker
    ensures docker.calls == old(docker.calls) + made && Answered(docker.answers, |old(docker.calls)|, made)
    ensures Pulled(services, present, made, r)
  {
    var failed;
    failed, made, present := PullImages(docker, services);
    if failed.Some? {
      return Failure(PullError(failed.value)), made, present;
    }
    var existing := docker.List();
    AppendToLog(docker.answers, old(docker.calls), made, [ListContainers(existing)]);
    made := made + [ListContainers(existing)];
    return Success(existing), made, present;
  }

  /** The calls before the container loop; on success, the containers found from an earlier start. */
  method Prepare(docker: Docker, services: seq<Service>, volumes: seq<Volume>)
    returns (r: Result<map<string, string>, StartError>, network: Option<string>, ghost prep: seq<Call>)
    modifies docker
    ensures docker.calls == old(docker.calls) + prep && Answered(docker.answers, |old(docker.calls)|, prep)
    ensures match r
            case Success(existing) => network.Some? && Prepared(services, volumes, network.value, existing, prep)
            case Failure(e) => !e.CircularDependency? && EndsEarly(services, volumes, network, e, prep)
  {
    network := docker.NetworkCreate();
    prep := [CreateNetwork(network)];
    if network.None? {
      return Failure(NetworkError), network, prep;
    }
    ghost var made, pulls, present;
    var failed;
    failed, made := CreateVolumes(docker, volumes);
    AppendToLog(docker.answers, old(docker.calls), prep, made);
    prep := prep + made;
    if failed.Some? {
      docker.NetworkRemove(network.value);
      AppendToLog(docker.answers, old(docker.calls), prep, [RemoveNetwork(network.value)]);
      VolumeUndone(volumes, failed.value, network.value);
      prep := prep + [RemoveNetwork(network.value)];
      return Failure(VolumeError(volumes[failed.value].name)), network, prep;
    }
    r, pulls, present := PullAndList(docker, services);
    AppendToLog(docker.answers, old(docker.calls), prep, pulls);
    prep := prep + pulls;
    PulledOrRefused(services, volumes, network.value, present, pulls, r);
  }

  /** How the images come out. */
  ghost predicate Pulled(services: seq<Service>, present: seq<bool>, made: seq<Call>,
                         r: Result<map<string, string>, StartError>)
  {
    match r
    case Success(existing) =>
      |present| == |services| && made == PullCalls(services, present) + [ListContainers(existing)]
    case Failure(e) =>
      && |present| < |services| && services[|present|].image != "" && e == PullError(services[|present|].image)
      && made == PullCalls(services[..|present|], present) + PullSteps(e.image, false, false)
  }

  lemma PulledOrRefused(services: seq<Service>, volumes: seq<Volume>, network: string, present: seq<bool>,
                        made: seq<Call>, r: Result<map<string, string>, StartError>)
    requires Pulled(services, present, made, r)
    ensures var prep := [CreateNetwork(Some(network))] + VolumeCalls(volumes) + made;
            match r
            case Success(existing) => Prepared(services, volumes, network, existing, prep)
            case Failure(e) => e.PullError? && PullRefused(services, volumes, network, e.image, prep)
  {
  }

  lemma VolumeUndone(volumes: seq<Volume>, k: nat, network: string)
    requires k < |volumes| && !volumes[k].external
    ensures VolumeRefused(volumes, network, volumes[k].name,
              [CreateNetwork(Some(network))] + (VolumeCalls(volumes[..k]) + [CreateVolume(volumes[k].name, false)])
              + [RemoveNetwork(network)])
  {
    assert [CreateNetwork(Some(network))] + (VolumeCalls(volumes[..k]) + [CreateVolume(volumes[k].name, false)])
           + [RemoveNetwork(network)]
        == [CreateNetwork(Some(network))] + VolumeCalls(volumes[..k])
           + [CreateVolume(volumes[k].name, false), RemoveNetwork(network)];
  }

  /** How the attempt of the container loop decides the result. */
  ghost predicate Decides(services: seq<Service>, loop: Loop, run: Run, r: Result<seq<ContainerInfo>, StartError>) {
    && Fits(loop, run) && IsStartOrder(services, loop.ordered) && IsPrimary(loop.ordered, loop.primary)
    && r == match run.fault
            case None => Success(Reports(run.steps))
            case Some(f) => Failure(ErrorOf(loop.ordered[|run.steps|].name, f))
  }

  /** The container loop, if it was reached. */
  type Attempt = Option<(Loop, Run)>

  ghost function LoopCalls(attempt: Attempt): seq<Call>
    requires attempt.Some? ==> Fits(attempt.value.0, attempt.value.1)
  {
    if attempt.None? then [] else RunCalls(attempt.value.0, attempt.value.1)
  }

  /** What was issued before the container loop and in it, and the result that comes of it. */
  ghost predicate Explains(services: seq<Service>, volumes: seq<Volume>, network: Option<string>, prep: seq<Call>,
                           attempt: Attempt, r: Result<seq<ContainerInfo>, StartError>)
  {
    match attempt
    case None => r.Failure? && EndsEarly(services, volumes, network, r.error, prep)
    case Some((loop, run)) =>
      && network == Some(loop.network)
      && Prepared(services, volumes, loop.network, loop.existing, prep)
      && Decides(services, loop, run, r)
  }

  // ----- What becomes of the network

  /** Neither the removal of a network nor a pull that fails. */
  ghost predicate Plain(calls: seq<Call>) {
    forall c :: c in calls ==> !c.RemoveNetwork? && (c.PullImage? ==> c.pulled)
  }

  lemma {:induction false} VolumesArePlain(volumes: seq<Volume>)
    ensures Plain(VolumeCalls(volumes))
  {
    if volumes != [] {
      VolumesArePlain(volumes[..|volumes| - 1]);
    }
  }

  lemma {:induction false} PullsArePlain(services: seq<Service>, present: seq<bool>)
    requires |present| == |services|
    ensures Plain(PullCalls(services, present))
  {
    if services != [] {
      PullsArePlain(services[..|services| - 1], present[..|services| - 1]);
    }
  }

  lemma {:induction false} StepsArePlain(loop: Loop, steps: seq<Step>)
    ensures Plain(AllStepCalls(loop, steps))
  {
    if steps != [] {
      StepsArePlain(loop, steps[..|steps| - 1]);
    }
  }

  lemma {:induction false} CleanupIsPlain(created: map<string, string>, names: seq<string>)
    requires forall n :: n in names ==> n in created
    ensures Plain(CleanupCalls(created, names))
  {
    if names != [] {
      CleanupIsPlain(created, names[..|names| - 1]);
    }
  }

  ghost predicate PlainUntil(calls: seq<Call>, last: Call) {
    calls != [] && Plain(calls[..|calls| - 1]) && calls[|calls| - 1] == last
  }

  lemma PlainThen(plain: seq<Call>, last: Call)
    requires Plain(plain)
    ensures PlainUntil(plain + [last], last)
  {
    assert (plain + [last])[..|plain|] == plain;
  }

  lemma PlainBoth(a: seq<Call>, b: seq<Call>)
    requires Plain(a) && Plain(b)
    ensures Plain(a + b)
  {
  }

  lemma PlainBefore(plain: seq<Call>, calls: seq<Call>, last: Call)
    requires Plain(plain) && PlainUntil(calls, last)
    ensures PlainUntil(plain + calls, last)
  {
    assert (plain + calls)[..|plain + calls| - 1] == plain + calls[..|calls| - 1];
  }

  /** The container loop pulls nothing, and removes the network as its last call if it fails. */
  lemma RunRemovesNetworkIffItFails(loop: Loop, run: Run)
    requires Fits(loop, run)
    ensures run.fault.None? ==> Plain(RunCalls(loop, run))
    ensures run.fault.Some? ==> PlainUntil(RunCalls(loop, run), RemoveNetwork(loop.network))
  {
    StepsArePlain(loop, run.steps);
    if run.fault.Some? {
      var fault := FaultCalls(loop, loop.ordered[|run.steps|].name, run.fault.value);
      FaultyRun(loop, run.steps, run.fault.value, run.cleanup);
      CleanupIsPlain(Created(loop, run), run.cleanup);
      PlainBoth(AllStepCalls(loop, run.steps), fault);
      PlainBoth(AllStepCalls(loop, run.steps) + fault, CleanupCalls(Created(loop, run), run.cleanup));
      PlainThen(AllStepCalls(loop, run.steps) + fault + CleanupCalls(Created(loop, run), run.cleanup),
                RemoveNetwork(loop.network));
    }
  }

  lemma PreparationIsPlain(services: seq<Service>, volumes: seq<Volume>, network: string,
                           existing: map<string, string>, prep: seq<Call>)
    requires Prepared(services, volumes, network, existing, prep)
    ensures Plain(prep)
  {
    var present :| |present| == |services|
      && prep == [CreateNetwork(Some(network))] + VolumeCalls(volumes)
                 + (PullCalls(services, present) + [ListContainers(existing)]);
    VolumesArePlain(volumes);
    PullsArePlain(services, present);
  }

  lemma RefusedVolumeRemovesNetwork(volumes: seq<Volume>, network: string, volume: string, prep: seq<Call>)
    requires VolumeRefused(volumes, network, volume, prep)
    ensures PlainUntil(prep, RemoveNetwork(network))
  {
    var k :| 0 <= k < |volumes| && !volumes[k].external && volume == volumes[k].name
      && prep == [CreateNetwork(Some(network))] + VolumeCalls(volumes[..k])
                 + [CreateVolume(volume, false), RemoveNetwork(network)];
    VolumesArePlain(volumes[..k]);
    PlainBefore([CreateNetwork(Some(network))] + VolumeCalls(volumes[..k]),
                [CreateVolume(volume, false), RemoveNetwork(network)], RemoveNetwork(network));
  }

  lemma PlainUntilPull(made: seq<Call>, pulls: seq<Call>, image: string)
    requires Plain(made) && Plain(pulls)
    ensures PlainUntil(made + (pulls + PullSteps(image, false, false)), PullImage(image, false))
  {
    var steps := PullSteps(image, false, false);
    assert steps[..1] == [ImageExists(image, false)];
    PlainBefore(pulls, steps, PullImage(image, false));
    PlainBefore(made, pulls + steps, PullImage(image, false));
  }

  lemma RefusedPullIsLast(services: seq<Service>, volumes: seq<Volume>, network: string, image: string,
                          prep: seq<Call>)
    requires PullRefused(services, volumes, network, image, prep)
    ensures PlainUntil(prep, PullImage(image, false))
  {
    var present :| |present| < |services| && image == services[|present|].image && image != ""
      && prep == [CreateNetwork(Some(network))] + VolumeCalls(volumes)
                 + (PullCalls(services[..|present|], present) + PullSteps(image, false, false));
    VolumesArePlain(volumes);
    PullsArePlain(services[..|present|], present);
    PlainBoth([CreateNetwork(Some(network))], VolumeCalls(volumes));
    PlainUntilPull([CreateNetwork(Some(network))] + VolumeCalls(volumes),
                   PullCalls(services[..|present|], present), image);
  }

  /** Some image was neither there nor could it be pulled. */
  ghost predicate SomePullFails(calls: seq<Call>) {
    exists image :: PullImage(image, false) in calls
  }

  lemma LastCallDecides(calls: seq<Call>, last: Call)
    requires PlainUntil(calls, last)
    ensures forall id :: RemoveNetwork(id) in calls <==> last == RemoveNetwork(id)
    ensures SomePullFails(calls) <==> last.PullImage? && !last.pulled
  {
    var init := calls[..|calls| - 1];
    assert calls == init + [last];
    forall id ensures RemoveNetwork(id) !in init {
    }
    if last.PullImage? && !last.pulled {
      assert PullImage(last.image, false) in calls;
    }
  }

  /** What a failed deployment leaves of its network: nothing, unless a pull failed. */
  ghost predicate NetworkGoneUnlessPullFails(network: string, issued: seq<Call>) {
    && (RemoveNetwork(network) !in issued <==> SomePullFails(issued))
    && (RemoveNetwork(network) in issued ==> issued[|issued| - 1] == RemoveNetwork(network))
  }

  lemma NetworkStaysIffPullFails(services: seq<Service>, volumes: seq<Volume>, network: Option<string>,
                                 prep: seq<Call>, attempt: Attempt, r: Result<seq<ContainerInfo>, StartError>)
    requires Explains(services, volumes, network, prep, attempt, r)
    ensures var issued := prep + LoopCalls(attempt);
            && (r.Failure? && network.Some? ==> NetworkGoneUnlessPullFails(network.value, issued))
            && (r.Failure? && r.error.PullError? ==>
                  issued != [] && issued[|issued| - 1] == PullImage(r.error.image, false))
            && (r.Success? ==> Plain(issued))
  {
    var issued := prep + LoopCalls(attempt);
    match attempt
    case None =>
      assert issued == prep;
      match r.error {
        case VolumeError(volume) =>
          RefusedVolumeRemovesNetwork(volumes, network.value, volume, prep);
          LastCallDecides(issued, RemoveNetwork(network.value));
        case PullError(image) =>
          RefusedPullIsLast(services, volumes, network.value, image, prep);
          LastCallDecides(issued, PullImage(image, false));
        case _ =>
      }
    case Some((loop, run)) =>
      PreparationIsPlain(services, volumes, loop.network, loop.existing, prep);
      RunRemovesNetworkIffItFails(loop, run);
      if run.fault.Some? {
        PlainBefore(prep, RunCalls(loop, run), RemoveNetwork(loop.network));
        LastCallDecides(issued, RemoveNetwork(loop.network));
      }
  }

  /**
   The source's function, from the parsed services on. `prep` is what was issued before the
   container loop; `attempt` is the loop, if it was reached.

   When a call fails after the network exists, the last call issued removes the network, unless
   the call that failed pulls an image: that one is itself the last, and the network stays.
   */
  method StartDeployment(docker: Docker, services: seq<Service>, volumes: seq<Volume>)
    returns (r: Result<seq<ContainerInfo>, StartError>, ghost network: Option<string>,
             ghost prep: seq<Call>, ghost attempt: Attempt)
    requires DistinctNames(services)
    modifies docker
    ensures Cyclic(DependencyGraph(services)) <==> r == Failure(CircularDependency)
    ensures Explains(services, volumes, network, prep, attempt, r)
    ensures docker.calls == old(docker.calls) + (prep + LoopCalls(attempt))
    ensures Answered(docker.answers, |old(docker.calls)|, prep)
    ensures r.Failure? && network.Some? ==> NetworkGoneUnlessPullFails(network.value, prep + LoopCalls(attempt))
    ensures r.Failure? && r.error.PullError? ==>
      var issued := prep + LoopCalls(attempt); issued != [] && issued[|issued| - 1] == PullImage(r.error.image, false)
  {
    var circular := DetectCircularDependencies(services);
    if circular {
      return Failure(CircularDependency), None, [], None;
    }
    var prepared, net;
    prepared, net, prep := Prepare(docker, services, volumes);
    network, attempt := net, None;
    if prepared.Failure? {
      r := Failure(prepared.error);
    } else {
      var ordered := TopologicalSort(services);
      var primary := PrimaryService(ordered);
      var loop := Loop(ordered, prepared.value, primary, net.value);
      ghost var run;
      r, run := StartContainers(docker, loop);
      attempt := Some((loop, run));
      Associate(old(docker.calls), prep, RunCalls(loop, run));
    }
    assert docker.calls == old(docker.calls) + (prep + LoopCalls(attempt));
    NetworkStaysIffPullFails(services, volumes, network, prep, attempt, r);
  }

  lemma OnePull(s: Service, present: seq<bool>)
    requires |present| == 1 && s.image != ""
    ensures PullCalls([s], present) == PullSteps(s.image, present[0], true)
  {
    assert [s][..0] == [] && present[..0] == [];
  }

  lemma LoopNeedsTheImage(answers: nat -> Answer, s: Service, network: string, existing: map<string, string>,
                          prep: seq<Call>)
    requires s.image != "" && Prepared([s], [], network, existing, prep) && !answers(1).ok && !answers(2).ok
    ensures !Answered(answers, 0, prep)
  {
    var present :| |present| == |[s]|
      && prep == [CreateNetwork(Some(network))] + VolumeCalls([])
                 + (PullCalls([s], present) + [ListContainers(existing)]);
    OnePull(s, present);
    var i := if present[0] then 1 else 2;
    assert prep[i] == if present[0] then ImageExists(s.image, true) else PullImage(s.image, true);
    assert !answers(0 + i).Gives(prep[i]);
  }

  /** On a Docker that makes the network and refuses everything else, the one image cannot be pulled. */
  lemma OnlyTheNetworkIsMade(answers: nat -> Answer, s: Service, network: Option<string>, prep: seq<Call>,
                             attempt: Attempt, r: Result<seq<ContainerInfo>, StartError>)
    requires s.image != "" && Explains([s], [], network, prep, attempt, r) && r != Failure(CircularDependency)
    requires Answered(answers, 0, prep) && forall k :: answers(k).id == Some("net") && !answers(k).ok
    ensures attempt.None? && prep == [CreateNetwork(Some("net"))] + PullSteps(s.image, false, false)
  {
    if attempt.Some? {
      LoopNeedsTheImage(answers, s, network.value, attempt.value.0.existing, prep);
    }
    assert prep != [] && answers(0 + 0).Gives(prep[0]);
    if r.error.PullError? {
      var present :| |present| < |[s]| && r.error.image == [s][|present|].image && r.error.image != ""
        && prep == [CreateNetwork(network)] + VolumeCalls([])
                   + (PullCalls([s][..|present|], present) + PullSteps(r.error.image, false, false));
      assert [s][..0] == [] && present == [];
    }
  }

  lemma NoDependenciesNoCycle(s: Service)
    requires s.dependsOn == []
    ensures !Cyclic(DependencyGraph([s]))
  {
    var g := DependencyGraph([s]);
    NamesAreKeys([s]);
    GraphOfDistinctNames([s]);
    assert s in [s] && Names([s]) == {s.name};
    forall p ensures !IsCycle(g, p) {
      if |p| >= 2 {
        assert !Edge(g, p[|p| - 2], p[|p| - 1]);
      }
    }
  }

  /** A Docker that makes the network, has no image and cannot pull one is left with the network. */
  method PullFailureAbandonsNetwork() returns (docker: Docker)
    ensures docker.calls == [CreateNetwork(Some("net")), ImageExists("app", false), PullImage("app", false)]
  {
    var web := Service("web", "app", map[], [], []);
    docker := new Docker((k: nat) => Answer(Some("net"), false, map[], StartFailed, None));
    NoDependenciesNoCycle(web);
    var r, network, prep, attempt := StartDeployment(docker, [web], []);
    OnlyTheNetworkIsMade(docker.answers, web, network, prep, attempt, r);
  }

  /** One entry per service, in start order. */
  ghost predicate ReportsInOrder(services: seq<Service>, loop: Loop, run: Run) {
    && |Reports(run.steps)| == |services| == |loop.ordered|
    && forall i :: 0 <= i < |services| ==> Reports(run.steps)[i].serviceName == loop.ordered[i].name
  }

  /** The promise of the container loop, over every answer Docker may give to an accepted specification. */
  lemma AcceptedDeployment(services: seq<Service>, loop: Loop, run: Run)
    requires DistinctNames(services) && AllDependenciesDefined(services) && !Cyclic(DependencyGraph(services))
    requires IsStartOrder(services, loop.ordered) && Fits(loop, run)
    ensures StartsFollowDependencies(DependencyGraph(services), RunCalls(loop, run))
    ensures run.fault.None? ==> ReportsInOrder(services, loop, run)
    ensures run.fault.Some? ==> UndoesWhatItAcquired(loop, run)
  {
    AcceptedSpecStartsInOrder(services, loop.ordered);
    RunFollowsDependencies(DependencyGraph(services), loop, run);
    if run.fault.Some? {
      PermutationKeepsNamesDistinct(services, loop.ordered);
      FaultUndoesEverything(loop, run);
    }
  }

  lemma PermutationKeepsNamesDistinct(services: seq<Service>, ordered: seq<Service>)
    requires DistinctNames(services) && multiset(ordered) == multiset(services)
    ensures DistinctNames(ordered)
  {
    forall i, j | 0 <= i < j < |ordered| ensures ordered[i].name != ordered[j].name {
      if ordered[i] == ordered[j] {
        assert ordered == ordered[..i] + [ordered[i]] + ordered[i + 1..j] + [ordered[j]] + ordered[j + 1..];
        assert multiset(ordered)[ordered[i]] >= 2;
        OccursOnce(services, ordered[i]);
        assert false;
      }
      assert ordered[i] in multiset(services) && ordered[j] in multiset(services);
    }
  }
}
