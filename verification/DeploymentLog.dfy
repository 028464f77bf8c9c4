/**
 What the log of `Orchestrator.StartDeployment` holds, call by call: where each volume, image and
 container of the specification appears in it, and which answer of Docker makes it fail.
 */
module DeploymentLog {
  import opened Orchestrator
  import opened Sequences
  import opened Services
  import opened Wrappers

  // ----- Volumes

  /** `at[i]` is where volume `i` is created, in list order; there is no other creation, and none of an external one. */
  ghost predicate VolumesAt(volumes: seq<Volume>, calls: seq<Call>, at: seq<nat>) {
    && |at| == |volumes|
    && (forall i :: 0 <= i < |volumes| && !volumes[i].external ==>
          at[i] < |calls| && calls[at[i]] == CreateVolume(volumes[i].name, true))
    && (forall i, j :: 0 <= i < j < |volumes| && !volumes[i].external && !volumes[j].external ==> at[i] < at[j])
    && (forall p :: 0 <= p < |calls| && calls[p].CreateVolume? ==>
          exists i :: 0 <= i < |volumes| && !volumes[i].external && at[i] == p)
  }

  ghost predicate NoVolume(calls: seq<Call>) {
    forall c :: c in calls ==> !c.CreateVolume?
  }

  lemma AddVolume(volumes: seq<Volume>, calls: seq<Call>, at: seq<nat>, v: Volume) returns (next: seq<nat>)
    requires VolumesAt(volumes, calls, at)
    ensures VolumesAt(volumes + [v], calls + if v.external then [] else [CreateVolume(v.name, true)], next)
  {
    next := at + [|calls|];
    var after := calls + if v.external then [] else [CreateVolume(v.name, true)];
    forall p | 0 <= p < |after| && after[p].CreateVolume?
      ensures exists i :: 0 <= i < |volumes + [v]| && !(volumes + [v])[i].external && next[i] == p
    {
      if p < |calls| {
        var i :| 0 <= i < |volumes| && !volumes[i].external && at[i] == p;
        assert next[i] == p && (volumes + [v])[i] == volumes[i];
      } else {
        assert next[|volumes|] == p && (volumes + [v])[|volumes|] == v;
      }
    }
  }

  lemma {:induction false} VolumesArePlaced(volumes: seq<Volume>, pre: seq<Call>) returns (at: seq<nat>)
    requires NoVolume(pre)
    ensures VolumesAt(volumes, pre + VolumeCalls(volumes), at)
  {
    if volumes == [] {
      at := [];
      assert pre + VolumeCalls(volumes) == pre;
    } else {
      var init, last := volumes[..|volumes| - 1], volumes[|volumes| - 1];
      var before := VolumesArePlaced(init, pre);
      at := AddVolume(init, pre + VolumeCalls(init), before, last);
      Associate(pre, VolumeCalls(init), if last.external then [] else [CreateVolume(last.name, true)]);
      assert init + [last] == volumes;
    }
  }

  lemma VolumesStayPlaced(volumes: seq<Volume>, calls: seq<Call>, at: seq<nat>, more: seq<Call>)
    requires VolumesAt(volumes, calls, at) && NoVolume(more)
    ensures VolumesAt(volumes, calls + more, at)
  {
    assert forall j :: 0 <= j < |more| ==> more[j] in more;
    forall p | 0 <= p < |calls + more| && (calls + more)[p].CreateVolume?
      ensures exists i :: 0 <= i < |volumes| && !volumes[i].external && at[i] == p
    {
      assert p < |calls| && calls[p].CreateVolume?;
    }
  }

  // ----- Images

  /** `at[i]` is where the image of service `i` is looked for, in order; it is looked for nowhere else. */
  ghost predicate ImagesAt(services: seq<Service>, calls: seq<Call>, at: seq<nat>) {
    && |at| == |services|
    && (forall i :: 0 <= i < |services| && services[i].image != "" ==> ImageAt(services[i].image, calls, at[i]))
    && (forall i, j :: 0 <= i < j < |services| && services[i].image != "" && services[j].image != "" ==> at[i] < at[j])
    && (forall p :: 0 <= p < |calls| && calls[p].ImageExists? ==>
          exists i :: 0 <= i < |services| && services[i].image != "" && at[i] == p)
    && PullsFollowMisses(calls)
  }

  /** A missing image is pulled right there. */
  ghost predicate ImageAt(image: string, calls: seq<Call>, p: nat) {
    && p < |calls| && calls[p].ImageExists? && calls[p].image == image
    && (!calls[p].present ==> p + 1 < |calls| && calls[p + 1] == PullImage(image, true))
  }

  /** Only a missing image is pulled. */
  ghost predicate PullsFollowMisses(calls: seq<Call>) {
    forall p :: 0 <= p < |calls| && calls[p].PullImage? ==> 0 < p && calls[p - 1] == ImageExists(calls[p].image, false)
  }

  ghost predicate NoImage(calls: seq<Call>) {
    forall c :: c in calls ==> !c.ImageExists? && !c.PullImage?
  }

  lemma PullStepsFollowMisses(calls: seq<Call>, image: string, present: bool)
    requires PullsFollowMisses(calls)
    ensures PullsFollowMisses(calls + PullSteps(image, present, true))
    ensures ImageAt(image, calls + PullSteps(image, present, true), |calls|)
  {
  }

  lemma ImageStays(image: string, calls: seq<Call>, p: nat, more: seq<Call>)
    requires ImageAt(image, calls, p)
    ensures ImageAt(image, calls + more, p)
  {
  }

  lemma AddImage(services: seq<Service>, calls: seq<Call>, at: seq<nat>, s: Service, present: bool)
    requires ImagesAt(services, calls, at) && s.image != ""
    ensures ImagesAt(services + [s], calls + PullSteps(s.image, present, true), at + [|calls|])
  {
    var all, after, next := services + [s], calls + PullSteps(s.image, present, true), at + [|calls|];
    forall p | 0 <= p < |after| && after[p].ImageExists?
      ensures exists i :: 0 <= i < |all| && all[i].image != "" && next[i] == p
    {
      if p < |calls| {
        var i :| 0 <= i < |services| && services[i].image != "" && at[i] == p;
        assert next[i] == p && all[i] == services[i];
      } else {
        assert p == |calls| && next[|services|] == p && all[|services|] == s;
      }
    }
    forall i | 0 <= i < |all| && all[i].image != "" ensures ImageAt(all[i].image, after, next[i]) {
      if i < |services| {
        ImageStays(services[i].image, calls, at[i], PullSteps(s.image, present, true));
      } else {
        PullStepsFollowMisses(calls, s.image, present);
      }
    }
    PullStepsFollowMisses(calls, s.image, present);
  }

  lemma SkipImage(services: seq<Service>, calls: seq<Call>, at: seq<nat>, s: Service)
    requires ImagesAt(services, calls, at) && s.image == ""
    ensures ImagesAt(services + [s], calls, at + [|calls|])
  {
    forall p | 0 <= p < |calls| && calls[p].ImageExists?
      ensures exists i :: 0 <= i < |services + [s]| && (services + [s])[i].image != "" && (at + [|calls|])[i] == p
    {
      var i :| 0 <= i < |services| && services[i].image != "" && at[i] == p;
      assert (at + [|calls|])[i] == p && (services + [s])[i] == services[i];
    }
  }

  lemma NextImage(services: seq<Service>, calls: seq<Call>, at: seq<nat>, s: Service, present: bool)
    requires ImagesAt(services, calls, at)
    ensures ImagesAt(services + [s], calls + if s.image == "" then [] else PullSteps(s.image, present, true),
                     at + [|calls|])
  {
    if s.image == "" {
      SkipImage(services, calls, at, s);
      assert calls + [] == calls;
    } else {
      AddImage(services, calls, at, s, present);
    }
  }

  lemma {:induction false} ImagesArePlaced(services: seq<Service>, present: seq<bool>, pre: seq<Call>)
    returns (at: seq<nat>)
    requires NoImage(pre) && |present| == |services|
    ensures ImagesAt(services, pre + PullCalls(services, present), at)
  {
    if services == [] {
      at := [];
      assert pre + PullCalls(services, present) == pre;
      assert forall p :: 0 <= p < |pre| ==> pre[p] in pre;
    } else {
      var n := |services| - 1;
      var last, made := services[n], PullCalls(services[..n], present[..n]);
      var before := ImagesArePlaced(services[..n], present[..n], pre);
      at := before + [|pre + made|];
      NextImage(services[..n], pre + made, before, last, present[n]);
      Associate(pre, made, if last.image == "" then [] else PullSteps(last.image, present[n], true));
      assert services[..n] + [last] == services;
    }
  }

  lemma ImagesStayPlaced(services: seq<Service>, calls: seq<Call>, at: seq<nat>, more: seq<Call>)
    requires ImagesAt(services, calls, at) && NoImage(more)
    ensures ImagesAt(services, calls + more, at)
  {
    assert forall j :: 0 <= j < |more| ==> more[j] in more;
    forall p | 0 <= p < |calls + more| && ((calls + more)[p].ImageExists? || (calls + more)[p].PullImage?)
      ensures p < |calls| && calls[p] == (calls + more)[p]
    {
    }
    forall i | 0 <= i < |services| && services[i].image != ""
      ensures ImageAt(services[i].image, calls + more, at[i])
    {
      ImageStays(services[i].image, calls, at[i], more);
    }
  }

  // ----- Containers

  /**
   `p` is where the container of the service is started: an existing one as it is, or else the one just
   created, which is bound to the proxy port exactly for the primary service. Then it is inspected.
   */
  ghost predicate StartedAt(loop: Loop, s: Service, calls: seq<Call>, p: nat, report: ContainerInfo) {
    && p + 1 < |calls|
    && calls[p].StartContainer? && calls[p].service == s.name && calls[p].outcome != StartFailed
    && (s.name in loop.existing ==> calls[p].id == loop.existing[s.name])
    && (s.name !in loop.existing ==>
          0 < p && calls[p - 1] == CreateContainer(s.name, s.name == loop.primary, Some(calls[p].id)))
    && calls[p + 1].InspectContainer? && calls[p + 1].service == s.name && calls[p + 1].id == calls[p].id
    && calls[p + 1].info.Some?
    && report == ContainerInfo(calls[p + 1].info.value.id, s.name, s.image, calls[p + 1].info.value.status)
  }

  /** `at[i]` is where service `i` is started, in order; nothing else is started. */
  ghost predicate ContainersAt(loop: Loop, services: seq<Service>, calls: seq<Call>, at: seq<nat>,
                               reports: seq<ContainerInfo>)
  {
    && |at| == |services| == |reports|
    && (forall i :: 0 <= i < |services| ==> StartedAt(loop, services[i], calls, at[i], reports[i]))
    && (forall i, j :: 0 <= i < j < |services| ==> at[i] < at[j])
    && (forall p :: 0 <= p < |calls| && calls[p].StartContainer? ==> p in at)
    && CreatedAreStarted(loop, calls)
  }

  /** A container is only created for a service without one, and started next. */
  ghost predicate CreatedAreStarted(loop: Loop, calls: seq<Call>) {
    forall p :: 0 <= p < |calls| && calls[p].CreateContainer? ==>
      && p + 1 < |calls| && calls[p + 1].StartContainer? && calls[p + 1].service == calls[p].service
      && calls[p].service !in loop.existing
  }

  ghost predicate NoContainer(calls: seq<Call>) {
    forall c :: c in calls ==> !c.StartContainer? && !c.CreateContainer?
  }

  lemma StartStays(loop: Loop, s: Service, calls: seq<Call>, p: nat, report: ContainerInfo, more: seq<Call>)
    requires StartedAt(loop, s, calls, p, report)
    ensures StartedAt(loop, s, calls + more, p, report)
  {
    var after := calls + more;
    assert after[p] == calls[p] && after[p + 1] == calls[p + 1] && (0 < p ==> after[p - 1] == calls[p - 1]);
  }

  function StartOffset(loop: Loop, name: string): nat {
    if name in loop.existing then 0 else 1
  }

  lemma StepIsStarted(loop: Loop, calls: seq<Call>, s: Step)
    requires s.outcome != StartFailed && IdFits(loop, s.service.name, s.id) && CreatedAreStarted(loop, calls)
    ensures StartedAt(loop, s.service, calls + StepCalls(loop, s), |calls| + StartOffset(loop, s.service.name),
                      Report(s))
    ensures CreatedAreStarted(loop, calls + StepCalls(loop, s))
  {
    var name, more := s.service.name, StepCalls(loop, s);
    if name in loop.existing {
      assert more == [StartContainer(name, s.id, s.outcome), InspectContainer(name, s.id, Some(s.info))];
    } else {
      assert more == [CreateContainer(name, name == loop.primary, Some(s.id)),
                      StartContainer(name, s.id, s.outcome), InspectContainer(name, s.id, Some(s.info))];
    }
  }

  lemma StepStartsOnce(loop: Loop, calls: seq<Call>, s: Step, p: nat)
    requires |calls| <= p < |calls + StepCalls(loop, s)| && (calls + StepCalls(loop, s))[p].StartContainer?
    ensures p == |calls| + StartOffset(loop, s.service.name)
  {
  }

  lemma AddContainer(loop: Loop, services: seq<Service>, calls: seq<Call>, at: seq<nat>,
                     reports: seq<ContainerInfo>, s: Step)
    requires ContainersAt(loop, services, calls, at, reports)
    requires s.outcome != StartFailed && IdFits(loop, s.service.name, s.id)
    ensures ContainersAt(loop, services + [s.service], calls + StepCalls(loop, s),
                         at + [|calls| + StartOffset(loop, s.service.name)], reports + [Report(s)])
  {
    var next, after := at + [|calls| + StartOffset(loop, s.service.name)], calls + StepCalls(loop, s);
    StepIsStarted(loop, calls, s);
    forall i | 0 <= i < |services| ensures StartedAt(loop, services[i], after, at[i], reports[i]) {
      StartStays(loop, services[i], calls, at[i], reports[i], StepCalls(loop, s));
    }
    forall p | 0 <= p < |after| && after[p].StartContainer? ensures p in next {
      if p < |calls| {
        assert calls[p].StartContainer?;
      } else {
        StepStartsOnce(loop, calls, s, p);
      }
    }
  }

  lemma {:induction false} ContainersArePlaced(loop: Loop, steps: seq<Step>, pre: seq<Call>) returns (at: seq<nat>)
    requires StepsFit(loop, steps) && NoContainer(pre)
    ensures ContainersAt(loop, loop.ordered[..|steps|], pre + AllStepCalls(loop, steps), at, Reports(steps))
  {
    if steps == [] {
      at := [];
      assert pre + AllStepCalls(loop, steps) == pre;
      assert forall p :: 0 <= p < |pre| ==> pre[p] in pre;
    } else {
      var n := |steps| - 1;
      var init, last := steps[..n], steps[n];
      var before := ContainersArePlaced(loop, init, pre);
      var calls := pre + AllStepCalls(loop, init);
      AddContainer(loop, loop.ordered[..n], calls, before, Reports(init), last);
      at := before + [|calls| + StartOffset(loop, last.service.name)];
      Associate(pre, AllStepCalls(loop, init), StepCalls(loop, last));
      OneMoreService(loop, steps);
    }
  }

  lemma OneMoreService(loop: Loop, steps: seq<Step>)
    requires StepsFit(loop, steps) && steps != []
    ensures var n := |steps| - 1;
            && loop.ordered[..n] + [steps[n].service] == loop.ordered[..|steps|]
            && Reports(steps[..n]) + [Report(steps[n])] == Reports(steps)
  {
  }
  // ----- The whole log

  /** Volumes are created before images are looked for and containers listed or started. */
  ghost predicate VolumesFirst(calls: seq<Call>) {
    forall p, q :: 0 <= p < |calls| && 0 <= q < |calls| && calls[p].CreateVolume? && ComesLater(calls[q]) ==> p < q
  }

  predicate ComesLater(c: Call) {
    c.ImageExists? || c.PullImage? || c.ListContainers? || c.CreateContainer? || c.StartContainer?
  }

  ghost predicate NothingLater(calls: seq<Call>) {
    forall c :: c in calls ==> !ComesLater(c)
  }

  lemma VolumesThenTheRest(a: seq<Call>, b: seq<Call>)
    requires NothingLater(a) && NoVolume(b)
    ensures VolumesFirst(a + b)
  {
    assert forall p :: 0 <= p < |a| ==> a[p] in a;
    assert forall q :: 0 <= q < |b| ==> b[q] in b;
  }

  lemma {:induction false} VolumeCallsOnly(volumes: seq<Volume>)
    ensures NothingLater(VolumeCalls(volumes))
  {
    if volumes != [] {
      VolumeCallsOnly(volumes[..|volumes| - 1]);
    }
  }

  lemma {:induction false} PullCallsOnly(services: seq<Service>, present: seq<bool>)
    requires |present| == |services|
    ensures NoVolume(PullCalls(services, present)) && NoContainer(PullCalls(services, present))
  {
    if services != [] {
      PullCallsOnly(services[..|services| - 1], present[..|services| - 1]);
    }
  }

  lemma {:induction false} StepCallsOnly(loop: Loop, steps: seq<Step>)
    ensures NoVolume(AllStepCalls(loop, steps)) && NoImage(AllStepCalls(loop, steps))
  {
    if steps != [] {
      StepCallsOnly(loop, steps[..|steps| - 1]);
    }
  }

  lemma {:induction false} CleanupCallsOnly(created: map<string, string>, names: seq<string>)
    requires forall n :: n in names ==> n in created
    ensures NoVolume(CleanupCalls(created, names)) && NoImage(CleanupCalls(created, names))
  {
    if names != [] {
      CleanupCallsOnly(created, names[..|names| - 1]);
    }
  }

  lemma FaultCallsOnly(loop: Loop, name: string, f: Fault)
    ensures NoVolume(FaultCalls(loop, name, f)) && NoImage(FaultCalls(loop, name, f))
  {
  }

  lemma RunCallsOnly(loop: Loop, run: Run)
    requires Fits(loop, run)
    ensures NoVolume(RunCalls(loop, run)) && NoImage(RunCalls(loop, run))
  {
    StepCallsOnly(loop, run.steps);
    if run.fault.Some? {
      FaultyRun(loop, run.steps, run.fault.value, run.cleanup);
      FaultCallsOnly(loop, loop.ordered[|run.steps|].name, run.fault.value);
      CleanupCallsOnly(Created(loop, run), run.cleanup);
    }
  }

  lemma LoopCallsOnly(attempt: Attempt)
    requires attempt.Some? ==> Fits(attempt.value.0, attempt.value.1)
    ensures NoVolume(LoopCalls(attempt)) && NoImage(LoopCalls(attempt))
  {
    if attempt.Some? {
      RunCallsOnly(attempt.value.0, attempt.value.1);
    }
  }

  /** Network and volumes, then images and the list. */
  lemma PreparationPlaces(services: seq<Service>, volumes: seq<Volume>, network: string, present: seq<bool>,
                          rest: seq<Call>) returns (volumesAt: seq<nat>, imagesAt: seq<nat>)
    requires |present| == |services| && NoVolume(rest) && NoImage(rest)
    ensures var calls := [CreateNetwork(Some(network))] + VolumeCalls(volumes) + (PullCalls(services, present) + rest);
            VolumesFirst(calls) && VolumesAt(volumes, calls, volumesAt) && ImagesAt(services, calls, imagesAt)
  {
    var made, pulls := [CreateNetwork(Some(network))] + VolumeCalls(volumes), PullCalls(services, present);
    VolumeCallsOnly(volumes);
    PullCallsOnly(services, present);
    volumesAt := VolumesArePlaced(volumes, [CreateNetwork(Some(network))]);
    VolumesStayPlaced(volumes, made, volumesAt, pulls + rest);
    VolumesThenTheRest(made, pulls + rest);
    imagesAt := ImagesArePlaced(services, present, made);
    ImagesStayPlaced(services, made + pulls, imagesAt, rest);
    Associate(made, pulls, rest);
  }

  /** The container loop is only reached with the network, every volume and every image there, and the list taken. */
  lemma LoopFindsEverything(services: seq<Service>, volumes: seq<Volume>, network: Option<string>, prep: seq<Call>,
                            attempt: Attempt, r: Result<seq<ContainerInfo>, StartError>)
    returns (volumesAt: seq<nat>, imagesAt: seq<nat>)
    requires Explains(services, volumes, network, prep, attempt, r) && attempt.Some?
    ensures var issued := prep + LoopCalls(attempt);
            && issued != [] && issued[0] == CreateNetwork(Some(attempt.value.0.network))
            && ListContainers(attempt.value.0.existing) in issued
            && VolumesFirst(issued)
            && VolumesAt(volumes, issued, volumesAt)
            && ImagesAt(services, issued, imagesAt)
  {
    var loop := attempt.value.0;
    assert ListContainers(loop.existing) in prep;
    var present :| |present| == |services|
      && prep == [CreateNetwork(Some(loop.network))] + VolumeCalls(volumes)
                 + (PullCalls(services, present) + [ListContainers(loop.existing)]);
    LoopCallsOnly(attempt);
    var made, pulls := [CreateNetwork(Some(loop.network))] + VolumeCalls(volumes), PullCalls(services, present);
    volumesAt, imagesAt := PreparationPlaces(services, volumes, loop.network, present,
                                             [ListContainers(loop.existing)] + LoopCalls(attempt));
    AssociateAll(made, pulls, [ListContainers(loop.existing)], LoopCalls(attempt));
    Associate(made, pulls, [ListContainers(loop.existing)]);
    Associate(pulls, [ListContainers(loop.existing)], LoopCalls(attempt));
    Associate(made, pulls + [ListContainers(loop.existing)], LoopCalls(attempt));
  }
  lemma PreparationStartsNothing(services: seq<Service>, volumes: seq<Volume>, network: string,
                                 existing: map<string, string>, prep: seq<Call>)
    requires Prepared(services, volumes, network, existing, prep)
    ensures NoContainer(prep)
  {
    var present :| |present| == |services|
      && prep == [CreateNetwork(Some(network))] + VolumeCalls(volumes)
                 + (PullCalls(services, present) + [ListContainers(existing)]);
    VolumeCallsOnly(volumes);
    PullCallsOnly(services, present);
  }

  /** A success starts and inspects the container of each service in start order, and reports what it saw. */
  lemma SuccessStartsEverything(services: seq<Service>, volumes: seq<Volume>, network: Option<string>,
                                prep: seq<Call>, attempt: Attempt, r: Result<seq<ContainerInfo>, StartError>)
    returns (at: seq<nat>)
    requires Explains(services, volumes, network, prep, attempt, r) && r.Success?
    ensures var loop := attempt.value.0;
            && multiset(loop.ordered) == multiset(services)
            && ContainersAt(loop, loop.ordered, prep + LoopCalls(attempt), at, r.value)
  {
    var (loop, run) := attempt.value;
    PreparationStartsNothing(services, volumes, loop.network, loop.existing, prep);
    at := ContainersArePlaced(loop, run.steps, prep);
    assert loop.ordered[..|run.steps|] == loop.ordered;
    assert RunCalls(loop, run) == AllStepCalls(loop, run.steps);
  }

  /** A refused volume: those before it in the list are there, it was tried, and the network was removed. */
  lemma RefusedVolumeEndsTheLog(services: seq<Service>, volumes: seq<Volume>, network: Option<string>,
                                prep: seq<Call>, attempt: Attempt, r: Result<seq<ContainerInfo>, StartError>)
    returns (k: nat, at: seq<nat>)
    requires Explains(services, volumes, network, prep, attempt, r) && r.Failure? && r.error.VolumeError?
    ensures var issued := prep + LoopCalls(attempt);
            && k < |volumes| && !volumes[k].external && r.error == VolumeError(volumes[k].name) && |issued| >= 2
            && VolumesAt(volumes[..k], issued[..|issued| - 2], at)
            && issued[|issued| - 2..] == [CreateVolume(volumes[k].name, false), RemoveNetwork(network.value)]
  {
    assert prep + LoopCalls(attempt) == prep;
    k :| 0 <= k < |volumes| && !volumes[k].external && r.error.volume == volumes[k].name
      && prep == [CreateNetwork(network)] + VolumeCalls(volumes[..k])
                 + [CreateVolume(r.error.volume, false), RemoveNetwork(network.value)];
    at := VolumesArePlaced(volumes[..k], [CreateNetwork(network)]);
    var made := [CreateNetwork(network)] + VolumeCalls(volumes[..k]);
    assert prep[..|prep| - 2] == made;
  }

  // ----- Which answers make it fail

  predicate Refuses(c: Call) {
    match c
    case CreateNetwork(network) => network.None?
    case CreateVolume(_, made) => !made
    case PullImage(_, pulled) => !pulled
    case CreateContainer(_, _, created) => created.None?
    case StartContainer(_, _, outcome) => outcome == StartFailed
    case InspectContainer(_, _, info) => info.None?
    case _ => false
  }

  function Blamed(c: Call): StartError
    requires Refuses(c)
  {
    match c
    case CreateNetwork(_) => NetworkError
    case CreateVolume(volume, _) => VolumeError(volume)
    case PullImage(image, _) => PullError(image)
    case CreateContainer(service, _, _) => CreateError(service)
    case StartContainer(service, _, _) => StartError.StartError(service)
    case InspectContainer(service, _, _) => InspectError(service)
  }

  ghost predicate AllGranted(calls: seq<Call>) {
    forall c :: c in calls ==> !Refuses(c)
  }

  /** Something was refused, and the error names it. */
  ghost predicate RefusedWith(calls: seq<Call>, e: StartError) {
    (exists c :: c in calls && Refuses(c)) && forall c :: c in calls && Refuses(c) ==> Blamed(c) == e
  }

  lemma RefusedAmong(a: seq<Call>, b: seq<Call>, c: seq<Call>, e: StartError)
    requires AllGranted(a) && RefusedWith(b, e) && AllGranted(c)
    ensures RefusedWith(a + b + c, e)
  {
    var x :| x in b && Refuses(x);
    assert x in a + b + c;
  }

  lemma OneRefusal(a: seq<Call>, c: Call)
    requires AllGranted(a) && Refuses(c)
    ensures RefusedWith(a + [c], Blamed(c))
  {
    assert c in a + [c];
  }

  lemma {:induction false} VolumesGranted(volumes: seq<Volume>)
    ensures AllGranted(VolumeCalls(volumes))
  {
    if volumes != [] {
      VolumesGranted(volumes[..|volumes| - 1]);
    }
  }

  lemma {:induction false} PullsGranted(services: seq<Service>, present: seq<bool>)
    requires |present| == |services|
    ensures AllGranted(PullCalls(services, present))
  {
    if services != [] {
      PullsGranted(services[..|services| - 1], present[..|services| - 1]);
    }
  }

  lemma {:induction false} StepsGranted(loop: Loop, steps: seq<Step>)
    requires StepsFit(loop, steps)
    ensures AllGranted(AllStepCalls(loop, steps))
  {
    if steps != [] {
      StepsGranted(loop, steps[..|steps| - 1]);
    }
  }

  lemma {:induction false} CleanupGranted(created: map<string, string>, names: seq<string>)
    requires forall n :: n in names ==> n in created
    ensures AllGranted(CleanupCalls(created, names))
  {
    if names != [] {
      CleanupGranted(created, names[..|names| - 1]);
    }
  }

  lemma FaultIsRefusal(loop: Loop, name: string, f: Fault)
    requires FaultFits(loop, name, f)
    ensures RefusedWith(FaultCalls(loop, name, f), ErrorOf(name, f))
  {
    match f
    case CreateFailed =>
      OneRefusal([], CreateContainer(name, name == loop.primary, None));
      assert [] + FaultCalls(loop, name, f) == FaultCalls(loop, name, f);
    case StartRejected(id) => OneRefusal(Acquire(loop, name, id), StartContainer(name, id, StartFailed));
    case InspectFailed(id, outcome) =>
      OneRefusal(Acquire(loop, name, id) + [StartContainer(name, id, outcome)], InspectContainer(name, id, None));
      assert FaultCalls(loop, name, f)
          == Acquire(loop, name, id) + [StartContainer(name, id, outcome)] + [InspectContainer(name, id, None)];
  }

  lemma RunIsRefusedIffItFails(loop: Loop, run: Run)
    requires Fits(loop, run)
    ensures match run.fault
            case None => AllGranted(RunCalls(loop, run))
            case Some(f) => RefusedWith(RunCalls(loop, run), ErrorOf(loop.ordered[|run.steps|].name, f))
  {
    StepsGranted(loop, run.steps);
    if run.fault.Some? {
      var f, name := run.fault.value, loop.ordered[|run.steps|].name;
      var undo := CleanupCalls(Created(loop, run), run.cleanup) + [RemoveNetwork(loop.network)];
      FaultIsRefusal(loop, name, f);
      CleanupGranted(Created(loop, run), run.cleanup);
      RefusedAmong(AllStepCalls(loop, run.steps), FaultCalls(loop, name, f), undo, ErrorOf(name, f));
      FaultyRun(loop, run.steps, f, run.cleanup);
      Associate(AllStepCalls(loop, run.steps) + FaultCalls(loop, name, f),
                CleanupCalls(Created(loop, run), run.cleanup), [RemoveNetwork(loop.network)]);
    }
  }

  lemma PreparationIsGranted(services: seq<Service>, volumes: seq<Volume>, network: string,
                             existing: map<string, string>, prep: seq<Call>)
    requires Prepared(services, volumes, network, existing, prep)
    ensures AllGranted(prep)
  {
    var present :| |present| == |services|
      && prep == [CreateNetwork(Some(network))] + VolumeCalls(volumes)
                 + (PullCalls(services, present) + [ListContainers(existing)]);
    VolumesGranted(volumes);
    PullsGranted(services, present);
  }

  lemma RefusedVolumeIsBlamed(volumes: seq<Volume>, network: string, volume: string, prep: seq<Call>)
    requires VolumeRefused(volumes, network, volume, prep)
    ensures RefusedWith(prep, VolumeError(volume))
  {
    var k :| 0 <= k < |volumes| && !volumes[k].external && volume == volumes[k].name
      && prep == [CreateNetwork(Some(network))] + VolumeCalls(volumes[..k])
                 + [CreateVolume(volume, false), RemoveNetwork(network)];
    var made := [CreateNetwork(Some(network))] + VolumeCalls(volumes[..k]);
    VolumesGranted(volumes[..k]);
    OneRefusal([], CreateVolume(volume, false));
    assert [] + [CreateVolume(volume, false)] == [CreateVolume(volume, false)];
    RefusedAmong(made, [CreateVolume(volume, false)], [RemoveNetwork(network)], VolumeError(volume));
    assert prep == made + [CreateVolume(volume, false)] + [RemoveNetwork(network)];
  }

  lemma RefusedPullIsBlamed(services: seq<Service>, volumes: seq<Volume>, network: string, image: string,
                            prep: seq<Call>)
    requires PullRefused(services, volumes, network, image, prep)
    ensures RefusedWith(prep, PullError(image))
  {
    var present :| |present| < |services| && image == services[|present|].image && image != ""
      && prep == [CreateNetwork(Some(network))] + VolumeCalls(volumes)
                 + (PullCalls(services[..|present|], present) + PullSteps(image, false, false));
    var made := [CreateNetwork(Some(network))] + VolumeCalls(volumes);
    var pulls := PullCalls(services[..|present|], present);
    VolumesGranted(volumes);
    PullsGranted(services[..|present|], present);
    OneRefusal([ImageExists(image, false)], PullImage(image, false));
    RefusedAmong(made + pulls, PullSteps(image, false, false), [], PullError(image));
    Associate(made, pulls, PullSteps(image, false, false));
    assert prep + [] == prep;
  }

  lemma EarlyEndIsRefusal(services: seq<Service>, volumes: seq<Volume>, network: Option<string>, e: StartError,
                          prep: seq<Call>)
    requires EndsEarly(services, volumes, network, e, prep) && e != CircularDependency
    ensures RefusedWith(prep, e)
  {
    match e
    case NetworkError => assert CreateNetwork(None) in prep;
    case VolumeError(volume) => RefusedVolumeIsBlamed(volumes, network.value, volume, prep);
    case PullError(image) => RefusedPullIsBlamed(services, volumes, network.value, image, prep);
    case _ =>
  }

  /** Once at Docker, a deployment succeeds exactly when nothing is refused, and blames what is. */
  lemma RefusalDecides(services: seq<Service>, volumes: seq<Volume>, network: Option<string>, prep: seq<Call>,
                       attempt: Attempt, r: Result<seq<ContainerInfo>, StartError>)
    requires Explains(services, volumes, network, prep, attempt, r) && r != Failure(CircularDependency)
    ensures var issued := prep + LoopCalls(attempt);
            if r.Success? then AllGranted(issued) else RefusedWith(issued, r.error)
  {
    match attempt
    case None =>
      EarlyEndIsRefusal(services, volumes, network, r.error, prep);
      assert prep + LoopCalls(attempt) == prep;
    case Some((loop, run)) =>
      PreparationIsGranted(services, volumes, loop.network, loop.existing, prep);
      RunIsRefusedIffItFails(loop, run);
      if run.fault.Some? {
        RefusedAmong(prep, RunCalls(loop, run), [], r.error);
        assert prep + RunCalls(loop, run) + [] == prep + RunCalls(loop, run);
      }
  }
  // ----- The clean-up

  /** A container is stopped right before it is removed. */
  ghost predicate RemovedAreStopped(calls: seq<Call>) {
    forall p :: 0 <= p < |calls| && calls[p].RemoveContainer? ==> 0 < p && calls[p - 1] == StopContainer(calls[p].id)
  }

  lemma {:induction false} CleanupStopsFirst(created: map<string, string>, names: seq<string>)
    requires forall n :: n in names ==> n in created
    ensures RemovedAreStopped(CleanupCalls(created, names))
  {
    if names != [] {
      CleanupStopsFirst(created, names[..|names| - 1]);
    }
  }

  ghost predicate NoRemoval(calls: seq<Call>) {
    forall c :: c in calls ==> !c.RemoveContainer?
  }

  lemma {:induction false} StepsRemoveNothing(loop: Loop, steps: seq<Step>)
    ensures NoRemoval(AllStepCalls(loop, steps))
  {
    if steps != [] {
      StepsRemoveNothing(loop, steps[..|steps| - 1]);
    }
  }

  lemma StoppedAmong(a: seq<Call>, b: seq<Call>, c: seq<Call>)
    requires NoRemoval(a) && RemovedAreStopped(b) && NoRemoval(c)
    ensures RemovedAreStopped(a + b + c)
  {
    assert forall p :: 0 <= p < |a| ==> a[p] in a;
    assert forall p :: 0 <= p < |c| ==> c[p] in c;
  }

  /** In every run of the container loop. */
  lemma RunStopsBeforeRemoving(loop: Loop, run: Run)
    requires Fits(loop, run)
    ensures RemovedAreStopped(RunCalls(loop, run))
  {
    StepsRemoveNothing(loop, run.steps);
    if run.fault.Some? {
      var fault := FaultCalls(loop, loop.ordered[|run.steps|].name, run.fault.value);
      FaultyRun(loop, run.steps, run.fault.value, run.cleanup);
      CleanupStopsFirst(Created(loop, run), run.cleanup);
      StoppedAmong(AllStepCalls(loop, run.steps) + fault, CleanupCalls(Created(loop, run), run.cleanup),
                   [RemoveNetwork(loop.network)]);
    } else {
      StoppedAmong(AllStepCalls(loop, run.steps), [], []);
      assert RunCalls(loop, run) == AllStepCalls(loop, run.steps) + [] + [];
    }
  }
  // ----- The primary service

  /** The proxy port goes to the first service in start order that exposes a port, and to none if there is no such. */
  lemma PrimaryIsFirstWithPorts(services: seq<Service>, loop: Loop, run: Run,
                                r: Result<seq<ContainerInfo>, StartError>, i: nat)
    requires Decides(services, loop, run, r) && DistinctNames(services) && i < |loop.ordered|
    ensures loop.ordered[i].ports != [] && (forall j :: 0 <= j < i ==> loop.ordered[j].ports == []) ==>
      loop.primary == loop.ordered[i].name
    ensures loop.primary == loop.ordered[i].name && loop.primary != "" ==>
      loop.ordered[i].ports != [] && forall j :: 0 <= j < i ==> loop.ordered[j].ports == []
  {
    PermutationKeepsNamesDistinct(services, loop.ordered);
  }
}
