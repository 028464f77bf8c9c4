# Hoster: proofs about the functional core

Hoster deploys Docker Compose applications to nodes and bills for them. This project models the
parts of it that decide something, and proves what they promise on every input and over every run.
`dafny verify dfyconfig.toml` checks all of it.

What is modelled, and the main result of each part:

- **Dependencies of services** (Sequences, Graphs, Services, CycleDetection, Ordering). The depth-first search
  reports a circular dependency if and only if the `depends_on` graph has a cycle. Kahn's algorithm
  emits exactly the least set of services closed under "all my dependencies are already in", and
  everything if and only if there is no cycle and every dependency is defined, for every order in
  which a Go map may be walked.
- **Starting containers** (Orchestrator, DeploymentLog). Docker answers arbitrarily and keeps a log of the calls.
  A service is only started after all its dependencies are up; a fault of the container loop stops
  and removes exactly the containers that this call created or reused, then the network. A failed
  deployment leaves its network behind if and only if a pull failed. Every volume, image and container of
  the specification has its place in the log, and a deployment fails if and only if a call is refused.
- **Lifecycle of deployments** (Ports, Lifecycle, ActionEffects, DeploymentStore). The handlers are proved to have a
  stated effect per user action; over every run of actions, deployments rest in five states, are
  billed as running exactly while they run, and never share an allocated port if and only if no
  restart takes one that was given away meanwhile. Every usage event comes from the action that earns it.
- **Invoices** (Invoicing, InvoiceHistory). A generator pass conserves money and repeating it changes nothing; over
  every run of generate, pay and verify there is one invoice per user and month, checkouts are for
  the invoice's total, paid is final, and whatever is paid was verified with the payment provider.
- **Usage events** (UsageReporter). Every event marked as reported is in exactly one batch that was
  accepted and marked, events are reported in the order they happened, and a refused round changes nothing.
- **SSH client pool** (NodePool). In every interleaving of the lock sections none is closed twice, and
  the clients that leak are exactly those that a ping stored its own over.
- **Node selection** (Scheduler, NodeChoice). The fused loop agrees with the four filters composed in any order,
  and picks a node of maximal score by sorting; what the score weighs is proved on its own.
- **Text** (Variables, Slug, Hostname). Placeholder substitution and when it is idempotent, slugs and
  hostnames.

Go maps are walked in an arbitrary order wherever the code walks them. Answers of Docker, of the
payment provider, of SSH and of the database rows outside a module are arbitrary values. Deployment,
invoice, event and client identifiers are positions or counters, which is how the model says that
fresh identifiers are never handed out twice.

Worth knowing, each with the exact condition and with an input that shows it:

- Deleting a running deployment removes its row without a stopped event, so its usage stays open for
  good (`Lifecycle.DeleteClosesUsageUnlessRunning`, `Lifecycle.DeletedWhileRunningStaysOpen`).
- Restarting a stopped deployment can give two deployments of one node the same port
  (`Lifecycle.EveryRunKeepsPortsDistinctIff`, `Lifecycle.RestartCanClash`).
- When an image can neither be found nor pulled, the network that was just created is left behind
  (`Orchestrator.NetworkStaysIffPullFails`, `Orchestrator.PullFailureAbandonsNetwork`).
- `PingNode` loses a client if another caller cached one in the meantime
  (`NodePool.EveryRunKeepsNoLeakIff`, `NodePool.PingCanLeak`).
- Behind a base domain that ends in a port, such as `localhost:9090`, no generated hostname is recognised
  unless another port follows (`Hostname.RoundTripIffBaseHasNoPort`, `Hostname.LocalhostNeedsAPort`).
- Substituting twice can differ from substituting once, for instance on `${${A}}`; only a value without
  variables is safe under every map (`Variables.IdempotentIffNoVariable`,
  `Variables.SubstitutionIsNotIdempotent`).

## Model

| member | source | states |
|---|---|---|
| CycleDetection.DetectCircularDependencies | internal/core/compose/parser.go:323-366 | terminates on every list of services and answers true exactly when the dependency graph has a directed cycle; self-loops, shared sub-graphs, undefined names and repeated names included |
| CycleDetection.AdjacencyLists | internal/core/compose/parser.go:324-328 | the dependency graph, in which a later entry for a name replaces an earlier one |
| CycleDetection.Detector.HasCycle | internal/core/compose/parser.go:335-356 | a true answer exhibits a cycle; after a false answer the node and everything below it can be listed dependencies first, and the recursion stack is as before |
| Graphs.NoCycleThroughListing | internal/core/compose/parser.go:323-366 | a listing of all nodes with dependencies first rules out every cycle |
| Graphs.ExtendToCycle | internal/core/compose/parser.go:323-366 | in a finite set where each node depends on another member there is a cycle |
| Services.GraphOfDistinctNames | internal/core/compose/parser.go:325-328 | with distinct names the adjacency lists are the services' own dependency lists |
| Ordering.TopologicalSort | internal/core/deployment/ordering.go:33-96 | for every map order: the startable services first, dependencies before dependents, then the others in input order; together a permutation of the input, cyclic or dangling dependencies included |
| Ordering.Drain | internal/core/deployment/ordering.go:59-76 | the queue loop emits, once each and dependencies first, exactly the least set closed under "all my dependencies are in the set", duplicates in dependency lists included |
| Ordering.InitialQueue | internal/core/deployment/ordering.go:52-57 | the first queue holds each service without dependencies once, in any order |
| Ordering.Release | internal/core/deployment/ordering.go:69-75 | one decrement per occurrence keeps every in-degree equal to the number of unemitted entries and enqueues each service exactly when that reaches zero |
| Ordering.BuildGraph | internal/core/deployment/ordering.go:39-50 | in-degrees are list lengths and `dependents` holds one entry per occurrence of a dependency |
| Ordering.AppendMissing | internal/core/deployment/ordering.go:80-93 | the fallback appends exactly the services no entry is named after, in input order |
| Ordering.StartableIsLeastClosed | internal/core/deployment/ordering.go:38-76 | the startable set is closed and is contained in every closed set |
| Ordering.EverythingStartsIffAcyclic | internal/core/deployment/ordering.go:78-79 | all services are startable if and only if there is no cycle and every dependency is defined |
| Ordering.CyclesNeverStart | internal/core/deployment/ordering.go:78-79 | no service on a cycle is startable |
| Ordering.AcceptedSpecStartsInOrder | internal/core/deployment/ordering.go:33-96 | without a cycle and with all dependencies defined the fallback has nothing to add and every service comes after all its dependencies |
| Orchestrator.StartDeployment | internal/shell/docker/orchestrator.go:66-223 | circular specifications issue no call; the whole log of every other attempt, whatever Docker answers; a failure after the network exists ends with removing it, unless a pull failed: that pull is then the last call |
| Orchestrator.NetworkStaysIffPullFails | internal/shell/docker/orchestrator.go:87-223 | the calls of a failed deployment hold no removal of its network exactly when some pull in them failed |
| Orchestrator.PullFailureAbandonsNetwork | internal/shell/docker/orchestrator.go:109-121 | a deployment on one Docker that creates the network, looks for the image, fails to pull it, and stops there |
| Orchestrator.StartContainers | internal/shell/docker/orchestrator.go:161-223 | the log is one create-or-reuse, start, inspect per service in order, up to the first fault and its clean-up; success reports one container per service |
| Orchestrator.StartService | internal/shell/docker/orchestrator.go:161-214 | an existing container is reused, otherwise one is created; already running counts as started; which calls each outcome issued |
| Orchestrator.CleanupCreatedContainers | internal/shell/docker/orchestrator.go:581-588 | stop and remove for every recorded container exactly once, in any order |
| Orchestrator.PrimaryService | internal/shell/docker/orchestrator.go:151-159 | the first service in start order that exposes a port, or none |
| Orchestrator.CreateVolumes | internal/shell/docker/orchestrator.go:95-107 | one creation per volume that is not external, up to the first failure |
| Orchestrator.PullImages | internal/shell/docker/orchestrator.go:109-126 | every named image is there or pulled, up to the first pull that fails |
| Orchestrator.RunFollowsDependencies | internal/shell/docker/orchestrator.go:145-223 | over every answer of Docker, whenever a start is issued all dependencies of the service are started or were running |
| Orchestrator.FaultUndoesEverything | internal/shell/docker/orchestrator.go:161-223 | when create, start or inspect fails, the ids stopped and the ids removed are exactly the ids created or reused by this call, and the last call removes the network |
| Orchestrator.SuccessUndoesNothing | internal/shell/docker/orchestrator.go:161-223 | a successful run stops and removes nothing |
| Orchestrator.AcceptedDeployment | internal/shell/docker/orchestrator.go:137-223 | for an accepted specification: starts follow dependencies, success reports one entry per service in start order, a fault undoes exactly what was acquired |
| DeploymentLog.LoopFindsEverything | internal/shell/docker/orchestrator.go:94-135 | when the container loop is reached the log holds, for each volume that is not external, its creation, in list order, once, before any image is looked for; then for each service with an image the look and, only if it is missing, the pull; and no other creation, look or pull |
| DeploymentLog.RefusedVolumeEndsTheLog | internal/shell/docker/orchestrator.go:95-106 | a refused volume: those before it in the list were created, it was tried, and the network is removed as the last call |
| DeploymentLog.SuccessStartsEverything | internal/shell/docker/orchestrator.go:137-223 | in a success each service has its place in the log, in start order: an existing container started as it is, or one just created, bound to the proxy port exactly for the primary service; then inspected, and reported with what was seen; nothing else is created or started |
| DeploymentLog.RefusalDecides | internal/shell/docker/orchestrator.go:66-223 | once at Docker, a deployment succeeds exactly when no call is refused, and fails with the error that names the refused call |
| DeploymentLog.RunStopsBeforeRemoving | internal/shell/docker/orchestrator.go:581-588 | in every run a container is stopped right before it is removed |
| DeploymentLog.PrimaryIsFirstWithPorts | internal/shell/docker/orchestrator.go:151-159 | the primary service is the first in start order that exposes a port |
| Ports.AllocatePort | internal/core/proxy/ports.go:18-33 | the scan finds the first unused port of the range |
| Ports.FirstUnusedIsLeast | internal/core/proxy/ports.go:16-33 | it is the least unused port, and there is none exactly when the whole range is used |
| Ports.RoomLeavesAPort | internal/core/proxy/ports.go:16-33 | fewer distinct used ports in the range than the range holds always leave one, whatever duplicates and outsiders are listed |
| DeploymentStore.Store.Transition | internal/engine/store.go:409-458 | the three errors, the new row and the command, by the transition table, the guard and the entry commands |
| DeploymentStore.AllowedTransitions | internal/engine/resources.go:84-94 | the transitions that the table allows |
| DeploymentStore.Store.GetUsedProxyPorts | internal/engine/handlers.go:393-407 | the positive ports on the node of rows outside stopped and deleted, in any order |
| DeploymentStore.Store.HandleSchedule | internal/engine/handlers.go:36-120 | without a node, an online node or a free port the row stays scheduled; otherwise it gets its port and is launched |
| DeploymentStore.Store.HandleStart | internal/engine/handlers.go:123-191 | ends in running with a started event, or in failed without one |
| DeploymentStore.Store.CreateAction | internal/engine/setup.go:137-142 | a new pending row, with a created event for a known owner |
| DeploymentStore.Store.StartAction | internal/engine/setup.go:273-342 | has exactly the effect of the start action, and accepts exactly an owner's pending row or a scheduled, stopped or failed one with a node |
| DeploymentStore.Store.StopAction | internal/engine/setup.go:345-394 | has exactly the effect of the stop action, and accepts exactly an owner's running row |
| DeploymentStore.Store.DeleteAction | internal/engine/api.go:373-426 | has exactly the effect of the delete action: stopped and failed rows run the delete command, all others are removed without it |
| ActionEffects.StartEnds | internal/engine/handlers.go:36-191 | in the fields of row and world: what a start needs to be launched and, then, to end in running with a started event; a launch that lacks pool, client, specification or containers ends in failed without one; the port is the row's own or the least free one of 30000 to 39999 |
| ActionEffects.StopEnds | internal/engine/handlers.go:194-232 | a running deployment becomes stopped, with a stopped event for a known owner; nothing changes for any other |
| ActionEffects.DeleteEnds | internal/engine/api.go:373-426 | the row is gone; a deleted event is logged only for a stopped or failed deployment of a known owner |
| ActionEffects.OthersChangeNothing | internal/engine/setup.go:273-394 | an action by anybody but the owner changes nothing |
| ActionEffects.EveryEventHasItsAction | internal/engine/handlers.go:409-416 | every event of a run was logged, at its place in the log, by an action of the run that had just that event to log |
| ActionEffects.StartedMeansContainersUp | internal/engine/handlers.go:166-186 | every started event of a run comes from a start by the owner whose containers came up and which ended in running |
| ActionEffects.EventNamesTheCreator | internal/engine/handlers.go:409-416 | every event of a run names the customer for whom the deployment was created |
| Lifecycle.EveryRunKeepsInvariant | internal/engine/handlers.go:36-267 | after every sequence of actions and answers: every deployment is pending, scheduled, running, stopped or failed; started minus stopped events are 1 exactly when an owned deployment is running and 0 otherwise; running implies a node |
| Lifecycle.ApplyKeepsInvariant | internal/engine/handlers.go:36-267 | each action keeps that invariant |
| Lifecycle.StartsAndStopsAlternate | internal/engine/handlers.go:179-228 | at no point of the event log has a deployment more starts than stops by two, or more stops than starts |
| Lifecycle.DeleteClosesUsageUnlessRunning | internal/engine/api.go:373-426 | after a delete the usage of the deployment is closed if and only if it was not running |
| Lifecycle.DeletedUsageNeverChanges | internal/engine/api.go:373-426 | no later action changes the usage of a deleted deployment |
| Lifecycle.DeletedWhileRunningStaysOpen | internal/engine/api.go:373-426 | a reachable run: created, started, deleted while running; one start in excess remains after any later actions |
| Lifecycle.EveryRunKeepsPortsDistinct | internal/engine/handlers.go:60-95 | in every run without a restart from stopped, allocated ports on one node outside stopped and deleted are pairwise distinct |
| Lifecycle.EveryRunKeepsPortsDistinctIff | internal/engine/handlers.go:60-95 | over every run, allocated ports are distinct at every point exactly when no restart from stopped takes a port that was given away meanwhile |
| Lifecycle.ActionKeepsPortsDistinctIff | internal/engine/handlers.go:393-407 | the same for one action, whichever it is |
| Lifecycle.RestartCanClash | internal/engine/handlers.go:393-396 | a reachable run in which a restart makes two deployments share a port |
| Lifecycle.FreshPortIsFree | internal/engine/handlers.go:61-71 | an allocated port is positive and held by no other active row of the node, client-chosen ports included |
| Invoicing.GroupByOwner | internal/engine/workers.go:639-673 | one bill per owner of a running deployment, with one item per deployment and the sum of the items as total |
| Invoicing.BillsConserveMoney | internal/engine/workers.go:639-673 | over any order of the users, the totals of the bills that grouping returns sum to the prices of all owned running deployments |
| Invoicing.BilledOnceToOwner | internal/engine/workers.go:664-671 | each running deployment is exactly one item of its owner's bill and of no other |
| InvoiceHistory.BillsListDeployments | internal/engine/workers.go:639-673 | a user has a bill exactly if some running deployment is theirs; it has one line per deployment of theirs, in list order, with its names and the price of its template, and their sum as total |
| Invoicing.ExistingByUser | internal/engine/workers.go:675-696 | the index covers exactly the users with an invoice for the month and prefers a settled one |
| Invoicing.InvoiceStore.GenerateAll | internal/engine/workers.go:605-739 | for any order of users: open invoices of the month take over the latest items and total, each billable user without one gets exactly one new draft, nothing else changes |
| InvoiceHistory.OldInvoicesAfterPass | internal/engine/workers.go:699-724 | an old invoice of another month, in payment, paid, or of a user who owes nothing is left alone; any other lists the present deployments at their prices and keeps its status and session |
| InvoiceHistory.NewInvoicesAfterPass | internal/engine/workers.go:725-738 | a new invoice is a draft of the month over the present deployments, for a user who owes something and had none |
| InvoiceHistory.EveryoneIsInvoiced | internal/engine/workers.go:699-738 | after a pass everyone who owes something has an invoice for the month |
| Invoicing.SecondPassChangesNothing | internal/engine/workers.go:698-739 | a second pass over the same deployments changes no row and adds none |
| Invoicing.GeneratedKeepsUnique | internal/engine/workers.go:682-738 | a pass keeps at most one invoice per user and month |
| Invoicing.InvoiceStore.PayInvoice | internal/engine/billing_handlers.go:17-114 | only the owner's draft or failed invoice with a positive total is sent to checkout, for that total, and becomes pending with the session |
| Invoicing.InvoiceStore.VerifyPayment | internal/engine/billing_handlers.go:118-195 | only the user's newest invoice with the session, if pending and paid for, becomes paid |
| InvoiceHistory.PaidOnlyByVerify | internal/engine/billing_handlers.go:147-180 | a step that makes an invoice paid verifies its own session for its user while it is pending, the provider says paid, and nothing else changes |
| InvoiceHistory.VerifyPays | internal/engine/billing_handlers.go:147-180 | such a verification of the newest pending match does make it paid |
| InvoiceHistory.VerifyOtherwiseChangesNothing | internal/engine/billing_handlers.go:140-180 | without a session, a paid answer or a newest match that is pending nothing changes |
| InvoiceHistory.PendingOnlyByPay | internal/engine/billing_handlers.go:46-104 | a step that makes an invoice pending is its owner's payment of its positive total, sent to checkout for that total |
| InvoiceHistory.PayMakesPending | internal/engine/billing_handlers.go:46-104 | such a payment does make it pending, and any other changes nothing |
| InvoiceHistory.PaidWasVerified | internal/engine/billing_handlers.go:170-180 | over every run, between a point where an invoice is not paid and one where it is, its session was verified as paid for its user |
| InvoiceHistory.PaidWasCheckedOut | internal/engine/billing_handlers.go:77-104 | over every run from an empty ledger, a paid invoice was sent to checkout for its total in the session that was verified |
| Invoicing.EveryRunKeepsInvariant | internal/engine/billing_handlers.go:46-104 | at every point of every run: one invoice per user and month, totals are sums of items, and the last checkout of a pending or paid invoice is its stored session with its present total |
| Invoicing.SettledInvoicesNeverChange | internal/engine/resources.go:257-265 | between any two points of a run a pending or paid invoice keeps items, amounts and session, and a paid one is unchanged |
| UsageReporter.Reporter.GetUnreportedEvents | internal/engine/store.go:799-849 | a batch of distinct unreported events, oldest first, as many as the limit allows, with none older left out |
| UsageReporter.Reporter.ReportBatch | internal/shell/billing/reporter.go:104-140 | nothing changes unless the batch was sent; then it is a delivery, and its events are marked if marking succeeds |
| UsageReporter.EveryRunAccounts | internal/shell/billing/reporter.go:104-140 | over every run with any failures, an event is marked reported exactly when one accepted and marked batch holds it, and no two do |
| UsageReporter.DeliveredExactlyOnce | internal/shell/billing/reporter.go:104-140 | without marking failures a reported event is in exactly one accepted batch and any other in none |
| UsageReporter.OtherRoundChangesNothing | internal/shell/billing/reporter.go:104-123 | a round that fetches nothing, finds nothing waiting or is refused by the metering service changes nothing |
| UsageReporter.DeliveriesAreAcceptedRounds | internal/shell/billing/reporter.go:104-140 | over every run the delivered batches are those of the accepted rounds, one for each, in order |
| UsageReporter.ReportedWasAccepted | internal/shell/billing/reporter.go:117-140 | over every run an event became reported in an accepted and marked round that had it in its batch |
| UsageReporter.EveryRunIsOldestFirst | internal/engine/store.go:803-810 | on an advancing clock the marked events were sent in time order and none is younger than a waiting one |
| UsageReporter.RoundsDrain | internal/shell/billing/reporter.go:104-140 | k successful rounds with nothing new leave max(0, n - k * limit) unreported |
| NodePool.EveryRunKeepsNoLeakIff | internal/shell/docker/node_pool.go:54-254 | an interleaving leaves each client cached for one node and open, or uncached and closed exactly once, if and only if no ping in it stores over a cached client |
| NodePool.LostAreOverwritten | internal/shell/docker/node_pool.go:54-254 | in every interleaving no client is closed twice or while it is cached, and the lost clients are exactly those that pings stored theirs over |
| NodePool.EveryRunKeepsNoLeak | internal/shell/docker/node_pool.go:54-176 | in particular nothing leaks in any interleaving without PingNode |
| NodePool.SameClientUntilRemoved | internal/shell/docker/node_pool.go:54-143 | in every interleaving two calls for a node with no removal and no stored ping between them return the same client |
| NodePool.PingCanLeak | internal/shell/docker/node_pool.go:198-239 | a run in which a ping misses, another caller caches a client and the ping stores its own: the first client stays open and is lost |
| NodePool.CallReturnsCached | internal/shell/docker/node_pool.go:54-110 | a call returns the cached client or queues; on its turn it returns what is cached by then, or connects and caches |
| NodePool.RemoveClosesOne | internal/shell/docker/node_pool.go:148-159 | removing a node's client closes that client, which was open, and touches no other |
| NodePool.CloseAllClosesEverything | internal/shell/docker/node_pool.go:163-176 | after closing all nothing is cached and every client so far was closed exactly once |
| NodePool.RefreshReplaces | internal/shell/docker/node_pool.go:246-254 | a refresh closes the cached client and caches another one unless the connection fails |
| NodePool.SharedPool.PingNode | internal/shell/docker/node_pool.go:196-242 | an uninterrupted ping asks the cached client, or connects whatever the status of the node and keeps the client only if it answers |
| NodePool.SharedPool.CreateLocked | internal/shell/docker/node_pool.go:64-109 | the section under the write lock: a second look, then every way to fail, then create and cache |
| NodePool.SharedPool.GetClient | internal/shell/docker/node_pool.go:54-110 | an uninterrupted call is the two sections in turn, and fails only without a cached client and a connection |
| NodePool.SharedPool.RemoveClient | internal/shell/docker/node_pool.go:148-159 | uncaches and closes once, also when Close fails |
| NodePool.SharedPool.CloseAllClients | internal/shell/docker/node_pool.go:163-176 | every cached client is closed once and none stays cached, in any order |
| NodePool.SharedPool.RefreshClient | internal/shell/docker/node_pool.go:246-254 | removes, then asks again unless closing failed |
| Scheduler.Schedule | internal/core/scheduler/scheduler.go:95-173 | succeeds exactly when some node passes all filters, with a candidate of maximal score; otherwise the error its reason counts call for |
| Scheduler.SortDescending | internal/core/scheduler/scheduler.go:162-164 | sorting gives a permutation with descending scores |
| Scheduler.SortByScore | internal/core/scheduler/scheduler.go:292-304 | the same for nodes by their score |
| Scheduler.SimpleChoiceScoresTheSame | internal/core/scheduler/scheduler.go:241-304 | running the filters one after the other in any order and taking the first node by score gives the score that the fused loop gives |
| Scheduler.AnyFilterOrderGivesCandidates | internal/core/scheduler/scheduler.go:241-290 | the filter functions composed in any order, with repetitions, give exactly the candidates of the fused loop |
| Scheduler.FilterNodes | internal/core/scheduler/scheduler.go:241-290 | each filter loop keeps the passing nodes in order |
| Scheduler.CountsAddUp | internal/core/scheduler/scheduler.go:106-138 | the considered count is the number of candidates plus the sum of the reason counts |
| Scheduler.NoNodesMeansNoneOnline | internal/core/scheduler/scheduler.go:146-160 | "no nodes available" is returned exactly when no node is online |
| NodeChoice.CandidatesAreSuitable | internal/core/scheduler/scheduler.go:106-138 | in the fields: candidates are the nodes that are online, have every required capability, an allowed one, and room for what is asked |
| NodeChoice.ErrorsMean | internal/core/scheduler/scheduler.go:146-160 | the four errors, by what stands in the way of the nodes that are online |
| NodeChoice.WholeResourcesScore | internal/core/scheduler/scheduler.go:187-234 | an idle machine scores 100; with only the CPU, the memory or the disk left it scores 30, 40 or 30 |
| NodeChoice.PointsAreWeighted | internal/core/scheduler/scheduler.go:187-234 | while shares stay in range, a percentage point of the CPU, the memory and the disk left is worth 0.3, 0.4 and 0.3 |
| NodeChoice.MemoryBeatsDisk | internal/core/scheduler/scheduler.go:162-172 | of two candidates that trade the same share of disk for memory, the one with less memory left is never selected |
| NodeChoice.MoreMemoryIsSelected | internal/core/scheduler/scheduler.go:162-172 | of two nodes that trade the same share of disk for memory the one with more memory left is selected |
| Scheduler.ScoreInRange | internal/core/scheduler/scheduler.go:187-234 | the score is between 0 and 100 for every node and request |
| Scheduler.ScoreIsAntitone | internal/core/scheduler/scheduler.go:187-234 | more usage or a larger request never raises the score, nor makes an unfit node fit |
| Variables.MatcherIsExact | internal/core/deployment/variables.go:13 | the pattern matches at a position exactly when a placeholder stands there, and reads its name and default |
| Variables.NamesLookLikeNames | internal/core/deployment/variables.go:13 | names are a letter or underscore and then letters, digits and underscores |
| Variables.PlaceholderIsReplaced | internal/core/deployment/variables.go:36-62 | `${NAME}` becomes the variable or stays, `${NAME:-default}` becomes the variable or the default |
| Variables.OtherTextStays | internal/core/deployment/variables.go:36-62 | a character at which no placeholder starts stays |
| Variables.SubstitutionRendersTokens | internal/core/deployment/variables.go:36-62 | substitution renders each token once: a set variable, else the default, else the placeholder itself; replaced text is never scanned again |
| Variables.PrintedTokensGiveBackTheInput | internal/core/deployment/variables.go:36-62 | the tokens of a value print back to the value |
| Variables.IdempotentIffNoVariable | internal/core/deployment/variables.go:36-62 | a second substitution changes nothing under every variable map exactly when the value uses no variable |
| Variables.SubstitutionIsIdempotent | internal/core/deployment/variables.go:36-62 | under one map it changes nothing if every dollar sign starts a placeholder and no text put in holds one |
| Variables.SubstitutionIsNotIdempotent | internal/core/deployment/variables.go:36-62 | `${${A}}` with A set to B and B set: the second substitution replaces the placeholder that the first one made |
| Variables.ExtractVariables | internal/core/compose/parser.go:446-466 | every name used in some environment value, each once, for every map order |
| Variables.ExtractedNamesSuffice | internal/core/compose/parser.go:443-466 | two variable maps that agree on the extracted names give the same result for every environment value of the specification |
| Variables.EveryReportedNameMatters | internal/core/compose/parser.go:443-466 | setting a reported name can change the result of the value that uses it |
| Slug.GenerateSlug | internal/core/domain/template.go:215-227 | the replace-until-none loop ends and equals the one-pass collapse of hyphen runs |
| Slug.SlugJoinsTheWords | internal/core/domain/template.go:215-227 | the slug is the lower-case words of the name joined by single hyphens |
| Slug.SpacesAndCapitals | internal/core/domain/template.go:215-227 | a space counts as a hyphen and a capital as its small letter |
| Slug.TwoWords | internal/core/domain/template.go:215-227 | two well-formed words with a space between them are joined by a hyphen |
| Slug.SlugIsWellFormed | internal/core/domain/template.go:215-227 | no double, leading or trailing hyphen, no space, no upper-case letter |
| Slug.FixedPointsAreWellFormed | internal/core/domain/template.go:215-227 | exactly the well-formed strings are their own slug |
| Slug.SlugIsIdempotent | internal/core/domain/template.go:215-227 | a slug is its own slug |
| Hostname.Parse | internal/core/proxy/resolver.go:15-50 | strips a port of digits, then the base domain, and rejects an empty slug |
| Hostname.RoundTripWithPort | internal/core/proxy/resolver.go:15-50 | a non-empty slug in front of any base domain with a port comes back |
| Hostname.RoundTripIffBaseHasNoPort | internal/core/proxy/resolver.go:15-50 | without a port it comes back, unless the base domain ends in a port: then the hostname is not recognised |
| Hostname.LocalhostNeedsAPort | internal/core/proxy/resolver.go:15-50 | with base domain `localhost:9090` no slug comes back without a port, and every one does with one |
| Hostname.AcceptedHostsHaveTheForm | internal/core/proxy/resolver.go:15-50 | every accepted hostname is the non-empty slug, a dot and the base domain, with or without a port |
| Hostname.SlugifyName | internal/core/domain/slug.go:24-37 | the loop keeps letters, digits and hyphens, lowers capitals, turns spaces into hyphens and drops the rest |
| Hostname.SlugifyCharacter | internal/core/domain/slug.go:24-37 | what becomes of each single character |
| Hostname.SlugifyJoins | internal/core/domain/slug.go:24-37 | the slug of a name is that of its characters in turn |
| Hostname.AutoDomainParsesBack | internal/core/domain/deployment.go:257-263 | a generated domain parses back to the deployment's slug, or to nothing when the slug is empty or the base domain ends in a port |

## Left out

- Ordering.TopologicalSort: names are required to be distinct, as they are when services come from a map keyed by name.
- Orchestrator.StartDeployment: starts from the converted services; reading YAML, writing configuration files, container specifications beyond the primary flag, labels, logging (including its cutting of ids to 12 characters) and event recording are not modelled.
- Lifecycle.EveryRunKeepsInvariant: a user action and the command it dispatches are one step, store calls succeed, and clients do not set the status at creation, by PATCH or by the transition endpoint; recorded events are kept only for owners with a non-zero id.
- Lifecycle.EveryRunKeepsPortsDistinctIff: ports chosen by the client at creation are outside the claim, since the code does not check them.
- DeploymentStore.Store.HandleSchedule: the automatic domain is not stored in the row; domains are treated in Hostname.
- DeploymentStore.Store.CreateAction: the plan limit and the template version are not modelled.
- Invoicing.InvoiceStore.GenerateAll: lists hold all rows, where the code reads at most 1000; the month stands for the period dates; descriptions, tax and currency are not modelled. A user whose bill is zero keeps an older draft unchanged, as in the code.
- Invoicing.InvoiceStore.VerifyPayment: the list holds all rows, where the code reads at most 100.
- Invoicing.EveryRunKeepsInvariant: invoices are created by the generator only, and each handler is one step.
- UsageReporter.Reporter.GetUnreportedEvents: timestamps are whole numbers and ties come in any order; a query that fails is the `fetched` answer of ReportBatch.
- UsageReporter.EveryRunIsOldestFirst: the clock does not go back between recordings.
- NodePool.EveryRunKeepsNoLeakIff: the client of a PingNode call counts as created when the ping ends; until then it belongs to that call alone.
- Scheduler.ScoreInRange: floating-point numbers are reals and int64 does not overflow.
- Slug.GenerateSlug: lower-casing is ASCII only.
- Variables.SubstitutionIsIdempotent: gives a sufficient condition for one variable map; the condition over all maps, in IdempotentIffNoVariable, is exact.
- Scheduler.SortDescending: sorts by insertion, where the code calls `sort.Slice`; both leave the order of equal scores open.
- DeploymentStore.Store.Transition: one call is one step. The comment on it says "atomically", but its body reads and then writes (`internal/engine/store.go:409`).
- Cloud provisions, their retry and destruction: partial failures are not recorded by the code.
- The web interface, HTTP routing, authentication, encryption, SSH keys, DNS, Stripe requests and the Docker SDK: outside the decisions modelled here.
