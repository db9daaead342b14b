# Proofs about the Warpforge daemon

A Dafny model of the daemon's hardest logic, and proofs of what that logic is for.
`dafny verify dfyconfig.toml` checks all of it. One file models one component; the
larger components have a file of pure state functions, files of lemmas about every
run of those functions, and a file with the imperative classes, whose methods are
proved to compute exactly those functions.

## What is modelled

**Service runs** (`ServiceState`, `ServiceInvariants`, `ServiceTheorems`, `ServicePorts`,
`ServiceProcesses`, `ServiceLaunches`, `ServiceEffects`, `ServiceHistory`, `ServiceLog`,
`ServiceManager`). The entries of `ServiceManager`, the event channel, and
for every spawned run the four atomics `stopping`, `settled`, `exited` and `timed_out`
together with the program positions of its tasks: two log readers, the readiness
monitor, the port watcher and the exit waiter. Each atomic operation and each send is
one step, the channel is first-in first-out, calls into the manager are atomic, and any
step may come next. The port map, the set of spawned process groups and the set of
killed ones are part of the state. Whether a port is free, whether a spawn succeeds and
what a probe or a process answers is part of each step.

**Ports** (`PortTable`, `PortRanges`, `PortRules`, `PortRefs`). The allocation map, the three-pass
range resolver with its bounded scan and clamp, and the two scanners of `${svc.port}`.

**Dependency searches** (`DependencyGraph`, `CycleSearch`, `DependencyOrder`,
`DependencyGate`). Three depth-first searches over arbitrary graphs, cyclic ones
included, and the start gate.

**Orchestrator** (`OrchestrationState`, `OrchestrationInvariants`,
`OrchestrationTheorems`, `OrchestrationProgress`, `OrchestrationPlans`,
`OrchestrationCompletion`, `OrchestrationWitnesses`, `Orchestrator`). Task graphs built from
a parsed plan and driven by `StartPlan`, `TaskFinished` and `Cancel`. Random ids, the
parsed plan and the daemon's answers to task creation come with each command.

**Text, calendar, framing** (`Template`, `TemplateMeaning`, `Calendar`, `Utf8`,
`Utf8Spelling`, `Decimal`, `LspFraming`, `LspHeaders`).
Prompt templates, the civil-from-days conversion, and the byte framing of the
Language Server Protocol 3.17 (Base Protocol, Header Part), decimal digits and UTF-8
decoding (section 3 of RFC 3629) included. Calendar rules follow section 5.7 and
Appendix C of RFC 3339.

**Overlay and listings** (`YamlMerge`, `LocalOverlay`, `Backlog`, `BacklogOrder`). The merge of the local
configuration over the shared one, and the backlog's filter, order and pages.

## Where the code and its comments differ

The model follows the code.

- `window` keeps lines with `seq >= after` (src/service/mod.rs:165); the comment at
  src/service/query.rs:23 says newer ones only.
- The clamp of an exhausted range scan is meant to overlap something (src/ports/resolve.rs:125-127).
  It always does exactly for the sizes `PortRanges.ClampOverlapsIff` names; the default size is
  not one of them, and `PortRanges.ClampCanBeFree` gives an input of the resolver.
- `sorted_services` promises dependencies first, and alphabetical order on cycles
  (src/config.rs:90-91). It stops at depth 20: `DependencyOrder.DeepChainIsMisordered`
  gives the acyclic inputs that come out wrong, and `DependencyOrder.SortedServices` says
  exactly when the order is right.
- The owning task goes back to waiting when "all succeeded" (src/orchestration/mod.rs:302).
  The guard is that all are done, failed ones included: `OrchestrationProgress.WaitingMeansDone`
  and `OrchestrationProgress.WaitingDespiteFailure`. If the last nodes fail while being
  dispatched, nothing is announced at all: `OrchestrationProgress.DoneIsAnnounced`.
  `OrchestrationWitnesses.WaitsAfterFailure` and `OrchestrationWitnesses.EndsUntold` are runs to either.
- A failed node takes only its direct dependents along (src/orchestration/mod.rs:336-344);
  what depends on those stays pending for good: `OrchestrationProgress.BlockedNeverRuns`, `OrchestrationWitnesses.ChainIsStuck`.
- A spawn that fails returns early (src/service/spawn.rs:180) and leaves a held service
  without the port its entry still names, exactly when the claim had given that port up:
  `ServicePorts.FailedSpawnClaims`, `ServicePorts.StepClaims`, `ServicePorts.ReservationCanBeLost`.
- A held service has no process (src/service/deps.rs:109-171) only because callers do not hold a live
  one (src/daemon/actor/service_start.rs:87-98): `ServiceProcesses.StepAbandons`, `ServiceProcesses.HoldCanAbandon`.
- A first start whose spawn fails keeps its port, and stopping every service does not free it
  (src/service/stop.rs:130-147): `ServiceEffects.AllStopFrees`, `ServiceEffects.FailedStartLeaks`.
- Cycles are told apart by their joined names (src/bootstrap/validate.rs:202), so of two that
  spell the same one is lost: `CycleSearch.DependencyCycles` says exactly when the reports
  break every cycle, and `CycleSearch.TwinIsLost` gives a graph where they do not.
- A local mapping over a shared value of another kind is stored as it is, nulls included
  (src/config_local/merge.rs:42): `YamlMerge.Idempotent` says exactly when merging twice differs, and `YamlMerge.SecondMergeDiffers` gives an input.
- The template scanner resumes two characters behind braces that open nothing
  (src/workflow_config/template.rs:65-67) and misses the placeholder in `{{{a}}`:
  `Template.TripleBraceIsMissed`. `Template.ScanIsLeftmost` says exactly when it finds them all.

## Model

| member | source | states |
|---|---|---|
| ServiceTheorems.Confluence | src/service/ready.rs:200-239 | In every run from the start, for every interleaving: once an unstopped run's sends are applied its status is the verdict (exit if it exited, else running if a ready report won, else failed if it timed out, else starting), and a run sends at most one ready and one not-ready event |
| ServiceInvariants.SendIsReported | src/service/ready.rs:204-239 | One task step sends at most one event, and what the run has reported afterwards is what applying that event to the earlier report gives, whatever was reported before |
| ServiceTheorems.EveryRunKeeps | src/service/query.rs:57-149 | Every state reached by any interleaving of operations, task steps and event application satisfies the invariant on entries, process groups and the channel |
| ServiceTheorems.StepKeeps | src/service/spawn.rs:59-330 | Each single operation, task step or event application keeps that invariant |
| ServiceTheorems.NoResurrection | src/service/query.rs:67-147 | From a stopped or exited entry, any sequence without a new start or hold of that key leaves it neither starting nor running nor alive |
| ServiceTheorems.StoppedOrExitedStaysDown | src/service/stop.rs:74-92 | In every run of the system, after a stop, or after the exit is applied, the service stays down until the next start or hold, events in flight included |
| ServiceTheorems.OldRunsAreInert | src/service/query.rs:60-66 | Any sequence of steps and events of older runs leaves the entry of the newer run exactly as it is |
| ServiceTheorems.HeldIsNeverAlive | src/service/deps.rs:135-171 | In every reachable state an entry waiting on dependencies is not marked alive |
| ServiceProcesses.HeldHasNoProcess | src/daemon/actor/service_start.rs:87-98 | In every run in which no hold and no recorded failure meets an entry marked alive, which is what the daemon sees to, a process group that a held entry keeps is that of a run whose process has been reaped |
| ServiceProcesses.StepAbandons | src/service/deps.rs:109-171 | One operation, step or event leaves an unreaped process with an entry that is not alive if and only if it is a hold or a recorded failure that meets a live entry with such a process |
| ServiceProcesses.HoldCanAbandon | src/service/deps.rs:109-171 | A start and then a hold from the initial state leave a running process that nobody flagged or killed behind a held entry |
| ServiceTheorems.GroupsAreConserved | src/service/spawn.rs:77-90 | In every reachable state a process group was spawned exactly if it was killed or some entry holds it; never both; and never two entries |
| ServiceTheorems.StopAllKillsEverything | src/service/stop.rs:131-147 | After stopping everything the killed groups are all the groups ever spawned |
| ServiceTheorems.LaunchesArePortFree | src/service/spawn.rs:120-178 | No process of any run was launched with a closed port placeholder in its command, environment values or healthcheck URL |
| ServiceTheorems.ResolvedIsPortFree | src/service/spawn.rs:120-178 | What passes the three placeholder checks is free of port placeholders, its own `PORT` included |
| ServiceLaunches.StartHands | src/service/spawn.rs:59-330 | A start of a service that is not busy, once its port is claimed: over exactly the ports of the project's entries and its own, a new run is handed the interpolated command, every variable that is set, the interpolated healthcheck if there is one, its port in `PORT` and nothing else, behind a starting, live entry; or, if some text names a service without a port, it is refused for the first such name |
| ServiceLaunches.RefusedForFirst | src/service/spawn.rs:120-178 | A request is refused if and only if its healthcheck, command or environment as given names a service without a port, and for the first one in that order |
| ServiceLaunches.PortsOfKnows | src/service/spawn.rs:109-118 | The known ports are exactly those of the project's entries with a port, the newly claimed one before an older one of the same service |
| ServiceLaunches.StartRefused | src/service/spawn.rs:101-107 | A start whose claim is refused leaves a failed entry of a new run without a process or a port, its log ending with that refusal |
| ServiceLaunches.StartLeavesBusy | src/service/spawn.rs:76-84 | A service that is starting or running and waits for nothing is left alone |
| ServiceEffects.ClaimAnswers | src/service/deps.rs:175-209 | A conflict refuses the claim; else a held port that fits is reused untouched, no port asked for gives none, and an allocation decides over the released map |
| ServiceEffects.HoldLeaves | src/service/deps.rs:109-171 | A hold leaves one entry of a new run without a process, on the claimed port, waiting for its dependencies or failed, its older group kept, and nothing else changed |
| ServiceEffects.StopStops | src/service/stop.rs:74-92 | A stop changes one entry in status, liveness, warning, group and dependencies, tells its run, kills its group and frees exactly its ports |
| ServiceEffects.PreviousStops | src/service/stop.rs:96-105 | The same for the stop before an explicit restart |
| ServiceEffects.RemoveForgets | src/service/stop.rs:108-114 | The same, and the entry is gone |
| ServiceEffects.ProjectStops | src/service/stop.rs:116-128 | Exactly the services under the project's name are stopped, and exactly the ports of keys under it are freed |
| ServiceEffects.ProjectServicesStop | src/service/stop.rs:116-128 | So every service of the project is stopped and owns no port |
| ServiceEffects.AllStop | src/service/stop.rs:131-147 | Every service is stopped, and exactly the ports of keys under the project of some service are freed |
| ServiceEffects.AllStopFrees | src/service/stop.rs:131-147 | Stopping everything frees every port if and only if every owner is under the project of some service |
| ServiceEffects.FailedStartLeaks | src/service/spawn.rs:180 | From the initial state: a first start whose spawn fails, then a stop of everything, and its port is still owned |
| ServiceEffects.StopReadsAsStopped | src/service/spawn.rs:308-328 | In every continuation until it is started, held or refused anew, a service that was stopped before its exit was judged reads as stopped, never as failed |
| ServiceEffects.StopIsForGood | src/service/stop.rs:74-92 | A stop leaves a service so, if no failure of its run was decided or queued |
| ServiceEffects.SettledIsNotOverdue | src/service/ready.rs:229-239 | In every continuation, a run that settled before its monitor looked is never reported as not ready |
| ServiceEffects.TimedOutIsLate | src/service/ready.rs:208-224 | In every continuation, a run that timed out before a reporter of its readiness looked is reported as late, if at all |
| ServiceEffects.ExitSilences | src/service/spawn.rs:308-315 | In every continuation, once an exit is settled and nobody had won, no readiness is reported |
| ServiceEffects.ReportsSay | src/service/ready.rs:226-239 | A report carries what its task came upon: the reason, the ports that answer, the line; and an exit is judged a stop if and only if it was clean or the run was told to stop |
| ServicePorts.PortsAreExclusive | src/service/deps.rs:175-209 | Over every run without a failed spawn that gave up a held reservation, the exact exception of `StepClaims`: every live or held entry with a port owns exactly that port in the map, and no two of them share one |
| ServicePorts.StepClaims | src/service/deps.rs:175-209 | Each operation keeps the port claims if and only if it is not a failed spawn of a held service whose reservation no longer fits its claim |
| ServicePorts.StartClaims | src/service/spawn.rs:77-118 | The same for `start` alone, from any state, with any answer about free ports and spawning |
| ServicePorts.FailedSpawnClaims | src/service/spawn.rs:180 | The early return on a failed spawn breaks the claim exactly when a held port was given up before it |
| ServicePorts.ReservationCanBeLost | src/service/spawn.rs:180 | A hold and then a start that moves the claim and fails to spawn, from the initial state, after which the held entry names a port it does not own |
| ServicePorts.ClaimedKeeps | src/service/deps.rs:175-209 | A claim disturbs nobody else's port, gives the key the port it answers, and reuses a reservation without touching the map |
| ServicePorts.HeldPortIsKept | src/service/deps.rs:175-209 | A held reservation survives any sequence of actions that are not about its service, and the start of that service while the claim still accepts it |
| ServiceHistory.StepWrites | src/service/query.rs:57-149 | Whatever one action does, a service's log gets at most one line, the one that says it: the line of a log event, the marker of a changed status or an ended run, the reason of a refusal, what a held service waits for, or a restart |
| ServiceHistory.AppliedIs | src/service/query.rs:57-149 | An event of its own run logs process output as it is and any other change by its marker, sets the port warning to the ports that answer instead of the own one, and leaves the rest of the entry |
| ServiceHistory.StepContinuesLog | src/service/spawn.rs:193-202 | Across restarts, holds and refusals no line number is reused, skipped or rewritten |
| ServiceHistory.OutputIsHeard | src/service/query.rs:57-66 | Over every run of the system in which the service stays, the output its log is given is exactly, line by line and in order, that of the applied log events of the runs it stood for |
| ServiceHistory.PrintedIsSent | src/service/spawn.rs:254-306 | In every run, the log events of a run in the channel are the lines its process printed, those on standard error behind their `[err] ` mark, in order |
| ServiceHistory.ExitsAreTrue | src/service/spawn.rs:308-328 | In every run, a reported exit was reaped from that run's process with the code that is reported, and a clean one is reported as a stop |
| ServiceHistory.WatchingIsExact | src/service/query.rs:16-39 | Over every run of the whole system in which the service stays, a client that polls with the returned cursor sees each line its log was given and it had not read exactly once, in order, if and only if no poll finds more than 2000 of them |
| ServiceLog.PushKeepsContiguous | src/service/mod.rs:147-158 | Retained lines stay consecutively numbered up to the next number, at most 2000 of them |
| ServiceLog.ResumeIsIdentity | src/service/deps.rs:135-140 | A restart that resumes from the retained lines continues with exactly the same next number |
| ServiceLog.WindowIsSuffix | src/service/mod.rs:164-175 | A window is a suffix of the retained lines: those from the cursor on, its own line included, and of these the last ones if there is a limit |
| ServiceLog.PollingSeesRetained | src/service/query.rs:28-39 | From any cursor, over every sequence of arrivals, polls and restarts, the client sees the retained part of what it had not read, in order |
| ServiceLog.PollingIsExact | src/service/mod.rs:147-175 | From any cursor, a polling client sees every unread line exactly once, in order, if and only if no poll finds more than 2000 of them |
| ServiceLog.AnyCursorFollows | src/mcp/logs.rs:23 | Every cursor up to the next number, the default 0 included, is one to start polling from; what is then unread is what the log dropped and what it retains from there on |
| ServiceLog.LinesBeforeIsExact | src/mcp/logs.rs:92-95 | The count splits an unlimited window exactly at the bound: lines before it have smaller numbers, the rest do not |
| ServiceManager.ManagedService.PushLog | src/service/mod.rs:147-158 | The in-place append and drain is the ring function the log lemmas are about |
| ServiceManager.ManagedService.Apply | src/service/query.rs:67-147 | Editing an entry in place for an event of its own run gives the state function the run lemmas are about |
| ServiceManager.ManagedService.TakeDown | src/service/stop.rs:74-85 | Taking an entry down clears what a stop must clear and hands its process group to be killed |
| ServiceManager.Manager.ApplyEvent | src/service/query.rs:57-149 | Applying the next event changes the entry of the event's own run and nothing else |
| ServiceManager.Manager.Start | src/service/spawn.rs:59-330 | The whole start: refuse a busy service, kill the older process, claim, resolve, spawn or record the refusal |
| ServiceManager.Manager.ClaimPort | src/service/deps.rs:175-209 | Reuse a fitting reservation, else release and allocate, with the conflict and exhaustion errors |
| ServiceManager.Manager.Hold | src/service/deps.rs:109-171 | A process-less entry held on its dependencies, or an outright failure when no port can be claimed |
| ServiceManager.Manager.RecordStartFailure | src/service/spawn.rs:335-382 | A failed entry under a new run id, its log continued, the older group kept for the next kill, its status change sent |
| ServiceManager.Manager.ResolveRequest | src/service/spawn.rs:120-178 | Healthcheck, then command, then environment: the interpolated launch or the first unresolved reference |
| ServiceManager.Manager.StopKey | src/service/stop.rs:74-85 | Flags the run, takes the entry down and kills its group |
| ServiceManager.Manager.Stop | src/service/stop.rs:87-92 | Stops the entry and releases its ports |
| ServiceManager.Manager.StopPreviousRun | src/service/stop.rs:96-105 | The same with a restart marker in the log |
| ServiceManager.Manager.Remove | src/service/stop.rs:108-114 | Stops the entry, then forgets it and its ports |
| ServiceManager.Manager.StopProject | src/service/stop.rs:116-128 | Stops every service of the project, in any order, and releases the project's ports |
| ServiceManager.Manager.StopAll | src/service/stop.rs:131-147 | Stops every service, in any order, and releases every project's ports |
| PortTable.Table.Allocate | src/ports/mod.rs:37-78 | The map after an allocation, and the pinned, out-of-range and exhausted answers |
| PortTable.Table.Release | src/ports/mod.rs:101-104 | Exactly the key's ports leave the map |
| PortTable.Table.ReleaseProject | src/ports/mod.rs:107-113 | Exactly the ports of keys under the project leave the map |
| PortTable.LeastTakeable | src/ports/mod.rs:63-77 | The scan answers the least free and unclaimed port of the range, and nothing only if there is none |
| PortTable.ClaimAfterRelease | src/ports/mod.rs:37-78 | A claim after a release leaves the key owning exactly one port, in range, free, the pinned one if pinned, and everyone else's ports as they were |
| PortTable.AllocationRefuses | src/ports/mod.rs:37-78 | An allocation fails exactly when no port the pin allows can be taken |
| PortTable.AllocationAnswers | src/ports/mod.rs:37-78 | The pinned port, or the least one of the range that can be taken; else which of the three errors, and with which port or range |
| PortRanges.ResolutionIsTruthful | src/ports/resolve.rs:55-149 | One result per project in input order, explicit ranges as given, and each conflict reported exactly when the range overlaps one placed before it |
| PortRules.ResolutionFollowsRules | src/ports/resolve.rs:55-167 | Every result by the rules: explicit ranges as given, with the owner of the first range placed before that overlaps; a sticky range kept unless a range placed before overlaps it; everything else the least block of its width from 4000 on that is clear of all placed before, or the last ports if there is none, with the owner of the last one placed that overlaps |
| PortRanges.UnconflictedAreDisjoint | src/ports/resolve.rs:55-149 | Any two results without a conflict do not overlap |
| PortRanges.StickyIsStable | src/ports/resolve.rs:84-109 | With disjoint sticky ranges a project keeps its own if and only if it clears every explicit range |
| PortRanges.DeclaringMovesOnlyColliders | src/ports/resolve.rs:84-109 | Giving one project an explicit range moves, of those that kept theirs, exactly the ones it overlaps |
| PortRanges.FeedbackIsStable | src/ports/resolve.rs:84-149 | Feeding a conflict-free resolution back as sticky ranges reproduces every range |
| PortRanges.FreeBlockIsLeast | src/ports/resolve.rs:153-167 | The scan answers the least free block of its grid, and nothing only if no block up to the last port is free |
| PortRanges.ClampOverlapsIff | src/ports/resolve.rs:122-134 | For a size, the clamp of every exhausted scan overlaps something placed if and only if that size divides the ports from the start of the scan to the last one |
| PortRanges.ClampCanBeFree | src/ports/resolve.rs:122-134 | Two projects, one with an explicit range and one with nothing set, whose resolution ends in the clamp without a conflict |
| PortRanges.ResolveRanges | src/ports/resolve.rs:55-149 | The three loops compute exactly the resolution those lemmas, and the rules, are about |
| PortRanges.FirstFreeBlock | src/ports/resolve.rs:153-167 | The loop computes that scan, a size of zero read as one |
| PortRefs.ScannersAgree | src/ports/mod.rs:134-160 | On every string and port map, the second scanner answers the same before and after interpolation, and nothing exactly if every closed port placeholder was replaced |
| PortRefs.InterpolatedRefs | src/ports/mod.rs:134-160 | The placeholders left after interpolation are exactly the unresolvable ones, in order; none is created |
| PortRefs.InterpolationPutsIn | src/ports/mod.rs:134-160 | The text around the closed placeholders is kept, and each that names a service with a port becomes the decimal number of that port |
| PortRefs.MissingIsNamed | src/service/spawn.rs:35-53 | The check on an interpolated text finds the first service without a port that the text as given names, or that it names none |
| PortRefs.InterpolationIsIdempotent | src/ports/mod.rs:134-160 | Interpolating twice is interpolating once |
| PortRefs.NothingToReplace | src/ports/mod.rs:134-160 | A string without a resolvable placeholder is left as it is |
| PortRefs.ValuesPass | src/service/spawn.rs:35-53 | The check over several interpolated values passes exactly when each is free of port placeholders |
| PortRefs.Interpolate | src/ports/mod.rs:134-160 | The loop over the rest of the string computes that interpolation |
| PortRefs.UnresolvedPortRef | src/service/spawn.rs:35-53 | The second scanner's loop computes the first missing reference |
| CycleSearch.DependencyCycles | src/bootstrap/validate.rs:178-235 | Every reported list is a cycle, no two spell the same, and each is needed: without the closing edges of the others one is left. Of the cycles the search closes one of each text is reported, and without all their closing edges the graph is acyclic; so without those of the reported ones it is acyclic if and only if no closing edge went unreported, which names without `>` ensure. Nothing is reported if and only if the graph is acyclic |
| CycleSearch.TwinIsLost | src/bootstrap/validate.rs:202-205 | A graph with two cycles that spell the same: one is reported, and the other is left |
| CycleSearch.Search.Visit | src/bootstrap/validate.rs:179-214 | A visit ends with its node done, the stack as it was and every law of the search kept; it terminates on the count of unmarked services |
| DependencyOrder.SortedServices | src/config.rs:92-123 | Every service exactly once, cycles and deep chains included; dependencies first if and only if there is no cycle and no service was turned away unvisited at depth 20, which no path of at most 20 edges can cause |
| DependencyOrder.TopoOrder | src/orchestration/graph.rs:148-174 | Every node exactly once; dependencies first if and only if the graph is acyclic |
| DependencyOrder.OrderIsRight | src/config.rs:96-115 | The same for any cap or none, and any listing of the nodes |
| DependencyOrder.DeepChainIsMisordered | src/config.rs:103 | Every acyclic chain of 22 services, listed front first, comes out with a dependency behind its dependent |
| DependencyGate.Decide | src/service/deps.rs:40-56 | Go exactly if all are ready, wait exactly if some are pending and none unavailable, else fail on the first unavailable one |
| OrchestrationTheorems.Safety | src/orchestration/mod.rs:268-467 | In every state of every run: a running or complete node has all dependencies present and complete, nothing ready is left waiting, and no planner node is pending |
| OrchestrationTheorems.NoPlannerIsDispatched | src/orchestration/mod.rs:471-475 | No node about to be dispatched is a planner, so the unreachable arm is unreachable |
| OrchestrationTheorems.FinishedIsFinal | src/orchestration/graph.rs:115-128 | Until its graph is cancelled, a node that completed or failed keeps that status, and no node goes back to pending |
| OrchestrationTheorems.RepeatChangesNothing | src/orchestration/mod.rs:360-383 | A second report about the same daemon task, however much later in the run, changes nothing |
| OrchestrationTheorems.EffectiveReportDescends | src/orchestration/mod.rs:364-383 | Every report that matches a node lowers, in its graph only, the pair of planner unfinished and twice the pending plus the running nodes |
| OrchestrationTheorems.StepKeeps | src/orchestration/mod.rs:130-175 | Each command keeps the invariant on graphs, daemon task ids and owning tasks, and moves nodes only forward |
| OrchestrationPlans.ReportEffect | src/orchestration/mod.rs:268-358 | A success completes its node with the reported result and dispatches exactly the nodes that waited for nothing else, each running under its new daemon task or failed without one; a failure fails its node and the direct dependents with the reason; no other node changes |
| OrchestrationPlans.StartEffect | src/orchestration/mod.rs:177-266 | A started plan is one new graph with its project, goal and owning task, whose planner alone runs under its daemon task |
| OrchestrationPlans.CancelEffect | src/orchestration/mod.rs:166-168 | A cancelled graph is gone and the others stay |
| OrchestrationProgress.GoodPlansProgress | src/orchestration/mod.rs:385-467 | Once an acyclic plan with known dependencies is in place: after every command, with no failure and no cancellation, some node is running or all are complete |
| OrchestrationCompletion.PlanCompletes | src/orchestration/mod.rs:268-311 | End to end from the initial state: a plan that looks back, names known nodes and drew distinct suffixes, whose tasks are created and succeed, is all complete after exactly as many reports as it has tasks and reviews; until then some node is running, and the owning task waits exactly from then on |
| OrchestrationProgress.PlanTakesHold | src/orchestration/graph.rs:178-259 | What the planner's completion leaves behind, given distinct random suffixes: acyclic if literal dependencies look back, and no dependency missing if and only if they name known nodes |
| OrchestrationProgress.PlanIsAcyclic | src/orchestration/graph.rs:178-259 | Given distinct node ids: a plan's own order is dependencies-first if and only if no literal dependency names its own or a later node; index dependencies always look back |
| OrchestrationProgress.PlanDepsPresent | src/orchestration/graph.rs:204-216 | Given distinct node ids: every dependency of a planned graph exists if and only if literal dependencies name the planner or planned nodes |
| OrchestrationPlans.PlanIsFollowed | src/orchestration/graph.rs:178-259 | Given distinct suffixes: each planned task depends on exactly the nodes it names by id and the earlier tasks it names by number; each review on the task it names, on the first if it names none that can be read, on the planner if there is no such task; with their kinds, texts and agents |
| OrchestrationPlans.NamedComesFirst | src/orchestration/graph.rs:204-253 | Over every run until the graph is cancelled: no planned task is running or complete before what it named is complete, and no review before the task it names |
| OrchestrationWitnesses.EqualIdsWaitForThemselves | src/orchestration/graph.rs:83-97 | Two tasks whose random suffixes are equal leave one node, and it waits for itself |
| OrchestrationProgress.StuckIsBlocked | src/orchestration/graph.rs:100-139 | An acyclic graph with nothing running is done if and only if no pending node waits for a failed or missing one |
| OrchestrationProgress.BlockedNeverRuns | src/orchestration/mod.rs:336-344 | What waits for a failed or missing node never runs, in any continuation without cancellation |
| OrchestrationWitnesses.ChainIsStuck | src/orchestration/mod.rs:336-344 | A run from the initial state with a chain of three tasks that ends with nothing running and one task waiting for a failed one |
| OrchestrationProgress.IdleIsFrozen | src/orchestration/mod.rs:364-383 | A graph with nothing running never changes again |
| OrchestrationProgress.DoneIsAnnounced | src/orchestration/mod.rs:294-310 | After a report that matches a node, the owning task has been moved if and only if the graph is done and its end was not a dispatch that made no task for all that was left |
| OrchestrationWitnesses.EndsUntold | src/orchestration/mod.rs:294-310 | A run from the initial state that ends with its graph done and the owning task not moved |
| OrchestrationProgress.WaitingMeansDone | src/orchestration/mod.rs:294-310 | When the owning task is set to waiting all nodes are done, and all succeeded if and only if none had failed before |
| OrchestrationProgress.WaitingDespiteFailure | src/orchestration/mod.rs:294-310 | Wherever a node failed and the last one succeeds, the owning task is set to waiting with the failed node in its graph |
| OrchestrationWitnesses.WaitsAfterFailure | src/orchestration/mod.rs:294-310 | A run from the initial state with two independent tasks, one failed and one succeeded, that ends with the owning task set to waiting |
| Orchestrator.TaskGraph.ParsePlan | src/orchestration/graph.rs:178-259 | The loops over tasks and reviews add exactly the nodes the plan lemmas are about |
| Orchestrator.TaskGraph.ResolveDeps | src/orchestration/graph.rs:204-216 | Literal ids are kept, indices resolve to earlier tasks, the rest is dropped |
| Orchestrator.TaskGraph.Dispatch | src/orchestration/mod.rs:385-467 | Every ready node, in whatever order, is running under its new daemon task, or failed if none was made; no other node changes |
| Orchestrator.TaskGraph.ReadyNodes | src/orchestration/graph.rs:100-112 | Each ready node once, and no other |
| Orchestrator.TaskGraph.FailDependents | src/orchestration/mod.rs:333-344 | Exactly the direct dependents fail |
| Orchestrator.Orchestrator.StartPlan | src/orchestration/mod.rs:177-266 | No graph unless both daemon tasks were made; the planner then runs; the returned ids |
| Orchestrator.Orchestrator.CompleteNode | src/orchestration/mod.rs:268-311 | Complete, add the plan if it was the planner, then announce the end or dispatch what is ready |
| Orchestrator.Orchestrator.FailNode | src/orchestration/mod.rs:313-358 | Fail the node and its direct dependents, and announce the end if that is it |
| Orchestrator.Orchestrator.FinishTask | src/orchestration/mod.rs:364-383 | Finds a running node of that daemon task if there is one, in any map order, and completes or fails it |
| Orchestrator.Orchestrator.CancelPlan | src/orchestration/mod.rs:166-168 | The graph is gone, the others stay |
| Calendar.CivilIsGregorian | src/mcp/logs.rs:168-179 | Day 0 is 1970-01-01, every day number gives a valid date, and the next number its calendar successor |
| Calendar.DaysInvertCivil | src/mcp/logs.rs:168-179 | Counting the days to the computed date gives the day number back |
| Calendar.CivilInvertsDays | src/mcp/logs.rs:168-179 | Every valid date is computed from its own day number |
| Calendar.UtcFieldsAreExact | src/mcp/logs.rs:155-165 | The printed fields are in range and name exactly the second the milliseconds fall in |
| LspFraming.RoundTrip | src/daemon/lsp.rs:244-290 | Reading the frames written for any bodies delivers exactly the non-empty ones, in order, and goes on with what follows |
| LspFraming.AllIsReadBack | src/daemon/lsp.rs:244-290 | The whole list comes back if and only if no body is empty |
| LspFraming.FrameIsSpelled | src/daemon/lsp.rs:244-254 | A frame is `Content-Length: `, the decimal length, two line ends and the body |
| LspHeaders.MessageIsRead | src/daemon/lsp.rs:257-290 | Whatever header lines come before it, in whatever order, a message is as long as the last length says, and there is none without one that can be read |
| LspFraming.CutStream | src/daemon/lsp.rs:257-290 | Of a stream cut anywhere, the bodies of its whole frames are delivered and nothing else |
| LspFraming.BrokenPipeDelivers | src/daemon/lsp.rs:244-290 | The same through a pipe that breaks after any number of bytes |
| LspFraming.WriteLoop | src/daemon/lsp.rs:244-254 | The loop writes the frames in order, up to the byte at which the pipe breaks |
| LspFraming.ReadLoop | src/daemon/lsp.rs:257-290 | The nested loops deliver exactly what the framing lemmas are about, bad headers and early ends included |
| Decimal.ParsePrint | src/daemon/lsp.rs:246 | Every printed length is read back, and refused exactly if it does not fit |
| Decimal.ParseReads | src/daemon/lsp.rs:276 | What is read is a decimal spelling in range, with a plus before it or not, and nothing else |
| Utf8Spelling.DecodeIsInverse | src/daemon/lsp.rs:267 | Bytes are decoded if and only if they are the UTF-8 spelling of a text, and then to that text |
| YamlMerge.PathByPath | src/config_local/merge.rs:39-71 | At every path: what the local file does not touch is unchanged, null removes, mappings merge, other values replace; a null survives only inside a mapping stored over another kind of value |
| YamlMerge.Idempotent | src/config_local/merge.rs:39-71 | Merging the same local document again changes nothing if and only if it puts no null-holding mapping over another kind of value |
| YamlMerge.SecondMergeDiffers | src/config_local/merge.rs:42 | Over `a: 1`, merging `a: {b: null}` a second time changes the result of the first |
| YamlMerge.OverItself | src/config_local/merge.rs:52-71 | Over nothing or over itself a document loses exactly its nulls |
| YamlMerge.MergeMapping | src/config_local/merge.rs:46-50 | The loop, in any order of the local entries, computes that overlay |
| YamlMerge.MergeEntry | src/config_local/merge.rs:52-71 | One entry is merged as the path law says, the other keys are untouched |
| LocalOverlay.MergeConfig | src/config_local/merge.rs:13-37 | The top-level loop, in any order, gives the merged document and the reported overrides, or the error of a bad forward |
| LocalOverlay.ConfigPathByPath | src/config_local/merge.rs:13-81 | Port-forwards aside, the merged document is the plain overlay, over an emptied `services` if that was no mapping |
| LocalOverlay.ReportedServices | src/config_local/merge.rs:92-103 | The reported services are exactly the string-named non-null local ones, with their fields, each present in the result; the others are removed or unchanged |
| LocalOverlay.MergeServices | src/config_local/merge.rs:92-103 | The loop computes the overlay of the section and those reports |
| LocalOverlay.MergeForwards | src/config_local/merge.rs:114-158 | The loop computes the merged list and reports, or the first bad entry |
| LocalOverlay.ReportedForwards | src/config_local/merge.rs:114-158 | Over a shared list with distinct keys, the reported forwards are exactly the local ones present in the merged list, whose keys stay distinct |
| LocalOverlay.OtherForwardsStay | src/config_local/merge.rs:114-158 | Forwards the local list does not name keep their content and order |
| LocalOverlay.KeyKept | src/config_local/merge.rs:105-112 | Merging an entry over one of the same key keeps the key, however either spells it |
| LocalOverlay.ForwardsHold | src/config_local/merge.rs:114-158 | Over a shared list with distinct keys, each forward of the merged list holds what the local entries of its name, one after the other, make of the shared one |
| LocalOverlay.ForwardPathByPath | src/config_local/merge.rs:114-158 | A forward that one local entry names follows the merge law at every path, and its report lists exactly the string fields of that entry but name and remove |
| LocalOverlay.ForwardIsRemoved | src/config_local/merge.rs:136-146 | A forward whose last local entry says `remove: true` is gone and not reported |
| LocalOverlay.KeyIs | src/config_local/merge.rs:105-112 | A forward goes by its name, or by namespace and pod if it has no name that is a string |
| LocalOverlay.ConfigForwards | src/config_local/merge.rs:13-37 | The merged document holds the merged list and reports its overrides; it fails only as that list does |
| LocalOverlay.FirstBadFails | src/config_local/merge.rs:128-135 | The list fails exactly on its first entry that is no mapping or has no key |
| Backlog.PagesPartition | src/daemon/backlog.rs:248-311 | Reading pages while there is a next one yields every selected item exactly once, in strict order, and as many as the total says |
| BacklogOrder.ListingIsByColumn | src/daemon/backlog.rs:248-311 | Reading pages while there is a next one yields exactly the items the filters admit, over the items' own fields, in the order of the column, reversed on demand, and by id where that says nothing |
| BacklogOrder.OrderIsByColumn | src/daemon/backlog.rs:276-295 | Items are ordered by text, by number, by priority from unnamed and low to urgent, by status from todo to cancelled and unnamed, nobody's before somebody's |
| BacklogOrder.SelectedIsAdmitted | src/daemon/backlog.rs:248-275 | An item is admitted if the search occurs in its title or body, every given word is its own, and the assignee occurs in its own, or is it for a Smith |
| BacklogOrder.PagesAreFull | src/daemon/backlog.rs:296-310 | A page but the last has as many items as asked for, between 1 and 100 |
| Backlog.ArrivalDoesNotMatter | src/daemon/backlog.rs:276-295 | With unique ids, a page does not depend on the order in which the items arrive |
| Backlog.NextPageIsNotEmpty | src/daemon/backlog.rs:296-310 | There is a next page if and only if that page has an item |
| Backlog.OrderIsTotal | src/daemon/backlog.rs:276-295 | Any two items with different ids are ordered one way, in every column and direction |
| Backlog.OrderIsTransitive | src/daemon/backlog.rs:276-295 | The order is transitive in every column and direction |
| Backlog.SortedIsInOrder | src/daemon/backlog.rs:276-295 | Sorting puts every column in order and keeps each item as often as it came |
| Backlog.OrderIsUnique | src/daemon/backlog.rs:286-295 | With unique ids there is only one ordering of the items |
| Backlog.TakePage | src/daemon/backlog.rs:248-311 | Filtering, sorting and slicing compute the page those lemmas are about |
| Template.ScanIsLeftmost | src/workflow_config/template.rs:50-74 | The scanner finds exactly the leftmost placeholders of the reference scanner if and only if each of those has an even number of opening braces directly before it |
| Template.TripleBraceIsMissed | src/workflow_config/template.rs:65-67 | In `{{{a}}` the scanner finds nothing where there is a placeholder |
| Template.SpansAreApart | src/workflow_config/template.rs:50-74 | Placeholders found come in order and never overlap |
| Template.ScanPlaceholders | src/workflow_config/template.rs:50-74 | The loop computes that scan |
| Template.ExtractPlaceholders | src/workflow_config/template.rs:77-84 | The names found, each once, in order of first use |
| Template.ValidatePrompt | src/workflow_config/template.rs:29-46 | Accepts exactly the prompts whose names are all allowed, and else reports the first name, in order of use, that is not |
| Template.RenderTemplate | src/workflow_config/template.rs:90-102 | Each placeholder with a value is replaced by it, values are never scanned again, and everything else stays |
| Template.NothingToRender | src/workflow_config/template.rs:90-102 | A template none of whose names has a value is left as it is |
| TemplateMeaning.MadeRenders | src/workflow_config/template.rs:50-102 | A template made of texts without braces and names in braces renders to those texts with the values of the names between them, whatever braces the values hold |
| TemplateMeaning.NameIsWord | src/workflow_config/template.rs:56-58 | Between braces is a name if and only if a run of letters, digits and underscores is there, with blanks around it or not |

## Left out

- Log readers, readiness monitor, port watcher and exit waiter are steps of a transition system, not methods: their interleaving is the point. Probe loops, intervals and timeouts appear only as "the timeout may fire" and "a probe may succeed".
- Announced ports and the port watch's own decision when to report: any port event may be sent.
- Bytes of process output that are not UTF-8, which end a log reader: a printed line is a string.
- The iteration order of an environment map: the variables come as a list, in any order, and a repeated name keeps its last value.
- Timestamps of log lines, and wall-clock time in general; the rendering of selected log lines in src/mcp/logs.rs beyond its cursor count and its dates.
- Saturation of run ids and log numbers: both are unbounded naturals.
- Process spawning, signals, sockets, `lsof` and other platforms' process groups: answers of the environment, given with each step.
- `waiting_in_project` and the other queries that only list entries.
- The daemon that re-checks held services and drives the workflow: not part of this model.
- Port-forwards of src/portforward: their events carry no run id, so none of the service guarantees hold there.
- The `NodeComplete` and `NodeFailed` commands sent directly: the handlers are modelled, the properties over runs are about `StartPlan`, `TaskFinished` and `Cancel`.
- Orchestrator event broadcasts and prompt texts; `List`, which only reads.
- JSON and YAML parsing: parsed values come in. YAML tags and the order of mapping entries are not modelled; reported field names are sets.
- Whether an LSP payload parses as JSON: bodies are opaque bytes. Which server binary is started for a language, and the reference counts of shared servers.
- Alphabetical sorting of service names before `sorted_services`: any listing of the names is allowed.
- Unicode lower-casing in backlog filters and order: any function from strings to strings.
- The joining of allowed names into error texts.
- Backlog.SortItems: the library's stable sort is modelled as an insertion sort.
