# Cyboflow main process: verified models

Cyboflow is an Electron application that runs coding agents in git worktrees. Its main process holds several
small algorithms and state machines whose correctness depends on ordering: handlers that suspend between reading
and writing, lanes that share one worktree, services that start and stop by configuration, a quit that must happen
exactly once. This project models those pieces in Dafny, branch by branch, and proves what each promises over every
input, every run or every interleaving. `dafny verify dfyconfig.toml` checks all of it.

| file | what it models |
|---|---|
| `CandidateStrings.dfy` | the explicit-stack walk over an arbitrary payload graph (`main/src/events.ts`) |
| `Panels.dfy`, `PanelUpdates.dfy` | the two read-modify-write updaters of panel state, split at their awaits under the per-panel lock |
| `PanelHistory.dfy` | what stored panel state derives from when edits bypass that lock (`main/src/ipc/panels.ts`) |
| `PanelOutcomes.dfy` | what one updater or edit stores, field by field; that no lock stays taken |
| `SessionStatus.dfy` | the spawn, prompt, exit and error handlers that keep a session's status in step with its panels, and the two writers that do not |
| `CommitProbe.dfy` | the commit-integrity probe over one worktree shared by lanes and bootstraps, and what the controller makes of it |
| `FanOutLanes.dfy` | which lanes a fan-out dispatches, the reset before a rewind, the row groupings |
| `AgentsLifecycle.dfy` | start, stop and configuration events of the persistent-agents feature |
| `LiveSteering.dfy` | target selection and the store-or-deliver decision of `steer_step` |
| `StableSorting.dfy`, `SchemaParity.dfy` | canonical table signatures, their diff, the parity script's verdict |
| `QuitProtocol.dfy` | the two-pass quit, its deadline and watchdog, graceful restarts |
| `TrustResolver.dfy` | which project a directory belongs to; path containment |
| `ForkCap.dfy` | the process-table scan, the reaper, the fork cap |
| `ConsoleForwarding.dfy` | the re-entrant `console.error` |
| `Options.dfy`, `Sequences.dfy` | the option type; distinctness |

State that the source updates in place is held by classes (`SessionStatus.Board`, `FanOutLanes.LaneStore`,
`AgentsLifecycle.Composition`, `LiveSteering.Steering`, `QuitProtocol.Application`, `ConsoleForwarding.Console`). Their
methods are proved equal to step functions, and the theorems are about all runs of those functions.

## What the code does not promise

Several expected properties fail for some inputs. In each case the model keeps the code, a lemma names the failing
input, and another states exactly when the property holds.

- The outbox worker is constructed open, so before the first boot or stop it is open although the feature is not
  running (`OutboxFollowsLifecycleIff`). Pump and wiring follow the lifecycle always.
- `panelManager.setActivePanel` writes panel state without the panel's lock. An updater that had already computed its
  state writes the old activation back (`ActivationCanBeLost`); `ActivationLostIffStaleWriter` says exactly when.
- `panels:clearUnviewedContent` and `panels:update` also bypass that lock, and a clearing and an updater can lose each other
  (`ClearAndUpdateLoseEachOther`). In every run the stored state is what the stores on its chain give (`PanelDerives`),
  and that is all stores if and only if no writer stored over a store it had not read (`NothingLostIffFresh`).
- A `spawned`, `prompt` or fleet spawn handler waits between its panel write and its session write. What ends the panel in
  that pause is then overwritten by a running session without a live panel (`SpawnCanOutliveItsPanel`);
  `SpawnOutlivesPanelIff` says exactly when, for every run.
- The fleet's exit handler and a panel-less result output look at no panel and can settle a session over a live one
  (`FleetExitSettlesOverLivePanel`). That no settled session has a live panel survives a step exactly if it is no such
  write (`SurvivesIffUndisturbed`), and so for whole runs (`EveryRunKeepsInvariantIff`).
- A bootstrap commit that is not yet stamped when the probe ends counts as the lane's work (`LateStampCountsAsWork`), and an
  abbreviated stamp can hide a lane's commit (`AbbreviatedStampHidesWork`). `ProbeReportsWork` says exactly what is
  reported, and `CommittedLaneIntegratesIff` exactly when a lane that committed is held up.
- The comment at `main/src/monitorActionsComposition.ts:436-439` says the driver filters integrated and failed lanes; the
  code also filters blocked ones, and the reset re-queues both. The reset is fail-soft and may stop half way: the count
  then agrees with the dispatched items exactly if nothing stuck remains (`CountAgreesIffNothingStuckRemains`).
- A push that throws after another was accepted makes `deliverLiveGuidance` return 0, and `steerStep` then reports that
  nobody was reached (`DishonestWhenPushThrows`, `SteerIsHonestIff`).
- Foreign keys that start at the same column keep their listing order, so equal key sets can read as drift
  (`SharedFromReadsAsDrift`, `ForeignKeySignatureInGeneral`).
- A restart requested after the drained quit was re-issued is not armed when that quit goes through
  (`RestartCanBeForgotten`, `RestartForgottenIffLate`).
- `shared/types/testConcurrency.ts:116-119` says the managed cap stays within the cores less one. The floor of two comes
  last in the code, so the cap fits exactly when two forks per gate fit (`ManagedCapIsLargestFit`).
- A project does not contain its own sub-directory when that begins with two dots, such as `..cache`
  (`ContainsIffComponentPrefix`).

## Model

| member | source | states |
|---|---|---|
| CandidateStrings.ExtractCandidateStrings | main/src/events.ts:80-121 | on every finite payload graph whose cycles each pass through an object, the result holds exactly the printed primitives reachable from the payload, in the order of the recursive right-to-left flatten, and the loop ends |
| CandidateStrings.HaltsIffEveryCycleHasObject | main/src/events.ts:80-121 | the loop ends if and only if every cycle of the graph has an object on it; arrays are not in the visited set |
| CandidateStrings.StepDecreases | main/src/events.ts:85-118 | each turn either visits a new object or keeps the visited set and lowers the stack's array-expansion weight |
| CandidateStrings.RunsDry | main/src/events.ts:85-118 | hence from every valid state the stack runs empty |
| CandidateStrings.DoomedForever | main/src/events.ts:101-106 | once an array on an all-array cycle is reachable from the stack without an unvisited object in between, it stays so after any number of turns |
| CandidateStrings.TreeGivesReversedLeaves | main/src/events.ts:80-121 | on tree-shaped payloads the result is the left-to-right leaf list reversed, with all multiplicities; null and undefined give nothing |
| PanelUpdates.EveryRunKeepsInvariant | main/src/events.ts:260-354 | after every interleaving of acquire, time-out, compute, write, failure and release steps with activations, deletions and edits of other panels: one holder per panel lock, the holder's computed state is based on the stored one, and the panel holds the serial result so far |
| PanelUpdates.Linearizable | main/src/events.ts:260-354 | in every run in which no edit bypassing the lock is written to the panel: whenever its lock is free its custom state equals its updates applied one at a time in lock-acquisition order, without those whose write failed |
| PanelUpdates.NoUpdateLost | main/src/events.ts:275-345 | in every such run each field ends with the write of the last updater in lock order that wrote it: status writes keep the context meter, meter writes keep status and viewed flag, other fields are untouched |
| PanelUpdates.ActivationLostIffStaleWriter | main/src/services/panelManager.ts:211-244 | until the next activation, deletion or written edit, an activation change survives if and only if no updater that computed from the other activation writes afterwards |
| PanelUpdates.ActivationCanBeLost | main/src/events.ts:323-340 | a concrete schedule in which a status write undoes an activation |
| PanelHistory.PanelDerives | main/src/ipc/panels.ts:246-273 | in every run, unlocked edits included, a panel's custom state (and its active flag) is what the stores on its chain give one at a time, where each store continues the chain of the state its writer had read |
| PanelHistory.NothingLostIffFresh | main/src/ipc/panels.ts:154-273 | the chain holds every store, in order, if and only if no writer stored over a store made since its own read |
| PanelHistory.LockKeepsFresh | main/src/events.ts:266-301 | while no edit bypasses the lock, every store of the custom state is fresh, so none is lost |
| PanelHistory.ClearAndUpdateLoseEachOther | main/src/ipc/panels.ts:248-273 | an updater and a clearing that have both read: whichever writes first is dropped from the chain |
| PanelOutcomes.UpdaterStores | main/src/events.ts:260-354 | after any run, an uninterrupted updater: a status write gives a Claude panel the status, the time and the flag if given, keeps everything else and leaves other panels alone; a mutator gets a context meter that is at least null; the lock is free again |
| PanelOutcomes.EditStores | main/src/ipc/panels.ts:246-273 | after any run, an uninterrupted edit: clearing takes the flag off a Claude panel and turns only "completed, unviewed" into "stopped"; a replacement stores exactly what it was given |
| PanelOutcomes.ActivationStores | main/src/services/panelManager.ts:217-235 | after any run, activation sets the one flag and deletion removes the one panel |
| PanelOutcomes.FailuresStoreNothing | main/src/events.ts:285-285 | a wait that times out ends the task, a failing write only its turn; neither stores anything |
| PanelOutcomes.DeletedStaysDeleted | main/src/services/panelManager.ts:181-186 | a deleted panel is not brought back by any snapshot still to be written |
| PanelOutcomes.LockCanBeReleased | main/src/utils/mutex.ts:57-70 | from every reachable state a lock's holder alone can give it back in at most three steps |
| SessionStatus.SurvivesIffUndisturbed | main/src/events.ts:829-847 | with handlers interleaved between their two writes: that a settled session with a live panel is always owed a session write survives a step if and only if the step is no fleet exit or panel-less result settling a running session over a live panel with no write owed |
| SessionStatus.EveryRunKeepsInvariantIff | main/src/services/sessionManager.ts:503-521 | it holds all along a run if and only if no step of the run is such a write |
| SessionStatus.SettledSessionHasNoLivePanel | main/src/events.ts:671-725 | in every run without such a write, a completed or stopped session to which no handler owes a write has no running or waiting panel |
| SessionStatus.ExitInAnyRun | main/src/events.ts:671-725 | in every interleaved run, the session write of an exit leaves the session running iff it has a live panel, and settled otherwise |
| SessionStatus.ArrivalIsJudged | main/src/events.ts:373-390 | in every run an event is taken up exactly when it names an existing session and, if any, an existing panel of that session, the fleet's unchecked; an exit remembers whether its panel was active |
| SessionStatus.HandlerStores | main/src/events.ts:603-774 | in every run, what a handler's two writes store: running for a spawn, waiting for a prompt, error for an error, completed-unviewed for a clean exit of an inactive panel, else stopped; then the session's status for each event; nothing else changes |
| SessionStatus.ResultStores | main/src/services/sessionManager.ts:503-521 | in every run a panel-less result completes a running session and touches nothing else |
| SessionStatus.SpawnOutlivesPanelIff | main/src/events.ts:603-641 | in every run, the session write of a spawn or prompt, at any distance after its panel write, leaves the session running; without a live panel if and only if no other panel of it is live and its own was removed or last written by an exit or error |
| SessionStatus.SpawnCanOutliveItsPanel | main/src/events.ts:627-641 | a concrete run in which the delayed spawn write leaves a session running without a live panel |
| SessionStatus.FleetExitSettlesOverLivePanel | main/src/events.ts:829-847 | a fleet exit leaves a settled session with a live panel exactly when another panel of the session was live |
| SessionStatus.Board.UpdateAIPanelStatus | main/src/events.ts:306-354 | gives exactly the one panel, if it exists and is a Claude panel, the status, the time and the flag if given; no session |
| SessionStatus.Board.OnSpawned | main/src/events.ts:627-641 | run atomically: an accepted spawn stores a running panel and a running session, a rejected one nothing |
| SessionStatus.Board.OnPrompt | main/src/events.ts:603-611 | the same for a prompt: a waiting panel and a running session |
| SessionStatus.Board.OnError | main/src/events.ts:764-774 | the same for an error: both failed |
| SessionStatus.Board.OnExit | main/src/events.ts:671-725 | the same for an exit: panel completed-unviewed or stopped; the session running iff a Claude panel of it runs or waits, else completed or stopped by exit code and former status |
| SessionStatus.Board.OnFleetExit | main/src/events.ts:829-847 | the same for a fleet exit, which checks nothing, looks at no other panel, and settles only a running session |
| CommitProbe.EndProbe | main/src/programmaticRunnerComposition.ts:552-598 | the reading: advanced iff HEAD moved and, when there are stamps and a rev-list, some sha of it neither begins with a stamp nor is the beginning of one; the dirty paths, those not dirty at the start, absent when the start read failed, and the build-slot answer |
| CommitProbe.WithoutMeans | main/src/programmaticRunnerComposition.ts:593-595 | the new dirty paths are the dirty paths not dirty at the start, each as often as listed |
| CommitProbe.WithoutKeepsOrder | main/src/programmaticRunnerComposition.ts:593-595 | and in the order listed |
| CommitProbe.RevListFindsLanded | main/src/programmaticRunnerComposition.ts:571-576 | on an append-only history with distinct shas the rev-list of two heads is exactly what landed between them, newest first |
| CommitProbe.ProbeReportsWork | main/src/programmaticRunnerComposition.ts:542-588 | in every interleaving of commits, stamps of any length, probe begins and ends: the probe reports an advance iff some commit of its window has no stamp as a prefix, and with a failing rev-list iff any commit landed |
| CommitProbe.ProbeIsExact | main/src/programmaticRunnerComposition.ts:542-588 | with complete stamps, none of them abbreviating another commit of the window, the probe reports an advance exactly when a commit that is not a bootstrap's landed there |
| CommitProbe.FullStampsAreUnambiguous | main/src/programmaticRunnerComposition.ts:577-583 | in every run stamps recorded in full abbreviate no other commit |
| CommitProbe.CommittedLaneIntegratesIff | main/src/orchestrator/programmatic/workflowController.ts:2275-2337 | in every interleaving, a lane that committed in its window is integrated whatever the monitor would say if and only if its build slots are clean, unless the rev-list answered, every commit of the window has a stamp as a prefix, and it left new dirt |
| CommitProbe.CommittedLaneIntegrates | main/src/orchestrator/programmatic/workflowController.ts:2289-2293 | with full or unambiguous stamps, a lane that committed is integrated whatever the monitor would say if and only if its build slots are clean, whether or not the rev-list works |
| CommitProbe.BootstrapDoesNotCoverDirt | main/src/orchestrator/programmatic/workflowController.ts:2289-2337 | a lane in whose window only stamped bootstrap commits landed and that left new dirt is integrated if and only if its build slots are clean and the monitor accepts it, or was not consulted and the worktree was shared |
| CommitProbe.LaneEndIsExact | main/src/orchestrator/programmatic/workflowController.ts:2208-2337 | for every probe result, verdict and worktree: integrated without a question unless build output may be committed or dirt is or may be new with nothing committed; then re-driven iff rescued, parked iff systemic, failed in exactly the cases that accept or an unattributable worktree does not cover |
| CommitProbe.CommittedLaneEnds | main/src/orchestrator/programmatic/workflowController.ts:2275-2293 | in every interleaving with full stamps, how a lane that committed ends, by its build slots and the verdict |
| CommitProbe.LateStampCountsAsWork | main/src/programmaticRunnerComposition.ts:567-583 | without its stamp a bootstrap commit reads as work |
| CommitProbe.AbbreviatedStampHidesWork | main/src/programmaticRunnerComposition.ts:577-583 | for all shas with a common prefix: a run in which a stamp abbreviated to it hides a lane's commit from the probe |
| FanOutLanes.LaneStore.ResetFailedLanes | main/src/orchestrator/sprintLaneStore.ts:1499-1538 | every failed and blocked lane, and no other, becomes queued without a step, and they are counted; a failing update leaves those before it re-queued and returns 0; a batch without a run is untouched |
| FanOutLanes.ResolveItemsIsExact | main/src/programmaticRunnerComposition.ts:457-474 | an item is returned iff it is the task of a queued or running lane; over anything but tasks none is |
| FanOutLanes.ResolveItemsKeepsOrder | main/src/programmaticRunnerComposition.ts:457-474 | two returned items come from lanes in the same order |
| FanOutLanes.ResetThenResolve | main/src/monitorActionsComposition.ts:450-454 | after a complete reset the driver returns all lanes that are not integrated, in lane order, as many as counted before |
| FanOutLanes.RequeueIsExact | main/src/orchestrator/sprintLaneStore.ts:1520-1524 | re-queuing the stuck tasks, or the first of them, touches only failed and blocked lanes and makes them queued without a step |
| FanOutLanes.CountAgreesIffNothingStuckRemains | main/src/monitorActionsComposition.ts:436-454 | after re-queuing any part of the stuck lanes the count agrees with the returned items iff that part is all of them |
| FanOutLanes.Dependencies | main/src/programmaticRunnerComposition.ts:479-497 | each task maps to its own blocking prerequisites in row order, the keys are exactly the batch tasks with such rows, and the list lengths sum to the row count |
| FanOutLanes.ExpectedFiles | main/src/programmaticRunnerComposition.ts:500-515 | the same for the file rows |
| FanOutLanes.GroupByTask | main/src/programmaticRunnerComposition.ts:480-496 | the loop shared by both: the map groups the selected rows and has no other keys |
| FanOutLanes.GroupingRefinesRows | main/src/programmaticRunnerComposition.ts:479-515 | a grouping of the selected rows refines the table as the two rows above say |
| AgentsLifecycle.EveryRunKeepsInvariant | main/src/persistentAgentsComposition.ts:170-272 | the joint invariant of services, timers, listeners, pump epochs and log after every event sequence |
| AgentsLifecycle.ServicesFollowLifecycle | main/src/persistentAgentsComposition.ts:216-270 | after every run pump and wiring are active exactly when booted and not paused; while started this equals the last sampled running(); while not started nothing is active and no listener is attached |
| AgentsLifecycle.OutboxFollowsLifecycleIff | main/src/services/persistentAgents/outbox.ts:63-99 | the outbox is open exactly when booted and not paused, if and only if the feature was booted or stopped before |
| AgentsLifecycle.BootIsFirstAndOnce | main/src/persistentAgentsComposition.ts:193-214 | the in-flight requeue happens at most once, and requeue and snapshot come before every start of pump, outbox or wiring |
| AgentsLifecycle.RetentionLivesUntilStop | main/src/persistentAgentsComposition.ts:210-213 | the retention interval lives exactly from boot to the first stop after it, the first sweep is pending until it fires, and both are armed at most once |
| AgentsLifecycle.NoRetentionAfterStop | main/src/persistentAgentsComposition.ts:255-271 | after a stop no later event sequence, restarts included, brings a retention timer back |
| AgentsLifecycle.PumpHasOneInterval | main/src/services/persistentAgents/inboundPump.ts:127-160 | whatever the order of starts, stops and delayed arm callbacks, at most one pump interval is live, only while started and recovered, and exactly one once no callback waits |
| AgentsLifecycle.RunningPumpGetsItsInterval | main/src/services/persistentAgents/inboundPump.ts:134-145 | from every reachable state a running pump gets its one interval once recovery settles and the waiting callbacks run |
| AgentsLifecycle.LifecycleByEvents | main/src/persistentAgentsComposition.ts:193-272 | the whole feature read off the events: pump and wiring run exactly while it is started and the latest answer was yes, timers from the first yes to the next stop, every answer announced once, every stop disposing once |
| AgentsLifecycle.ServicesAreAsTold | main/src/persistentAgentsComposition.ts:207-261 | in every run pump, outbox and wiring are as the last start or stop call left them |
| AgentsLifecycle.Composition.Boot | main/src/persistentAgentsComposition.ts:193-214 | the whole new state of a boot |
| AgentsLifecycle.Composition.PauseAll | main/src/persistentAgentsComposition.ts:216-222 | the whole new state of a pause; nothing when not booted or already paused |
| AgentsLifecycle.Composition.ResumeAll | main/src/persistentAgentsComposition.ts:224-230 | the whole new state of a resume; nothing when not booted or not paused |
| AgentsLifecycle.Composition.OnConfig | main/src/persistentAgentsComposition.ts:232-240 | the whole new state after a configuration event |
| AgentsLifecycle.Composition.Start | main/src/persistentAgentsComposition.ts:245-254 | the whole new state after start; nothing when already started |
| AgentsLifecycle.Composition.Stop | main/src/persistentAgentsComposition.ts:255-271 | the whole new state after stop |
| LiveSteering.TargetsAreExact | main/src/monitorActionsComposition.ts:384-413 | a spawn key is a target iff it is the run agent on the steered step without a task reference, or a running lane of the run's batch on that step (any step when broadcasting) that the reference resolves to |
| LiveSteering.TargetsAreDistinct | main/src/monitorActionsComposition.ts:384-413 | no target twice; with a task reference at most one target and never the run agent |
| LiveSteering.ResolutionIsExact | main/src/monitorActionsComposition.ts:402-405 | a reference resolves to the first task with that id, or with that display ref in the run's project |
| LiveSteering.ValidationIsExact | main/src/monitorActionsComposition.ts:312-335 | every answer of the validation over the rows; valid iff the run is programmatic and its workflow has a step with that id or with that inner step |
| LiveSteering.OuterFanOutIsExact | main/src/monitorActionsComposition.ts:342-348 | an outer fan-out step is a step of the workflow with that id that fans out |
| LiveSteering.DeliveryIsExact | main/src/monitorActionsComposition.ts:365-430 | pushes go only to live targets, to each at most once; when nothing throws all of them are pushed to and the result is the number of live targets that accept |
| LiveSteering.SteerIsHonestIff | main/src/monitorActionsComposition.ts:505-559 | for every definition and state, ok equals "stored or accepted by at least one agent", except exactly for a broadcast without task reference in which a running agent accepts and a later one's push throws |
| LiveSteering.CountIsLostIff | main/src/monitorActionsComposition.ts:415-429 | the returned count is zero although an agent accepted exactly when, among the live targets in order, one accepts before any throws and a later one throws |
| LiveSteering.RefusalLeavesNothing | main/src/monitorActionsComposition.ts:505-559 | if no push throws, a refusal stores nothing and every push made was refused |
| LiveSteering.SteerAnswerIsExact | main/src/monitorActionsComposition.ts:505-559 | while nothing throws, which answer is given and with which number: by validation, by whether the step fans out, by the task reference, by how many live targets accept |
| LiveSteering.DishonestWhenPushThrows | main/src/monitorActionsComposition.ts:415-429 | two running lanes, the first accepting and the second throwing: reported as nobody reached |
| LiveSteering.Steering.DeliverLiveGuidance | main/src/monitorActionsComposition.ts:365-430 | the pushes made, in order, with the guidance, and the count returned |
| LiveSteering.Steering.PushAll | main/src/monitorActionsComposition.ts:415-421 | the loop pushes to the live targets up to and including the first that throws |
| LiveSteering.Steering.SteerStep | main/src/monitorActionsComposition.ts:505-559 | the pushes, the answer, and that guidance is stored only for validated steps that are no outer fan-out step and carry no task reference |
| StableSorting.SortEqualIffClassesEqual | scripts/verify-schema-parity.js:79-87 | two lists sort to the same list iff every class of elements the order cannot tell apart comes in the same order in both |
| StableSorting.SortEqualIffSameElements | scripts/verify-schema-parity.js:79-87 | if the order tells all elements apart, two lists sort to the same list iff they have the same elements |
| SchemaParity.SchemaSignature | scripts/verify-schema-parity.js:69-90 | one entry per table that is not SQLite's own, holding all of its columns sorted by name and all of its keys sorted by the column they start at |
| SchemaParity.ColumnSignatureIsCanonical | scripts/verify-schema-parity.js:80-86 | tables with uniquely named columns have equal column signatures iff their rows hold the same columns, every field of them |
| SchemaParity.ForeignKeySignatureIsCanonical | scripts/verify-schema-parity.js:87-87 | the same for keys that start at distinct columns |
| SchemaParity.ForeignKeySignatureInGeneral | scripts/verify-schema-parity.js:87-87 | for all keys: equal iff keys that start at the same column come in the same order |
| SchemaParity.SharedFromReadsAsDrift | scripts/verify-schema-parity.js:87-87 | two keys on one column listed in the other order differ although the key sets agree |
| SchemaParity.DiffSignatures | scripts/verify-schema-parity.js:155-174 | reports exactly the drifts that exist, in table order, a table's columns before its keys |
| SchemaParity.CheckParity | scripts/verify-schema-parity.js:176-206 | for distinct names and key columns: exit code 0 iff every path-2 table that is not SQLite's own is in path 1 with the same columns and keys, row for row; in general iff with an equal signature; the only-in-path-1 entry is unreachable |
| SchemaParity.ParityMeansSubset | scripts/verify-schema-parity.js:183-191 | for tables with distinct names and distinct key columns, equal signatures of all path-2 tables mean the subset relation on the rows |
| QuitProtocol.EveryRunKeepsInvariant | main/src/index.ts:3495-3587 | after every sequence of requests, answers, drain ends, deadlines, watchdogs and restarts: state, race, watchdog, restart flag and what was seen so far agree |
| QuitProtocol.DrainAndFinishOnce | main/src/services/quitDrain.ts:96-151 | the teardown starts at most once and re-issues the quit at most once, though drain and deadline may both end |
| QuitProtocol.PassesOnlyAfterDrain | main/src/index.ts:3500-3509 | every quit let through comes after a started teardown and the re-issued quit |
| QuitProtocol.NothingRepeatsAfterDrain | main/src/index.ts:3506-3509 | after the teardown has started no request flushes, disposes, asks or drains again |
| QuitProtocol.ExitIsEarned | main/src/index.ts:3552-3585 | the process is ended by force only after a re-issued quit, or undrained by the user's Quit Anyway |
| QuitProtocol.QuitIsInevitable | main/src/services/quitDrain.ts:96-151 | whatever happened before, Wait answers included, a request without archive tasks followed at any distance by the deadline lets a quit through, and the watchdog then ends the process |
| QuitProtocol.ArmingAnswersRequest | main/src/utils/relaunchIntent.ts:8-23 | each armed relaunch answers a request of its own that no Wait has dropped and no other arming has used |
| QuitProtocol.RequestedRestartIsArmed | main/src/index.ts:3557-3582 | in every run, a restart requested before the quit is re-issued or the process ended, and dropped by no Wait in between, has been armed in between |
| QuitProtocol.OnlyWaitDropsRestart | main/src/index.ts:3559-3562 | a requested restart is dropped only right after the answer Wait |
| QuitProtocol.EveryRunIsItsTranscript | main/src/index.ts:3495-3587 | everything visible in a run follows from what was visible before: one fixed answer to each request, drain end, deadline and watchdog by the log alone |
| QuitProtocol.RestartForgottenIffLate | main/src/utils/relaunchIntent.ts:18-23 | once a quit was let through, a restart is still unarmed iff the process has not been ended by force and the restart was asked for after the quit was re-issued |
| QuitProtocol.RestartCanBeForgotten | main/src/ipc/app.ts:61-66 | the concrete run: quit, drain, restart asked, quit let through without arming |
| QuitProtocol.Application.OnBeforeQuit | main/src/index.ts:3497-3571 | the whole new state of the listener; the quit is held unless drained |
| QuitProtocol.Application.Finish | main/src/index.ts:3573-3577 | the whole new state of finish and the quit it re-issues |
| QuitProtocol.Application.ForceExit | main/src/index.ts:3581-3584 | the whole new state of the watchdog |
| QuitProtocol.Application.OnDrainSettled | main/src/services/quitDrain.ts:122-145 | the teardown's end finishes unless the deadline already has |
| QuitProtocol.Application.OnDeadline | main/src/services/quitDrain.ts:115-145 | the deadline finishes a race still open |
| TrustResolver.ContainsIffComponentPrefix | main/src/index.ts:1480-1483 | a project contains a directory iff its resolved path is a component-wise prefix and the first further component does not begin with two dots |
| TrustResolver.PrefixOnStrings | main/src/index.ts:1476-1483 | on normalized paths the component-wise prefix is: equal, or continued by a slash |
| TrustResolver.SiblingNeverMatches | main/src/index.ts:1478-1479 | a sibling whose name continues the project's name never matches, at any depth, although the strings are prefixes |
| TrustResolver.ResolveInvertsRender | main/src/index.ts:1481-1481 | resolving a rendered path gives back its components |
| TrustResolver.ResolveReadsDots | main/src/index.ts:1481-1481 | a trailing slash and a dot change nothing, two dots drop the last component and stay at the root |
| TrustResolver.ResolveIsFromCwd | main/src/index.ts:1481-1481 | a relative path is read from the working directory |
| TrustResolver.OneRowDecides | main/src/index.ts:1464-1484 | exactly one row decides: the session's project, else the first exact match, else the first containing project, else none; the answer is that row's trust |
| ForkCap.ScanVitestProcesses | vitestForkCap.ts:67-89 | gates and orphan pids are those of the lines that parse; a failing listing gives one gate and no orphan |
| ForkCap.CutIsTheSplit | vitestForkCap.ts:76-77 | a line splits in at most one way, and the scan finds it |
| ForkCap.RowsOfPrinted | vitestForkCap.ts:73-80 | reading a printed table with any spacing and any unparseable lines in between gives back its processes |
| ForkCap.ScanInvertsPrinting | vitestForkCap.ts:67-89 | so the scan of a printed table gives the roots, at least one, and exactly the orphans in order |
| ForkCap.EveryOrphanHasItsRow | shared/types/testConcurrency.ts:105-107 | a pid is reported iff it is above 1 and a row gives it with a worker title and parent 1 |
| ForkCap.TitlesMean | shared/types/testConcurrency.ts:73-84 | the titles vitest gives read as root and worker, and no worker reads as a root |
| ForkCap.WorkerTitleIsExact | shared/types/testConcurrency.ts:73-84 | a title is a worker's iff, trimmed, it is the worker text with at least one digit, and a root's iff it is the root text |
| ForkCap.SpacesAreExact | vitestForkCap.ts:74-80 | the characters that count as white space and as line terminators |
| ForkCap.ReapOrphans | vitestForkCap.ts:103-118 | each pid is tried once, in order, despite throws; the result is the number accepted |
| ForkCap.ForkPoolOptions | vitestForkCap.ts:146-177 | kills exactly the orphans found when reaping is asked for, or managed and not refused, and none otherwise; survivors plus accepted kills are the orphans found; the cap is the explicit positive whole number, else the managed share when managed, else none |
| ForkCap.ManagedCapIsLargestFit | shared/types/testConcurrency.ts:128-138 | the managed cap is at least two; nothing larger fits beside the orphans with all gates' shares and a core left, and the cap itself fits exactly when two forks per gate do |
| ConsoleForwarding.OutermostCall | main/src/mainConsoleForwarding.ts:83-128 | for every behaviour of formatter, logger, debug log, renderer and original console: the call ends with the flag down; the message goes to logger, debug log and renderer in this order, each at most once, to all that apply unless something threw or there is no logger, when the original console gets it; calls made meanwhile go straight to the original console; an exception escapes only if that threw on this message last |
| ConsoleForwarding.CalmCallGoesThrough | main/src/mainConsoleForwarding.ts:94-121 | with a logger and collaborators that let no exception out, the message reaches every target that applies and the original console is not used for it |
| ConsoleForwarding.EverySession | main/src/mainConsoleForwarding.ts:83-128 | over any number of outermost calls: the flag is down after each, no target is entered more often than there are calls, every message arrives |
| ConsoleForwarding.PlayOnlyNests | main/src/mainConsoleForwarding.ts:85-87 | while a call is handled, every further call goes to the original console at once and is forwarded nowhere |
| ConsoleForwarding.Console.Error | main/src/mainConsoleForwarding.ts:83-128 | the override, terminating by the flag, equals the specification |

## Left out

- Electron windows, menus, dialogs, preload bridges, IPC and tRPC wiring, React components: user interface and plumbing.
- git, SQLite, `ps`, timers, sockets and SDK queries: only their results or the order of their callbacks appear, as inputs and events.
- Bodies behind the modelled ones (controller walk, lane updates, run recovery, rewind, retry and cancel handlers): their results are inputs.
- `formatTokenCount` and the context-usage extractors of `main/src/events.ts`: short arithmetic and regular expressions on one value.
- The two migration replay loops of `scripts/verify-schema-parity.js`: what SQL scripts do to a database is not modelled; `SchemaParity` starts from the two databases.
- SchemaParity.CheckParity: table names that are properties of `Object.prototype` (`a[t]` and `t in sig2` see inherited properties) are not modelled.
- SchemaParity.SchemaSignature: `localeCompare` is any total preorder and JSON text is taken to be equal exactly for equal values.
- PanelUpdates.Linearizable: creating a panel, or one of the same name after a deletion, during a run is not an event of the model; runs with edits that bypass the lock are covered by `PanelHistory`.
- PanelHistory.PanelDerives: unlocked writers other than the clearing (`panels:update`, `main/src/ipc/panels.ts:193-216`, `main/src/services/sessionManager.ts:790-802`) are replacements by whatever state they write, and the panel cache and its database row are one.
- SessionStatus.SettledSessionHasNoLivePanel: archiving or deleting a session, the unlocked panel edits, and status writes of managers outside `main/src/events.ts` are not events of the model.
- SessionStatus.Board.OnExit: the exit code column, prompt timings and renderer messages of the handler are not modelled.
- CommitProbe.EndProbe: reads that throw outside the two caught places abort the probe (the controller then integrates, `ProbeThrew`); how git decides the build-slot answer is an input.
- CommitProbe.ProbeIsExact: the history is append-only; a rebase or reset of the shared worktree inside a window is not modelled.
- AgentsLifecycle.ServicesFollowLifecycle: a service whose `start` or `stop` throws inside boot, pause or resume is not modelled, nor is a rejected boot requeue, which the source treats as settled.
- LiveSteering.Steering.SteerStep: the database does not change while one call runs, and message texts are reduced to which answer is given.
- QuitProtocol.QuitIsInevitable: the archive dialog is synchronous, so no event occurs inside it; `app.relaunch` and `app.quit` do not throw; the restart that skips the drain (`main/src/ipc/app.ts:67-68`) simply ends the process and is not an event.
- TrustResolver.ContainsIffComponentPrefix: POSIX paths only; Windows drives are not modelled.
- ForkCap.ScanVitestProcesses: a pid is read exactly at any length, where the source loses precision above 2^53 and skips numbers that overflow to infinity.
- ForkCap.ForkPoolOptions: how `Number` reads the text of the explicit cap is a parameter.
- ConsoleForwarding.OutermostCall: collaborators that never return, and a logger that re-installs the overrides while a call is handled, are not modelled; the arguments are reduced to the message.
- `console.log`, `warn`, `info` and `debug` of `main/src/mainConsoleForwarding.ts`: straight-line forwarding without a flag.
- `hostsComposition`, `cloudAccountComposition`, `systemViewComposition`, the experiment and design-session sagas, build and install scripts: single flags and table lookups with easy claims only.
