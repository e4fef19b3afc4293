# Anolis control runtime: a verified model

This project models the safety core of the Anolis control runtime in Dafny and
proves what that core promises. Anolis drives laboratory devices through
provider processes. It can be stopped by software or by an observed emergency
stop, it gates who may actuate what and when, and it keeps a latch and a run
journal on disk that must survive crashes.

`dafny verify dfyconfig.toml` checks everything. There is one module per
component:

- `Modes`, `ActuationGate`, `SafeState`, `CallRouter`, `Arguments`, `Registry`,
  `StopChain`: the decisions, and the objects that keep their state.
- `Protocol`, `ProtocolSafety`, `ModeReplies`, `ProtocolProgress`: all of them
  running at once, over any number of threads, with each lock section and each
  lock-free access as its own step: what is never allowed, why a request is
  refused, and what each task comes to when nothing stands in its way.
- `StateCache`, `Availability`, `LossLatch`, `LossGate`, `ReissuePipeline`:
  reachability edges and availability events, the per-device latch the edges
  engage, the tree calls it holds, and the worker that re-asserts safe states.
- `RunLog`, `RunLogCrashes`, `DurableLists`, `JournalFiles`: a file of the run
  journal as bytes, through failed writes and power losses, and as the list of
  what a re-read gives.
- `RunJournal`, `RunNumbering`: the journal's index, event streams and queue
  across kills, power losses and restarts, and the numbers its events get.
- `LatchPersistence`: the stop latch on disk, with a crash between any two steps.
- `Supervisor`, `SupervisorLaunches`: crash streaks, backoff, the circuit breaker
  and its probes, and what every visit of the loop does.
- `Base64`, `Framing`, `Session`: bytes to text, frames over a pipe, and the
  request and response session on top of them.
- `Pulses`, `PeriodicPulses`: the pulse nodes of the behaviour tree.
- `Options`, `Lists`, `Octets`: what the others share.

Code that updates state in place is a class whose methods are proved against
pure functions on its abstract state. Concurrent or crashing behaviour is a
transition system over those functions, with inductive invariants over every
run.

## Where the code falls short of its promise

Each of these has a lemma that shows the failure and one that says exactly when
the promise holds.

- A record or event whose append reported success can be lost to a power loss if
  the append that created its file failed first, because an append to a file that
  is there does not sync the directory. In every state of every run, each power
  loss leaves everything reported since the last loss of the file exactly when its
  directory entry is durable or nothing was reported. The entry is durable exactly
  when the append that created the file reported success, the directory was synced
  since (creating a run's event stream does that for the index too), or the file
  came through a power loss: `RunLogCrashes.FailedCreationLosesReported`,
  `RunLogCrashes.CrashSafeExactlyWhenLinked`,
  `RunLogCrashes.LinkedExactlyWhenSecured`,
  `RunLogCrashes.CrashSafeExactlyWhenSecured`.
- A run whose stream has its closing event has its closed record on storage exactly
  unless the index was since lost whole: `RunJournal.LostIndexForgetsClosing`,
  `RunJournal.ClosingMeansStored`.
- An event that lands whole although its write reported failure does not spend its
  number, and with that number in memory the next event repeats it. Every stream of a run is numbered 1, 2, 3
  and on exactly when no event lands on a stream after such a one while that
  stream's number stayed in memory: `RunNumbering.StrayEventRepeatsNumber`,
  `RunNumbering.NumberedExactlyWhenNoneLandsOnStray`.
- A persisted stop survives every crash exactly when the latch directory was
  already on storage, because nothing syncs the parent of a directory the save
  itself created: `LatchPersistence.FirstStopCanBeLost`,
  `LatchPersistence.KeptStopSurvivesExactlyWhenRooted`.
- The cap on pulses per hour is kept by the times pulses are due, over a whole
  hour exactly when the cap divides it or the interval is long enough:
  `PeriodicPulses.CapHoldsPerHourExactly`, `PeriodicPulses.HourSeesTooMany`.
- The pulses a run of ticks sees start can break the cap, by a late tick or by
  enabling the node again: `PeriodicPulses.LateTickBreaksCap`,
  `PeriodicPulses.ReenablingBreaksAnyCap`. For any window and any lateness,
  `PeriodicPulses.CapKeptEnabledExactly` says exactly when the cap holds of a node
  kept enabled, and `PeriodicPulses.CapAlwaysExactly` when it holds of any run.
- Edges alternate in every run over a collection of inventories exactly when none
  of them lists a device twice: `StateCache.DuplicateBreaksAlternation`,
  `StateCache.AlternatesExactlyWithoutRepeats`.
- A device removed while lost, and restored, fails its next read without
  subscribers being told it is unavailable. They are told, since its last removal,
  exactly unless that is so: `Availability.RestoredLossIsSilent`,
  `Availability.FailedReadIsAnnounced`.
- A loss delivered after the re-arm that followed it latches again. Across re-arms
  late delivery latches at least what in-order delivery would, and the same
  exactly when each device with such a loss also has one decided after the last
  re-arm: `LossLatch.LateDeliveryCanLatchMore`,
  `LossLatch.LateDeliveryLatchesSameExactly`.
- A tree call past its re-check can still reach a device lost the next instant. At
  most one can, and none can exactly when none was past it when the latch engaged:
  `LossGate.LossAfterRecheckSlips`, `LossGate.AtMostOneReachesLostDevice`,
  `LossGate.ShelteredExactlyWhenNoneThrough`.

One apparent gap is none. The branch that would leave a session healthy after a
failed frame read cannot be taken, because a failed read always records an error:
`Framing.FramedStdioClient.ReadFrame`, `Session.ProviderHandle.WaitForResponse`.

## Model

| member | source | states |
|---|---|---|
| `Modes.FaultReachesAutoOnlyThroughManual` | core/automation/mode_manager.cpp:191-218 | on every legal path of mode changes, MANUAL lies between FAULT and a later AUTO |
| `Modes.LegalExactlyThroughManual` | core/automation/mode_manager.cpp:191-218 | a change to another mode is legal exactly when it is to FAULT or MANUAL is one of its ends |
| `Modes.NamesRoundTrip` | core/automation/mode_manager.cpp:10-40 | a name parses to a mode exactly when it is that mode's own |
| `Modes.PathExtends` | core/automation/mode_manager.cpp:111-160 | a commit judged against the current mode keeps the history a connected path of legal edges |
| `Modes.ModeManager.constructor` | core/automation/mode_manager.cpp:42-44 | the history starts empty at the initial mode |
| `Modes.ModeManager.OpenRequest` | core/automation/mode_manager.cpp:56-84 | the first lock section: same mode, illegal edge or go ahead, changing nothing |
| `Modes.ModeManager.RunBeforeCallbacks` | core/automation/mode_manager.cpp:86-109 | vetoed exactly when some callback refuses or throws and the target is not FAULT |
| `Modes.ModeManager.CommitRequest` | core/automation/mode_manager.cpp:111-160 | re-judged under the lock, guards consulted except for FAULT, and the history stays legal with the true predecessor recorded |
| `ActuationGate.EvaluateGate` | core/runtime/actuation_gate.cpp:73-134 | the gate refuses exactly when automation is enabled, something actuates and no hook covers AUTO to FAULT, and it then names every actuating function in order |
| `ActuationGate.NamesSomeExactlyWhenActuating` | core/runtime/actuation_gate.cpp:92-106 | something is named exactly when some function is not explicitly read-only |
| `ActuationGate.NamesExactly` | core/runtime/actuation_gate.cpp:92-106 | named are exactly the functions not declared READ, each with its device |
| `ActuationGate.GateCountsWhatFires` | core/runtime/actuation_gate.cpp:26-30 | a hook counts for the gate exactly when the dispatcher would run it on AUTO to FAULT |
| `ActuationGate.GateRefusesExactly` | core/runtime/actuation_gate.cpp:73-134 | refused exactly when automation is enabled, some function is not READ, and no hook, before or after, fires on AUTO to FAULT |
| `Registry.Find` | core/control/call_router.cpp:485-492 | finds a device with the handle exactly when there is one, and then the last of them |
| `Registry.WithoutExactly` | core/registry/device_registry.cpp:117-135 | publishing a provider's inventory first removes exactly its own old devices |
| `Registry.WithoutSplits` | core/registry/device_registry.cpp:117-135 | and leaves the others in their number and order |
| `Arguments.CoerceArguments` | core/control/call_router.cpp:393-483 | the in-place rewrite loop computes the specification fold or fails with it |
| `Arguments.CoercionIsPointwise` | core/control/call_router.cpp:393-483 | the fold over specs is, name by name, the chain of that name's declared types, and it fails exactly when one chain does |
| `Arguments.CoercionSettles` | core/control/call_router.cpp:393-483 | a coerced value is the closed form its declared types settle to |
| `Arguments.CoercionPreservesNumbers` | core/control/call_router.cpp:393-483 | coercion keeps every name, and the mathematical value of every argument |
| `Arguments.CoercionIsIdempotent` | core/control/call_router.cpp:393-483 | coercing a coerced map succeeds and changes nothing |
| `Arguments.CoercionFailsExactlyOnUnrepresentable` | core/control/call_router.cpp:393-483 | it fails exactly when some integer meets a declared type that cannot hold it, duplicate names and the 2^53 bound included |
| `Arguments.ValidExactlyAsDeclared` | core/control/call_router.cpp:550-747 | arguments validate exactly when every required one is there and each has the type and lies in the bounds, or among the words, of the last declaration of its name |
| `CallRouter.ParsedHandleRejoins` | core/control/call_router.cpp:749-766 | a parsed handle is its two nonempty halves joined, split at the first slash |
| `CallRouter.HandleParses` | core/control/call_router.cpp:749-766 | every registered device's handle parses back to its provider and device |
| `CallRouter.ResolvesExactlyWhatItSelects` | core/control/call_router.cpp:505-548 | with unique ids and names, a request resolves to a function exactly when its selectors agree with it |
| `CallRouter.DispatchedCallsValidate` | core/control/call_router.cpp:103-299 | every dispatched call passes the dry-run validation on the same inventory |
| `CallRouter.DryRunPredictsRefusal` | core/control/call_router.cpp:351-391 | a validated call is refused only for provider presence or availability or by a runtime gate |
| `CallRouter.DryRunIsExact` | core/control/call_router.cpp:351-391 | for a safe-state call whose provider is up, dispatch and validation coincide |
| `CallRouter.ValidatesExactly` | core/control/call_router.cpp:351-391 | the dry run accepts exactly a parsed handle, a selected function, and coerced arguments admitted as declared |
| `CallRouter.ModeAllowedExactly` | core/control/call_router.cpp:181-200 | a declared list of modes allows the present one exactly when it names it, in any case, no manager counting as MANUAL |
| `CallRouter.DispatchedExactlyWhenUnhindered` | core/control/call_router.cpp:103-299 | dispatched exactly when the provider is up, the dry run accepts, and it is a safe-state call or no gate stands against it, each told by the fields it reads: IDLE, AUTO for manual calls, declared modes, the stop latch before and under the lock, the loss latch, the interval |
| `CallRouter.RefusedForTheReasonGiven` | core/control/call_router.cpp:103-299 | the reason given for a refusal is the case, told by the fields that gate reads |
| `CallRouter.DispatchedArgumentsAreDeclared` | core/control/call_router.cpp:232-248 | each argument sent is the request's own, with its number kept, of its declared type and within its declared bounds |
| `CallRouter.Router.constructor` | core/control/call_router.cpp:86-87 | a fresh router has sent nothing |
| `CallRouter.Router.PassInterval` | core/control/call_router.cpp:277-299 | refused exactly when the function was dispatched less than its interval ago, else recorded |
| `CallRouter.Router.ExecuteCall` | core/control/call_router.cpp:203-304 | the checks are repeated under the provider lock, and over every history ordinary calls of a function keep its minimum interval |
| `SafeState.PlanKind` | core/control/safe_state.cpp:178-204 | the rung: hooks, then setpoints, then zero, none if nothing applies |
| `SafeState.PlannedExactly` | core/control/safe_state.cpp:178-204 | hooks exactly if declared; else setpoints exactly if they drive every ACTUATE function; else zero exactly if declared safe; else none |
| `SafeState.RungExactly` | core/control/safe_state.cpp:299-326 | the rung is the declared hooks, the declared setpoints, each output zeroed, or nothing, in their order |
| `SafeState.IssuedExactly` | core/control/safe_state.cpp:275-298 | issued are exactly the rung's wanted calls not to an absent device, skipped exactly the wanted ones to absent devices |
| `SafeState.LadderIssuesExactly` | core/control/safe_state.cpp:275-326 | which calls a run issues, told by the config and the inventory alone |
| `SafeState.ZeroValueExactly` | core/control/safe_state.cpp:24-47 | exactly the numeric types have a zero, and it is of that type |
| `SafeState.ZeroArgsFailExactly` | core/control/safe_state.cpp:49-70 | zero arguments are refused exactly for a required non-numeric one or for want of any required one |
| `SafeState.ConfigCauseExactly` | core/control/safe_state.cpp:219-232 | a failure counts as the config's exactly when the router refused the request itself or knows no such provider |
| `SafeState.ZeroFillIsZero` | core/control/safe_state.cpp:49-70 | every built argument is zero, and every required argument is there |
| `SafeState.ZeroFillFailsExactly` | core/control/safe_state.cpp:49-60 | it fails exactly on a required argument whose type has no zero |
| `SafeState.PerformRung` | core/control/safe_state.cpp:275-336 | every wanted, present call is performed once in order, every absent one recorded, and the verdict is that all succeeded |
| `SafeState.RunLadder` | core/control/safe_state.cpp:275-336 | exactly the rung the config and inventory call for runs, nothing without one, and it is achieved exactly when something was issued and all of it succeeded |
| `SafeState.DispatchReachesOutput` | core/control/safe_state.cpp:234-273 | a dispatched call whose selectors agree with an output reaches exactly that output with its coerced arguments |
| `SafeState.SetpointsAchievedDroveEveryOutput` | core/control/safe_state.cpp:275-336 | an achieved unfiltered setpoints run had a successful call resolved to each actuating function of each device |
| `SafeState.ZeroCallZeroes` | core/control/safe_state.cpp:248-273 | a successful zero call carried zero for every required argument |
| `SafeState.ZeroAchievedZeroedEveryOutput` | core/control/safe_state.cpp:275-336 | an achieved unfiltered zero run zeroed every actuating function |
| `SafeState.UncoveredFunctions` | core/control/safe_state.cpp:521-554 | the report is the uncovered outputs and no others, in inventory order |
| `SafeState.ZeroReportIsExact` | core/control/safe_state.cpp:127-159 | with its provider up, a function is listed under the zero rung exactly when its ladder call fails for a configuration cause |
| `SafeState.CoveredOutputIsDriven` | core/control/safe_state.cpp:127-159 | an output not listed under a declared rung has a call that reaches it when dispatched |
| `SafeState.DeclaredReportIsExact` | core/control/safe_state.cpp:127-145 | with its provider up, an output is listed under a declared rung exactly when no declared call reaches it |
| `StopChain.Classify` | core/control/stop_chain.cpp:66-90 | clear or in force exactly on a fresh, QUALITY_OK bool; everything else is unknown |
| `StopChain.HoldsUnlessReadClear` | core/control/stop_chain.cpp:66-90 | the stop may be in force unless a good reading, in time, says it is not |
| `StopChain.ContradictsExactly` | core/control/stop_chain.cpp:112-140 | a device expected to lose power is contradicted exactly by a reading in time, never by silence or stale readings; one expected to report the stop, exactly by a good denial in time |
| `StopChain.FoundExactly` | core/control/stop_chain.cpp:142-160 | a mismatch stands exactly for a declared device that contradicts a stop known in force for the stale bound |
| `StopChain.Contradiction` | core/control/stop_chain.cpp:112-140 | a powered-down device that still answers, or a fresh OK denial of the stop |
| `StopChain.StopChainMonitor.Update` | core/control/stop_chain.cpp:92-105 | reports every change of state and the first classification, with the state replaced |
| `StopChain.StopChainMonitor.Judge` | core/control/stop_chain.cpp:146-160 | contradictions are judged only once the stop has been in force for the stale bound |
| `StopChain.StopChainMonitor.UpdateMismatches` | core/control/stop_chain.cpp:142-187 | what stands is what contradicts, one change for each device whose standing changed, and standing alarms keep their time |
| `StopChain.AlarmsAlternate` | core/control/stop_chain.cpp:142-187 | over every sequence of rounds a device's alarms alternate, raised first, and it stands exactly while one is unanswered |
| `ProtocolSafety.AutoUnderLatchIsTransient` | core/runtime/actuation_gate.cpp:154-167 | in every interleaving, AUTO under an engaged stop only while a stop's FAULT request is outstanding |
| `ProtocolSafety.AutoUnderRefusedGateIsTransient` | core/runtime/actuation_gate.cpp:136-197 | AUTO on an inventory the gate refuses only while the restart that committed it still has its re-check or FAULT request outstanding |
| `ProtocolSafety.QuietStatesAreSafe` | core/runtime/runtime.cpp:1390-1422 | with nothing under way, AUTO means no stop engaged and a gate that passes, and a held stop means a latch engaged and a mode other than AUTO |
| `ProtocolSafety.HeldStopKeepsLatch` | core/control/stop_chain.cpp:200-215 | while the observed stop is in force or unknown the latch is engaged, unless the main loop is between its update and its hold, whatever clears and triggers interleave |
| `ProtocolSafety.ModeHistoryIsLegal` | core/automation/mode_manager.cpp:56-174 | with any number of concurrent requests the commit history is a connected legal path ending at the current mode |
| `ProtocolSafety.FaultRequestsSucceed` | core/automation/mode_manager.cpp:56-174 | every answered FAULT request succeeded, with the mode FAULT at some instant during the call |
| `ProtocolSafety.SuccessWasSeen` | core/automation/mode_manager.cpp:56-174 | every request answered with success saw its mode at some instant during the call |
| `ModeReplies.RefusedExactlyForCause` | core/automation/mode_manager.cpp:56-160 | in every interleaving a request other than for FAULT is refused exactly when its edge was illegal as it opened, a callback vetoed it, it was judged in another mode than it was opened in, or it asked for AUTO with the inventory refused or the latch engaged |
| `ModeReplies.RefusalsHaveCause` | core/automation/mode_manager.cpp:56-160 | so every refusal on record, in every run, has such a cause at the step that gave it, and none is of FAULT |
| `ModeReplies.DifferentModeWasCommitted` | core/automation/mode_manager.cpp:111-135 | a request judged in another mode was overtaken by a committed change |
| `ModeReplies.PastJudgementIsWritten` | core/runtime/actuation_gate.cpp:154-167 | a request other than for AUTO, once past its judgement, is under the lock still or has been written, latch or no latch |
| `ProtocolProgress.UnhinderedRequestSucceeds` | core/automation/mode_manager.cpp:56-174 | from every state with the mode lock free, a legal request that nothing vetoes or overtakes is committed and answered with success, AUTO whenever the latch is open and the inventory accepted |
| `ProtocolProgress.StopCompletes` | core/control/safe_state.cpp:365-440 | a stop nobody interferes with ends latched, in FAULT, with its lock and its hooks' admission given back |
| `ProtocolProgress.StatusChangeCompletes` | core/runtime/runtime.cpp:1180-1205 | a changed stop status is taken; one that holds ends latched and in FAULT, any other changes nothing else |
| `ProtocolProgress.ClearCompletes` | core/control/safe_state.cpp:442-463 | a clear opens the latch exactly when the observed stop does not hold, and otherwise changes nothing |
| `ProtocolProgress.RestartCompletes` | core/runtime/runtime.cpp:1390-1422 | a restart publishes the new inventory, and leaves AUTO for FAULT exactly when the gate refuses it |
| `ProtocolProgress.StoppedCallEnds` | core/control/call_router.cpp:203-213 | a call the engaged latch refuses, told by its fields, sends nothing |
| `ProtocolProgress.CallCompletes` | core/control/call_router.cpp:250-304 | any other call, its provider's lock free, is sent once and gives the lock back |
| `ProtocolProgress.LatchGatesAgree` | core/control/call_router.cpp:326-329 | the protocol's latch gate is the router's on the same latch, admission and call |
| `ProtocolSafety.LadderIsLastWord` | core/control/call_router.cpp:203-304 | once a stop's ladder has called on a provider, no actuating call that is not a safe-state call reaches it until the clear, except a FAULT hook admitted by a rungless stop |
| `ProtocolSafety.HooksPassExactlyInRunglessStop` | core/control/safe_state.cpp:388-430 | in every interleaving the engaged latch lets a FAULT-entry hook by exactly while a stop that planned no rung makes that entry |
| `ProtocolSafety.RunsKeepInv` | core/control/safe_state.cpp:365-463 | every reachable state satisfies the lock, latch, gate, status, history, reply and call invariants together |
| `LossLatch.DeviceLossLatch.constructor` | core/control/device_loss_latch.cpp:20-65 | nothing latched, no edge seen |
| `LossLatch.DeviceLossLatch.ApplyReachabilityEdge` | core/control/device_loss_latch.cpp:20-65 | the locked update, stale transport losses failing closed and asking for the re-assert their return could not |
| `LossLatch.DeviceLossLatch.ReleaseAll` | core/control/device_loss_latch.cpp:76-84 | empties the latch, returns what it held, keeps the edge numbers |
| `LossLatch.LatchesExactlyOnTransportLoss` | core/control/device_loss_latch.cpp:20-65 | an edge latches its device exactly when it is a loss the transport reports, however old, and is remembered exactly when none newer is |
| `LossLatch.AsksExactlyOnReturn` | core/control/device_loss_latch.cpp:34-65 | a re-assert is asked for exactly when the edge leaves the device latched and returned and is itself the newest return, or has just made it so |
| `LossLatch.DeliveredState` | core/control/device_loss_latch.cpp:20-65 | after any deliveries a device is latched exactly if it was or some delivered edge is a transport loss, and its record is the newest edge |
| `LossLatch.DeliveryOrderIsIrrelevant` | core/control/device_loss_latch.cpp:20-65 | any two orders of the same numbered edges leave the same latch and the same newest-edge records |
| `LossLatch.ReplayedLatch` | core/control/device_loss_latch.cpp:76-84 | with re-arms interleaved, latched exactly on a transport loss delivered since the last re-arm |
| `LossLatch.LateDeliveryFailsClosed` | core/state/state_cache.cpp:455-481 | with re-arms anywhere, late delivery latches at least what in-order delivery would |
| `LossLatch.LateDeliveryLatchesSameExactly` | core/control/device_loss_latch.cpp:20-84 | late delivery latches what in-order delivery would exactly when each device with a loss decided before the last re-arm and delivered after it also has one decided after it |
| `LossLatch.PromptLossesLatchSame` | core/control/device_loss_latch.cpp:20-84 | with no loss overtaken by the last re-arm the latched sets are equal |
| `LossLatch.LateDeliveryCanLatchMore` | core/control/device_loss_latch.cpp:20-84 | any transport loss delivered only after the re-arm that followed it latches again |
| `LossGate.RunsKeepInv` | core/control/call_router.cpp:224-275 | in every interleaving of calls, delivered edges and re-arms a device is latched exactly when it was lost since the last re-arm, the provider lock is held by one call, and a call past its re-check and one that slipped exclude each other |
| `LossGate.AtMostOneReachesLostDevice` | core/control/call_router.cpp:224-304 | at most one actuating tree call reaches a device between its loss and the re-arm |
| `LossGate.SlipWasThroughBefore` | core/control/call_router.cpp:264-275 | and it had passed its re-check under the provider's lock before the loss |
| `LossGate.NoneThroughNoneReaches` | core/control/call_router.cpp:264-275 | with none past the re-check when the latch engages, none reaches the device until the re-arm |
| `LossGate.ShelteredExactlyWhenNoneThrough` | core/control/call_router.cpp:264-275 | whatever follows an engagement, no such call reaches the device until the re-arm exactly when none was past its re-check |
| `LossGate.EngagedByLoss` | core/control/device_loss_latch.cpp:20-65 | only a delivered transport loss of the device engages its latch |
| `LossGate.LossAfterRecheckSlips` | core/control/call_router.cpp:264-304 | for any device and any transport loss of it there is a run in which the loss is delivered after the re-check and the call reaches the device |
| `LossGate.LossGatesAgree` | core/control/call_router.cpp:264-275 | this gate is the router's on the same latch and call |
| `ReissuePipeline.ReissueWorker.constructor` | core/control/reissue_worker.cpp:12-13 | an empty queue, not stopping |
| `ReissuePipeline.ReissueWorker.Post` | core/control/reissue_worker.cpp:17-32 | refused once stopping, otherwise queued unless already waiting |
| `ReissuePipeline.ReissueWorker.Take` | core/control/reissue_worker.cpp:45-64 | the oldest handle leaves the queue |
| `ReissuePipeline.ReissueWorker.StopAndDrain` | core/control/reissue_worker.cpp:34-64 | after stopping, everything queued is run in order |
| `ReissuePipeline.NewReturnAsks` | core/control/device_loss_latch.cpp:34-65 | an edge that makes a device latched and returned asks for a re-assert |
| `ReissuePipeline.ReturnedDevicesAreReasserted` | core/control/device_loss_latch.cpp:91-100 | in every run, a device latched and returned has a re-assert about to be posted, queued, or started since both became true, unless the worker was stopping |
| `ReissuePipeline.AskedWhenReturned` | core/control/device_loss_latch.cpp:91-100 | in every run, every re-assert asked for was asked for as its device stood latched and returned |
| `ReissuePipeline.NothingReassertedUnasked` | core/control/reissue_worker.cpp:17-64 | of each handle as many were asked for as accepted, refused or about to be posted, and no more started or waiting than accepted |
| `ReissuePipeline.PostsKeepOrder` | core/control/reissue_worker.cpp:17-32 | a post moves no handle that waits, and is itself last if new |
| `ReissuePipeline.RunsKeepQueue` | core/control/reissue_worker.cpp:17-64 | the queue never holds a duplicate, and every accepted post is followed by a run of its handle or still waiting |
| `ReissuePipeline.StoppedWorkerOwesNothing` | core/control/reissue_worker.cpp:34-64 | once the worker has drained and stopped, every accepted post has been followed by a run of that handle |
| `ReissuePipeline.RefusedOnlyAfterStop` | core/control/reissue_worker.cpp:17-32 | a post is refused only once the worker is stopping |
| `StateCache.Cacher.FailedRead` | core/state/state_cache.cpp:409-491 | the specification's new cache, with a loss handed out exactly when one is numbered |
| `StateCache.Cacher.GoodRead` | core/state/state_cache.cpp:493-576 | the specification's new cache, with a return handed out exactly when one is numbered |
| `StateCache.Cacher.MarkProviderDevicesUnavailable` | core/state/state_cache.cpp:287-304 | every listed device is marked down in turn |
| `StateCache.RunsKeepInv` | core/state/state_cache.cpp:111-215 | each device's record, live, departed or carried through a rebuild, agrees with what was said of it |
| `StateCache.EdgesAlternate` | core/state/state_cache.cpp:409-576 | in every run over inventories without duplicates, edges alternate loss and return with increasing numbers, and each available: true answers one earlier unanswered available: false |
| `StateCache.DuplicateBreaksAlternation` | core/state/state_cache.cpp:144-188 | any inventory that lists a device twice has a run with two returns after one loss |
| `StateCache.AlternatesExactlyWithoutRepeats` | core/state/state_cache.cpp:111-215 | over any collection of inventories, edges alternate in every run exactly when none lists a device twice |
| `Availability.RunsKeepAvail` | core/state/state_cache.cpp:409-576 | in every run without repeats a device is on record as unavailable exactly when subscribers were last told so since its removal, or it was restored with its loss outstanding |
| `Availability.GoodReadIsAnnounced` | core/state/state_cache.cpp:493-525 | after a good read of a live device nobody is left told it is unavailable, and no loss is left unanswered |
| `Availability.FailedReadIsAnnounced` | core/state/state_cache.cpp:440-474 | after a failed read outside a shutdown subscribers have been told, exactly unless the device was restored with its loss outstanding; a failure its provider reported, and no other, leaves a new loss |
| `Availability.ProviderLossIsAnnounced` | core/state/state_cache.cpp:287-304 | the same when its provider is found lost, with no loss of the device |
| `Availability.RestoredLossIsSilent` | core/state/state_cache.cpp:144-215 | the exception is reached: lost, removed, restored, failing again, and nothing said since the removal |
| `RunLog.CutKeepsPrefix` | core/runs/run_journal.cpp:324-358 | cutting the file at any byte keeps a front of its records, each whole |
| `RunLog.EndingLineKeepsRecords` | core/runs/run_journal.cpp:72-89 | ending a torn line neither adds nor loses a record |
| `RunLog.AppendedBytesRead` | core/runs/run_journal.cpp:397-414 | however many bytes of an append land, a re-read gives the records before, or those and the new one; written in full it gives the new one |
| `RunLogCrashes.RunLogFile.constructor` | core/runs/run_journal.cpp:302-311 | no file yet |
| `RunLogCrashes.RunLogFile.AppendRecord` | core/runs/run_journal.cpp:397-425 | newline repair, write, sync, then a directory sync only for a file it created, reporting success exactly when all did |
| `RunLogCrashes.AppendKeepsInv` | core/runs/run_journal.cpp:397-425 | an append, however it ends, keeps the re-read traced to attempts and everything owed within the synced part |
| `RunLogCrashes.CrashKeepsInv` | core/runs/run_journal.cpp:397-425 | a power loss that cuts the file leaves everything owed; one that takes it owes nothing more |
| `RunLogCrashes.RunsKeepInv` | core/runs/run_journal.cpp:397-425 | both, in every state of every run of appends, directory syncs and power losses |
| `RunLogCrashes.RunsKeepRecords` | core/runs/run_journal.cpp:397-425 | in every run a re-read gives appended records only, intact, in order, and every one reported since the file was last lost whole |
| `RunLogCrashes.CutsKeepEveryRecord` | core/runs/run_journal.cpp:397-425 | in every run whose power losses only cut the file, at any byte from the last sync on, every record ever reported is read back |
| `RunLogCrashes.CrashKeepsOwed` | core/runs/run_journal.cpp:419-424 | a power loss leaves everything owed exactly when it leaves the file or nothing was owed |
| `RunLogCrashes.CarefulRunsSurvive` | core/runs/run_journal.cpp:397-425 | with nothing appended to a file whose directory entry is not durable, every record ever reported is read back, in every state and after every power loss |
| `RunLogCrashes.CrashSafeExactlyWhenLinked` | core/runs/run_journal.cpp:419-424 | in every state of every run, each power loss leaves everything owed exactly when the directory entry is durable or nothing is owed |
| `RunLogCrashes.LinkedExactlyWhenSecured` | core/runs/run_journal.cpp:419-424 | in every state of every run the entry is durable exactly when the creating append reported success, the directory was synced with the file there, or the file came through a power loss, and it has been there since |
| `RunLogCrashes.CrashSafeExactlyWhenSecured` | core/runs/run_journal.cpp:487-494 | so each power loss leaves everything owed exactly when one of these secured the file, or nothing is owed |
| `RunLogCrashes.FailedCreationLosesReported` | core/runs/run_journal.cpp:415-424 | for any two records there is a run in which a creation fails to sync, the next append reports success, and a power loss takes its record |
| `RunLogCrashes.IndexRecord` | core/runs/run_journal.cpp:350-353 | one record keeps the index right |
| `RunLogCrashes.RebuildIndex` | core/runs/run_journal.cpp:333-358 | the rebuilt index holds the latest record of each run, in the order the runs first appear, over the lines that decode |
| `DurableLists.LossKeepsAllExactly` | core/runs/run_journal.cpp:415-424 | a power loss keeps every item that was kept exactly when it leaves the file, or none was kept |
| `JournalFiles.AppendRefines` | core/runs/run_journal.cpp:397-425 | an append to the bytes is an append to the list a re-read gives: missed, landed unreported, or stored exactly when reported |
| `JournalFiles.CrashRefines` | core/runs/run_journal.cpp:415-424 | a power loss to the bytes keeps what the list counts as kept, or loses it whole, and only with no durable directory entry |
| `JournalFiles.RunsRefine` | core/runs/run_journal.cpp:397-425 | every run of a file, losses of it included, is state by state a run of a list |
| `RunJournal.ScanMaxSeq` | core/runs/run_journal.cpp:443-455 | the scan finds the largest number in the stream, 0 for none |
| `RunJournal.RunRegistry.AppendRecord` | core/runs/run_journal.cpp:397-425 | the index grows by the record, and success means it is kept |
| `RunJournal.RunRegistry.AppendEventLocked` | core/runs/run_journal.cpp:431-499 | numbered from memory or from the stream, the number spent once the line is written, and success means the event is kept |
| `RunJournal.RunRegistry.Open` | core/runs/run_journal.cpp:600-639 | refused while a run is open; in memory only once its record is stored |
| `RunJournal.RunRegistry.Seal` | core/runs/run_journal.cpp:666-678 | closed in memory, then the closing event, then the number forgotten and the run no longer the open one |
| `RunJournal.RunRegistry.Close` | core/runs/run_journal.cpp:641-682 | idempotent; sealed only once the record is stored |
| `RunJournal.RunRegistry.Enqueue` | core/runs/run_journal.cpp:536-546 | dropped when 512 wait, else last in the queue |
| `RunJournal.RunRegistry.WriterTakes` | core/runs/run_journal.cpp:548-560 | the oldest item leaves the queue |
| `RunJournal.RunRegistry.WriterPersists` | core/runs/run_journal.cpp:561-575 | journaled into whichever run is open then, or dropped |
| `RunJournal.RunRegistry.ReadIndex` | core/runs/run_journal.cpp:333-361 | the start's view of the runs is the last-record-wins fold of the index |
| `RunJournal.RunRegistry.RecoverRun` | core/runs/run_journal.cpp:360-383 | the next run left open is sealed, or the start gives up when its record is not stored |
| `RunJournal.RunsKeepInv` | core/runs/run_journal.cpp:324-682 | every reachable journal state, across failed writes of every kind, kills, power losses that cut or take any file, and restarts, satisfies the index, stream, run and queue invariants |
| `RunJournal.OpenRunIsTheRecordedOne` | core/runs/run_journal.cpp:600-682 | in every run at most one run is open, and it is the recorded one |
| `RunJournal.StreamsAreOrdered` | core/runs/run_journal.cpp:431-575 | in every run every stream ends at its closing event and keeps queued items in the order enqueued, so a fault precedes the mode change it caused |
| `RunJournal.OfferedItemWaits` | core/runs/run_journal.cpp:536-546 | an item offered is last to wait, unless 512 already do |
| `RunJournal.QueuedItemsGoForward` | core/runs/run_journal.cpp:548-575 | a queued item waits on, is taken, and once taken is journaled last in the open run's stream, unless no run is open, its write leaves nothing, or the process ends |
| `RunJournal.FoldsLatest` | core/runs/run_journal.cpp:333-358 | a start finds each run as its latest record has it |
| `RunJournal.RecoversEveryRun` | core/runs/run_journal.cpp:360-383 | recovery whose records are stored leaves no run open, and each that was is sealed, with its closing event if that landed |
| `RunJournal.ClosedStreamsNeverGrow` | core/runs/run_journal.cpp:501-516 | once a run's closed record is stored its stream never grows, whatever restarts follow and even if the index is lost whole |
| `RunJournal.ClosingMeansStored` | core/runs/run_journal.cpp:655-674 | in every run, a run whose stream has a closing event has its closed record on storage exactly unless the index was lost whole since the run was opened |
| `RunJournal.LostIndexForgetsClosing` | core/runs/run_journal.cpp:655-674 | for any id there is a run in which a close is reported, the index is lost whole, and the closing event is there without the record |
| `RunJournal.NextKeepsStream` | core/runs/run_journal.cpp:463-499 | a step keeps every kept event of a stream exactly unless it is a power loss that takes the stream |
| `RunJournal.KeptEventsStay` | core/runs/run_journal.cpp:463-499 | so kept events stay in place over any run that does not lose the stream |
| `RunJournal.ReportedEventsSurvive` | core/runs/run_journal.cpp:487-499 | an event whose append reported success is in its place ever after, through every kill, power loss and restart that leaves its file |
| `RunNumbering.MaxSeqIsLast` | core/runs/run_journal.cpp:443-455 | a stream whose numbers never skip or go back has its last number as its largest |
| `RunNumbering.RunsKeepNumbers` | core/runs/run_journal.cpp:431-499 | in every run a number in memory is one past the last, or the last itself after an event that landed though its write failed |
| `RunNumbering.NumbersAreSteady` | core/runs/run_journal.cpp:431-499 | in every run each stream's numbers start at 1 and never skip or go back |
| `RunNumbering.NumberedExactlyWhenNoneLandsOnStray` | core/runs/run_journal.cpp:478-486 | up to any state of any run, every stream has been numbered 1, 2, 3 and on exactly when no event landed after such a one while that stream's number stayed in memory |
| `RunNumbering.CleanRunsAreNumbered` | core/runs/run_journal.cpp:431-499 | in every run with no such event, every stream is numbered 1, 2, 3 and on |
| `RunNumbering.StrayEventRepeatsNumber` | core/runs/run_journal.cpp:478-486 | for any id there is a run whose stream is numbered 1, 2, 2 |
| `LatchPersistence.LatchStore.Save` | core/control/latch_store.cpp:113-155 | staged, renamed, then made durable, reporting success exactly when each step did |
| `LatchPersistence.LatchStore.Remove` | core/control/latch_store.cpp:157-173 | nothing to do, removed, or left in place with an error |
| `LatchPersistence.SafeStateController.constructor` | core/control/safe_state.cpp:501-519 | comes back latched on anything but an absent file, with the recorded time or the time found |
| `LatchPersistence.SafeStateController.Trigger` | core/control/safe_state.cpp:372-386 | latched with its time and saved before the ladder |
| `LatchPersistence.SafeStateController.Hold` | core/control/safe_state.cpp:470-490 | an already held latch keeps its time and its file |
| `LatchPersistence.SafeStateController.Clear` | core/control/safe_state.cpp:442-463 | a refused clear changes nothing; an accepted one opens the latch, then removes the file |
| `LatchPersistence.LatchedExactlyWithTime` | core/control/safe_state.cpp:372-386 | in every reachable state, with crashes at any step, latched exactly when a time is set |
| `LatchPersistence.AnyFileStartsLatched` | core/control/latch_store.cpp:67-111 | a start is latched exactly when its check fails or any file is there, corrupt or foreign included |
| `LatchPersistence.SavedTimeComesBack` | core/control/latch_store.cpp:67-155 | a saved stop comes back with the time it was saved with, one that cannot be read with the time found |
| `LatchPersistence.RemovedStaysRemoved` | core/control/latch_store.cpp:157-173 | after a removal that succeeds nothing comes back, now or after any power loss |
| `LatchPersistence.KeptStopSurvivesExactlyWhenRooted` | core/control/latch_store.cpp:113-155 | with a save that succeeded and no clear begun, every crash at every step comes back latched exactly when the directory was already on storage |
| `LatchPersistence.FirstStopCanBeLost` | core/control/latch_store.cpp:113-155 | the failing side is reached by the first stop with no directory there, every step of its save succeeding |
| `LatchPersistence.RootedForGood` | core/control/latch_store.cpp:113-120 | a directory found after a reboot stays on storage |
| `LatchPersistence.UnfinishedClearErrsTowardHeld` | core/control/latch_store.cpp:157-173 | a crash before a clear removes the file, or a removal that fails, starts latched |
| `LatchPersistence.OnlyRemovalUnlatches` | core/control/latch_store.cpp:157-173 | only a removal, or a lost directory, can take away a file every outcome had |
| `LatchPersistence.StepsMakeCalls` | core/control/safe_state.cpp:442-490 | the steps a crash can separate, run to the end, are the object's calls |
| `Supervisor.ProviderSupervisor.constructor` | core/provider/provider_supervisor.hpp:63-64 | no provider supervised |
| `Supervisor.ProviderSupervisor.RegisterProvider` | core/provider/provider_supervisor.cpp:8-19 | a fresh restart state under the policy |
| `Supervisor.ProviderSupervisor.RecordCrash` | core/provider/provider_supervisor.cpp:77-124 | counts the crash, opens the circuit past the limit, else schedules by the clamped backoff list |
| `Supervisor.ProviderSupervisor.RecordProbeResult` | core/provider/provider_supervisor.cpp:155-173 | a success closes the circuit without forgetting the count; a failure schedules the next probe |
| `Supervisor.ProviderSupervisor.RecordSuccess` | core/provider/provider_supervisor.cpp:186-205 | forgets the streak |
| `Supervisor.ProviderSupervisor.RecordHeartbeat` | core/provider/provider_supervisor.cpp:262-279 | starts the uptime window once |
| `Supervisor.ProviderSupervisor.MarkCrashDetected` | core/provider/provider_supervisor.cpp:233-249 | true for the first sight of an outage only |
| `Supervisor.RunsKeepInv` | core/runtime/runtime.cpp:916-1011 | in every run of the loop, with one restart in flight and providers dying at any time, each provider's counters, times and health agree with its history |
| `Supervisor.HistoriesAreLawful` | core/runtime/runtime.cpp:916-1011 | in every run every provider's whole history satisfies the law below |
| `Supervisor.StreakIsBounded` | core/provider/provider_supervisor.cpp:77-124 | a crash streak has at most the policy's number of ordinary restarts |
| `Supervisor.RestartWaitsForBackoff` | core/provider/provider_supervisor.cpp:21-47 | each ordinary restart answers the crash before it, no sooner than the entry of the backoff list that crash's number selects, or the last past its end |
| `Supervisor.NoRestartOnceTripped` | core/runtime/runtime.cpp:965-1001 | once a crash opens the circuit there is no ordinary restart until a recovery, probes notwithstanding |
| `Supervisor.ProbesAreSpaced` | core/provider/provider_supervisor.cpp:137-173 | any two probes of a provider are at least the probe interval apart |
| `Supervisor.RecoveryNeedsUnbrokenHealth` | core/provider/provider_supervisor.cpp:207-231 | a streak is forgotten only after the reset time with no unhealthy sighting |
| `SupervisorLaunches.RunsKeepExact` | core/runtime/runtime.cpp:916-1011 | in every run a provider's counter is the length of its streak, and a crash awaits its restart exactly while one is on record unanswered |
| `SupervisorLaunches.CrashesAreCounted` | core/provider/provider_supervisor.cpp:77-124 | each crash is numbered by how many its streak already had |
| `SupervisorLaunches.VisitsAreExact` | core/runtime/runtime.cpp:958-1011 | every visit of every run: what is recorded, restarted, probed or forgotten is settled by the history, with no restart early and none withheld |
| `SupervisorLaunches.OpenCircuitIsProbed` | core/runtime/runtime.cpp:965-980 | a circuit open an interval with no probe in flight is probed at the next visit that finds the provider down and nothing in flight |
| `Base64.EncodeBytes` | core/http/json.cpp:17-37 | the loop over a wrapping 32-bit accumulator computes the encoding of section 4 of RFC 4648 |
| `Base64.EncodeGroups` | core/http/json.cpp:22-29 | after any number of bytes, whole groups are encoded and the accumulator holds the rest |
| `Base64.Drain` | core/http/json.cpp:25-28 | the inner loop emits exactly the complete groups |
| `Base64.Pad` | core/http/json.cpp:33-35 | padding to a multiple of four |
| `Base64.BuildTable` | core/http/json.cpp:41-44 | the table inverts the alphabet and marks everything else |
| `Base64.LettersAreTheAlphabet` | core/http/json.cpp:41-44 | the letters are those of table 1 of RFC 4648, in order |
| `Base64.DecodeText` | core/http/json.cpp:39-59 | fails exactly on a character outside the alphabet before the padding, else gives the bytes of the digits |
| `Base64.DecodeUndoesEncode` | core/http/json.cpp:12-59 | decoding an encoding gives back every byte string |
| `Base64.EncodedShape` | core/http/json.cpp:17-37 | length 4*ceil(n/3), alphabet letters, then padding only at the end |
| `Framing.HeaderRoundTrip` | core/provider/framed_stdio_client.cpp:56-89 | the little-endian header gives back any 32-bit length |
| `Framing.FramesDetermineList` | core/provider/framed_stdio_client.cpp:48-108 | a stream of frames within the limit is that of one list only |
| `Framing.SmoothCallsTransfer` | core/provider/framed_stdio_client.cpp:164-276 | however calls cut the bytes, if none fails, is late or moves nothing and there are as many as bytes, all bytes move |
| `Framing.ShortTransferHasCause` | core/provider/framed_stdio_client.cpp:164-276 | bytes that are there stop short only at a failed, late or empty call, or for want of calls |
| `Framing.SmoothCallsSend` | core/provider/framed_stdio_client.cpp:48-76 | through such calls a frame within the limit goes out whole |
| `Framing.SmoothCallsTake` | core/provider/framed_stdio_client.cpp:78-108 | through such calls a frame that has arrived is taken whole, and nothing after it |
| `Framing.FramedStdioClient.WriteExact` | core/provider/framed_stdio_client.cpp:164-220 | exactly the bytes the calls move go out, it succeeds exactly when that is all, and a failure says so |
| `Framing.FramedStdioClient.ReadExact` | core/provider/framed_stdio_client.cpp:222-276 | exactly the bytes the calls move are taken from the front, and it succeeds exactly when that is n |
| `Framing.FramedStdioClient.WriteFrame` | core/provider/framed_stdio_client.cpp:48-76 | exactly as much of header and payload as the calls move, nothing of one over the limit, success exactly when all |
| `Framing.FramedStdioClient.ReadFrame` | core/provider/framed_stdio_client.cpp:78-108 | exactly as much as the calls move, success exactly when the announced payload within the limit came whole, and a failure always says why |
| `Framing.WriteAll` | core/provider/framed_stdio_client.cpp:48-76 | whole frames and less than one more go out, all of them through smooth calls |
| `Framing.ReadAll` | core/provider/framed_stdio_client.cpp:78-108 | however the stream is cut, what is read is the front of the written list, all of it through smooth calls |
| `Framing.RoundTrip` | core/provider/framed_stdio_client.cpp:48-108 | the list written and read back through any calls comes back as far as both got, and whole through smooth ones |
| `Session.ProviderHandle.constructor` | core/provider/provider_handle.cpp:20-28 | not healthy, nothing sent |
| `Session.ProviderHandle.WaitForResponse` | core/provider/provider_handle.cpp:364-448 | what the wait comes to, exactly: only a response with the expected number is taken, and every other way out ends the session |
| `Session.ProviderHandle.SendRequest` | core/provider/provider_handle.cpp:281-362 | not sent, unanswered with the session ended, or answered by its own response, and exactly when each; every exit mirrors its status |
| `Session.TakenExactlyWhenReplied` | core/provider/provider_handle.cpp:364-448 | a reply is taken exactly when, after quiet waits, one in time finds a whole frame that parses to the expected number |
| `Session.ArrivedReplyIsTaken` | core/provider/provider_handle.cpp:364-448 | so a reply that has arrived whole and is read by calls that do not fail is taken, and nothing after it |
| `Session.ProviderHandle.Stop` | core/provider/provider_handle.cpp:30-36 | ends the session |
| `Session.RunsKeepInv` | core/provider/provider_handle.cpp:281-448 | in every run, whatever the provider sends, requests, replies taken and health agree, and with an honest provider so does the pipe |
| `Session.RepliesTakenAreOwn` | core/provider/provider_handle.cpp:409-421 | whatever the provider sends, each reply taken carries its own request's number and no other request's |
| `Session.HealthySessionHasNoStaleReply` | core/provider/provider_handle.cpp:281-448 | while healthy, every request sent but the one in flight has been answered, and from an honest provider nothing else is in the pipe |
| `Session.UnansweredEndsSession` | core/provider/provider_handle.cpp:364-448 | a request sent, not in flight and not answered has ended the session |
| `Session.UnhealthyForGood` | core/provider/provider_handle.cpp:312-320 | unhealthy once, nothing more is sent and no reply is taken |
| `Session.EveryExchangeIsSteps` | core/provider/provider_handle.cpp:281-362 | whatever an exchange of the object does to the session, steps of the runs do |
| `Pulses.RequestedPulseWindowNode.constructor` | core/automation/bt_nodes.cpp:620-621 | idle, no baseline |
| `Pulses.RequestedPulseWindowNode.Tick` | core/automation/bt_nodes.cpp:633-677 | the tick's new state, and active exactly inside the running pulse's window |
| `Pulses.RequestedPulsesKeepOrder` | core/automation/bt_nodes.cpp:633-677 | over every run of ticks in time order: queued plus running within the limit, started plus queued equals accepted, accepted at most the counter's total rise |
| `Pulses.DroppedOnlyWhenFull` | core/automation/bt_nodes.cpp:645-663 | presses are dropped only when no room is left |
| `Pulses.TickIsPrompt` | core/automation/bt_nodes.cpp:633-677 | over every run, a pulse that is over gives up its place, and a waiting press starts one, a delay from now, as soon as none runs |
| `Pulses.WindowsAreDisjoint` | core/automation/bt_nodes.cpp:668-674 | no two pulse windows of a run overlap |
| `Pulses.HistoryFollowsNode` | core/automation/bt_nodes.cpp:633-677 | the recorded history follows the node's own ticks |
| `PeriodicPulses.PeriodicPulseWindowNode.constructor` | core/automation/bt_nodes.cpp:541-542 | not yet enabled |
| `PeriodicPulses.PeriodicPulseWindowNode.Tick` | core/automation/bt_nodes.cpp:556-614 | the enabled instant kept, begun or dropped, and the report, with a clock before the enabling counted as at it |
| `PeriodicPulses.ReportsLastDue` | core/automation/bt_nodes.cpp:582-608 | the report is the last pulse due, open for its width, and nothing before the first |
| `PeriodicPulses.CapHoldsPerRoundedHour` | core/automation/bt_nodes.cpp:595-608 | under cap m, at most m pulses of a schedule are due in any half-open window of m*floor(3600000/m) ms |
| `PeriodicPulses.CapHoldsPerHourExactly` | core/automation/bt_nodes.cpp:598-603 | over whole hours, exactly when the cap divides the hour or the interval is long enough |
| `PeriodicPulses.HourSeesTooMany` | core/automation/bt_nodes.cpp:598-603 | otherwise the hour from the first pulse has one too many due |
| `PeriodicPulses.WatchFollowsNode` | core/automation/bt_nodes.cpp:569-580 | the run of ticks follows the node's own state |
| `PeriodicPulses.RunsKeepInv` | core/automation/bt_nodes.cpp:556-614 | in every run of ticks in time order, enabled and disabled at will, each start seen is in its window and follows the one before by an interval or a delay |
| `PeriodicPulses.StartsSpread` | core/automation/bt_nodes.cpp:595-608 | starts m apart are as far apart as the intervals and re-enablings between them make them, less the lateness |
| `PeriodicPulses.LatenessIsBounded` | core/automation/bt_nodes.cpp:605-608 | no run sees a start later than its window |
| `PeriodicPulses.CapKeptEnabledExactly` | core/automation/bt_nodes.cpp:595-608 | kept enabled with ticks at most so late, no window of any width sees more than m starts exactly when m intervals less the lateness fill it |
| `PeriodicPulses.CapAlwaysExactly` | core/automation/bt_nodes.cpp:569-608 | enabled and disabled at will, exactly when m delays, an interval less the lateness with m - 1 delays, and m intervals less the lateness each fill it |
| `PeriodicPulses.LateTickBreaksCap` | core/automation/bt_nodes.cpp:595-608 | a cap of 60 at 60 s with pulses of 30 s: one tick 29999 ms late gives 61 starts in an hour |
| `PeriodicPulses.ReenablingBreaksAnyCap` | core/automation/bt_nodes.cpp:569-580 | with no delay, enabling again at will breaks any cap over any window |

## Left out

- The HTTP server and its routes, authentication and event streaming.
- YAML loading: configuration values are taken as validated, for example a nonempty backoff list.
- Process spawning, pipes and signals: only whether a process runs is an input.
- Protobuf and JSON encodings: a codec whose output has no newline, that decodes what it encodes, and that decodes no proper prefix.
- The InfluxDB sink, health snapshots, the parameter manager, ownership checks and the other behaviour-tree nodes: easier members.
- Log and error texts: only causes, status codes and whether an error is set.
- Floating point: doubles are reals, with 2^53 as the bound for exact integers.
- 64-bit overflow of clocks, counters and pulse times; the base64 accumulator's 32-bit wrap is modelled.
- Handles in `StateCache` are pairs, where the source matches a provider by a text prefix; provider ids are taken to contain no slash.
- The data directory and the `runs` directory are taken to be on storage; the latch's own directory is not.
- RunLogCrashes.RunLogFile.AppendRecord: takes a log that opens for appending to be readable for its last byte, because otherwise the source treats a torn file as whole.
- RunJournal.RunsKeepInv: takes run ids to be minted fresh, as a time-ordered unique id is; a repeat is not modelled.
- RunJournal.ReportedEventsSurvive: is for runs that do not lose the stream's file; `RunLogCrashes.CrashSafeExactlyWhenSecured` says exactly when a power loss can.
- Session.HealthySessionHasNoStaleReply: its clause about the pipe is for a provider that answers each request at most once and only after it was sent; `RepliesTakenAreOwn` holds for any provider.
- RunLogCrashes.CutsKeepEveryRecord: is for runs whose power losses leave the file; `CrashSafeExactlyWhenLinked` says exactly when they must.
- PeriodicPulses.CapHoldsPerRoundedHour: counts pulses when they are due; the starts a run of ticks sees have their own exact condition, `CapKeptEnabledExactly` and `CapAlwaysExactly`.
- Supervisor.RecoveryNeedsUnbrokenHealth: health is what the loop sees when it visits a provider, so an outage between two visits is not seen, as in the source.
- Event ids across subscriber queues, which are pushed outside the emitter's lock.
