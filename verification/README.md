# llama-skein: a verified model of its core

llama-skein swaps LLM server processes on limited GPU memory. This project models, in Dafny, the five
connected parts that decide what runs where and proves what they promise:

1. **Swap router.** `SwapRouter` states what each handler of the run loop does to the loop's state and which
   answers and swap goroutines it emits; `RouterLoop` is the loop itself, a class whose handlers update the
   maps and the queue in place, each proved equal to its specification. `RouterSafety` and `RouterRuns` prove
   the invariants of every run: no swap stops a busy model or another swap's target, every request is in one
   place, nobody waits for a wake-up that never comes; `RouterProgress` proves that everyone is answered in the
   end. `RouterAnswers` says what each answer and launch is: who hears what in every step, and that a served answer
   comes only from a process that is up. `MatrixSolver` and `Planners` are the two planners; `DrainFixpoint` is
   about the queue pass; `Coexistence` interleaves decisions, swap goroutines and processes and says which
   processes can be alive together; `CoexistenceLimits` says exactly for which configurations that survives
   failed stops and late starts. `LifecycleRefinement` ties its process events to the lifecycle loop of part 3,
   and `RunningSystem` is the whole: one lifecycle loop for each model, the swaps talking to the loops; each of
   its runs is a run of `Coexistence`, so what is proved there holds of the OS processes.
2. **Placement arithmetic.** `FitEngine` is the fit engine, `FitLaws` and `FitReports` what its report promises;
   `Placement` plans GPU, hybrid, CPU-only or refuse; `Ladder` is the retry ladder; `Launch` reads the flags of a
   plan back from the command they make.
3. **Process lifecycle loop.** `ProcessLoop` is the state machine, `ProcessReplies` what it tells its callers,
   `ProcessCommand` the loop as a class.
4. **Matrix DSL compiler.** `DslLexer`, `DslParser`, `DslGrammar`, `DslExpand`, `ModelNames`, `DslCompile`
   (text to combinations), `TopoSort` (order of references), `SwapMatrix` (validation of a whole matrix).
5. **Install operations.** `Phases`, `OperationStore`, `Downloads`, `InstallPlan` and `Executor`: the executor
   of one operation beside any number of cancellation requests, resumable downloads included, and what any
   number of interrupted attempts leave for the next one. `LogBuffer` is the circular buffer of log output.

`Wrappers` and `Counting` are shared helpers. Where an operation changes state in place, a class or a method
with loops does the same here and its `ensures` ties the new state to a specification; the specification's
properties are proved as lemmas.

How the parts outside the model appear:

* The planner's answer, a process's readiness and whether a caller is still there are what one pass *views*;
  the router's theorems hold for every view. Reads of a process state are atomic snapshots.
* Go's map iteration order is a parameter (`order`, `targets`) or a nondeterministic choice.
* Time is a number that events carry. Failures of disk, network, registrar and kills are nondeterministic.
* Unicode's white space, letters and digits are the parameter `Alphabet`, about which `Sensible` says that
  operators are neither white space nor part of a name, a blank is white space, and nothing is both.
* The executor and the cancellation requests meet only in the store, so `OtherRequests` (any number of saves of
  cancelled records, however old the copy) stands before each of the executor's reads and writes of it, and what
  `Run` promises holds for every interleaving. `CancelRequest` is the same seen from a request.
* The digest function and the content behind each URL are parameters of the executor.

## Where the code does less than one might expect

* **Coexistence after failed stops.** A stop that gives up leaves the process alive while its state reads
  stopped, and the planners go by the state. After one such stop any two models of no common set, or of one
  swap group, can be alive together: `CoexistenceLimits.FailedStopBreaksCoexistence` and
  `FailedStopBreaksSwapGroup`. Over all runs the claim therefore holds exactly for the configurations in which
  all models may run together anyway: `CoexistenceLimits.MatrixSafeExactly` and `GroupSafeExactly`. For one run,
  everything alive is allowed whenever the combination in force together with the leaked processes is
  (`Coexistence.AliveIsAllowed`), so without leaks always.
* **Late starts.** An unload, or a waiter answered from a failed state, drops a swap's entry while its run
  request is pending. The run may still be accepted afterwards and then lands beside other swaps:
  `CoexistenceLimits.AbandonedRunBreaksCoexistence`, with the same exact condition. The theorems are about runs
  in which no start comes late; entries may be dropped.
* **A stop during a start.** When the start's own abort gives up, the stop still reports success:
  `ProcessLoop.HiddenLeak`. `ProcessLoop.StopOfStartReportsLeaks` says this is the only case in which the reply
  is wrong.
* **The grammar comment** at internal/config/matrix_dsl.go:147-150 nests the operators the other way round; in
  the code `&` binds tighter than `|`, and that is what is modelled.
* **The session cap** is checked for arriving requests only, not for queued ones or for waiters of a swap.
* **A stale partial file** beside an installed artifact is what gets checked, while the download goes by the
  installed one. A smooth attempt over a finished installation fails exactly when some partial file is there
  that does not pass its artifact's checks: `InstallPlan.StalePartialFails`. A full-size partial file with wrong
  bytes is never fetched again either. No number of attempts mends these (`InstallPlan.SpoiledForever`), and
  they are what any smooth attempt that fails leaves behind (`InstallPlan.FailedForGood`).
* **Grow targets.** Relaunching at the advertised context is a fit exactly when the host side is within its
  budget: `FitLaws.GrowTargetFits`.

## Model

| member | source | states |
|---|---|---|
| `RouterRuns.SwapsNeverClash` | internal/router/base.go:299-433 | In every reachable state, for any planner, with unloads, stale completions and vanished callers, no active swap stops a model with requests in flight or another active swap's target |
| `RouterRuns.RequestsAreConserved` | internal/router/base.go:214-464 | Every accepted request is in exactly one place (queue, one swap's waiters, answered), is answered at most once, and the in-flight count of a model is the number of its delivered handlers still running |
| `RouterRuns.NobodyIsStranded` | internal/router/base.go:332-433 | While the queue is not empty a swap is active or a handler is running; a request that waits and is not queued waits on an active swap; every active swap has a goroutine that has yet to report; and when nothing is outstanding nobody waits |
| `RouterProgress.CompletionsAreBounded` | internal/router/base.go:361-433 | In every run, whatever the planner, failures, unloads and timeouts, the swap goroutines and handlers that reported or have yet to report are at most two for each request that arrived |
| `RouterProgress.ReportsEnd` | internal/router/base.go:361-433 | Without new arrivals the outstanding reports, in whatever order and with whatever outcome, come to an end within a bound read off the state |
| `RouterProgress.ReportOwed` | internal/router/base.go:396-433 | As long as some accepted request has not been answered a report can still come, so when the last report has come in everyone has been answered exactly once |
| `RouterProgress.EveryoneGetsAnswered` | internal/router/base.go:396-433 | Every run can be led on, by reports alone, to a state in which every accepted request has been answered exactly once |
| `RouterProgress.StepSpends` | internal/router/base.go:156-211 | Each report takes one off the backlog, an arrival adds at most two, unloads, timeouts and shutdown add nothing |
| `RouterRuns.StepKeeps` | internal/router/base.go:156-211 | Every event of the run loop keeps the invariant behind the three theorems |
| `RouterRuns.InvariantOfRuns` | internal/router/base.go:156-211 | The invariant holds after every finite run |
| `RouterRuns.SwapDoneAccounts` | internal/router/base.go:361-379 | A finished swap's waiters are each answered once and nothing else is lost or gained, stale completions included |
| `RouterRuns.ServeDoneAccounts` | internal/router/base.go:384-394 | A finished handler lowers its model's count by one and the retried queue conserves every request |
| `RouterRuns.UnloadAccounts` | internal/router/base.go:817-880 | An unload answers the waiters and queued requests of its targets and conserves all others |
| `RouterRuns.ShutdownAccounts` | internal/router/base.go:637-656 | A shutdown answers every waiting and queued request once |
| `RouterRuns.TickAccounts` | internal/router/base.go:444-464 | Expiring stale requests answers those and keeps the rest queued, with something left to wake them |
| `RouterSafety.ActKeepsGood` | internal/router/base.go:299-354 | One decision keeps swaps from clashing with in-flight models and with each other |
| `RouterSafety.ParkedIsAwake` | internal/router/base.go:334-348 | A request is only queued when a swap is active or a model is busy |
| `RouterSafety.DrainKeeps` | internal/router/base.go:396-433 | A pass over the queue keeps the invariants, conserves requests and leaves a non-empty queue awake |
| `RouterSafety.ReleaseKeeps` | internal/router/base.go:817-880 | Dropping active entries answers exactly their waiters and keeps the remaining swaps free of clashes |
| `RouterLoop.BaseRouter.Request` | internal/router/base.go:299-354 | The request handler does what the decision tree says, the session cap included |
| `RouterLoop.BaseRouter.Collides` | internal/router/base.go:544-557 | True exactly when the target and an active swap stop each other |
| `RouterLoop.BaseRouter.Conflicts` | internal/router/base.go:562-569 | True exactly when some model to stop has requests in flight |
| `RouterLoop.BaseRouter.GrantServe` | internal/router/base.go:240-252 | Handing out a handler answers one request, moves its model's in-flight count exactly with the handlers delivered and no other model's, and keeps swaps from clashing unless an active swap stops that model |
| `RouterLoop.BaseRouter.StartNewSwap` | internal/router/base.go:512-521 | A new swap makes one more entry, holds its request and no other, is backed by a goroutine, and clashes with nothing once the collision and in-flight checks passed |
| `RouterLoop.BaseRouter.SwapFinished` | internal/router/base.go:361-379 | A finished swap's waiters are answered in order, one answer each at consecutive places: served exactly when the model came up, swap failed otherwise; only a served waiter counts as in flight; every other answer and launch of the step comes from retrying the queue |
| `RouterLoop.BaseRouter.ServeFinished` | internal/router/base.go:384-394 | The serve-done handler is its specification: one fewer in flight, and at zero a retry |
| `RouterLoop.BaseRouter.Drain` | internal/router/base.go:396-433 | Rebuilding the queue in a loop is the pass that leaves blocked requests in place |
| `RouterLoop.BaseRouter.ExpireStale` | internal/router/base.go:444-464 | Exactly the requests queued longer than the timeout are removed, each told that it waited too long, in queue order; the rest keep their order |
| `RouterLoop.BaseRouter.UnloadModels` | internal/router/base.go:817-880 | Each dropped swap's waiters and each queued request for a target hear that the model is unloaded, nobody else does; what else is answered or launched comes from retrying the rest of the queue |
| `RouterLoop.BaseRouter.ShutDown` | internal/router/base.go:637-656 | The shutdown handler releases every swap and refuses every queued request |
| `RouterAnswers.SwapDoneTells` | internal/router/base.go:361-379 | What the swap-done step tells each waiter, for any report and view |
| `RouterAnswers.SwapDoneMoves` | internal/router/base.go:361-379 | The step keeps, for every model, the in-flight count in balance with the handlers it delivered |
| `RouterAnswers.UnloadTells` | internal/router/base.go:817-880 | What an unload tells waiters and queued requests, and which swaps it leaves |
| `RouterAnswers.RefuseTells` | internal/router/base.go:851-864 | Refusing walks the queue in place: exactly the selected requests are answered, the others keep their order |
| `RouterAnswers.ArrivalTells` | internal/router/base.go:299-354 | How an arriving request is treated, read off the loop's tables: unknown, joined, served or over the cap, a swap of exactly the planned models, or queued |
| `RouterAnswers.HandlerApt` | internal/router/base.go:156-211 | Every answer of every step has an outcome that fits the event and the tables before it |
| `RouterAnswers.AnswersAreWarranted` | internal/router/base.go:156-211 | In every run each answer was given by an event that warrants its outcome |
| `RouterAnswers.ServedMeansReady` | internal/router/base.go:299-379 | In every run a served answer comes from a report that the model came up, or from a decision that read its process as ready |
| `DrainFixpoint.GroupDrainIsFinal` | internal/router/base.go:396-433 | With the group planner and fixed process states a second pass changes nothing, the queue keeps its order, and each model only loses its earliest requests |
| `DrainFixpoint.DrainKeepsOrder` | internal/router/base.go:396-433 | What stays is a subsequence; no later request of a model is served while an earlier one stays |
| `DrainFixpoint.DrainParksTheRest` | internal/router/base.go:396-433 | After a pass every remaining request is still blocked in the final state |
| `Coexistence.MatrixModelsCoexist` | internal/router/base.go:580-635 | In every run in which no start comes late, whatever is alive and not leaked lies in one declared set or is one model; everything alive does when the combination in force together with the leaked processes does |
| `Coexistence.MatrixModelsCoexistWithoutLeaks` | internal/router/matrix.go:56-101 | When no stop gives up and no start comes late, everything alive lies in one declared set or is one model |
| `Coexistence.SwapGroupMembersNeverCoexist` | internal/router/group.go:69-110 | In every run in which no start comes late, no two members of a swap group are alive together unless one of them is a leaked process |
| `Coexistence.SwapGroupMembersNeverCoexistWithoutLeaks` | internal/router/group.go:69-110 | When no stop gives up and no start comes late, at most one member of a swap group is alive |
| `Coexistence.AliveIsAllowed` | internal/router/base.go:580-635 | For either router: the processes alive and not leaked are an allowed combination, and all that are alive are whenever the combination in force together with the leaked ones is |
| `Coexistence.InvariantOfRuns` | internal/router/base.go:299-354 | In runs in which no start comes late, running processes lie in the chosen set of the highest-numbered swap that has started, over every interleaving, dropped entries and failed stops included |
| `Coexistence.DecisionKeeps` | internal/router/base.go:544-569 | A new decision fits every swap already under way, parallel swaps included |
| `CoexistenceLimits.FailedStopBreaksCoexistence` | internal/router/base.go:580-635 | For any two configured models of no common set: a run with one stop that gives up and no dropped entry, after which exactly these two are alive |
| `CoexistenceLimits.FailedStopBreaksSwapGroup` | internal/router/base.go:580-635 | The same for any two configured members of any swap group |
| `CoexistenceLimits.OneFailedStop` | internal/router/base.go:580-635 | Whenever a planner would stop one model for another, one stop that gives up ends with both alive |
| `CoexistenceLimits.SafeDespiteLeaksExactly` | internal/router/base.go:599-616 | For any planner that stops nothing when nothing runs: every run with failed stops keeps an allowed combination alive if and only if all configured models together are allowed |
| `CoexistenceLimits.SafeDespiteLateStartsExactly` | internal/router/base.go:825-838 | The same if and only if for runs whose swaps may start after their entry was dropped |
| `CoexistenceLimits.MatrixSafeExactly` | internal/router/base.go:580-635 | Matrix router: the coexistence claim holds over all runs with failed stops, or with late starts, exactly when there is at most one model or all lie in one declared set |
| `CoexistenceLimits.GroupSafeExactly` | internal/router/base.go:580-635 | Group router: the claim for a group holds over all those runs exactly when the configuration has at most one model of it |
| `CoexistenceLimits.AbandonedRunBreaksCoexistence` | internal/router/base.go:825-838 | For any set of configured models and no failed stop: a run in which dropped entries leave run requests pending and exactly these models end up alive |
| `MatrixSolver.Solver.constructor` | internal/router/matrix_solver.go:17-30 | The index lists for every model exactly the sets that hold it, ascending |
| `MatrixSolver.Solver.Solve` | internal/router/matrix_solver.go:51-106 | For a target in some set: the cheapest set with the lowest index, the running models outside it, and exactly their cost |
| `MatrixSolver.Solver.BestCandidate` | internal/router/matrix_solver.go:72-95 | The scan returns a set of least eviction cost, first among ties |
| `MatrixSolver.Solver.FindMatchingSet` | internal/router/matrix_solver.go:110-125 | The first set that holds the target and every running model, or none when no set does |
| `MatrixSolver.BestIsUnique` | internal/router/matrix_solver.go:72-95 | Cost and index together determine the choice |
| `MatrixSolver.EachStopCosts` | internal/router/matrix_solver.go:72-95 | A set is charged for each running model outside it, at its configured cost or one, and for nothing else |
| `MatrixSolver.SurvivorsFit` | internal/router/matrix_solver.go:96-106 | Survivors and target lie inside the chosen set; only models outside it are stopped |
| `Planners.MatrixPlanner.RunningSet` | internal/router/matrix.go:74-101 | The running models and the extra targets, each once, in dictionary order whatever the order of the process map |
| `Planners.MatrixPlanner.EvictionFor` | internal/router/matrix.go:56-58 | The eviction list is the solver's plan for the running models and the extra targets, in dictionary order |
| `Planners.GroupPlanner.EvictionFor` | internal/router/group.go:69-110 | Read off the configured groups: of the target's own group exactly the running siblings go, and only if it swaps; of the others exactly the running models that are not persistent, and only if the target's group is exclusive; running is exactly the states in between; each once |
| `Planners.GroupRulesDetermine` | internal/router/group.go:69-110 | These rules fix the plan: a set of models follows them if and only if it is the planner's |
| `Planners.MatrixPlanFits` | internal/router/matrix_solver.go:51-106 | Carrying out a matrix plan leaves models of one declared set or the target alone |
| `Planners.GroupPlanFits` | internal/router/group.go:69-110 | Carrying out a group plan leaves no sibling of the target; seeing more running models never evicts fewer |
| `ProcessLoop.AtMostOneAlive` | internal/process/process_command.go:285-574 | In every reachable state at most one OS process of the model is alive, kills that gave up included; at the loop head ready, command, handler and parked Run caller coincide and waiters imply stopped |
| `ProcessLoop.CallersAnsweredOnce` | internal/process/process_command.go:315-334 | No Run, Stop or WaitReady caller is lost or answered twice; after shutdown each has been answered or released |
| `ProcessLoop.StepKeeps` | internal/process/process_command.go:336-573 | Every case of the loop keeps the invariant |
| `ProcessLoop.StartsOnlyWhenGone` | internal/process/process_command.go:407-427 | A start is accepted exactly when the process is stopped or failed and nothing is being reaped, and then nothing of the model is alive |
| `ProcessLoop.ExitLeavesNothing` | internal/process/process_command.go:362-380 | After an unexpected exit nothing of the model is alive and no Run caller is parked |
| `ProcessLoop.ReapedIsFree` | internal/process/process_command.go:1013-1030 | At most one process is ever being reaped: once it has gone nothing is left to reap |
| `ProcessLoop.StopReportsLeaks` | internal/process/process_command.go:540-571 | A Stop at the loop head replies success exactly when nothing of the model can be alive |
| `ProcessLoop.StopOfStartReportsLeaks` | internal/process/process_command.go:500-537 | A Stop of a start replies truthfully exactly when the start's own abort did not give up |
| `ProcessLoop.HiddenLeak` | internal/process/process_command.go:774-777 | A run in which a Stop replies success while the process is alive |
| `ProcessCommand.ControlLoop.KillProcess` | internal/process/process_command.go:956-1003 | Either the process has gone, or it is flagged as possibly leaked and in a reaper's hands; other processes and earlier reapers are untouched |
| `ProcessCommand.ControlLoop.ReapLeaked` | internal/process/process_command.go:1013-1030 | When an abandoned process goes the flag is cleared, nothing is left to reap, and with no command running nothing of the model is alive |
| `ProcessCommand.ControlLoop.NotifyWaiters` | internal/process/process_command.go:318-326 | Every waiter gets the one reply, in order, and none is left |
| `ProcessCommand.ControlLoop.UpstreamExited` | internal/process/process_command.go:362-380 | After an unexpected exit the process reads failed, nothing of the model is alive, and the parked Run caller, and nobody else, hears of it |
| `ProcessCommand.ControlLoop.WaitForReady` | internal/process/process_command.go:385-398 | The caller is parked exactly while a start may still come, is otherwise answered at once, and hears success exactly when the process is ready |
| `ProcessCommand.ControlLoop.RunProcess` | internal/process/process_command.go:407-427 | A start begins exactly when the process is stopped or failed and nothing is being reaped, never beside a live process of the model; any other caller gets one answer and changes no state |
| `ProcessCommand.ControlLoop.StartFinished` | internal/process/process_command.go:438-492 | Every WaitReady caller is answered in order and none is left, success exactly when the process is ready; success is ready with the Run caller parked, anything else failed with the Run caller told so last; the loop's invariant and every caller's place are kept |
| `ProcessCommand.ControlLoop.StopWhileStarting` | internal/process/process_command.go:500-537 | Stop of a start: everyone waiting is answered, the stop last, truthfully exactly when the start's own abort did not give up |
| `ProcessCommand.ControlLoop.CancelWhileStarting` | internal/process/process_command.go:517-530 | Shutdown during a start ends the loop with nobody waiting or parked |
| `ProcessCommand.ControlLoop.StopProcess` | internal/process/process_command.go:540-571 | The last reply goes to the Stop caller and says success exactly when nothing is left to reap; then nothing of the model is alive |
| `ProcessCommand.ControlLoop.ParentCancelled` | internal/process/process_command.go:342-356 | Shutdown at the loop head ends the loop with nobody waiting or parked |
| `ProcessCommand.HandlingKeeps` | internal/process/process_command.go:336-573 | Whatever event the loop handles, at most one process stays alive, the invariant holds, every caller but the new one waits or has been answered as often as before, and waiters, Run and Stop callers hear what became of the process |
| `ProcessReplies.StepTells` | internal/process/process_command.go:285-574 | In every step the state follows the event, parked waiters wait on or all hear that state in order, the Run caller hears why its process is gone or its start failed, and a new caller is parked or hears what its call came to |
| `ProcessReplies.StartEndIsTold` | internal/process/process_command.go:438-492 | A start that ends tells every waiter whether the process is ready and, when it failed, its own caller last |
| `ProcessReplies.ReadinessIsTold` | internal/process/process_command.go:318-334 | In every run a WaitReady call is still parked or was told, in a step that left the process ready exactly if it was told success |
| `ProcessReplies.WaitReadyIsTruthful` | internal/process/process_command.go:318-334 | From the start: whoever called WaitReady and no longer waits heard success in a step that left the process ready, or a refusal in one that did not |
| `LifecycleRefinement.LoopMoves` | internal/process/process_command.go:336-573 | Every step of the lifecycle loop is, seen from the router, one of six moves of its model: nothing, a run accepted (by a run request only), a process up, a process gone, settled, or settled with the process left behind |
| `LifecycleRefinement.MovesAreEvents` | internal/router/base.go:580-635 | Each of those moves but the accepted run is an event of the coexistence model, enabled in that situation and with the same effect on that model alone |
| `LifecycleRefinement.RunIsAnswered` | internal/router/base.go:613-627 | A run that the loop accepts or turns down is what the swap's run request may be answered with, with the same effect on that model alone and on the swap |
| `LifecycleRefinement.StopIsEvent` | internal/process/process_command.go:500-571 | A swap's stop, at the loop head or of a start, is the coexistence event that its reply and what it leaves alive name, with the same effect on that model alone and on the swap: success leaves nothing alive but for the hidden leak, failure leaves what is alive leaked |
| `RunningSystem.StepIsMimicked` | internal/router/base.go:580-635 | Every step of the system of swaps and lifecycle loops is one step of the coexistence model or none, a late start only for a late start, and keeps every loop's invariant |
| `RunningSystem.RunsAreMimicked` | internal/router/base.go:580-635 | Every run of that system is, as the router sees it, a run of the coexistence model |
| `RunningSystem.OneProcessEach` | internal/process/process_command.go:285-574 | In every run of the system each model has at most one live OS process |
| `RunningSystem.LiveIsAllowed` | internal/router/base.go:580-635 | In every run of the system in which no start comes late, the models whose OS processes live and were not given up on are an allowed combination; when no kill gives up none is given up on |
| `RunningSystem.MatrixProcessesCoexist` | internal/router/matrix.go:56-101 | Matrix router: when no kill gives up and no start comes late, all live OS processes belong to models of one declared set, or to one model |
| `RunningSystem.SwapGroupProcessesNeverCoexist` | internal/router/group.go:69-110 | Group router: when no kill gives up and no start comes late, at most one member of a swap group has a live OS process |
| `FitEngine.SumFirstLayers` | internal/fit/fit.go:344-377 | The loop sums the expert bytes of the first n layers |
| `FitLaws.OffloadShares` | internal/fit/fit.go:417-426 | The weights are split between card and host, neither share negative |
| `FitLaws.GrowTargetFits` | internal/fit/fit.go:543-606 | Relaunching at a positive advertised context is neither "no" nor "marginal" exactly when the host side is within its budget (what the KV figure covers: the rows of `FitReports`) |
| `FitLaws.WithinCeilingScores` | internal/fit/fit.go:491-541 | A context within the advertised ceiling keeps the VRAM needed within the usable budget and the card |
| `FitLaws.LevelOfSize` | internal/fit/fit.go:543-606 | With the VRAM side within its budget the verdict is "no" or "marginal" exactly when the host side breaches its own |
| `FitLaws.FitCtxWithinPhysical` | internal/fit/fit.go:476-501 | The comfortable context ceiling never exceeds the physical one |
| `FitLaws.SafePromptFitsSlot` | internal/fit/fit.go:519-537 | A prompt of the advertised size plus the output reserve fits one parallel slot's share of the context |
| `FitLaws.BudgetWithinCard` | internal/fit/fit.go:455-487 | The budget is positive, never beyond the card, and the usable part within the physical part |
| `FitLaws.GpuFitsMonotone` | internal/fit/fit.go:491-541 | Fewer weights or more room keep a fit a fit, although the assumed context may grow with either |
| `FitLaws.OffloadGrows` | internal/fit/fit.go:344-377 | Offloading the experts of more layers never raises the GPU share nor lowers the host share, with or without an explicit number of GPU layers |
| `FitReports.KvSwaps` | internal/fit/fit.go:280-337 | Key and value lengths may change places with their bit widths |
| `FitReports.KvSplits` | internal/fit/fit.go:280-337 | Keys and values both count: their figures add up to the whole, to a byte |
| `FitReports.KvGrows` | internal/fit/fit.go:280-337 | The KV figure never falls when a bit width, a length, the KV heads or the attention layers grow |
| `FitReports.KvPerLayer` | internal/fit/fit.go:280-337 | As many attention layers give as many times the figure of one, up to rounding |
| `FitReports.KvOneByteEach` | internal/fit/fit.go:280-337 | At eight bits a token takes a byte for each element of its keys and values in every layer and KV head |
| `FitReports.KvDefaults` | internal/fit/fit.go:280-337 | What missing lengths, missing KV heads and a hybrid interval stand for |
| `FitReports.RequirementCovers` | internal/fit/fit.go:344-606 | The required VRAM covers weights, companions, 5 per cent of these and the KV cache of the whole launched context |
| `FitReports.CeilingsAreExact` | internal/fit/fit.go:344-606 | Up to the trained context the two ceilings admit exactly the contexts whose KV cache fits beside the weights, in the safe part of the budget and in all of it |
| `FitReports.ReportAddsUp` | internal/fit/fit.go:344-606 | The weights are split without rest and the run mode says how |
| `FitReports.VerdictMeans` | internal/fit/fit.go:344-606 | Each verdict holds exactly when the card or the host is, or is not, overrun, nearly full, or roomy enough for the trained context |
| `FitReports.UnderConfiguredMeans` | internal/fit/fit.go:344-606 | A deployed model is under-configured exactly when its context is a token or more below four fifths of what would fit |
| `FitReports.BudgetIsWhatIsFree` | internal/fit/fit.go:344-606 | The VRAM budget is what is free once the weights are placed, capped by the card |
| `FitReports.SafePromptIsLargest` | internal/fit/fit.go:344-606 | The prompt budget is the largest that leaves 8 per cent of the share and the output reserve |
| `Placement.FitsMonotone` | internal/placement/placement.go:295-301 | What fits with n layers offloaded fits with more, and with a larger budget |
| `Placement.BinarySearch` | internal/placement/placement.go:304-314 | On a monotone predicate the binary search finds what a linear scan finds |
| `Placement.SearchMoe` | internal/placement/placement.go:302-318 | The search returns the least layer count whose GPU share fits, or none |
| `Placement.MoePlanExists` | internal/placement/placement.go:302-342 | The hybrid search succeeds exactly when some layer count meets both budgets |
| `Placement.MoePlanIsLeast` | internal/placement/placement.go:302-342 | The plan's layer count meets both budgets and no smaller one fits the GPU |
| `Placement.TighterBudgetOffloadsMore` | internal/placement/placement.go:302-318 | A smaller VRAM budget never gives a smaller layer count |
| `Placement.ConfidentPlansStayInBudget` | internal/placement/placement.go:151-261 | A confident plan that loads the model stays within VRAM budget minus GPU reserve and available host memory minus host reserve |
| `Placement.RefusesExactlyWhenNothingFits` | internal/placement/placement.go:204-260 | With usable budgets a refusal means exactly that full GPU, every hybrid split and CPU-only all miss them |
| `Placement.CpuOnlyWithinBudgets` | internal/placement/placement.go:265-293 | A CPU-only plan stays within the host budget |
| `Placement.ReservesHold` | internal/config/placement.go:77-100 | Reserves are as configured, else at least the floor and the share of the memory, and no more |
| `Launch.FindAfter` | internal/server/confighelpers.go:223-285 | Applying a flag sets that setting and no other; a setting without a value is left as it was |
| `Launch.PlansLaunchAsScored` | internal/server/apifit.go:250-281 | Every confident plan, read back from the command its flags make: the fit engine at those parameters meets the VRAM and host budgets and gives the plan's own estimate; a CPU plan puts no layer on the card, a dense split asks for exactly the target and context it reports |
| `Launch.UnsureLeavesAlone` | internal/placement/placement.go:184-342 | A plan that is not confident emits no flags; pinned commands, GPU-only policy and unknown sizes are left alone |
| `Launch.ChoosesInOrder` | internal/placement/placement.go:184-342 | The card exactly when it fits, else a split exactly when one meets both budgets, else the CPU exactly when the host holds it |
| `Launch.RatedByHostShare` | internal/placement/placement.go:184-342 | The performance class follows the share of the model left on the host, 35 per cent dividing fast from CPU-bound |
| `Ladder.NextSaferPlan` | internal/placement/ladder.go:62-81 | The rung tried next gives up least among the open ones that yield a plan; none when no open rung does |
| `Ladder.LadderEnds` | internal/placement/ladder.go:62-81 | At most four retries, two after the host ran out of memory |
| `Ladder.WidenOffloadsAtLeastAsMuch` | internal/placement/ladder.go:89-104 | Widening the reserve never puts experts back on the card |
| `Ladder.ShrunkContextKeepsFloor` | internal/placement/ladder.go:116-135 | The reduced context is smaller than the current one and not below the policy's floor |
| `Launch.ShrunkBatchLaunch` | internal/placement/ladder.go:106-114 | The smaller batch is what is launched, with placement and context as before |
| `Launch.ShrunkContextLaunch` | internal/placement/ladder.go:116-135 | The smaller context is what is launched, with the placement as before |
| `Launch.FullCpuMoeLaunch` | internal/placement/ladder.go:137-150 | All experts go to the CPU, whatever count the previous plan pinned; everything else launches as before |
| `Launch.FullCpuMoeFreesCard` | internal/fit/fit.go:344-378 | Moving all experts leaves no more weight on the card than any split did |
| `Launch.WidenedLaunch` | internal/placement/ladder.go:89-104 | The widened reserve takes at least half of its growth off the budget, and the new plan launches as scored against what is left |
| `DslLexer.Tokenize` | internal/config/matrix_dsl.go:31-84 | One pass by index yields the tokens, or the first error, of the text |
| `DslLexer.SkipName` | internal/config/matrix_dsl.go:60-62 | Advances past exactly the longest run of name characters |
| `DslLexer.LexSpell` | internal/config/matrix_dsl.go:31-84 | Tokens written out and tokenized again are the same tokens |
| `DslLexer.LexWellFormed` | internal/config/matrix_dsl.go:31-88 | The end mark is last and only there; names are non-empty runs of name characters |
| `DslLexer.LexKeepsText` | internal/config/matrix_dsl.go:31-88 | The tokens one after another are the text without its white space |
| `DslLexer.LexFailsExactly` | internal/config/matrix_dsl.go:31-84 | Tokenizing fails exactly when some character fits nowhere, with the error of the first one |
| `DslParser.Parser.Next` | internal/config/matrix_dsl.go:122-135 | Reading a token advances by one and never past the end mark |
| `DslParser.Parser.ParseOrExpr` | internal/config/matrix_dsl.go:169-189 | The loop over alternatives is the grammar's recursive reading of them |
| `DslParser.Parser.ParseAndExpr` | internal/config/matrix_dsl.go:191-211 | The loop over conjuncts is the grammar's recursive reading of them |
| `DslParser.Parser.ParseAtomExpr` | internal/config/matrix_dsl.go:213-239 | A name, a reference or a parenthesised expression, or an error |
| `DslParser.ParseTokens` | internal/config/matrix_dsl.go:153-163 | Parsing ends, and succeeds only when the end mark follows the expression |
| `DslGrammar.ParsesExactlyTheGrammar` | internal/config/matrix_dsl.go:147-239 | A token list is parsed to a tree exactly when a derivation of the grammar, in which "and" binds tighter than "or", spells it and stands for that tree |
| `DslGrammar.RenderingParsesBack` | internal/config/matrix_dsl.go:153-239 | The parenthesised rendering of a tree parses back to it exactly when its and- and or-nodes have at least two children |
| `DslGrammar.TextParsesBack` | internal/config/matrix_dsl.go:31-239 | A tree written out as text is tokenized and parsed back to itself |
| `DslGrammar.ParsedTreeWell` | internal/config/matrix_dsl.go:153-239 | Parsed and- and or-nodes have at least two children and references come from reference tokens |
| `DslExpand.CartesianProduct` | internal/config/matrix_dsl.go:298-312 | Every left combination followed by every right one, in order, unless the count exceeds the cap |
| `DslExpand.ExpandNode` | internal/config/matrix_dsl.go:243-294 | The recursive expansion with its loops is the fold over the children |
| `DslExpand.ExpandsExactly` | internal/config/matrix_dsl.go:243-294 | Expansion succeeds exactly when all references resolve and every and- and or-node counts at most 1000; the result is exactly the combinations the tree means, as many as sums and products count |
| `DslExpand.ProductMeaning` | internal/config/matrix_dsl.go:298-312 | A product holds exactly the joins of a left and a right combination |
| `DslExpand.ExpandsInOrder` | internal/config/matrix_dsl.go:243-312 | The k-th combination is the k-th meaning: alternatives one after the other, the first factor turning slowest |
| `ModelNames.DedupAndSort` | internal/config/matrix_dsl.go:346-357 | The loop over seen names and the sort give the canonical form |
| `ModelNames.CanonicalForm` | internal/config/matrix_dsl.go:346-357 | The canonical form is strictly increasing and keeps the set of models |
| `ModelNames.CanonicalEqual` | internal/config/matrix_dsl.go:346-357 | Two combinations get the same form exactly when they hold the same models |
| `ModelNames.SortSorts` | internal/config/matrix.go:149 | Sorting permutes names into order |
| `DslCompile.ParseAndExpand` | internal/config/matrix_dsl.go:316-343 | Trim, tokenize, parse, expand and bring each combination to canonical form, with the first error |
| `DslCompile.CompilesExactly` | internal/config/matrix_dsl.go:316-343 | An expression compiles exactly when it parses, resolves and stays small; the result is the model sets of what it means |
| `DslCompile.CompilesInOrder` | internal/config/matrix_dsl.go:316-343 | The k-th model set is that of the k-th combination the expression means |
| `DslCompile.CompileBlames` | internal/config/matrix_dsl.go:316-343 | Each error means what it says: blank text, text without tokens, tokens without a tree, a tree that cannot be expanded |
| `DslCompile.LexTrim` | internal/config/matrix_dsl.go:317 | Trimming leaves the tokens as they are, so references are extracted from the same tokens that are parsed |
| `DslCompile.ExtractRefs` | internal/config/matrix_dsl.go:361-376 | The references in order of first mention, or the tokenizer's error |
| `DslCompile.ReferredToIsExact` | internal/config/matrix_dsl.go:361-376 | Each reference token's name once and nothing else |
| `DslCompile.CompileReads` | internal/config/matrix_dsl.go:248-252 | With its extracted references resolved an expression never fails on an unknown one and depends on nothing else in the table |
| `TopoSort.TopologicalSort` | internal/config/matrix.go:172-208 | Fails exactly when the references form a cycle; otherwise lists every set once, after all it refers to and otherwise as declared: each is reached from a declared set before which all earlier declared ones are listed |
| `TopoSort.Sorter.Visit` | internal/config/matrix.go:177-197 | A visit lists the set and what it leads to, or has found a cycle |
| `TopoSort.OrderedIsAcyclic` | internal/config/matrix.go:172-208 | An order with references first exists only without cycles |
| `TopoSort.DeclaredOrder` | internal/config/matrix.go:199-206 | Sets without references are listed in the order of their declarations |
| `SwapMatrix.ValidateMatrix` | internal/config/matrix.go:64-168 | Accepts exactly the well-formed configurations for which a table solves every set's expression at once, with known names and at most 1000 combinations; returns the rows of that table set by set in that order under real names; otherwise the error names something that is wrong, with nothing checked before it wrong, and is never an unknown set reference |
| `SwapMatrix.ExpandAll` | internal/config/matrix.go:122-165 | Expanding in order finds the solution if there is one |
| `SwapMatrix.OrderSets` | internal/config/matrix.go:97-122 | Orders the sets references first and otherwise as declared; fails exactly on an undefined reference, bad tokens or a cycle, and names the set, the reference and the tokenizer's error |
| `SwapMatrix.BuildGraph` | internal/config/matrix.go:97-116 | The reference graph, unless a set's tokens are bad or it refers to an undefined set |
| `SwapMatrix.CheckVars` | internal/config/matrix.go:74-83 | Passes exactly when every key has the right form and names a known model; else names an offending key |
| `SwapMatrix.CheckCosts` | internal/config/matrix.go:86-95 | Passes exactly when every cost is positive and belongs to a declared name; else names an offending cost |
| `SwapMatrix.ResolveSet` | internal/config/matrix.go:140-156 | A set's combinations under real model names, sorted, or nothing when a name is unknown |
| `SwapMatrix.TableMeaning` | internal/config/matrix.go:130-138 | In the resulting table each set holds exactly the model sets its expression means |
| `SwapMatrix.TableOrder` | internal/config/matrix.go:130-138 | The k-th combination of a set in the resulting table is that of the k-th meaning of its expression |
| `Phases.LegalIsFinal` | internal/operation/transitions.go:41-54 | A history of allowed steps never leaves a terminal phase |
| `Phases.NothingSkipped` | internal/operation/transitions.go:15-54 | A history that starts queued stores every earlier phase before a later one |
| `Phases.AllowedSteps` | internal/operation/transitions.go:15-54 | Failing and cancelling are open until the end, otherwise only the next phase of the happy path, and nothing after the end |
| `OperationStore.Operation.TransitionTo` | internal/operation/transitions.go:60-67 | Changes phase and time exactly when the step is allowed |
| `OperationStore.Operation.Fail` | internal/operation/transitions.go:73-79 | Fails with the given code unless already terminal |
| `OperationStore.Operation.Cancel` | internal/operation/transitions.go:87-92 | Idempotent; refused only after another terminal phase |
| `OperationStore.Store.Save` | internal/operation/store.go:145-164 | Replaces the record unless a different terminal phase is stored |
| `OperationStore.CancelRequest` | internal/server/apimodeloperations.go:444-460 | A cancellation beside a running executor is accepted only when it is stored, refused only after success or failure, and keeps the history legal |
| `Downloads.FetchArtifact` | internal/operation/executor.go:517-547 | Resuming yields the rest of the content, restarting all of it, after 200 or 416 to a range request |
| `Downloads.Install` | internal/operation/executor.go:672-685 | Renames each partial file into place, skipping what is in place; stopped early, it has installed exactly a first part of the artifacts |
| `Downloads.InstallPutsBytes` | internal/operation/executor.go:672-685 | Every destination ends with the bytes its source held, repeats included, when no destination is a later artifact's partial file |
| `Downloads.InstallGoesThrough` | internal/operation/executor.go:672-685 | With a file for every artifact and the names apart no rename is refused |
| `Downloads.ApartIsNeeded` | internal/operation/executor.go:672-685 | An artifact installed over a later one's partial file gives that one the wrong bytes |
| `Executor.Executor.Advance` | internal/operation/executor.go:280-294 | A phase is stored unless a cancellation is; then the run stops with the cancellation stored |
| `Executor.Executor.StopIfCancelled` | internal/operation/executor.go:260-266 | True exactly when a cancellation is stored, while reads work |
| `Executor.Executor.SaveProgress` | internal/operation/executor.go:578-588 | Records the byte count; true exactly when the store holds another terminal phase |
| `Executor.Executor.ReadBody` | internal/operation/executor.go:441-485 | Whatever happens the file is what it was plus a prefix of the body; at the end, all of it |
| `Executor.Executor.DownloadOne` | internal/operation/executor.go:384-502 | A partial file that was a prefix of the content stays one; a download read to its end leaves the whole content, resumed or restarted; a complete artifact is left alone |
| `Executor.Executor.Download` | internal/operation/executor.go:356-363 | However it ends, destinations are untouched and partial files stay prefixes; ended well on a good plan, every artifact is settled |
| `Executor.Executor.Verify` | internal/operation/executor.go:604-638 | Passes exactly when every artifact's file is there with the right size and digest; a failure blames a file that does not pass, a missing file is an internal error, a missing digest is noted |
| `InstallPlan.InstalledVerified` | internal/operation/executor.go:604-685 | Installed are exactly the bytes that were verified |
| `Executor.Executor.Finish` | internal/operation/executor.go:247-311 | Ends in a stored terminal phase, with the error recorded, and never overwrites a cancellation |
| `Executor.Executor.Register` | internal/operation/executor.go:214-239 | Registers once, after the registering phase was saved with no cancellation stored before |
| `Executor.Executor.Run` | internal/operation/executor.go:167-240 | Beside any cancellations: every stored change is an allowed step, terminal phases stay, registration happens at most once and never after a cancellation stored before its phase, only with verified files in place (no destination being a later artifact's partial file); the run ends terminal on a reliable store; however it ends a good start stays one and partial files stay prefixes; without faults it fails exactly when some artifact is spoiled at the start, where each can be resumed or is left alone, and from any start only if one is spoiled at the end; the error code it ends with names what went wrong: the resolver's, a file that does not pass, or an interruption, and never an interruption without a fault |
| `InstallPlan.InterruptedThenSmooth` | internal/operation/executor.go:384-502 | After any number of attempts that ended in any way, from a good start the next smooth one succeeds with exactly the content installed, or is cancelled |
| `InstallPlan.StalePartialFails` | internal/operation/executor.go:400-405 | A smooth attempt over a finished installation that is not cancelled fails if and only if some partial file is there that does not pass its artifact's checks |
| `InstallPlan.SpoiledForever` | internal/operation/executor.go:400-420 | On a good plan, from files of which one is spoiled (its destination or its partial file has the declared size, so it is left alone, but the file to check does not pass) no number of attempts ever succeeds |
| `InstallPlan.FailedForGood` | internal/operation/executor.go:604-638 | On a good plan, once a smooth attempt has failed, from whatever start, no later attempt ever succeeds |
| `InstallPlan.StalePartialArises` | internal/operation/executor.go:400-405 | A concrete finished installation with an empty partial file beside it: every attempt fails |
| `InstallPlan.WrongBytesArise` | internal/operation/executor.go:413-420 | A concrete full-size partial file with wrong bytes and nothing installed: spoiled as well |
| `InstallPlan.SettledVerifies` | internal/operation/executor.go:604-638 | Files the download has settled pass verification exactly when none is spoiled, and can then be installed |
| `InstallPlan.InstallingKeeps` | internal/operation/executor.go:672-685 | However far an installation gets, partial files stay prefixes of their content and complete files the content |
| `InstallPlan.OneDownloadKeeps` | internal/operation/executor.go:384-502 | Downloads change no destination, keep prefixes over all artifacts, and leave alone what has a destination of the right size |
| `LogBuffer.CircularBuffer.Write` | internal/logmon/logging.go:40-68 | After a write the buffer holds the last bytes of everything written |
| `LogBuffer.CircularBuffer.GetHistory` | internal/logmon/logging.go:70-89 | The last min(capacity, total) bytes of everything written |
| `LogBuffer.HistoryIsTheLastBytes` | internal/logmon/logging.go:40-89 | Dropping old bytes write by write keeps the last bytes of all writes together |
| `LogBuffer.WroteKeeps` | internal/logmon/logging.go:53-66 | Writing round the end of the ring keeps the older bytes that still fit in their places |

## Left out

- HTTP serving and proxying, telemetry, discovery, user interface, command-line tools and the older `proxy/` package.
- YAML, JSON, GGUF and shell parsing: configurations, model shapes, set expressions and a command's settings come as decoded values, so a flag's short names and its `=` form are one.
- The free-space formula of the download's preflight, which may succeed or fail here.
- Float rounding: the fractions of the fit engine are exact reals.
- Machine integers: sizes and counts are unbounded; the product compared with the cap in cartesianProduct cannot overflow at the sizes involved.
- Queue-position broadcasts, log and reason texts, load deadlines, retry budgets, and the crash-loop breaker.
- Timers: health-check polling, grace periods and unload timeouts are events that may or may not happen.
- Records of other operations, pruning, listing and startup recovery: the store here is one operation's record.
- The choice of the weights file handed to the registrar, and what registration writes.
- Other programs or operations changing an operation's files while it runs.
- `Coexistence.MatrixModelsCoexist`: does not cover runs in which a start comes after its swap's entry was dropped, and promises nothing of leaked processes that do not fit the combination in force, because the claim fails there (see `CoexistenceLimits.MatrixSafeExactly`).
- `Coexistence.SwapGroupMembersNeverCoexist`: excludes late starts and leaked siblings for the same reason (see `CoexistenceLimits.GroupSafeExactly`).
- `Coexistence.InvariantOfRuns`: excludes late starts, after which it fails.
- `RunningSystem.LiveIsAllowed`: excludes late starts, as `Coexistence.InvariantOfRuns` does.
- `RouterProgress.ReportsEnd`: that each outstanding goroutine and handler does report is up to the processes and is not part of the model.
- `Executor.Executor.Run`: says nothing about allowed steps on a store whose writes fail, because a lost write makes the next stored phase skip one; with working reads alone it still keeps terminal phases and the registration rule.
- `Executor.Executor.ReadBody`: a read that returns no byte, no error and no end is not modelled.
