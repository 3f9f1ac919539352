# Verification of the transpiler benchmark harness

This project models the decision-heavy kernels of a benchmark harness for a quantum-circuit
transpiler and proves properties of them: the routing-replay checker, the depth metrics, the
cost monitor and the independent validator of its evidence, the write-ahead job ledger and its
manager, the session protocol, the shared baseline store, the append-only record log, the worker
and verifier loops, the cost guard, the schedule check, the bounded branching simulator, and the
weights, estimators and verdict of the evaluation.

`dafny verify dfyconfig.toml` checks the whole project.

## How the model is laid out

| file | component |
|---|---|
| `Circuits`, `Permutations` | operation lists, commuting wire-disjoint neighbours, bijections of wires |
| `Replay`, `ReplayQueues`, `ReplayReadings`, `ReplayGreedy`, `ReplayExact`, `ReplayEmit`, `ReplayMetrics` | the routing replay: its specification over pending lists, the loops over queues, readings of a routed circuit, the greedy choice, the exact meaning, what a router may emit, and what it says about metrics |
| `Depth`, `Structure` | `D2`/`N2` as a longest path, and the streaming structural checker |
| `Sums` | sums of lists of reals |
| `ProcessTree`, `Monitor`, `Evidence` | CPU of a changing process tree, the worker hooks, and the validator |
| `PanelRounds`, `CostGuard`, `CostBreaches`, `Costs` | the jobs of a cost regime, the guard, what it says of the two arms, measuring against replaying |
| `Ledger`, `Orchestration`, `LedgerExamples`, `Manager` | the job ledger, every run with crashes and resumes, some runs that happen, and the manager's loops |
| `Session` | stage states, decide's snapshot, clean |
| `StoreBuilds`, `StoreResults`, `StoreQuality`, `Storage` | the shared store's three protocols, and the record log |
| `Worker`, `Observations`, `VerifierCache` | exact coverage of seeds, exactly-once observations, cached verification |
| `Dynamic`, `DynamicLaws`, `Simulator` | the bounded branching simulator: its meaning, what each instruction does, and its loops over a shared counter |
| `Schedule` | the schedule check |
| `Weights`, `Estimates`, `EstimateLaws`, `Verdict` | hierarchical weights, paired estimators, what a grade says of the metrics, the verdict |

Components that the program updates step by step are methods and classes with loops; each is
proved against a specification (`ensures`), and what the program is for is proved of the
specification. Processes that run beside each other are state machines, and their theorems are
over every run. Workers, the scheduler, the verifier and the clock are nondeterministic
environments; a kill may happen between any two durable writes.

Numbers are exact: times, counters, metrics and weights are reals or integers, and the
logarithm, the square root and the median are parameters of which only stated facts are used
(`ln(1) = 0`, `ln` grows, roots and medians of positive values are positive). Digests and JSON
encodings are injective, except where the code truncates a digest (`PanelRounds`). Parameters and
payloads of operations are their canonical text.

## What was found

- **The replay is complete for logical circuits with swap gates too.** The loop greedily takes a
  swap as a logical operation when it can. `ReplayGreedy.Greedy` runs it beside any other reading
  of the routed circuit and shows that it never loses by that choice, so `ReplayExactly` is an
  if-and-only-if without a restriction to swap-free circuits.
- **A narrowing circuit is checked against its output wires only.** For circuits that do not
  narrow, `Replay.ElidedAccepted` shows that the elided list has to be a bijection of the input
  wires. When there are fewer output than input wires, a bijection of the output wires is taken
  instead (`ReplayExact.ElidedOfInputs`, `NarrowingExample`).
- **A window's worker CPU is not always what the tree consumed.** When a process exits before a
  child of its own, the child's recorded time leaves the worker's tree. `ProcessTree.WindowCpu`
  says exactly what is computed: consumed minus what such orphans took away, clamped at zero, and
  exactly when the clamp fires. `OrphanExample` is a concrete tree in which it fires;
  `WindowsTelescope` is the promised conservation for runs in which processes exit only after
  their children were collected.
- **The structural checker counts more than `d2_n2`.** It does not exclude barrier, delay,
  measure and reset from the native names. `Structure.MetricsAgreeExactly` shows that the two agree
  exactly on circuits without a two-qubit operation of such a name that the target calls native;
  `DisputedMeasure` is one on which they differ.
- **The structural checker can raise instead of reporting.** An operation nested in a block is
  checked against the circuit's width and then looked up in the block's own wires.
  `Structure.Rules.RaisesExactly` gives the exact condition; `NestedIndexRaises` is a block on one
  qubit whose operation uses the second one.
- **Job labels rest on twelve digits.** The label names the job's directory, which must not exist
  yet. `PanelRounds.Collection.MeasureRounds` shows that a companion or memory panel can be measured
  exactly when the truncated digests of its cases differ; with two cases that share a prefix the
  second one's job raises an error in the first round, at every attempt.
- **A makespan can miss an operation.** An operation without any wire is in no dependency of the
  schedule and in no wire's end. `Schedule.MakespanBoundsChains` shows that the makespan bounds
  every dependency chain exactly when no such operation takes longer; `WirelessMissed` is a verified
  schedule in which one does.

## Model

| member | source | states |
|---|---|---|
| Circuits.TraceIsWireOrder | src/qtb/metrics/replay.py:18-50 | two circuits are equal up to exchanging adjacent operations without a shared wire exactly when every wire sees its operations in the same order, which is why per-wire queues suffice |
| Circuits.MatchAt | src/qtb/metrics/replay.py:43-50 | an operation can be taken out of the pending list exactly when the first pending one that meets it is equal to it |
| Permutations.PermutationIsBijective | src/qtb/metrics/__init__.py:46-48 | a list that sorts to the range is a bijection of the wires |
| Replay.LayoutAccepted | src/qtb/metrics/__init__.py:34-55 | a layout has no errors exactly when its three lists are permutations of the right width and the final one is the initial one followed by the routing one |
| Replay.ElidedAccepted | src/qtb/metrics/replay.py:15-17 | the padded elided list is accepted exactly when the given one is a bijection of the input wires, or of the output wires when the circuit narrows; none or an empty one is the identity |
| Replay.WalkKeepsWidth | src/qtb/metrics/replay.py:30-54 | the physical-to-virtual map stays a bijection through the whole replay |
| Replay.InverseBijective | src/qtb/metrics/replay.py:30-32 | the initial map is the inverse of the initial layout |
| ReplayQueues.HeadsMatchPending | src/qtb/metrics/replay.py:43-48 | all queue heads agree on an equal operation exactly when it can be taken from the pending list |
| ReplayQueues.Enqueue | src/qtb/metrics/replay.py:28-29 | an operation enters the queue of each of its wires, once per occurrence |
| ReplayQueues.Dequeue | src/qtb/metrics/replay.py:49-50 | one entry per wire occurrence leaves the queues |
| ReplayQueues.Load | src/qtb/metrics/replay.py:18-29 | the queues hold the barrier-free logical circuit; refused exactly outside the static model |
| ReplayQueues.PlaceQubits | src/qtb/metrics/replay.py:30-32 | the in-place array becomes the inverse of the initial layout |
| ReplayQueues.Advance | src/qtb/metrics/replay.py:34-60 | one routed operation does to the queues what the specification does to the pending list, in every branch |
| ReplayQueues.ReplayCircuit | src/qtb/metrics/replay.py:9-68 | the whole replay over queues and array returns the specified report: status, detail and routing swaps |
| ReplayReadings.UndoCounts | src/qtb/metrics/replay.py:34-60 | every non-barrier routed operation is an executed one or a routing swap |
| ReplayReadings.UndoKeepsBijection | src/qtb/metrics/replay.py:51-54 | any choice of routing swaps keeps the wire map a bijection |
| ReplayReadings.WalkIsReading | src/qtb/metrics/replay.py:34-62 | what the replay consumes, renamed through the current map, has the logical circuit's order on every wire |
| ReplayGreedy.Diamond | src/qtb/metrics/replay.py:43-50 | two next operations without a shared wire can be consumed in either order |
| ReplayGreedy.TakeMet | src/qtb/metrics/replay.py:43-50 | consuming an operation early leaves the rest as if it had been consumed in its turn |
| ReplayGreedy.RacePayback | src/qtb/metrics/replay.py:43-54 | a swap the loop took too early as a logical one is paid back by the swap that the other reading takes |
| ReplayGreedy.Greedy | src/qtb/metrics/replay.py:34-62 | whatever reading of the routed circuit exists, the greedy loop ends with nothing pending at the same wire map |
| ReplayExact.ReplaySound | src/qtb/metrics/replay.py:9-68 | a verified replay is the logical circuit up to commuting, after dropping the counted swaps and renaming; the wire map starts as the inverse of the initial layout, stays a bijection and ends with every final position holding the wire that the given elided list names, or its own; routed count = logical count + routing swaps |
| ReplayExact.ReplayComplete | src/qtb/metrics/replay.py:9-68 | any dependency-respecting order with routing swaps and barriers anywhere, relabelled through an accepted layout, is verified |
| ReplayExact.ReplayExactly | src/qtb/metrics/replay.py:9-68 | verified exactly when some choice of routing swaps explains the routed circuit, from the start that the initial layout gives to the end that the final layout and the given elided list promise |
| ReplayExact.RequestHonoured | src/qtb/metrics/__init__.py:34-55 | with a requested placement, no errors exactly when the layout fits and the input qubits are where it asks |
| ReplayExact.RefusedUnlessPosed | src/qtb/metrics/replay.py:10-26 | a layout or an elided list that does not fit is refused as a mismatch, and nothing that does not fit is verified |
| ReplayExact.VerdictsMean | src/qtb/metrics/replay.py:34-60 | unverified only for a routed operation outside the static model or like no logical one; refused as a mismatch only for a wire that does not exist or a known gate that cannot be replayed; otherwise replayed to the end |
| ReplayExact.ElidedOfInputs | src/qtb/metrics/replay.py:15-17 | a given list that is no bijection of the input wires is refused exactly when the circuit does not narrow or the list is none of the output wires either |
| ReplayExact.NarrowingExample | src/qtb/metrics/replay.py:15-17 | a list of one wire is verified for a circuit of two input wires and one output wire |
| ReplayEmit.EmitUndone | src/qtb/metrics/replay.py:34-60 | undoing what a router emits gives its order back, whatever swaps and barriers it inserts |
| ReplayEmit.EmittedIsVerified | src/qtb/metrics/replay.py:9-68 | the logical operations in any order that respects the wires, placed where their qubits sit, with any swaps and barriers between them, are verified with exactly the inserted swaps counted |
| ReplayEmit.VerifiedIsEmitted | src/qtb/metrics/replay.py:9-68 | and every verified circuit is one that such a plan emits |
| Depth.HighestIsLongestChain | src/qtb/metrics/__init__.py:16-31 | the highest wire level is the largest number of counted gates on any wire-sharing dependency chain |
| Depth.LongestChainUnique | src/qtb/metrics/__init__.py:16-31 | that number is well defined |
| Depth.TraceKeepsMetrics | src/qtb/metrics/__init__.py:16-31 | exchanging adjacent wire-disjoint operations changes neither D2 nor N2 |
| Depth.D2N2 | src/qtb/metrics/__init__.py:16-31 | the streaming loop returns the longest chain and the gate count; refused exactly for control flow |
| Depth.Raise | src/qtb/metrics/__init__.py:27-29 | one operation raises its wires to the next level and leaves the others |
| Structure.StructuralChecker.Consume | src/qtb/metrics/__init__.py:82-146 | an operation and everything nested in its blocks, renamed to the wires they stand for, add exactly the specified errors, active qubits, control flow and counted operations; an index without an entry raises |
| Structure.StructuralChecker.Result | src/qtb/metrics/__init__.py:149-153 | the streamed levels give the longest chain and count of what was consumed |
| Structure.Check | src/qtb/metrics/__init__.py:61-153 | raises exactly when some block uses a wire that it has not; otherwise clean exactly when the width is the target's and every operation at every nesting depth is well-formed and a barrier or supported, with its arity, allowed ordered qubits and admitted parameters; a clean circuit has metrics exactly when it is static, and they are its longest chain and count of native two-qubit operations; the active qubits are those that something but a barrier acts on |
| Structure.Rules.OneExactly | src/qtb/metrics/__init__.py:82-136 | an operation with its blocks has no error exactly when it and everything nested in it is legal |
| Structure.RulesExactly | src/qtb/metrics/__init__.py:61-80 | supported is what the target names, as it says, and under loose constraints also measurement, reset and delay of one qubit and control flow |
| Structure.MetricsAgreeExactly | src/qtb/metrics/__init__.py:16-31 | checker and d2_n2 agree on both metrics exactly without native two-qubit operations named barrier, delay, measure or reset |
| Structure.Rules.RaisesExactly | src/qtb/metrics/__init__.py:96-97 | an error is raised exactly when some well-formed nested operation uses a wire that its block has not |
| Structure.NestedIndexRaises | src/qtb/metrics/__init__.py:96-97 | a concrete block with such an operation |
| Structure.DisputedMeasure | src/qtb/metrics/__init__.py:137-146 | a two-qubit measurement that the target calls native: the checker has D2 = N2 = 1 where d2_n2 has 0 |
| ReplayMetrics.VerifiedKeepsMetrics | src/qtb/metrics/replay.py:34-68 | a verified replay, swaps removed and labels undone, has the logical circuit's D2 and N2 |
| ProcessTree.Conservation | lsf/cost_monitor.py:182-194 | over any run of spawns, work, exits and collections, in any order and sampled anywhere between them, the tree's total grows by what it consumed less what orphans took away |
| ProcessTree.ExitTotal | lsf/cost_monitor.py:182-194 | a process that exits hands its children to init, and the tree loses exactly those orphans' time |
| ProcessTree.ReapTotal | lsf/cost_monitor.py:182-194 | collecting an ended child moves its time to its parent and loses nothing |
| ProcessTree.WindowCpu | lsf/cost_monitor.py:529-559 | a window's worker CPU is consumed minus lost, clamped at zero; it is exact, and the clamp fires, under exactly stated conditions |
| ProcessTree.WindowsTelescope | lsf/cost_monitor.py:529-559 | without orphans every window is exact and the windows sum to the whole tree's consumption |
| ProcessTree.OrphanFiresClamp | lsf/cost_monitor.py:537-543 | the exit of a child that leaves a busy child of its own makes the raw window negative |
| ProcessTree.OrphanExample | lsf/cost_monitor.py:537-543 | a concrete process table in which the clamp fires |
| ProcessTree.CollectedExample | lsf/cost_monitor.py:182-194 | a child that worked, ended and was collected leaves its time with its parent |
| ProcessTree.Descendants | lsf/cost_monitor.py:166-180 | the worklist returns the exact transitive closure, each process once, and ends |
| Evidence.RecordProblems | lsf/cost_evidence.py:175-231 | no problem is found exactly when the record is admissible |
| Evidence.WindowsTileLife | lsf/cost_evidence.py:190-216 | admissible windows tile the time from launch to exit, up to the tolerance, and each is bounded |
| Evidence.MeasuredForeignBounded | lsf/cost_evidence.py:213-231 | the foreign CPU of a measured interval is at most the sum of its windows' check-A limits, over windows that cover it |
| Monitor.SampleCpu | lsf/cost_monitor.py:535-543 | the two sums over samples are the specified worker CPU |
| Monitor.WorkerHooks.Close | lsf/cost_monitor.py:529-559 | a window holds the exact differences of two samples; refused exactly when the time does not advance or busy time or the worker's own counter falls |
| Monitor.WorkerHooks.Judge | lsf/cost_monitor.py:587-602 | every window is recorded; only a decisive one that fails check A aborts |
| Monitor.WorkerHooks.Boundary | lsf/cost_monitor.py:561-585 | boundary events split the window; the first of a pair opens a measured interval at the sample, the second closes it there; it breaks or aborts under exactly stated conditions |
| Monitor.WorkerHooks.Progress | lsf/cost_monitor.py:604-612 | a poll closes a window exactly once it is long enough; it goes on, breaks or aborts under exactly stated conditions, and keeps the record clean |
| Monitor.WorkerHooks.Reaped | lsf/cost_monitor.py:619-636 | a process that ended cleanly has an admissible record |
| Monitor.CleanIsAdmissible | lsf/cost_evidence.py:175-231 | what the hooks keep is all that the validator asks for |
| Monitor.RunProcess | lsf/cost_monitor.py:501-636 | with timely polls and alternating boundaries the validator finds no problem exactly when every needed sample is there and advances and no window of a measured interval fails check A; the record is then of this process from launch to exit |
| PanelRounds.Collection.MeasureRounds | src/qtb/coordinator/costs.py:271-327 | finishes exactly when no two jobs of the panel share a label and every worker delivers; then the jobs number what the validator expects, are balanced over the arms and have unique labels, and every sample slot has one value per round |
| PanelRounds.RanApart | lsf/cost_evidence.py:141-154 | a job list without a repeated label has the expected number of jobs, is balanced, and is of a panel whose labels are all apart |
| PanelRounds.ArmOfOne | lsf/cost_evidence.py:149-152 | an arm's number of jobs counts the jobs of that arm |
| PanelRounds.TakenBefore | src/qtb/coordinator/process.py:49-51 | a job directory that already exists is that of an earlier case of the same round with the same digest prefix |
| PanelRounds.SharedPrefix | src/qtb/coordinator/costs.py:287-300 | two cases with one digest prefix: the measurement ends at a job directory that exists |
| CostGuard.EstimatePositive | src/qtb/evaluator/cost.py:73-90 | an estimate that is not refused is positive, so the ratios are defined |
| CostGuard.EqualArmsNeverBreach | src/qtb/evaluator/cost.py:93-106 | equal measurements in both arms never breach, in any regime of a legal policy |
| CostGuard.ScreenIsStricter | src/qtb/evaluator/cost.py:48-70 | what breaches the full band also misses the screen's |
| CostGuard.Guard | src/qtb/evaluator/cost.py:141-169 | only a bundle that validates is judged, at its own regime |
| CostBreaches.JudgedExactly | src/qtb/evaluator/cost.py:109-156 | a bundle is judged exactly when it is complete two-arm evidence of this run, one session and this policy, with as many rounds as the regime asks for and samples that can be estimated |
| CostBreaches.EstimateExactly | src/qtb/evaluator/cost.py:73-91 | which samples have an estimate |
| CostBreaches.JudgedIsEstimated | src/qtb/evaluator/cost.py:151-155 | a judged bundle has a positive estimate of every case of the panel in both arms |
| CostBreaches.EqualSamples | src/qtb/evaluator/cost.py:73-91 | equal samples are estimated at their value, in every shape |
| CostBreaches.BreachedExactly | src/qtb/evaluator/cost.py:93-106 | breached exactly when some case of the evolved arm exceeds both the case ratio and its estimator's floor against the baseline, or the weighted log ratios of evolved to baseline exceed the regime's band |
| CostBreaches.NoSlowerNeverBreaches | src/qtb/evaluator/cost.py:93-106 | a candidate that is no slower, and no larger, in any case never breaches |
| CostBreaches.CaseTooSlowBreaches | src/qtb/evaluator/cost.py:97-101 | one case that is too slow relatively and absolutely breaches |
| CostBreaches.PanelTooSlowBreaches | src/qtb/evaluator/cost.py:95-105 | a panel all of whose cases exceed the panel ratio breaches |
| CostBreaches.SlowerStaysBreached | src/qtb/evaluator/cost.py:93-106 | raising evolved or lowering baseline estimates never turns a breach into a pass |
| CostBreaches.TenfoldExample | src/qtb/evaluator/cost.py:141-169 | ten times the memory is a breach that asks for a rerun |
| CostBreaches.TenthExample | src/qtb/evaluator/cost.py:141-169 | a tenth of the memory passes |
| Costs.GuardIsLawful | src/qtb/evaluator/cost.py:156-169 | verdict and follow-up flags follow from the regime and the breach |
| Costs.ReplayAgrees | src/qtb/coordinator/costs.py:488-500 | where the measurement stops, the replay of the saved bundles stops with the same result |
| Costs.FailureRestsOnTwoBreaches | src/qtb/coordinator/costs.py:435-513 | a failure is of a guarded panel and rests on a breach in a normal bundle and one in a rerun of another session; a report-only panel never fails |
| Costs.ReplayJudgesCurrent | src/qtb/coordinator/costs.py:464-500 | a replay only judges bundles of their regime, of this session's cases and builds, each of a session of its own and asked for by the one before |
| Costs.EvidenceMeans | src/qtb/coordinator/costs.py:500-513 | a guarded panel's evidence is the replayed result or unresolved; a report-only panel's is never a result |
| Costs.Session.MeasureRegime | src/qtb/coordinator/costs.py:355-381 | an admissible saved bundle is reused, any other is measured again in a session never used before, and nothing else is written |
| Costs.Session.MeasurePanel | src/qtb/coordinator/costs.py:340-387 | a returned result is the one that the replay derives from the saved bundles |
| Costs.Session.Invocations | src/qtb/coordinator/costs.py:390-432 | the same after any number of invocations interrupted anywhere, also as the observed result of a report-only panel |
| Ledger.Newest | lsf/retry.py:161-164 | the latest entry of a stage: no other is later |
| Ledger.NextAttempt | lsf/retry.py:178-179 | a new cost attempt has a number above all earlier ones, over all epochs |
| Orchestration.StepKeepsInv | lsf/manager.py:432-520 | every step of the manager, a crash, the scheduler or a resume keeps the ledger invariant |
| Orchestration.ReserveOrderly | lsf/retry.py:138-154 | the submission gates keep the succession of tries |
| Orchestration.ResumeInv | lsf/submit.py:490-529 | a new epoch begins only when no job is active or unreconciled; it keeps the entries and the invariant and clears the stop and the exhaustion |
| Orchestration.LastNoisyAllNoisy | lsf/retry.py:190-222 | when the last attempt is noisy all are, and each one counts |
| Orchestration.DecideMeans | lsf/retry.py:190-222 | another cost job is allowed exactly when all cost attempts of the epoch are settled noisy and fewer than 21, the budget is exhausted exactly when only their number forbids it |
| Orchestration.SortKeeps | lsf/retry.py:171-176 | sorting attempts keeps them and puts the largest last |
| Orchestration.LedgerSafety | lsf/manager.py:286-333 | in every reachable world: every live job is on the books, at most one cost job is live over all epochs, each other stage has at most one try per epoch, all cost attempts but the last are settled noisy, the budget is never exceeded, and exhaustion is recorded only after 21 noisy attempts; no entry is submitted more than three times |
| Orchestration.CostSubmissionSpends | lsf/manager.py:311-333 | each cost submission spends one of the remaining attempts |
| LedgerExamples.NoisyExample | lsf/manager.py:311-333 | a run with a noisy job, a second one refused three times, a stop and a resume |
| LedgerExamples.FoundExample | lsf/manager.py:633-667 | a run in which a submission without a clear answer is found by its name |
| LedgerExamples.LostExample | lsf/manager.py:633-667 | a run in which a submission that the manager did not survive is given up as lost |
| Manager.RetryOnlyOnEvidence | lsf/retry.py:190-222 | in every reachable ledger, after a submitted cost job is settled another may be submitted exactly when this one exited with the noise code, its own stage state says noisy, and the epoch has had fewer than 21 cost jobs |
| Manager.OutcomeMeans | lsf/manager.py:768-791 | complete or skipped only on exit code 0 with the job's own final state, noisy only on code 42 with its own noisy state, and code 40 is always a failure |
| Manager.LostMeans | lsf/manager.py:768-771 | an outcome is lost exactly for a job that was given up or an unreconciled entry |
| Manager.Manager.Submit | lsf/manager.py:432-520 | reserves before submitting; at most one entry more, rejected exactly when no key is returned after reserving |
| Manager.Manager.CallBsub | lsf/manager.py:483-520 | submitted exactly on an accepted answer, ambiguous on an unclear one, rejected after three refusals; nothing is asked after the first answer that is not a refusal |
| Manager.Manager.ReconcileByName | lsf/manager.py:633-667 | one lookup: a found job becomes submitted, one that is missing for long unreconciled, a failed lookup changes nothing; no other entry moves |
| Manager.Manager.Observe | lsf/manager.py:557-605 | a poll moves at most this entry and is done exactly when the entry is no longer active |
| Manager.Manager.WriteOutcome | lsf/manager.py:708-766 | an ended job becomes terminal with the outcome its exit record and stage state classify to, and spends budget unless the stage was skipped or already final |
| Manager.Manager.Poll | lsf/manager.py:557-605 | one query: an ended job becomes terminal with its outcome, a job that LSF does not know may become unreconciled and lost, any other reply changes nothing |
| Manager.Manager.WriteOff | lsf/manager.py:708-766 | a lost job stays unreconciled and keeps its budget |
| Manager.Manager.WaitAll | lsf/manager.py:524-541 | waiting moves only the waited-for entries; it ends late only after its last round with an entry still owned, and otherwise all of them are settled |
| Manager.Manager.StartStage | lsf/manager.py:286-306 | one stage: adopts, leaves alone or submits, and knows every active entry |
| Manager.Manager.StageJobs | lsf/manager.py:286-309 | at most one new job per stage and only where the epoch had none; without a deadline none is active afterwards |
| Manager.Manager.CostLoop | lsf/manager.py:311-333 | terminates; out of budget only after 21 noisy attempts, and then no cost job is active; any other end of the submissions is recorded as a stop |
| Session.StepKeepsInv | src/qtb/coordinator/stages.py:120-142 | locks, states and the cleaning plan stay consistent over every step |
| Session.StepWrites | src/qtb/coordinator/stages.py:479-536 | a state is only replaced by a later one, and evidence changes only while the state on disk is running |
| Session.StepMoves | src/qtb/coordinator/stages.py:479-536 | a start counts one attempt more and any other write keeps the count; both hold the stage's locks, so nothing is being cleaned |
| Session.StepFiles | src/qtb/coordinator/clean.py:101-146 | files appear only while a stage runs and go only by a cleaning that planned them; decisions and cleanings exclude each other |
| Session.RunsGrow | src/qtb/coordinator/stages.py:479-536 | state contents never repeat, because attempts grow |
| Session.Lifecycle | src/qtb/coordinator/stages.py:544-558 | complete and skipped states never change; after clean.json none does; the frozen states are those the decision hashed, none of them running or noisy |
| Session.CleanRemovesThePlan | src/qtb/coordinator/clean.py:101-146 | a cleaning killed and rerun anywhere ends with exactly the planned paths removed |
| Session.FinishedExample | src/qtb/coordinator/clean.py:101-146 | a session can be run, decided and cleaned from its beginning |
| Session.StageStill | src/qtb/coordinator/decide.py:58-89 | equal state files at two times mean that state and committed evidence stood still in between |
| Session.Snapshot | src/qtb/coordinator/decide.py:58-89 | the double collect returns the states of one single instant while it ran, all the evidence then of complete stages, exactly the crash records in order of failed ones and none of others; it retries at most as often as some stage wrote its state meanwhile, and gives up only when the run ends |
| StoreBuilds.ReadyStays | src/qtb/coordinator/__init__.py:509-549 | no step touches a ready build |
| StoreBuilds.BuiltAtMostOnce | src/qtb/coordinator/__init__.py:509-549 | over every run: READY implies a complete build and is never removed, and a build is started again only after an interrupted one |
| StoreBuilds.StartsClean | src/qtb/coordinator/__init__.py:527-545 | a build starts in an empty place; what an interrupted one left is removed first |
| StoreBuilds.BuilderUnique | src/qtb/coordinator/__init__.py:520-552 | of all that hold the finished build at most one says that it did not reuse it |
| StoreBuilds.RebuiltExample | src/qtb/coordinator/__init__.py:520-552 | an interrupted build is repaired by the next session and reused by the first |
| StoreResults.FirstRenameWins | src/qtb/coordinator/store.py:94-127 | over every run: a published entry is complete, is for ever the first renamed one, and a lost race never raises |
| StoreResults.RaceExample | src/qtb/coordinator/store.py:94-127 | two sessions fill one entry, the first rename wins and both return it |
| StoreQuality.NothingAddedAfterInvalidation | src/qtb/coordinator/storage.py:210-232 | over every run: no observation is added to an invalidated entry, not even by a session that was storing at the time |
| StoreQuality.StepAdds | src/qtb/coordinator/storage.py:210-232 | observations are only added, under the shared lock after the check; the mark is set under the exclusive lock only |
| StoreQuality.InvalidatedExample | src/qtb/coordinator/storage.py:210-232 | an observation is stored, the entry invalidated, and the next session stores nothing |
| Storage.BoundaryUnique | src/qtb/coordinator/storage.py:66-82 | the truncation point is the one place with complete lines before and no newline after it |
| Storage.AppendAddsRow | src/qtb/coordinator/storage.py:61-101 | for any file bytes, reading after an append gives the earlier records and the row; an unreadable file stays so |
| Storage.CutAppendKeepsRows | src/qtb/coordinator/storage.py:61-101 | an append killed before its newline changes no record |
| Storage.LogIsCommitted | src/qtb/coordinator/storage.py:61-101 | after any appends, each killed at any byte, the log holds exactly the rows whose newline was written |
| Storage.LogFile.ScanBack | src/qtb/coordinator/storage.py:71-82 | the chunked backward scan finds the last-newline boundary |
| Storage.LogFile.Append | src/qtb/coordinator/storage.py:61-85 | scan, truncation and write leave the specified bytes, and the row is read back |
| Storage.LogFile.Read | src/qtb/coordinator/storage.py:88-101 | the read loop returns the records of the complete lines, or fails on an undecodable one |
| Worker.AssemblyCovers | src/qtb/coordinator/process.py:143-199 | a process's rows and rows for what it left pending cover the request exactly |
| Worker.ReportsRetried | src/qtb/coordinator/process.py:173-182 | no row that any retry wrote is lost, and none is invented |
| Worker.RunWorker | src/qtb/coordinator/process.py:49-199 | exactly one row per requested seed whatever the processes do, with at most one launch per seed, each for the seeds that its killed predecessor left; it raises exactly when the last process was aborted or wrote rows it was not asked for |
| Observations.Batches | src/qtb/coordinator/__init__.py:827-829 | the batches hold the seeds in order, none empty or too large |
| Observations.Session.PlanCase | src/qtb/coordinator/__init__.py:778-826 | saved seeds are not redone, stored ones are copied once, the rest is returned |
| Observations.Session.Commit | src/qtb/coordinator/__init__.py:843-868 | a batch's rows are appended once each, in whatever order the worker wrote them |
| Observations.Session.Quality | src/qtb/coordinator/__init__.py:765-878 | wherever it is killed no key is twice in the log; after a normal return every planned key is there once |
| VerifierCache.Coordinator.VerifyChunk | src/qtb/coordinator/__init__.py:724-746 | every job gets one result, no more are given up than processes died, and the loop ends |
| VerifierCache.Coordinator.RunVerifier | src/qtb/coordinator/__init__.py:711-753 | the same over all batches; none has more than 50 jobs, and there are no more batches than workers unless they are full |
| VerifierCache.Coordinator.Lookup | src/qtb/coordinator/__init__.py:688-699 | exactly the decisive readable entries are served |
| VerifierCache.Coordinator.Save | src/qtb/coordinator/__init__.py:703-708 | exactly the decisive new results are written, and the cache stays sound |
| VerifierCache.Coordinator.VerifyMany | src/qtb/coordinator/__init__.py:653-709 | one result per request; a decisive one is the verifier's own answer to it, an indecisive one never comes from the cache |
| Dynamic.RunShift | verifier/qtb_verifier/dynamic.py:21-86 | raising the bound never changes an answer, and an answer needs no more than it used |
| Dynamic.RunConcat | verifier/qtb_verifier/dynamic.py:21-86 | whenever a joint run returns, it is the concatenation of the separate runs, with the exact step count |
| Dynamic.JointReturns | verifier/qtb_verifier/dynamic.py:21-86 | the separate runs' bounds together suffice for the joint run |
| Dynamic.SpreadAppend | verifier/qtb_verifier/dynamic.py:32-85 | one instruction on two branch lists is the instruction on the one and then on the other |
| DynamicLaws.MeasureRecords | verifier/qtb_verifier/dynamic.py:35-45 | after a measurement each branch has its classical bit set exactly when its state is what the projection onto one left, no other bit changes, and zero comes first |
| DynamicLaws.ResetClears | verifier/qtb_verifier/dynamic.py:35-45 | a reset keeps the bits and flips what was found at one |
| DynamicLaws.MeasureAndFlipResets | verifier/qtb_verifier/dynamic.py:35-45 | measuring a wire and flipping it when it was one leaves the states that a reset leaves, in order |
| DynamicLaws.ValueDigits | verifier/qtb_verifier/dynamic.py:47-54 | a register has a value exactly when each bit is the value's binary digit, least significant first |
| DynamicLaws.IfElseTakes | verifier/qtb_verifier/dynamic.py:46-67 | a conditional runs its first block exactly when its register matches, else its second |
| DynamicLaws.WhileUnrolls | verifier/qtb_verifier/dynamic.py:68-75 | a loop ends at once when its register does not match, and is otherwise its body and the loop again |
| DynamicLaws.ForRepeats | verifier/qtb_verifier/dynamic.py:76-82 | a for loop runs its body once per index, in order, with the index bound |
| DynamicLaws.GateActs | verifier/qtb_verifier/dynamic.py:83-87 | a gate acts on the wires that its own stand for and keeps the classical bits |
| DynamicLaws.BarrierPasses | verifier/qtb_verifier/dynamic.py:24-31 | a barrier costs a step and leaves every branch as it is |
| Simulator.Simulation.RunAll | verifier/qtb_verifier/dynamic.py:21-86 | the loops over a shared upward counter compute the specified run, and terminate for every program |
| Simulator.Simulation.OneBranch | verifier/qtb_verifier/dynamic.py:33-84 | one instruction on one branch, in every case |
| Schedule.VerifySchedule | verifier/qtb_verifier/schedule.py:8-54 | no error exactly when every operation fits; the makespan is the latest end; lists of different lengths are refused |
| Schedule.StepErrors | verifier/qtb_verifier/schedule.py:19-46 | one operation's errors are empty exactly when it fits |
| Schedule.SharedWireDisjoint | verifier/qtb_verifier/schedule.py:27-28 | operations sharing a wire are disjoint in time and in list order |
| Schedule.EndIsBusy | verifier/qtb_verifier/schedule.py:33-34 | a qubit ends after exactly the durations of its operations |
| Schedule.QubitTiled | verifier/qtb_verifier/schedule.py:33-34 | every tick of a qubit up to its end is covered by exactly one operation |
| Schedule.MakespanBoundsChains | verifier/qtb_verifier/schedule.py:47-53 | the makespan is at least the length of every dependency chain exactly when no operation without wires takes longer than it |
| Schedule.WirelessMissed | verifier/qtb_verifier/schedule.py:47-53 | a five-tick barrier without wires is verified with makespan zero |
| Schedule.MakespanIsLongestChain | verifier/qtb_verifier/schedule.py:47-53 | when every operation acts on a qubit the makespan is the length of a longest chain |
| Weights.GroupWeighsShare | src/qtb/evaluator/statistics.py:21-42 | at every depth a group's cases together weigh the group's share |
| Weights.WeightsSumToOne | src/qtb/evaluator/statistics.py:21-42 | the weights sum to exactly one |
| Weights.SiblingsWeighTheSame | src/qtb/evaluator/statistics.py:27-37 | at every depth sibling groups carry equal totals |
| Weights.WeightPositive | src/qtb/evaluator/statistics.py:21-42 | every weight is positive |
| Weights.Divide | src/qtb/evaluator/statistics.py:27-37 | the recursion gives every row of a group its weight and touches no other entry |
| Weights.HierarchicalWeights | src/qtb/evaluator/statistics.py:21-42 | every case's weight, or an error exactly for an empty panel or duplicate identifiers |
| Estimates.ScoreIsWeightedMean | src/qtb/evaluator/statistics.py:59-95 | the panel's score is the weighted mean of its cases' scores |
| Estimates.AddCase | src/qtb/evaluator/statistics.py:87-88 | the in-place loop adds the scaled differences of one case |
| Estimates.PairedPanel | src/qtb/evaluator/statistics.py:59-95 | graded exactly for complete positive observations over distinct seeds and positive weights |
| Estimates.EqualArmsNoEffect | src/qtb/evaluator/statistics.py:45-95 | equal metrics give effect zero and standard error zero |
| EstimateLaws.GradeMeaning | src/qtb/evaluator/statistics.py:45-95 | per seed the shares of the log ratios of evolved to baseline are added up, the score is their mean over the seeds, each case is estimated from its own, and the squared errors are the sample variance of the mean |
| EstimateLaws.SharesAddUp | src/qtb/evaluator/statistics.py:64-67 | shares are proportional to the weights and add up to one |
| EstimateLaws.ScoreSign | src/qtb/evaluator/statistics.py:84-88 | an improvement in every observation has a negative score, a regression a positive one |
| EstimateLaws.LowerNeverRaises | src/qtb/evaluator/statistics.py:84-88 | lowering evolved metrics lowers the score |
| EstimateLaws.UniformEffect | src/qtb/evaluator/statistics.py:45-95 | one ratio everywhere is the score, without error, whatever the weights |
| Verdict.PassMeansAllPassed | src/qtb/evaluator/__init__.py:30-65 | PASS exactly when nothing failed and every required record passed |
| Verdict.WorstRecordDecides | src/qtb/evaluator/__init__.py:30-65 | refused exactly for improper inputs; otherwise the gravest record decides, and without a failure the required records alone |
| Verdict.ResultMoves | src/qtb/evaluator/__init__.py:99-104 | a lower score never fails what passed; a larger error never passes a failed objective nor fails a passed guard |
| Verdict.ResultWithoutError | src/qtb/evaluator/__init__.py:99-104 | without error the objective passes exactly below the log of the practical ratio, a guard exactly at or below zero |
| Verdict.EqualArmsResults | src/qtb/evaluator/__init__.py:89-119 | on equal metrics the guards pass and the objective passes exactly above a practical ratio of one |
| Verdict.EqualArmsNeverPass | src/qtb/evaluator/__init__.py:30-119 | equal metrics are never PASS under a legal practical ratio, whether the objective is graded or incomplete and whatever the other records say |

## Left out

- Snapshots, builds, wheels, virtual environments, provenance, the command line, logging and reports: subprocess and filesystem plumbing.
- Circuit export, import and compilation, statevector, operator and Clifford numerics: wrappers over a library and floating-point linear algebra. In `Dynamic` the states, projections and gates are abstract, and so is the comparison of the two density sums.
- LSF command text, its parsing, host exclusion, cancellation on signals and the manager's own ledger entries: the scheduler is modelled by what it accepts, refuses and reports.
- Floating-point rounding: sums, logarithms and tolerances are exact. Non-finite numbers and values of a wrong JSON type are not in the model.
- Atomicity of a `/proc` sample: a sample is one instant, so processes that come and go while it is read are not in the model. CPU affinity and idle probes are left out.
- `cluster_bootstrap`, quantiles, audit sampling and random arm orders: report-only or random; arm orders are any order.
- `amend`, upstream test judging, change scopes and which panels a scope needs: folds and set logic over single branches.
- Structure.StructuralChecker.Consume: an operation is a well-formed record of five parts, and what the text of a parameter denotes is a parameter of the model.
- ReplayQueues.ReplayCircuit: indices are integers; the refusal of other JSON types is not in the model.
- Monitor.RunProcess: timely polls and alternating boundaries are the hypotheses under which the hooks promise an admissible record; a run that violates them has no claim.
- Costs.Session.MeasurePanel: a session's cases, builds and policy are fixed; the refusal of bundles from changed ones is in the replay only, as in the code.
- Observations.Session.Quality: batches run one after the other; the code overlaps their compilation but commits them in plan order.
- VerifierCache.Coordinator.RunVerifier: chunks run one after the other; the code runs them in a pool and merges disjoint results.
- Manager.Manager.WaitAll: rounds are bounded by a number of polls that stands for the deadline.
- Simulator.Simulation.RunAll: wires out of a block's range read as wire 0 instead of raising; circuits do not contain them.
