# Durable flows: a verified model

The repository lets a person draw a flow, publishes it, and runs it durably:
every step survives crashes, lost or repeated queue messages and racing webhook
deliveries, and an outside effect happens once. This project models that path
end to end and proves what it promises.

**The engine** (`EngineTypes`, `EngineRows`, `EngineDb`, `World`) is a
transition system. Its state is the database (runs with their step rows, the
outbox, the dead letters, the delivery keys, a clock), what each worker holds in
memory, and a provider that deduplicates by key. Each transaction is one action;
handlers, jitter draws, row limits and the order of everything are arbitrary.
Theorems come at two strengths: for **every interleaving** of crashes, lost and
duplicated messages, sweeps, cancels, resumes and replays (`RowInvariants`,
`Safety`, `Interleavings`, `Ceilings`), and under **token discipline**, when
nothing crashes, is lost or is swept (`TokenDiscipline`, `TokenSteps`,
`TokenGuarantees`, `TokenMoves`). The discipline admits racing deliveries; the
bare row a race may leave is the one kind of live run without a token. From any
state with the discipline `Accounts` bounds the messages of a run by what is
left of its attempts (`Budgets`). `WorkerMoves` and `Schedules` rank every state
of every interleaving and show that every schedule of crash-free work ends, and
`Coverage` that, once a full sweep was made, no live run is ever without
something that will move it. `Recovery` puts them together: from any reachable
state, whatever was lost, doubled or is still held, working to quiet, waiting,
sweeping once in full and working on, in any order and with further sweeps,
stops every run. `SoloHistory` plays single histories for the cases below.
`EngineStore` and `Drain` are the same transactions and worker loop as the
source writes them, tables updated in place, each proved to be the machine's
action. What one transaction answers is told a second time by the columns of the
tables alone, without the functions that compute it: `Advancing` and `Stopping`
(advance, cancel, deadline), `Claims` (limits), `Failures` (retries, dead
letters), `Requests` (create, resume, replay, sweep, faults).

**The compiler** (`Compiler`, `CompilerWalk`, `CompileFlow`) flattens a drawn
graph by depth-first search, and reports exactly what is wrong with it
(`NodeDefects`). `Branching`, `GraphMeaning` and `Meaning` prove that running the
flat rows, with the abandoned arm skipped, walks the graph; `DrawnRuns` carries
that back to the drawing: the edge drawn from "yes" is the one a yes follows.

**The editor** (`GraphAlgebra`, `Kahn`, `GraphEditing`, `Sieves`, `References`,
`Validation`, `Publishing`) keeps graphs acyclic and decides what may be
published. `Availability` joins editor, validator, compiler and engine: a
reference the validator lets through has a value when its step runs.
`JsonPointer`, `Patch`, `PatchFidelity`, `PatchRemoval` and `Autosave` save
drafts as patches, `EdgeIds` joins them to what the editor draws.

**Smaller parts**: the retry ladder (`ErrorClasses`, `Backoff`, `Retry`),
idempotency keys, the condition language (`Quoting`, `Conditions`,
`ConditionMeaning`, `Operators`, and `Comparisons` for what one comparison
answers), IP text (`Numerals`, `IpText`, `IpPrint`,
`Ipv4Exact`, `Ipv6Exact`, `Cidr`) and the webhook hand-off (`ReplayGuard`, `Delivery`).

`dafny verify dfyconfig.toml` checks everything.

## Where the code and its comments disagree

The model follows the code. Each case has a lemma that shows it and, where the
code still keeps a promise under a condition, a lemma with that condition.

- A branch handler that returns no decision is said to stall the run with both
  arms pending (`packages/automa-durable-runner/src/engine/executor.ts:405-411`).
  Nothing is skipped and both arms run: `SilentBranchRunsBothArms` is such a
  history and `OneArmPendingExactly` the exact condition. The walk theorems are
  about runs whose succeeded branches answered.
- A row that waits for confirmation, runs or waits for its retry does not block
  later rows: `PausedStepDoesNotBlock` is such a history. Under token discipline
  the order is strict exactly if nothing earlier is paused (`ClaimsInOrder`), and
  runs with nothing paused walk their graph (`ClaimsWalkTheGraph`).
- `attempts_exhausted` is misfiled for a step with `maxAttempts` 0:
  `ReasonNamesTheCeiling` gives the exact condition.
- A joiner not in lower case is detected but not split on, and the evaluator
  calls itself without end: `DivergesExactly` says exactly when.
- The retention check (`packages/automa-webhook-gate/src/replay/store.ts:102-113`)
  is too weak when a copy arrives before the time it claims: `RetentionExact`,
  `AssertedSuffices`.
- The compiler lets an extra unlabelled edge out of a branch and an arm on any
  other edge pass: `ExtraEdgeUnnoticed`. `WellShapedIffTidy` gives the exact
  condition for the compiled flow to be run faithfully.
- `topologicalOrder` also answers null for an acyclic graph with an edge from an
  unknown node: `TopologicalOrder` has the exact condition.
- A remove for an unknown id takes the last item instead: `RemoveNodeExact` and
  `RemoveEdgeExact` say when a remove does what it says.
- Autosave can leave an undo unsent (`UndoDuringSaveStalls`) or keep showing
  "saving" (`SavingSticks`): `LandingStalls` and `SavingShownExactly` say exactly
  when. Of overlapping flushes the older may count as acknowledged:
  `OverlapAcknowledges`.
- Two edges can be given one id, and removing it removes both (`EdgeIdsCollide`):
  `SameIdExactly` says when, `EditedUnique` when never.
- A sweep also wakes stopped runs that died with a step running, and adds an
  advance for an overdue run that has one (`SweepDuplicates`); claiming looks at
  the row alone (`ClaimIgnoresRun`); resuming revives skipped arms
  (`ResumeRevivesSkipped`).
- The loser of a creation race leaves a run row behind (`RaceLeavesBareRun`)
  that a sweep schedules and an advance then calls succeeded (`BareRunSucceeds`).

## Model

| member | source | states |
|---|---|---|
| Safety.StepKeepsInv | packages/automa-durable-runner/src/engine/repository.ts:444-472 | Every action of the machine (create, relay, advance, claim, effect, record, crash, duplicate, loss, sweep, cancel, resume, DLQ replay, tick) keeps the all-interleavings invariant, and lets rows and keys evolve only as the guards allow. |
| Safety.ExecKeepsInv | packages/automa-durable-runner/src/engine/repository.ts:550-644 | Hence the invariant holds after every finite execution, whatever the handlers return. |
| Interleavings.ExactlyOnceEffects | packages/automa-durable-runner/src/idempotency.ts:40-85 | In every reachable state a provider that deduplicates by key has acted at most once per key, on pairwise different key material; two effects of one node of a run are in different attempt groups, each a group that run has had, so at most one per (run, node, group); every succeeded step has its effect under its current key. |
| Interleavings.StaleWriteIsNoOp | packages/automa-durable-runner/src/engine/repository.ts:550-576 | A worker whose row no longer is the one it claimed writes nothing at all, although the fence compares worker ids only. |
| Interleavings.KeyConstantAcrossRetries | packages/automa-durable-runner/src/engine/repository.ts:610-644 | No action but resume and DLQ replay changes a step's key, so automatic retries present the same one. |
| Interleavings.ResumeIsNewIntent | packages/automa-durable-runner/src/engine/resume.ts:141-172 | In every reachable state a resume gives each reset step a key no effect has ever carried, and preserves the outputs of the steps it passes by. |
| Interleavings.VerdictsAndCounters | packages/automa-durable-runner/src/engine/orchestrator.ts:101-143 | In every reachable state steps_succeeded and steps_failed count the rows, never exceed step_count together, a failed run has a finally failed step, and nothing in a succeeded run is or ever becomes claimable. |
| Interleavings.SucceededForever | packages/automa-durable-runner/src/engine/orchestrator.ts:46-95 | No later sequence of actions changes the verdict or a single row of a succeeded run. |
| Interleavings.OneRunPerDeliveryKey | packages/automa-durable-runner/src/engine/repository.ts:110-180 | In every interleaving at most one run is created per (tenant, flow, key), and every run that owns steps was created that way. |
| Interleavings.KeyNamesItsRun | packages/automa-durable-runner/src/engine/repository.ts:182-197 | A delivery key that is taken names a run that exists and was created for that key. |
| Interleavings.RaceLeavesBareRun | packages/automa-durable-runner/src/engine/repository.ts:149-168 | The loser of the creation race leaves a queued run row without steps or message. |
| Ceilings.StepKeepsLimits | packages/automa-durable-runner/src/engine/repository.ts:488-528 | Every action keeps the unexpired running leases within the per-tenant and per-flow limits, reclaim of a lapsed lease included. |
| Ceilings.CeilingsHold | packages/automa-durable-runner/src/engine/repository.ts:444-528 | With the same limits on every worker, serial transactions and no lease renewal the ceilings hold in every reachable state. |
| EngineRows.NextRunnableStepExact | packages/automa-durable-runner/src/engine/repository.ts:359-381 | The row picked is the lowest one the query admits, and none is picked only if none is admitted. |
| Advancing.NextExactly | packages/automa-durable-runner/src/engine/repository.ts:338-386 | By status and instants: a row is next exactly if it is the lowest that is fresh, owed a retry that has come due, or held under a lease that ran out, with no timed out, cancelled or finally failed row before it. |
| Advancing.AdvanceCancels | packages/automa-durable-runner/src/engine/orchestrator.ts:55-66 | An advance of a run that has not ended and was asked to cancel leaves it cancelled with the node of the next row, if there is one, as the place it stopped at, and sends nothing. |
| Advancing.AdvanceTimesOut | packages/automa-durable-runner/src/engine/orchestrator.ts:68-71 | An advance of an overdue run nobody cancelled leaves it timed out with class timeout, and sends nothing. |
| Advancing.AdvanceDispatches | packages/automa-durable-runner/src/engine/orchestrator.ts:73-94 | Otherwise the next row is sent for, due at once, and a queued run starts; nothing else changes. |
| Advancing.AdvanceEnds | packages/automa-durable-runner/src/engine/orchestrator.ts:101-143 | With no next row nothing is sent: the lowest failed or timed out row fails the run with its class (internal if it has none) and node, else the lowest paused one pauses it with its class (unknown outcome) and node, else a run all of whose rows are settled has succeeded, else nothing changes. |
| Advancing.StoppedRunStays | packages/automa-durable-runner/src/engine/orchestrator.ts:51-53 | An advance of a run that has ended changes nothing. |
| Stopping.CancelStops | packages/automa-durable-runner/src/engine/orchestrator.ts:55-66 | In every interleaving: once a cancel was asked of a run that had not ended, and unless somebody resumes it, the first advance of it that is processed leaves it cancelled and sends nothing, and it stays cancelled. |
| Stopping.StepKeepsCancelling | packages/automa-durable-runner/src/engine/orchestrator.ts:55-66 | Meanwhile no action but putting back a blocked step sends for any of its steps. |
| Stopping.DeadlineStops | packages/automa-durable-runner/src/engine/orchestrator.ts:68-71 | In every interleaving: the next advance of an overdue run that nobody cancels or resumes times it out with class timeout and sends nothing. |
| Claims.ClaimExactly | packages/automa-durable-runner/src/engine/repository.ts:419-472 | A delivered run_step is held back exactly if the tenant's running steps under unexpired leases number at least perTenant or the flow's at least perFlow; below both a due row is claimed for leaseMs by this worker, one more attempt started, and any other row is left alone. |
| Claims.BlockedComesAgain | packages/automa-durable-runner/src/engine/executor.ts:130-160 | A step held back is sent for again blockedRetryMs later and nothing else has changed. |
| Failures.FailureRecorded | packages/automa-durable-runner/src/engine/executor.ts:253-358 | A failure its owner records: the class alone decides what is charged and whether it is retried, within the step's own ceilings, at the drawn or requested delay of its own counter; a non-retry leaves both counters and fails or pauses the row for good; a poison or spent step adds exactly one dead letter with its node, key and reason, any other none; and the advance comes when the row does. |
| Failures.MissingFlowRecorded | packages/automa-durable-runner/src/engine/executor.ts:385-400 | Without the flow version the step is recorded as poison, whatever its handler made of it. |
| Failures.SuccessRecorded | packages/automa-durable-runner/src/engine/executor.ts:217-251 | A success its owner records: the output is kept, exactly the pending rows of the arm left behind are skipped, and the run is advanced at once. |
| Requests.CreatedExactly | packages/automa-durable-runner/src/engine/repository.ts:110-230 | A created run is queued with its deadline, one fresh row per node in order under the first group's keys, the default ceilings where the node has none, its delivery key, and an advance due at once. |
| Requests.DuplicateAnswered | packages/automa-durable-runner/src/engine/repository.ts:110-197 | A key whose run is there creates nothing and is answered with that run. |
| Requests.FirstStepFirst | packages/automa-durable-runner/src/engine/orchestrator.ts:73-94 | The first advance of a new run before its deadline sends for its first step. |
| Requests.CancelAsked | packages/automa-durable-runner/src/engine/repository.ts:284-295 | A cancel is noted once, on a run that has not ended, at its first time; nothing else changes. |
| Requests.ResumedExactly | packages/automa-durable-runner/src/engine/resume.ts:50-178 | A stopped run is resumed from the first step of that name: rows before it are kept, it and all behind it are fresh under keys of the next group, the run is queued without its cancel and its error, and an advance is sent; any other run or step is refused with its reason. |
| Requests.ResumeRunsFromThere | packages/automa-durable-runner/src/engine/orchestrator.ts:73-94 | The first advance of a resumed run before its deadline sends for exactly the step it was resumed from. |
| Requests.ReplayedExactly | packages/automa-durable-runner/src/engine/resume.ts:180-218 | A dead letter is replayed once, from its step, and marked; what refuses the resume refuses the replay. |
| Requests.SweepWakesTheStuck | packages/automa-durable-runner/src/engine/janitor.ts:40-125 | A sweep below its row limits sends one advance, due at once, to each run with a step abandoned by its worker, past its deadline, or with nothing on its way and nobody at work, and to no other. |
| Requests.DeadWorkersStepReturns | packages/automa-durable-runner/src/engine/janitor.ts:40-72 | A worker dies over a step: once its lease is over and a full sweep was made, an advance of the run is queued and the step is due again. |
| Requests.EffectHappensOnce | packages/automa-durable-runner/src/engine/executor.ts:180-215 | However often a key is presented the provider acts on it once. |
| Requests.CrashForgets | packages/automa-durable-runner/src/engine/repository.ts:425-436 | A crash of a worker loses what it holds in memory and nothing else. |
| TokenSteps.StepKeepsTokens | packages/automa-durable-runner/src/engine/executor.ts:136-160 | Every crash-free, loss-free, sweep-free action, raced creations included, keeps exactly one token (advance message, run_step message or holder) per live run that owns steps, at most one for any other run, together with what each token promises about its run's rows; if no stopped run had a token none gets one, and without a raced creation no live run is left without. |
| TokenSteps.ExecKeepsTokens | packages/automa-durable-runner/src/engine/executor.ts:369-381 | Token discipline and the general invariant hold after every such execution, from the empty state or any other that has them. |
| TokenGuarantees.ExactlyOneToken | packages/automa-durable-runner/src/engine/orchestrator.ts:46-95 | In every state with the discipline a live run that owns steps has exactly one token and no run has more; a run without one is stopped, or queued and without steps, as a lost creation race leaves it; a stopped run has one only if a sweep woke it. |
| TokenGuarantees.AdvanceNeverEarly | packages/automa-durable-runner/src/engine/executor.ts:284-358 | A fetched advance finds every open step of its run claimable, never a retry that is not due, and so dispatches a step or stops the run. |
| TokenGuarantees.ClaimsInOrder | packages/automa-durable-runner/src/engine/executor.ts:100-160 | A delivered run_step is never "taken"; its run is not terminal (and is live, unless a sweep woke a stopped run); every earlier step is settled or paused, and all of them are settled if and only if none of them is paused. |
| TokenGuarantees.RecordsAlwaysLand | packages/automa-durable-runner/src/engine/repository.ts:550-644 | No result is stale: the row is still the claimed one and still owned by its worker, and the run has not ended. |
| TokenGuarantees.QuietMeansStopped | packages/automa-durable-runner/src/engine/drain.ts:158-193 | With nothing queued and every worker idle, every run is terminal or waiting for confirmation, but for the bare rows of lost races; all of them if every live run had its token. |
| Accounts.DrainBounded | packages/automa-durable-runner/src/engine/drain.ts:88-150 | In any disciplined history without limits, whatever handlers answer and whatever happens to other runs, a run that was never resumed itself consumes at most 1 + 2 * sum(maxAttempts + maxDeferrals - 1) messages (a ceiling of zero counting as one). |
| Accounts.FurtherMessagesBounded | packages/automa-durable-runner/src/engine/executor.ts:253-358 | From any state with the discipline, a sweep's included, a run consumes at most one message and two more for each attempt it has left, until it is resumed. |
| Schedules.EveryScheduleEnds | packages/automa-durable-runner/src/engine/drain.ts:88-193 | From any state of any interleaving, duplicated messages and stale holders included: every schedule of crash-free work and further sweeps, by any number of workers without limits, or with limits of at least one by a single worker that holds every unexpired lease, in any order and with any handler answers, holds at most as many effective moves as the rank of its first state and what its sweeps add to it. |
| Schedules.ExhaustedIsQuiet | packages/automa-durable-runner/src/engine/drain.ts:183-190 | No effective move is left now or later if and only if nothing is queued, fetched or held. |
| Schedules.WorkToQuiet | packages/automa-durable-runner/src/engine/drain.ts:158-193 | Whatever the handlers answer, some crash-free work brings any state of any interleaving to quiet. |
| Schedules.AlwaysAMove | packages/automa-durable-runner/src/engine/drain.ts:100-150 | As long as a run has its token there is an effective relay, process, put-back, effect or record to make, after a wait at most. |
| Schedules.ExhaustedMeansStopped | packages/automa-durable-runner/src/engine/drain.ts:183-190 | Where no move is left now or later, every scheduled run is terminal or waiting for confirmation. |
| Budgets.RecordSpendsBudget | packages/automa-durable-runner/src/engine/executor.ts:253-358 | Every recorded outcome, success or failure, leaves the run at least one attempt fewer and its ceilings unchanged. |
| Recovery.SweepCoversLiveRuns | packages/automa-durable-runner/src/engine/janitor.ts:72-125 | After a sweep below its row limit every queued or running run has an outbox message or an unexpired lease. |
| Recovery.SweepRestoresTokens | packages/automa-durable-runner/src/engine/janitor.ts:98-118 | Once every lease and delay has run out on an empty queue, a sweep below its row limits gives every live run its one token again, bare rows of lost races included; stopped runs it wakes get at most one. |
| Recovery.SweepCovers | packages/automa-durable-runner/src/engine/janitor.ts:40-125 | In a quiet state with every lease and delay run out, a full sweep leaves every live run, and every row, something that will move it. |
| Coverage.StepCovers | packages/automa-durable-runner/src/engine/drain.ts:100-150 | Work, time and further sweeps keep that: whoever loses a race, a live run always has a message, a fetched message or a holder that will move it. |
| Coverage.QuietCovered | packages/automa-durable-runner/src/engine/drain.ts:183-190 | So when nothing is queued, fetched or held, every run is terminal or waiting for confirmation. |
| Recovery.EveryRecoveryStops | packages/automa-durable-runner/src/engine/janitor.ts:40-125 | From any reachable state, workers busy and queue lost, doubled or not, without limits or with one worker and limits of at least one: after any schedule of work and sweeps that reaches quiet, a wait and one full sweep, every further schedule of work and sweeps holds at most the rank and what its sweeps add; while a run is live a move is left; and where none is left every run is terminal or waiting for confirmation. |
| Recovery.CanRecover | packages/automa-durable-runner/src/engine/janitor.ts:40-125 | Such a recovery exists from every reachable state, whatever the handlers answer, and ends with every run stopped. |
| Recovery.RecoveryMessagesBounded | packages/automa-durable-runner/src/engine/executor.ts:253-358 | After the sweep of such a recovery, with no further sweep and without limits, no run consumes more than one message and two per attempt it had left. |
| Recovery.QueueIsDisposable | packages/automa-durable-runner/src/engine/janitor.ts:40-125 | With the queue flushed and every worker restarted there is nothing to tend first: after the wait and the full sweep every schedule of every drain order and batch, with one worker under limits or any number without, ends with every run stopped. |
| EngineStore.Store.CreateRun | packages/automa-durable-runner/src/engine/repository.ts:110-180 | The statements on the tables, savepoint and lost race included, are exactly the create transaction of the machine; an invalid or repeated node id rolls everything back. |
| EngineStore.Store.InsertSteps | packages/automa-durable-runner/src/engine/repository.ts:199-230 | One pending row per node in order; fails exactly on an id no key can be built from or on a repeated node. |
| EngineStore.Store.NextRunnable | packages/automa-durable-runner/src/engine/repository.ts:359-381 | The row scan returns the next runnable step. |
| EngineStore.Store.Advance | packages/automa-durable-runner/src/engine/orchestrator.ts:46-95 | The branches of advanceRun (missing, stopped, cancelled, overdue, dispatch, finish or wait) are exactly the advance transaction. |
| EngineStore.Store.FinishOrWait | packages/automa-durable-runner/src/engine/orchestrator.ts:101-143 | Failed before waiting_confirmation before succeeded before waiting, as the finish function of the run's rows says. |
| EngineStore.Store.Claim | packages/automa-durable-runner/src/engine/repository.ts:444-472 | Claimed, taken or blocked, exactly the claim transaction, limits re-checked in the same transaction. |
| EngineStore.Store.Succeed | packages/automa-durable-runner/src/engine/executor.ts:217-250 | Result, counter, skips and the next advance in one transaction; nothing at all if the fence fails. |
| EngineStore.Store.SkipAbandoned | packages/automa-durable-runner/src/engine/repository.ts:654-673 | Only pending rows among the abandoned nodes become skipped. |
| EngineStore.Store.Fail | packages/automa-durable-runner/src/engine/executor.ts:284-358 | Counters, next attempt, dead letter and the delayed advance in one transaction; nothing at all if the fence fails. |
| EngineStore.Store.RequestCancel | packages/automa-durable-runner/src/engine/repository.ts:284-295 | Sets the flag on a run that has not stopped, keeping the first request time. |
| EngineStore.Store.Resume | packages/automa-durable-runner/src/engine/resume.ts:50-112 | Preserves finished rows before the target, resets it and everything after under a new attempt group, clears the verdict and schedules; refuses unknown runs, unknown steps and runs that may not be resumed. |
| EngineStore.Store.ReplayDlqEntry | packages/automa-durable-runner/src/engine/resume.ts:180-218 | Resumes from the dead letter's step and marks the entry replayed, or refuses and changes nothing. |
| EngineStore.Store.Sweep | packages/automa-durable-runner/src/engine/janitor.ts:40-125 | Schedules distinct runs, each demonstrably stuck, once each; all of them if no row limit is reached. |
| EngineStore.Store.AdvanceClock | packages/automa-durable-runner/src/engine/drain.ts:57-84 | Every scheduled instant is moved back by ms, finished runs' deadlines excepted; nothing for ms <= 0. |
| EngineStore.ShiftIsWaiting | packages/automa-durable-runner/src/engine/drain.ts:57-84 | Moving the instants back is the same as waiting: next step, claims, leases, deadlines and due messages all answer as they would ms later. |
| Drain.ClaimBatch | packages/automa-durable-runner/src/engine/repository.ts:792-821 | Takes the first due messages in id order and leaves the rest in order, fewer than the limit only if no more are due, as relay actions of the machine. |
| Drain.RunMessage | packages/automa-durable-runner/src/engine/executor.ts:100-358 | Claim, execute and record for one message is a sequence of machine actions, whatever the handler returns. |
| Drain.DrainQueue | packages/automa-durable-runner/src/engine/drain.ts:88-150 | A drain is an execution of the machine by one worker, processes at most maxJobs messages, and stops early only if nothing is due. |
| Drain.DrainStaysBounded | packages/automa-durable-runner/src/engine/drain.ts:88-150 | So the message bound holds after every drain that follows a disciplined history, for every run not itself resumed. |
| CompilerWalk.Walk.Visit | app/src/flow.ts:165-190 | One DFS visit: the node and what it reaches become seen, finished nodes are listed before everything they lead to, a node met on the path is a real loop, reported once. |
| CompilerWalk.Walk.VisitNext | app/src/flow.ts:178-184 | After the loop over a node's edges every successor is on the path or listed. |
| CompileFlow.WalkComplete | app/src/flow.ts:186-190 | The finished walk saw exactly the nodes reachable from the entry, and met a loop exactly if a cycle is reachable from it. |
| CompileFlow.Compile | app/src/flow.ts:101-295 | Success gives a permutation of the graph's nodes, entry first, in topological order for every edge, each as drawn (id, kind, idempotent exactly for http that only reads), and every edge with its ends and the arm its handle names; for distinct ids it succeeds exactly on the accepted graphs, and otherwise reports exactly the defects there are, a loop by a step on it. |
| NodeDefects.FitExactly | app/src/flow.ts:190-260 | The per-step checks pass exactly of fit steps: at most one edge out, or one "yes" edge, one "no" edge and a condition for a branch; a known kind; a recipient and a body for email, a template for transform, a URL for http. |
| Canvas.EntriesInOrder | app/src/flow.ts:82-90 | The entry points are the nodes no edge points at, each once, in the order drawn. |
| NodeDefects.UnsetExactly | app/src/flow.ts:240-260 | A setting reads as empty exactly if it is missing, null, an empty text, or a list of nothing or of one such value. |
| DrawnRuns.DrawnEdgeIsFollowed | app/src/flow.ts:278-288 | Once a step of a compiled drawing has succeeded, the step its drawn edge leads to is the next of the run's walk: from the "yes" handle behind a branch that decided yes, from the "no" handle behind one that decided no, along the only edge otherwise. |
| DrawnRuns.DeclinedArmIsSkipped | packages/automa-durable-runner/src/engine/executor.ts:229-246 | The head of the arm not decided for is skipped, unless the other arm leads to it as well. |
| DrawnRuns.ConditionChoosesEdge | app/src/steps/branch.ts:17-40 | The edge from "yes" is followed if the branch step's condition held, the one from "no" if it did not. |
| DrawnRuns.UnreadableIsDeadLettered | app/src/steps/branch.ts:21-28 | A condition that cannot be read fails its step for good, with one dead letter. |
| Branching.ReachableFrom | packages/automa-durable-runner/src/branching.ts:33-60 | The queue loop computes the least set holding the start and closed under the edges. |
| Branching.ComputeStepsToSkip | packages/automa-durable-runner/src/branching.ts:62-81 | Computes what the untaken arm reaches and the taken arm does not. |
| Branching.SkipLeavesTakenArm | packages/automa-durable-runner/src/branching.ts:62-81 | Below a two-armed branch of an acyclic graph, what is not skipped is exactly what the taken arm reaches. |
| GraphMeaning.WalkUnique | packages/automa-durable-runner/src/branching.ts:62-81 | The recorded branch decisions pick one walk from the entry. |
| GraphMeaning.AfterNode | packages/automa-durable-runner/src/engine/executor.ts:229-246 | When a node finishes, either the flow ends there or exactly one node is next, and the rows still pending below are exactly those it reaches. |
| GraphMeaning.SucceedOnWalk | packages/automa-durable-runner/src/engine/executor.ts:217-250 | Recording a success moves the walk to that node and skips exactly what it cannot reach any more. |
| GraphMeaning.OnlyNextIsReady | packages/automa-durable-runner/src/engine/repository.ts:359-381 | The lowest row that is not done is the walk's next node. |
| GraphMeaning.AllDoneOnWalk | packages/automa-durable-runner/src/engine/orchestrator.ts:101-143 | When every row is done the walk stands at an end of the graph, the succeeded rows are the walk and the skipped rows are the rest. |
| Meaning.StepKeepsMeaning | packages/automa-durable-runner/src/engine/executor.ts:217-250 | Every disciplined action keeps the rows and the claim log of each straight run in step with a walk of its graph, whatever other runs do. |
| Meaning.ClaimsWalkTheGraph | app/src/flow.ts:160-235 | In every disciplined state, for a run of its flow's rows, never resumed, with nothing paused and its succeeded branches answered: the distinct claimed steps are, in order, the nodes of the one walk the decisions pick, up to its last node; every node before that has succeeded; a row off the walk is pending exactly if the walk can still reach it, otherwise skipped. |
| Meaning.SuccessWalkedToAnEnd | packages/automa-durable-runner/src/engine/executor.ts:217-250 | A succeeded run claimed a full entry-to-end walk; succeeded rows are the walk, skipped rows exactly the rest. |
| ErrorClasses.DecisionMeaning | packages/automa-durable-runner/src/error-classes.ts:74-190 | Retried exactly: transient network, rate limited, expired credential, internal, and a server error or timeout on an idempotent call. Charged exactly: what is retried, rate limits and expired credentials aside. The action of each class, and who is alerted. |
| Backoff.WindowShape | packages/automa-durable-runner/src/backoff.ts:50-78 | The first window is the base (or the cap), each next one twice it up to the cap, and after thirty doublings it stays. |
| Backoff.DelayRespectsProvider | packages/automa-durable-runner/src/backoff.ts:80-103 | Without a request, or with one not longer than it, the delay is the whole milliseconds of draw times window; asked for longer it is what was asked, and past the cap the cap; the source says which. |
| Backoff.WorstCaseLadderMs | packages/automa-durable-runner/src/backoff.ts:115-121 | The sum of the windows of the retries, at most (maxAttempts - 1) caps. |
| Retry.FailureMovesOneCounter | packages/automa-durable-runner/src/retry.ts:98-172 | A failure moves exactly one counter; a retry leaves both below their ceilings; exhaustion is the moved counter reaching its own ceiling. |
| Retry.ReasonNamesTheCeiling | packages/automa-durable-runner/src/engine/executor.ts:319-327 | The filed reason names the ceiling that ended the step if and only if maxAttempts is at least one or the failure was charged. |
| Retry.ReasonMisnamedAtZeroAttempts | packages/automa-durable-runner/src/engine/executor.ts:319-327 | With maxAttempts 0 a spent deferral budget is filed as attempts_exhausted. |
| Retry.SimulateLadder | packages/automa-durable-runner/src/retry.ts:185-211 | The loop yields the ladder of outcomes, its final state and its total delay. |
| Retry.LadderLength | packages/automa-durable-runner/src/retry.ts:98-172 | From any open state, any failure sequence ends within the remaining budget, each outcome counts one more attempt started, and only the last is not a retry. |
| Retry.LadderDelayJitterOnly | packages/automa-durable-runner/src/backoff.ts:105-121 | Without Retry-After the total delay is within the windows still ahead on the two counters. |
| Retry.LadderDelayClamped | packages/automa-durable-runner/src/backoff.ts:80-103 | With Retry-After the total delay is at most one cap per retry still possible. |
| Retry.FreshLadderBounds | packages/automa-durable-runner/src/retry.ts:185-211 | On a fresh step: at most maxAttempts + maxDeferrals - 1 outcomes, at most (maxAttempts + maxDeferrals - 2) caps of delay, and without Retry-After at most the worst-case ladder plus the deferral windows 1..maxDeferrals-1. |
| Idempotency.KeysDiffer | packages/automa-durable-runner/src/idempotency.ts:42-80 | Equal key material means the same run, node, iteration and attempt group. |
| Idempotency.MaterialParts | packages/automa-durable-runner/src/idempotency.ts:42-80 | The key material splits at NUL into run, node, iteration and group. |
| Idempotency.NoKeyExactly | packages/automa-durable-runner/src/idempotency.ts:53-80 | No key is made exactly of a run or node id that is empty or holds NUL. |
| Idempotency.ReplayIsNewIntent | packages/automa-durable-runner/src/idempotency.ts:82-93 | A replay key differs from the key of every group so far. |
| GraphAlgebra.Descendants | packages/automa-flow-canvas/src/core/graph.ts:61-87 | The walk finds exactly what is reachable by at least one edge that starts at a known node. |
| GraphAlgebra.Ancestors | packages/automa-flow-canvas/src/core/graph.ts:61-87 | The same along reversed edges that end at a known node. |
| GraphAlgebra.AncestorMeaning | packages/automa-flow-canvas/src/core/graph.ts:66-68 | Without dangling edges, an ancestor is exactly what can reach the node along the edges. |
| GraphAlgebra.CanConnect | packages/automa-flow-canvas/src/core/graph.ts:108-151 | The five refusals in the source's order. |
| GraphAlgebra.RefusalMeans | packages/automa-flow-canvas/src/core/graph.ts:88-151 | A connection is accepted if and only if both steps exist and differ, the target does not lead back, and neither these ends from this handle nor this input is taken; and the reason given for a refusal holds. |
| GraphAlgebra.CycleNeedsReach | packages/automa-flow-canvas/src/core/graph.ts:132-148 | Adding an arrow to an acyclic graph keeps it acyclic exactly if its target did not reach its source. |
| GraphAlgebra.WouldCreateCycleExact | packages/automa-flow-canvas/src/core/graph.ts:108-151 | Between distinct known nodes of an acyclic graph, would_create_cycle is said exactly of the connections that close a cycle. |
| Kahn.TopologicalOrder | packages/automa-flow-canvas/src/core/graph.ts:250-275 | For distinct ids: an order is found if and only if no edge comes from an unknown source and the known nodes hold no cycle; it lists every node once, each after everything that points at it. |
| Kahn.NoSourceMeansCycle | packages/automa-flow-canvas/src/core/graph.ts:250-275 | A non-empty finite set in which every node has a predecessor holds a cycle. |
| Kahn.NullMeansCyclic | packages/automa-flow-canvas/src/core/graph.ts:250-275 | Without dangling edges the condition for an order is acyclicity alone. |
| Kahn.PhantomSourceBlocks | packages/automa-flow-canvas/src/core/graph.ts:254-258 | One edge from a deleted node makes an acyclic graph unorderable. |
| GraphEditing.GraphStore.AddNode | packages/automa-flow-canvas/src/store/graph-store.ts:106-108 | Appends the node. |
| GraphEditing.GraphStore.RemoveNode | packages/automa-flow-canvas/src/store/graph-store.ts:110-118 | Removes the node and every edge touching it, nothing else. |
| GraphEditing.GraphStore.MoveNode | packages/automa-flow-canvas/src/store/graph-store.ts:120-133 | Changes the position of that node only. |
| GraphEditing.GraphStore.UpdateNodeData | packages/automa-flow-canvas/src/store/graph-store.ts:135-141 | Merges the given fields into that node's data only. |
| GraphEditing.GraphStore.Connect | packages/automa-flow-canvas/src/store/graph-store.ts:143-162 | Refuses as canConnect does and changes nothing, or appends the one edge. |
| GraphEditing.GraphStore.RemoveEdge | packages/automa-flow-canvas/src/store/graph-store.ts:164-166 | Removes the edges with that id only. |
| GraphEditing.EditKeepsSound | packages/automa-flow-canvas/src/store/graph-store.ts:106-166 | Every edit keeps the graph acyclic, free of dangling edges and at one edge per input. |
| GraphEditing.EditMeans | packages/automa-flow-canvas/src/store/graph-store.ts:106-166 | Each edit does what it names and leaves every other item as and where it was: the items left by a removal keep their order, a move changes the position only, given fields win over stored ones, a connection appends one edge with its two ends and handles. |
| GraphEditing.EditedSound | packages/automa-flow-canvas/src/store/graph-store.ts:106-166 | So does every sequence of edits from the empty graph. |
| GraphEditing.EditedDistinct | packages/automa-flow-canvas/src/store/graph-store.ts:106-118 | If every node is added under a fresh id, ids stay distinct. |
| EdgeIds.SameIdExactly | packages/automa-flow-canvas/src/store/graph-store.ts:147-156 | With no "->" in the sources two connections get one id if and only if they leave the same node and target and handle, written together, read the same; with plain ids, if and only if their ends are the same. |
| EdgeIds.EditedUnique | packages/automa-flow-canvas/src/store/graph-store.ts:143-162 | If node ids are fresh, and free of ":" and "->", every edit sequence gives a graph with distinct node ids and distinct edge ids. |
| EdgeIds.EditedPatchFaithful | packages/automa-flow-canvas/src/core/patch.ts:60-140 | So the difference of any two such drawings, replayed on the first, gives the second, and is empty exactly if they are alike. |
| EdgeIds.EdgeIdsCollide | packages/automa-flow-canvas/src/store/graph-store.ts:143-162 | Five edits the editor accepts draw two edges with one id; removing it removes both. |
| References.CollectReferences | packages/automa-flow-canvas/src/core/validation.ts:59-87 | The loops over fields and list items collect the references in order of appearance. |
| References.CollectFinds | packages/automa-flow-canvas/src/core/validation.ts:59-87 | A step is found if and only if some value mentions it, at any depth of objects and lists. |
| References.CollectNames | packages/automa-flow-canvas/src/core/validation.ts:59-87 | A reference is collected under a path if and only if a text at that path, through fields, list positions and lists in lists, names the step. |
| References.ReferencesOf | packages/automa-flow-canvas/src/core/validation.ts:160-175 | So for a node's whole config, paths included, in whatever order its fields come. |
| Validation.EntryPoint | packages/automa-flow-canvas/src/core/graph.ts:167-189 | None exactly without a root; otherwise the root that reaches most, the earliest of several. |
| Validation.Orphans | packages/automa-flow-canvas/src/core/graph.ts:191-213 | In the graph's order, exactly the nodes that the given node, or else the best root (largest reach, earliest on ties), does not reach; none without a root. |
| Validation.Validate | packages/automa-flow-canvas/src/core/validation.ts:89-200 | For distinct ids, publishing is allowed if and only if no edge dangles, the graph is acyclic, there is one root, required fields are filled and every reference is to another node that is an ancestor; and the issues are exactly those there are, each with its severity, node and field. |
| Publishing.PublishableReachesAll | packages/automa-flow-canvas/src/core/validation.ts:89-200 | The one root of a publishable graph reaches every node. |
| Publishing.PublishableCompiles | app/src/flow.ts:101-295 | Of a publishable graph the compiler asks no more than a trigger at the root and well-formed steps: single entry, acyclicity and reachability follow. |
| Publishing.TidyWellShaped | app/src/flow.ts:207-235 | If exactly the edges out of branches carry arms, an accepted graph compiles to a flow whose every node ends, hands over to one node, or forks into exactly two arms. |
| Publishing.WellShapedIffTidy | app/src/flow.ts:192-224 | For an accepted graph that shape is there if and only if exactly the edges out of branches carry arms. |
| Availability.UpstreamExact | packages/automa-durable-runner/src/engine/executor.ts:437-473 | With one row per node, the context maps exactly the finished steps to their own outputs. |
| Availability.AncestorOnWalk | packages/automa-durable-runner/src/engine/executor.ts:437-473 | Where nothing joins, every ancestor of a node on the walk is an earlier node of the walk. |
| Availability.ReferencesAvailable | packages/automa-flow-canvas/src/core/validation.ts:160-196 | End to end: for a flow built by editor operations without target handles, validated and compiled, while a step executes (token discipline; the run of the flow's rows, un-resumed, nothing paused, branches answered) every step its config refers to has succeeded before it and its output is in the context. |
| JsonPointer.RoundTrip | packages/automa-flow-canvas/src/core/patch.ts:26-28 | Unescaping an escaped token gives the token back, whatever it contains. |
| JsonPointer.EscapeCodes | packages/automa-flow-canvas/src/core/patch.ts:26-28 | Section 3 of RFC 6901: ~ is written ~0 and / is written ~1, wherever they stand, and nothing else changes. |
| JsonPointer.PathParts | packages/automa-flow-canvas/src/core/patch.ts:104-115 | A written path splits into collection and token, and the token reads back as the id. |
| Patch.DiffGraph | packages/automa-flow-canvas/src/core/patch.ts:60-102 | The loops compute the difference of the two id-keyed maps, nodes then edges, puts then removes. |
| Patch.ApplyPatch | packages/automa-flow-canvas/src/core/patch.ts:104-140 | The maps and order arrays changed in place end as replaying the operations says, splice(-1) included. |
| PatchFidelity.PatchFaithful | packages/automa-flow-canvas/src/core/patch.ts:60-140 | For distinct ids, replaying diff(a, b) on any graph with a's content gives exactly b's content, ids still distinct. |
| PatchFidelity.EmptyIffSame | packages/automa-flow-canvas/src/core/patch.ts:50-60 | For distinct ids, the difference is empty if and only if the contents are equal. |
| PatchFidelity.DiffExactly | packages/automa-flow-canvas/src/core/patch.ts:60-98 | For distinct ids, the difference holds exactly the changes: an add of what is new, a replace of what differs, a remove of what is gone; nodes before edges. |
| PatchRemoval.RemoveNodeExact | packages/automa-flow-canvas/src/core/patch.ts:117-124 | A remove leaves exactly the nodes with other ids if and only if the graph holds the id or has no nodes. |
| PatchRemoval.RemoveEdgeExact | packages/automa-flow-canvas/src/core/patch.ts:125-133 | And so with the edges. |
| PatchRemoval.UnknownRemoveTakesLast | packages/automa-flow-canvas/src/core/patch.ts:118-121 | Otherwise it drops the last node. |
| PatchRemoval.UnknownEdgeTakesLast | packages/automa-flow-canvas/src/core/patch.ts:126-129 | Otherwise it drops the last edge. |
| Autosave.Autosaver.Schedule | packages/automa-flow-canvas/src/core/patch.ts:216-238 | Pending, state and timer after a change is told. |
| Autosave.Autosaver.Send | packages/automa-flow-canvas/src/core/patch.ts:186-213 | What send does before it awaits: nothing pending, nothing different, or one flight of the difference. |
| Autosave.Autosaver.SaveLands | packages/automa-flow-canvas/src/core/patch.ts:195-213 | A landed save becomes the acknowledged draft. |
| Autosave.Autosaver.SaveFails | packages/automa-flow-canvas/src/core/patch.ts:195-213 | A failed save leaves the acknowledged draft and reports the error. |
| Autosave.ServerMatches | packages/automa-flow-canvas/src/core/patch.ts:169-275 | Through every session of non-overlapping, all-or-nothing saves the server holds the acknowledged draft, the last change is never dropped, and "saved" is shown only of what the server has. |
| Autosave.LandingStalls | packages/automa-flow-canvas/src/core/patch.ts:195-228 | In every orderly session a save that lands leaves pending work unsent and unarmed if and only if something was told while it was under way and all of that had the content acknowledged before it. |
| Autosave.FailureWaits | packages/automa-flow-canvas/src/core/patch.ts:204-211 | A save that fails leaves it so if and only if nothing was told while it was under way. |
| Autosave.UndoDuringSaveStalls | packages/automa-flow-canvas/src/core/patch.ts:186-238 | Undoing a change while its save is under way is such a session. |
| Autosave.SavingShownExactly | packages/automa-flow-canvas/src/core/patch.ts:216-221 | In every orderly session being told a graph shows "saving" with nothing under way if and only if it has the acknowledged content and a send's promise is still held with no save under way. |
| Autosave.SavingSticks | packages/automa-flow-canvas/src/core/patch.ts:216-227 | Telling the unchanged graph after a debounced save is such a session. |
| Autosave.OverlapAcknowledges | packages/automa-flow-canvas/src/core/patch.ts:198-203 | Of two overlapping flushes the newer draft counts as acknowledged in the end if and only if the older landed first or they are alike. |
| Autosave.TimerSends | packages/automa-flow-canvas/src/core/patch.ts:214-229 | A change that differs arms the timer, and the timer sends it once. |
| Autosave.FlushSends | packages/automa-flow-canvas/src/core/patch.ts:230-238 | A flush sends what is pending at once and leaves the timer nothing to do. |
| Autosave.CancelSilences | packages/automa-flow-canvas/src/core/patch.ts:250-266 | What was cancelled is never sent. |
| Autosave.LoadStartsOver | packages/automa-flow-canvas/src/core/patch.ts:268-273 | A loaded graph is acknowledged and shown as saved, and nothing drawn before it is sent by the timer or a flush. |
| Quoting.MaskQuoted | packages/automa-durable-runner/src/branching.ts:175-197 | The loop blanks what stands between matching quotes, same length. |
| Quoting.MaskExactly | packages/automa-durable-runner/src/branching.ts:175-197 | Blanked is exactly what stands behind a quote mark outside any other span and before the next mark of the same kind, either kind inside the other included. |
| Quoting.MatchIsLiteral | packages/automa-durable-runner/src/branching.ts:175-197 | A separator or operator found on the masked text is a literal match wholly outside quotes. |
| Quoting.SplitUnquoted | packages/automa-durable-runner/src/branching.ts:199-212 | The loop splits at the first unquoted separators from left to right. |
| Quoting.SplitParts | packages/automa-durable-runner/src/branching.ts:199-212 | Each part is a slice that starts outside quotes and holds no further separator. |
| Quoting.SplitRejoins | packages/automa-durable-runner/src/branching.ts:199-212 | Joining the parts gives the source back. |
| Quoting.SplitMasks | packages/automa-durable-runner/src/branching.ts:199-212 | Masking commutes with splitting. |
| Quoting.SplitShrinks | packages/automa-durable-runner/src/branching.ts:308-314 | There is more than one part exactly if the separator occurs unquoted, and every part is then shorter: the recursion's measure. |
| Operators.WordFound | packages/automa-durable-runner/src/branching.ts:288-306 | The word operator found stands outside quotes between blanks, and none earlier in the list is there. |
| Operators.SymbolFound | packages/automa-durable-runner/src/branching.ts:398-420 | The symbol found is literally there, outside quotes. |
| Conditions.EvaluateCondition | packages/automa-durable-runner/src/branching.ts:334-429 | The recursion, with both loops, computes the value the other lemmas about Evaluate speak of. |
| Comparisons.WrittenComparison | packages/automa-durable-runner/src/branching.ts:382-424 | left, a symbol, right, with no other operator outside quotes: the values the two sides read as, quotes and blanks taken off, are compared by that symbol: = and != as texts; >, <, >= and <= as numbers, refused if a side is blank or no number. |
| Comparisons.SymbolMeans | packages/automa-durable-runner/src/branching.ts:382-424 | The same for any text that a symbol decides: the first of the list that stands outside quotes. |
| Comparisons.WordMeans | packages/automa-durable-runner/src/branching.ts:364-380 | Of any text a word decides: contains, starts with, ends with and is in compare letters without case, exists asks for a value that is neither empty, null, undefined nor a bare reference, and each negation answers the opposite; text behind exists is refused. |
| Comparisons.OnlyIsFirst | packages/automa-durable-runner/src/branching.ts:127-148 | A text in which just one of the ten words stands is decided by it, wherever that word is in the list. |
| Comparisons.PlainMeans | packages/automa-durable-runner/src/branching.ts:426-429 | Without an operator a text says yes unless it is empty, false, 0, null or undefined in any case. |
| Comparisons.UnreadableExactly | packages/automa-durable-runner/src/branching.ts:334-424 | A single comparison always has an answer, and each reason to refuse one is given exactly of its texts: empty, text behind exists, a blank side, a side that is no number. |
| Comparisons.PartIsComparison | packages/automa-durable-runner/src/branching.ts:340-362 | What a joined condition asks of each part is what that part says alone. |
| Comparisons.UnquoteExactly | packages/automa-durable-runner/src/branching.ts:313-321 | A value is what stands between one pair of matching quotes, or else the text, without the blanks around it. |
| Comparisons.TrimExactly | packages/automa-durable-runner/src/branching.ts:335-336 | Blanks are taken off both ends, all of them and nothing else. |
| ConditionMeaning.EvaluateMeans | packages/automa-durable-runner/src/branching.ts:334-429 | For every condition: the evaluator gives the OR over the alternatives of the AND over the conjuncts, first failure first. |
| ConditionMeaning.LowerJoinersMean | packages/automa-durable-runner/src/branching.ts:334-429 | With lower-case joiners it always answers, is ok if and only if every comparison is, and then is the OR of the ANDs. |
| ConditionMeaning.DivergesExactly | packages/automa-durable-runner/src/branching.ts:308-314 | It calls itself without end if and only if some alternative holds a joiner not in lower case and everything before it could be read; the condition a caller can check is that of LowerJoinersMean. |
| ConditionMeaning.UpperJoinerDiverges | packages/automa-durable-runner/src/branching.ts:339-343 | "a OR b" is such a condition. |
| IpText.ParseIpv4 | packages/automa-safe-fetch/src/ip.ts:36-54 | The loop accepts exactly four octets without leading zeros, at most 255. |
| IpText.ParseIpv6 | packages/automa-safe-fetch/src/ip.ts:56-108 | The byte buffer filled by the loops is what the "::" and dotted-quad rules assemble, zones and brackets stripped. |
| Ipv6Exact.AcceptsExactly | packages/automa-safe-fetch/src/ip.ts:52-108 | A text is accepted for sixteen bytes if and only if it spells a literal of them: eight groups, or at most seven around one "::", of one to four hexadecimal digits of either case, the last two of which may be an IPv4 address, in brackets or not. |
| IpPrint.IpToString | packages/automa-safe-fetch/src/ip.ts:135-165 | The loops print what the longest zero run says. |
| IpPrint.BestRunIsBest | packages/automa-safe-fetch/src/ip.ts:140-158 | The scan finds the longest run of zero groups, the first of several. |
| IpPrint.PrintParses | packages/automa-safe-fetch/src/ip.ts:111-165 | Parsing the printed text gives back the bytes and the family, for every 4- and 16-byte address. |
| Ipv4Exact.ParsesExactlyPrinted | packages/automa-safe-fetch/src/ip.ts:36-54 | The IPv4 parser takes a text for an address if and only if the text is that address's printed form. |
| IpPrint.Canonical | packages/automa-safe-fetch/src/ip.ts:135-165 | Sections 4.1 to 4.3 of RFC 5952: short lower-case groups, and "::" exactly for the leftmost longest run of at least two zero groups. |
| Cidr.CidrContains | packages/automa-safe-fetch/src/ip.ts:188-198 | True if and only if the families agree and the leading prefix bits agree. |
| Cidr.CidrExactly | packages/automa-safe-fetch/src/ip.ts:167-185 | A text is read as a block if and only if it is an address alone, for its full length, or an address, a slash and one to three decimal digits for a prefix no longer than the address. |
| Cidr.BlockReadsBack | packages/automa-safe-fetch/src/ip.ts:167-185 | A printed address, a slash and a printed prefix that fits read back as that block. |
| Cidr.HostBlock | packages/automa-safe-fetch/src/ip.ts:167-198 | A printed address without a prefix is the block that contains this address and no other. |
| Cidr.MappedUnwraps | packages/automa-safe-fetch/src/ip.ts:121-133 | Any IPv4 address written as an IPv4-mapped literal unwraps to its own bytes. |
| Cidr.UnwrapExactly | packages/automa-safe-fetch/src/ip.ts:121-133 | An address unwraps exactly if it is ten zero bytes, two of ones and four more, and then to those four. |
| Numerals.NumeralReadsBack | packages/automa-safe-fetch/src/ip.ts:135-165 | Digits written in base ten or sixteen read back as the number. |
| ReplayGuard.MemoryReplayStore.Record | packages/automa-webhook-gate/src/replay/memory.ts:48-62 | First if and only if the key is new; a repeat reports the first time and changes nothing. |
| ReplayGuard.MemoryReplayStore.Release | packages/automa-webhook-gate/src/replay/memory.ts:64-66 | Forgets that key only. |
| ReplayGuard.MemoryReplayStore.Prune | packages/automa-webhook-gate/src/replay/memory.ts:68-77 | Forgets exactly what is older, and counts it. |
| ReplayGuard.Gate | packages/automa-webhook-gate/src/gate.ts:143-205 | Only an authentic request touches the store; accepted if and only if its key was new, duplicate with the first time otherwise; what is turned away has its status: 405, 413, 401 or 400. |
| ReplayGuard.KeysApart | packages/automa-webhook-gate/src/replay/memory.ts:32-32 | Endpoints without NUL in their id never share a key, whatever the sender puts in its own. |
| ReplayGuard.OnlyAcceptedRemembered | packages/automa-webhook-gate/src/replay/memory.ts:48-62 | A rejected delivery leaves no trace; an accepted one is remembered at its first time and every earlier record stays. |
| ReplayGuard.ToleranceExactly | packages/automa-webhook-gate/src/verify/common.ts:185-205 | In time exactly from the tolerance before the claimed instant to the tolerance after it; a timestamp that is no number and a tolerance that is not positive are told apart. |
| ReplayGuard.StaysRemembered | packages/automa-webhook-gate/src/replay/memory.ts:48-77 | Without release of it, a record survives every prune within its retention. |
| ReplayGuard.RetentionExact | packages/automa-webhook-gate/src/verify/common.ts:185-205 | Every later copy in time is recognised, whatever the store does in between, if and only if the retention covers what is left of the window at the first receipt. |
| ReplayGuard.TwiceSuffices | packages/automa-webhook-gate/src/replay/store.ts:102-113 | Twice the tolerance always covers it. |
| ReplayGuard.AssertedSuffices | packages/automa-webhook-gate/src/replay/store.ts:102-113 | The asserted bound covers it if and only if the first copy was not received before the time it claims. |
| Delivery.AtMostOneRun | packages/automa-webhook-gate/src/fastify.ts:205-231 | With concurrent copies, failed hand-offs, lost releases, crashes, prunes and every engine interleaving, at most one run owning steps exists per delivery key. |
| Delivery.RecordedIsDelivered | packages/automa-webhook-gate/src/fastify.ts:205-231 | Without crash, prune or lost release a recorded delivery has a run that exists and was created for it, or exactly one hand-off of it is under way. |
| Delivery.ReleaseDecidesRetry | app/src/server.ts:237-277 | Whatever other hand-offs are under way, the sender's retry of a failed one is handed over again if and only if the release reached the store; the others are untouched. |
| Shortfalls.PausedRowPassedOver | packages/automa-durable-runner/src/engine/repository.ts:370-379 | A row waiting for a human does not hold back a later pending one. |
| Shortfalls.PausedStepDoesNotBlock | packages/automa-durable-runner/src/engine/executor.ts:253-358 | For any flow and any step but the last, a crash-free history pauses that step and then claims and completes the next one. |
| SilentBranch.OneArmPendingExactly | packages/automa-durable-runner/src/engine/executor.ts:229-246 | After a two-armed branch succeeds, the rows pending below it are what one of its arms reaches if and only if it gave a decision, or one arm leads to the head of the other. |
| SilentBranch.SilentBranchRunsBothArms | packages/automa-durable-runner/src/engine/executor.ts:405-416 | For any flow there is a crash-free history, with no decision ever given, that claims and completes every step: both arms of every branch. |
| Shortfalls.RenewRevivesLapsed | packages/automa-durable-runner/src/engine/repository.ts:537-548 | Renewing a lapsed lease adds a live one without looking at the limits. |
| Shortfalls.ExtraEdgeUnnoticed | app/src/flow.ts:207-220 | An extra unlabelled edge out of a branch passes the branch check. |

## Left out

- EveryRecoveryStops: concurrency limits with one worker only, since two workers can put back each other's blocked steps for as long as the tenant is full. The moves of the first schedule are bounded where no lease is left by a worker that died, since under limits such a lease holds the worker back until it runs out.
- RecoveryMessagesBounded: without further sweeps and without limits; each sweep may send one more message to a run, and a blocked step is a message put back.
- DrainBounded: counts a ceiling of zero as one, as the code does, and holds without concurrency limits, since a blocked step is put back as a message.
- TokenSteps.StepKeepsTokens: a run that a sweep has woken although it had stopped is not resumed on top of that; the resume would send a second message.
- ClaimsWalkTheGraph: for runs never resumed, with nothing paused, whose rows are those of the definition their version resolves to and whose succeeded branches answered; what other runs do is free.
- ReferencesAvailable: for graphs without target handles, where no step has two inputs; a join has no ancestor that is certain to have run.
- ServerMatches: for sessions in which saves do not overlap and a document is not switched under a save; `OverlapAcknowledges` says what overlapping flushes acknowledge, and what the server then holds is not stated.
- CeilingsHold: perFlow counts across tenants while the source's advisory lock is per tenant (`packages/automa-durable-runner/src/engine/repository.ts:493`), so two tenants' claims of one flow could both pass a check that serial transactions decide in turn.
- EditedUnique: for node ids free of `:` and `->`; the editor does not check that.
- RecordedIsDelivered: without process death, pruning or a release that fails; `ReleaseDecidesRetry` and the crash events of `AtMostOneRun` cover those.
- ShiftIsWaiting: for unfinished runs; a finished run's deadline is not moved and is not asked for.
- Gate: takes the verifier's verdict as given and leaves out the construction-time retention check, which `AssertedSuffices` is about, and the response texts.
- SimulateLadder: over scripted failures and draws, as in the source; the handler and its clock are not run.
- Fast paths of SQL: connection pools, row locks and SKIP LOCKED, LISTEN/NOTIFY, migrations, partitions and tenant filters. Transactions are taken to be serial and atomic, each at one `now()`.
- One clock: the Node clock used for delays and the database clock are not told apart, and delays are added to the transaction's `now()`.
- A batch is consecutive relays by one worker in one instant, so a batch is not atomic in the model; this allows more behaviour than the source.
- Lease renewal is not an action of the machine (nothing in the executor calls it); `RenewRevivesLapsed` shows why the ceilings would not survive it.
- drainUntilQuiet's rounds and report lists, run history and partition health.
- Hashing and signatures: key hashes are injective functions of their material; HMAC schemes, header parsing and secret rotation are not modelled.
- Handlers (HTTP, SMTP, AI), the error classifier and template resolution: a handler's outcome is an arbitrary output or error class, but for the branch handler's, which `ConditionChoosesEdge` and `UnreadableIsDeadLettered` are about.
- Text of messages, issue wording and reason strings; problems and issues are constructors.
- The regular expression that scans for references: each text comes with the step ids it mentions, so nested mentions are data.
- Floating point: numbers in conditions are an arbitrary partial reading of text as real numbers, without infinities; jitter draws are real numbers in [0, 1).
- Letters fold in ASCII only; strings are sequences of characters without Unicode normalisation.
- Node data are maps: the key order that JSON.stringify sees is not modelled, so two data objects equal up to key order count as equal; the order of Object.entries is left open.
- Patch values cast to the wrong kind of item are dropped, and node kinds named like members of Object.prototype are not looked up specially.
- Undo and redo, coalescing of drags, selection, layout, chainTail and parent-first ordering.
- Encoded IP literals (octal, hexadecimal and integer hosts) and the fetch policy around addresses.
- Endpoint owners are fixed during a delivery session; re-assigning an endpoint is not modelled.
- Credentials, configuration, the viewer, email allow-lists, AI field coercion and category matching: they would add only single-function facts.
