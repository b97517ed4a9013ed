# Durable workflows, modelled and proved

The SDK runs durable workflow handlers. A handler is re-run from its start in every
invocation: operations already in the store return their recorded outcome, the rest execute
and are checkpointed. This project models the parts whose correctness is not visible in any
one function, and proves what they promise over every run. `dafny verify dfyconfig.toml`
checks it.

## The parts

**Replay engine** (`Operations`, `ReplayEngine`, `ReplayCorrectness`, `ReplayRuns`,
`ReplayCalls`, `ReplayMeaning`, `ReplayLimits`, `DurableContext`). A handler is a deterministic program, a tree whose continuation is a total
function of the outcome of the operation it asked for; operations are steps, waits, polls and
nested child contexts. A step, wait or poll is a plan: its effects in order, and how it ends.
The check of a poll may fail: nothing records that, so every invocation makes the check again.
An invocation reads the records it found at its start (a snapshot that is never refreshed),
writes to the live store, and is cut after an arbitrary number of effects. A history is any
sequence of such invocations, with the service ending waits and making retries ready in
between. The reference is one uninterrupted run that looks at the outcomes of steps, waits and
polls only. `ReplayCalls` adds the operations that invocations call without an outcome, because they
suspend or are cut there. `ReplayMeaning` ties every outcome to what happened: the value a body
gave, the failure the strategy gave up on, the service's end of a wait, the answer of a poll. `DurableContext` has the same engine as the classes and methods of the SDK, each method
proved equal to the engine's function.

**Operation ids** (`OperationIds`, `Decimal`). The engine addresses an operation by the calls
that lead to it. `OperationIds` flattens addresses into the SDK's strings and proves that
nothing is confused on the way.

**Steps, waits and polls over whole runs** (`StepRuns`, `StepOutcomes`, `WaitRuns`, `PollRuns`,
`Retry`). Attempt counting, at-most-once, bounded retries, what a step returns, backoff
arithmetic over the reals, and the answer of `wait_for_condition`, defined without any schedule.

**Map and parallel** (`Batches`, `BatchRuns`, `BatchScheduler`, `BatchOutcomes`, `BatchReplay`,
`BatchSerdes`). The scheduling loop joins children in an arbitrary order; whether a child is
ever joined is left open too. `BatchRuns` has the loop as a relation between joins and states,
which the loop of `BatchScheduler` is proved to follow. Children are black boxes with an outcome each. Finished batches are recorded as JSON
documents (full result or summary) and replayed from them, or from the children's records.

**Checkpoint queue** (`OperationUpdates`, `Coalesce`, `Batching`, `CheckpointQueue`,
`QueueGuarantees`, `CheckpointManager`, `EngineBackend`). Producers and workers are atomic
steps over shared state; any number of workers could exist. `CheckpointManager` is the class
with its loops; its worker loop, with producers pushing between any two critical sections, is
proved to be a run of the atomic steps. `EngineBackend` joins the queue to the replay engine's
store.

**Durations** (`Durations`): ISO 8601 text form and saturating sum.

## Assumptions

- A failed batch of updates ends the invocation. `checkpoint()` itself returns `Ok` when its batch failed
  (`src/checkpoint/manager/queue.rs:69-95`, `src/checkpoint/manager.rs:186-189`); the engine
  therefore treats a failed batch as a cut.
- The service applies an acknowledged update to its record, and a RETRY raises the recorded
  attempt by one.
- The codec of user values decodes what it encoded. For batch results a value that prints as
  JSON `null` is not assumed to survive, since it does not.
- The hash gives 32 hexadecimal characters and is injective on the ids of one run. (It cannot
  be injective on all strings.)
- Strings are sequences of characters standing for UTF-8 bytes, so lengths are byte lengths.

## Where code and documentation disagree

The model follows the code.

- `ARCHITECTURE.md:80` and `:759-761` say that a Started step under `AtMostOncePerRetry`
  suspends. The code asks the retry strategy and records a RETRY or a FAIL
  (`src/context/durable_context/step/replay.rs:73-154`).
- `ARCHITECTURE.md:557` calls the sub-type of map children `MapItem`; the code writes
  `MapIteration` (`src/context/durable_context/map/execute.rs:150`).
- The re-check of a wait after its START (`src/context/durable_context/wait/execute.rs:63-74`)
  is meant to see short waits that have already ended. It reads the snapshot, where the
  operation has no record, so it never finds one.

## What turned out false, and exactly when it holds

- Ids are unique except when the name of a root operation spells out a hashed context id, a
  colon and a child's name (`OperationIds.RootCollidesExactly`, `IdsAreUniqueExactly`).
- Reconstruction of a map from its children agrees with its execution exactly when every child
  abandoned at completion has a record that is not final
  (`BatchReplay.ReconstructionAgreesExactly`). An abandoned child that never sent its START
  makes the replay fail.
- A batch that is executed again, rather than replayed, need not return the same result. Its
  result is independent of the order in which children finish exactly when they run one at a
  time, no success is asked for (a minimum of zero), their outcomes give no reason to stop early,
  or all of them fail and only the last failure is one too many. Otherwise there are two runs with
  different results (`BatchOutcomes.OrderIndependentExactly`).
- A batch replayed from its full payload is the batch that was returned exactly when no item
  failed with a structured error and no value prints as `null`
  (`BatchReplay.FullReplayIsExact`).
- The queue can be stuck: an update pushed between the worker's empty test and the clearing of
  its flag is stranded, and this is the only way (`QueueGuarantees.StrandedExactly`,
  `TwoStepExitCanStrand`). With the two in one step it never is.
- Under `AtMostOncePerRetry` a second or later attempt can run twice: once for every invocation
  cut while the record was Ready (`StepRuns.EntriesAreBounded`, exact from attempt 2 on).
- Backoff delays without jitter and with a rate of at least one, over the attempts a strategy is
  asked about, never decrease exactly with at most 2^31 + 1 attempts, with no initial delay or a
  maximum of at most a second, or if the rate is so near to one that 2^31 powers of it are lost in
  rounding to seconds (`Retry.NeverDecreasesForConfiguration`). For a rate of one or at least
  1.0000001 the last case is the rate of one (`Retry.NeverDecreasesForOrdinaryRates`). Otherwise the
  delay falls where the exponent wraps to a negative number.
- An exceeded `wait_for_condition` comes back as a failed step, and only that
  (`PollRuns.ReplayRepeatsUnlessExceeded`). So interruption is unobservable for handlers whose
  polls stop or fail before their attempt limits; a handler that makes one poll returns the same
  in every invocation exactly then (`ReplayLimits.ReturnsAgreeExactly`).
- A completed run is replayed without entering a body, except for polls whose check failed: the
  failure is not recorded, and the check is made once more in every replay
  (`ReplayRuns.CompletedRunIsPureReplay`, `CompletedRunHasNoEffects`).
- `map` reaches `unreachable!` exactly for a non-empty list with `min_successful = 0`
  (`BatchScheduler.BatchContext.RunExecution`).
- Coalescing goes unnoticed by exactly the backends for which two updates of one operation and
  their merge have the same effect (`Batching.RefinementNeedsMergeLaw`). The engine's store is not
  one of them (`EngineBackend.RetriesDoNotMerge`), but it does not notice the batches in which each
  operation has the updates of at most one call (`EngineBackend.QueueRefinesEngine`).

## Model

| member | source | states |
|---|---|---|
| `ReplayRuns.InterruptionIsUnobservable` | src/context/durable_context/child.rs:104-148 | if any invocation of any history returns, however earlier ones were cut, it returns the result of one uninterrupted run given the outcomes recorded by the end of the history |
| `ReplayRuns.SameOperationSameOutcome` | src/context/execution_context.rs:170-182 | two invocations that hand the handler an outcome at the same position of the same context found the same name and hand it the same outcome, the one the uninterrupted run has there |
| `ReplayRuns.CompletedRunIsPureReplay` | src/context/durable_context/step.rs:125-140 | after an invocation has returned, every later one writes nothing and returns the same; it enters the bodies of failed checks only, once each, and can be cut nowhere else |
| `ReplayRuns.CompletedRunHasNoEffects` | src/context/durable_context/step.rs:125-140 | where no check fails, every later invocation returns the same without writing or entering a body, so no cut can stop it |
| `ReplayRuns.NeverBlocked` | src/checkpoint/manager/lifecycle.rs:5-18 | no call ever blocks on a finished parent context |
| `ReplayRuns.BigChildIsRebuilt` | src/context/durable_context/child.rs:135-142 | the value of a child over 256 KB, stored as empty, is rebuilt by re-running the child, which writes nothing and makes only its failed checks again |
| `ReplayRuns.HistoryIsCoherent` | src/context/durable_context/child/execute.rs:16-140 | every history leaves a store an invocation can resume from, never changes a final record, and changes no outcome the records have determined |
| `ReplayRuns.ServiceKeepsCoherence` | src/context/durable_context/wait/execute.rs:16-33 | the service may end any open wait or make any due retry ready between invocations |
| `ReplayCorrectness.UninterruptedGrows` | src/context/durable_context/step/replay.rs:24-63 | where outcomes stay, more records lengthen the uninterrupted run and change nothing in what it has already seen |
| `ReplayCorrectness.ExecGrows` | src/context/durable_context/wait_condition/execute.rs:16-188 | one cut invocation changes no outcome that the store it found determines, failing checks included |
| `ReplayRuns.OnePerPosition` | src/context/execution_context.rs:171-182 | a run performs one operation at each position of each context |
| `ReplayCalls.CallsAreReached` | src/context/execution_context.rs:170-202 | every operation that any invocation of a history calls, whether it then returns, suspends or is cut, is one of the uninterrupted run, the operation that run stops at included |
| `ReplayCalls.OneCallPerPosition` | src/context/execution_context.rs:170-182 | the uninterrupted run calls one operation at each position of each context, the open ones included |
| `ReplayCalls.SamePositionSameCall` | src/context/execution_context.rs:170-182 | two invocations that call an operation at the same position of the same context, with or without an outcome, call it by the same name |
| `ReplayCalls.RecordsAreReached` | src/context/durable_context/step/execute.rs:30-63 | after any history, every record in the store is that of an operation of the uninterrupted run |
| `ReplayCalls.CallsGiveUnlessCut` | src/context/durable_context/child/execute.rs:16-140 | an invocation hands the handler an outcome for exactly the operations it calls, except the one it stops at and the contexts that one lies in |
| `ReplayLimits.ReturnsAgreeExactly` | src/context/durable_context/wait_condition/execute.rs:49-75 | for a handler that makes one poll: all invocations that return, in all histories, return the same if and only if the poll stops or fails before its attempt limit |
| `ReplayCorrectness.ExecKeepsPromises` | src/context/durable_context/child.rs:123-148 | one cut invocation: the store stays resumable, final records stay, what handler code saw lies on the uninterrupted run, a result is settled by the store, and a settled run is only replayed |
| `ReplayCorrectness.ChildRuns` | src/context/durable_context/child.rs:123-148 | a child context keeps the same promises whichever of recorded result, re-run and execution is taken |
| `ReplayCorrectness.SettledIsUninterrupted` | src/context/durable_context/child/replay.rs:24-88 | a run all of whose operations are recorded gives what the uninterrupted run gives, though the latter ignores the records of child contexts |
| `ReplayMeaning.SeenIsExplained` | src/context/durable_context/step/execute.rs:83-201 | whatever an invocation of a history hands to handler code is explained by what happened in it: a value or failure that a body gave, an interruption the strategy gave up on, the service's end of a wait, the answer of a poll, or what a child's code came to |
| `ReplayMeaning.HistoryIsExplained` | src/context/durable_context/step/execute.rs:83-201 | after every history the same holds of all outcomes along the uninterrupted run |
| `ReplayMeaning.StepValueIsGiven` | src/context/durable_context/step/execute.rs:84-118 | a value handed out by a step was given by a body in one of the invocations |
| `ReplayMeaning.WaitOutcomeIsServed` | src/context/durable_context/wait/execute.rs:16-33 | what a wait hands out is how the service ended it |
| `ReplayMeaning.ChildRecordSays` | src/context/durable_context/child/execute.rs:53-139 | a completed child context has recorded its value if that takes at most 262144 bytes, otherwise the order to run it again, or the text of its failure |
| `ReplayMeaning.ChildRecordReads` | src/context/durable_context/child/replay.rs:24-88 | a child context returns its recorded value or failure, is run again, or executes, exactly by status, flag and readable payload |
| `ReplayMeaning.ChildWritesOnce` | src/context/durable_context/child/execute.rs:16-139 | a child context writes its START only without a record, and its end only while that is open |
| `ReplayMeaning.FinishedParentBlocks` | src/checkpoint/manager/lifecycle.rs:5-18 | a write below a finished context does not take place and its call does not return |
| `ReplayEngine.LeafRecordsWhatItReturns` | src/context/durable_context/step/execute.rs:83-201 | cut anywhere, a step, wait or poll leaves an open record, unless it returns; then its record determines the very outcome it returns |
| `ReplayEngine.SettledLeafHasNoEffects` | src/context/durable_context/step/replay.rs:24-63 | a final record is returned without any effect, whatever the body would do; a failing check is made again and fails the same |
| `ReplayEngine.PerformIsAPrefix` | src/context/durable_context/step/execute.rs:30-63 | below an open context a cut call has performed a prefix of its effects |
| `DurableContext.Invocation.Do` | src/checkpoint/manager.rs:142-190 | one effect as the engine performs it, including the block on a finished parent |
| `DurableContext.ExecutionContext.NextOperationId` | src/context/execution_context.rs:171-182 | numbers operations of one context consecutively |
| `DurableContext.ExecutionContext.HandleReplay` | src/context/durable_context/step/replay.rs:6-161 | ends as the step's plan does, or leaves everything unchanged, and this exactly when the body is to run |
| `DurableContext.ExecutionContext.EnterStep` | src/context/durable_context/step/execute.rs:25-64 | an at-most-once START is stored before the body is entered; an at-least-once START is sent and may be stored before or while the body runs |
| `DurableContext.ExecutionContext.RunStepExecution` | src/context/durable_context/step/execute.rs:5-202 | START by prior status, body, then SUCCEED, RETRY or FAIL: the plan's run for every cut |
| `DurableContext.ExecutionContext.Step` | src/context/durable_context/step.rs:104-155 | a step call refines the engine's leaf run |
| `DurableContext.ExecutionContext.Wait` | src/context/durable_context/wait/execute.rs:3-91 | a wait call refines the engine's leaf run; the re-check after START finds nothing |
| `DurableContext.ExecutionContext.WaitForCondition` | src/context/durable_context/wait_condition/replay.rs:3-62 | a poll call refines the engine's plan |
| `DurableContext.ExecutionContext.RunWaitCondition` | src/context/durable_context/wait_condition/execute.rs:16-188 | one attempt from the recorded state, with the attempt limit, for every cut |
| `DurableContext.ExecutionContext.RunInChildContext` | src/context/durable_context/child.rs:82-148 | dispatch between recorded result, re-run and execution refines the engine's child run |
| `DurableContext.ExecutionContext.RunChildExecution` | src/context/durable_context/child/execute.rs:3-140 | START unless recorded, nested run, completion, for every cut |
| `DurableContext.ExecutionContext.CompleteChild` | src/context/durable_context/child/execute.rs:53-139 | failure wrapped for the caller, payload dropped above the limit |
| `DurableContext.ExecutionContext.RunHandler` | src/context/execution_context.rs:195-202 | a handler run by the objects ends with the store, outcome and remaining cut of the engine's run |
| `OperationIds.BaseIsInjective` | src/context/execution_context.rs:172-176 | name and counter can be told apart however the name ends |
| `OperationIds.IdsLookSo` | src/context/execution_context.rs:170-182 | name or `op`, underscore and number; below a context its hashed id and a colon come first |
| `OperationIds.RootCollidesExactly` | src/context/execution_context.rs:178-182 | a root and a nested operation share an id exactly when the root's name spells the nested id out |
| `OperationIds.OrdinaryNamesSpellNothing` | src/context/execution_context.rs:178-182 | a root name that does not begin with 32 hexadecimal characters and a colon never does so |
| `OperationIds.IdsAreUniqueExactly` | src/context/execution_context.rs:170-202 | over any closed set of operations, two addresses having one id exactly if they are one operation is the same as no root name spelling a nested id |
| `OperationIds.SameIdOnlyIfSame` | src/context/execution_context.rs:170-202 | operations called by any two invocations of a history, whether they return, suspend or are cut, have the same id if and only if they are the same operation |
| `OperationIds.RecordsDoNotCollide` | src/context/execution_context.rs:170-202 | two records of the store are kept under the same hashed id if and only if they are those of one operation |
| `StepRuns.EntriesAreBounded` | src/context/durable_context/step/replay.rs:73-154 | body entries of attempt n: one if begun, plus one for each invocation cut while the record was Ready; exact for n >= 2 |
| `StepRuns.FirstAttemptRunsAtMostOnce` | src/context/durable_context/step/replay.rs:73-154 | attempt 1 runs at most once over any cuts |
| `StepRuns.StartedIsNotReentered` | src/context/durable_context/step/replay.rs:73-154 | after any history that leaves attempt a Started, no continuation of that history enters the body as attempt a |
| `StepRuns.ReadyAttemptCanRunTwice` | src/context/durable_context/step/execute.rs:25-28 | a concrete run in which attempt 2 is entered twice |
| `StepRuns.StrategiesAreBounded` | src/retry/strategy.rs:212-397 | every strategy of the SDK retries only below its attempt limit |
| `StepRuns.RetriesAreBounded` | src/context/durable_context/step/execute.rs:119-166 | at most max(0, n-1) retries are recorded over any run, from failed bodies and interrupted attempts together, and the recorded attempt counts them |
| `StepRuns.AlwaysFailingBodyRuns` | src/context/durable_context/step/execute.rs:119-200 | a body that always fails ends Failed after exactly max(1, n) runs, no earlier and no later, whenever its STARTs are stored |
| `StepRuns.StrategyRuns` | src/retry/strategy.rs:212-397 | under each strategy of the SDK, a body that always fails with one message ends Failed after exactly the attempts its limit allows, one if the message is not retryable, and at least one |
| `StepOutcomes.ReturnsVerdictExactly` | src/context/durable_context/step/execute.rs:83-201 | in every history, an invocation of a step returns exactly the verdict on the last attempt decided by its end: its body's value, its failure if the strategy gives up on it, and nothing otherwise |
| `StepOutcomes.BodyValueIsReturned` | src/context/durable_context/step/execute.rs:84-118 | an uncut invocation that runs the body returns the body's value, and so does every later one, whatever its body would give |
| `StepOutcomes.ReturnedValueIsGiven` | src/context/durable_context/step/execute.rs:84-118 | a step that returns a value returns the one of the last body run to its end |
| `StepOutcomes.VerdictStays` | src/context/durable_context/step/replay.rs:24-63 | once there is a verdict no later event decides anything |
| `StepOutcomes.SucceededReads` | src/context/durable_context/step/replay.rs:24-44 | a Succeeded record gives its value exactly if the payload can be decoded, an error otherwise, and no effect |
| `StepOutcomes.FailedReads` | src/context/durable_context/step/replay.rs:45-63 | a Failed record gives its message, or a default, with the attempt after the recorded one |
| `StepOutcomes.OpenReads` | src/context/durable_context/step/replay.rs:64-72 | a retry not yet due suspends without effect; a Ready attempt has no START sent, one with an unknown record has |
| `WaitRuns.WaitReturnsExactly` | src/context/durable_context/wait/execute.rs:16-33 | in every history, a wait that is not zero returns exactly when the service has ended it, `Ok` if as succeeded and the error if as failed |
| `WaitRuns.WaitStartsOnce` | src/context/durable_context/wait/execute.rs:36-62 | however often it is called and cut, exactly one START is written, by the first invocation not cut before |
| `WaitRuns.ZeroWaitIsFree` | src/context/durable_context/wait/execute.rs:3-15 | a wait of zero returns at once, writes nothing and has no record |
| `PollRuns.AnswerIsUnique` | src/context/durable_context/wait_condition/execute.rs:16-188 | check function and strategy determine at most one outcome |
| `PollRuns.ExceedsExactly` | src/context/durable_context/wait_condition/execute.rs:49-75 | the limit is exceeded exactly when no stopping attempt lies within it |
| `PollRuns.OneInvocation` | src/context/durable_context/wait_condition/execute.rs:16-188 | an uncut invocation gives the answer or records one more attempt; a cut one loses nothing |
| `PollRuns.PollingGivesTheAnswer` | src/context/durable_context/wait_condition/execute.rs:16-188 | for every schedule of cuts, an invocation that returns gives that outcome: the check applied n times, n the first attempt the strategy stops at |
| `PollRuns.NextUncutInvocation` | src/context/durable_context/wait_condition/execute.rs:16-188 | after n uncut invocations without an answer, whatever cut ones lie between, the next uncut one returns exactly if the limit is n, the check fails or the strategy stops, and returns that |
| `PollRuns.EveryAnswerIsGiven` | src/context/durable_context/wait_condition/execute.rs:16-188 | whenever there is an answer, every history with a certain number of uncut invocations is followed by one that returns it |
| `PollRuns.AllSchedulesAgree` | src/context/durable_context/wait_condition/execute.rs:16-188 | two schedules cannot return different outcomes |
| `PollRuns.ReplayRepeatsUnlessExceeded` | src/context/durable_context/wait_condition/replay.rs:39-56 | the next invocation repeats the outcome if and only if the limit was not exceeded; an exceeded limit comes back as a failed step with the recorded attempts, at least one, and the text of the first error |
| `PollRuns.SucceededReads` | src/context/durable_context/wait_condition/replay.rs:16-38 | a Succeeded record gives its value exactly if the payload can be decoded, an error otherwise, and no effect |
| `PollRuns.FailedReads` | src/context/durable_context/wait_condition/replay.rs:39-56 | a Failed record gives its message, or a default, with the recorded attempts |
| `PollRuns.StateReads` | src/context/durable_context/wait_condition/execute.rs:16-48 | a check starts from the recorded state if it can be decoded, from the initial one otherwise |
| `PollRuns.LimitComesFirst` | src/context/durable_context/wait_condition/execute.rs:49-75 | beyond its limit a poll writes the failure, and nothing else |
| `PollRuns.OneCheckIsMade` | src/context/durable_context/wait_condition/execute.rs:76-188 | within its limit a poll makes one check, after a START if it has no record, and writes what the check gives |
| `Retry.DelayIsBounded` | src/retry/strategy.rs:168-198 | every delay lies between one second and the larger of one second and the maximum |
| `Retry.FirstDelay` | src/retry/strategy.rs:168-177 | before and after the first attempt the delay is the initial one, as far as the maximum allows |
| `Retry.NextDelay` | src/retry/strategy.rs:168-177 | up to attempt 2^31 and with a rate of at least one, each delay is the one before times the rate, as far as the maximum allows |
| `Retry.DoublingDelays` | src/retry/strategy.rs:168-198 | five seconds doubled up to five minutes: 5, 10, 20, 40, 80, 160, 300, 300 |
| `Retry.DelayIsNearest` | src/retry/strategy.rs:197 | a delay in seconds is the whole number nearest to its value, at least one, halves going up, and at most 2^32 - 1 |
| `Retry.JitterRangesExactly` | src/retry/strategy.rs:179-195 | the delays that jitter can make of a capped one: itself, all up to it, or all in its upper half |
| `Retry.JitterKeepsHalf` | src/retry/strategy.rs:185-194 | half and equal jitter keep at least half of the capped delay |
| `Retry.DelayGrows` | src/retry/strategy.rs:168-198 | without jitter and with rate >= 1 delays do not decrease while the exponent does not wrap |
| `Retry.NeverDecreasesExactly` | src/retry/strategy.rs:168-198 | over the attempts the strategy is asked about, delays never decrease if and only if it gives up by attempt 2^31 + 1 or the delay does not fall at the wrap of the exponent |
| `Retry.NeverDecreasesForConfiguration` | src/retry/strategy.rs:168-198 | for every rate from one on: delays never decrease if and only if there are at most 2^31 + 1 attempts, no initial delay, a maximum of at most a second, or 2^31 powers of the rate are lost in rounding |
| `Retry.NeverDecreasesForOrdinaryRates` | src/retry/strategy.rs:168-198 | for a rate of one or at least 1.0000001: delays never decrease if and only if there are at most 2^31 + 1 attempts, the delay is constant or zero, or the maximum is at most a second |
| `Retry.WrapShows` | src/retry/strategy.rs:173 | for a rate of at least 1.0000001, a positive initial delay and a maximum above a second, the delay falls to one second at the wrap |
| `Retry.WrapMakesDelaysDecrease` | src/retry/strategy.rs:173 | a doubling strategy whose delay falls from five minutes to one second |
| `Batches.ToleranceIsExact` | src/context/durable_context/batch.rs:48-70 | count and percentage tolerances together amount to one number fixed in advance |
| `Batches.WithoutTolerance` | src/context/durable_context/batch.rs:42-52 | without criteria the first failure ends a batch; a minimum of successes alone tolerates all |
| `Batches.WithTolerance` | src/context/durable_context/batch.rs:53-70 | a count allows so many failures, a percentage that share of the items, both together both |
| `Batches.RefusedExactly` | src/context/durable_context/batch.rs:4-40 | a configuration is refused exactly for a minimum or a count above the number of items, or a percentage outside 0 to 100 |
| `Batches.ReasonIsExact` | src/context/durable_context/batch.rs:72-92 | a batch that stops at once: tolerance exceeded by exactly one failure; otherwise all completed; otherwise exactly the minimum succeeded |
| `Batches.SortedIsStable` | src/context/durable_context/map/execute.rs:233 | sorting by index loses, adds and reorders nothing among equal indices |
| `Batches.SortFills` | src/context/durable_context/map/execute.rs:208-233 | items pushed in any order, one per started child, come out with indices 0, 1, 2, … and each child's own state |
| `BatchScheduler.BatchContext.StartChildren` | src/context/durable_context/map/execute.rs:128-172 | starts children in index order up to the limit, and none once the batch may stop |
| `BatchScheduler.BatchContext.JoinNext` | src/context/durable_context/map/execute.rs:174-192 | whichever child is joined, succeeded, failed and in-flight indices keep partitioning the started ones |
| `BatchScheduler.BatchContext.RunLoop` | src/context/durable_context/map/execute.rs:118-199 | whatever child is joined next, the loop follows the joins-to-states relation of `BatchRuns` to one of its ends, child ids follow indices, and it is out of work exactly if nothing was joined |
| `BatchRuns.StatesAreOk` | src/context/durable_context/map/execute.rs:127-192 | after any joins: one completed child for each, with its own outcome, and no more in flight than the limit |
| `BatchRuns.FirstFill` | src/context/durable_context/map/execute.rs:128-172 | nothing is started exactly for an empty list or a minimum of zero |
| `BatchRuns.EndsPromptly` | src/context/durable_context/map/execute.rs:118-199 | a run that joins a child ends at the very join that lets it stop, with min(total, completed - 1 + limit) children started |
| `BatchRuns.InFlightIsLimited` | src/context/durable_context/map/execute.rs:118-128 | with a `max_concurrency` of m, no more than max(1, m) children are in flight in any state, before or after starting more |
| `BatchRuns.FirstFillStarts` | src/context/durable_context/map/execute.rs:118-172 | where children may start, the loop first starts min(total, max(1, m)) of them, and all without a limit |
| `BatchRuns.EndsHavingStarted` | src/context/durable_context/map/execute.rs:118-199 | a run that ends has started min(total, completed - 1 + max(1, m)) children, and all without a limit |
| `BatchScheduler.Assemble` | src/context/durable_context/map/execute.rs:208-233 | the result lists every started child once, at its own index |
| `Batches.ItemsTell` | src/context/durable_context/map/execute.rs:208-233 | an item has its child's index, and tells exactly whether the child is in flight, its value, or its error |
| `BatchScheduler.DefaultNames` | src/context/durable_context/map/execute.rs:136-143 | items without a name are called after the batch, or `map` or `parallel`, and numbered from zero |
| `BatchScheduler.DefaultNamesDiffer` | src/context/durable_context/map/execute.rs:136-143 | no two default names of a batch are the same |
| `BatchScheduler.BatchContext.RunExecution` | src/context/durable_context/map/execute.rs:43-315 | a finished run returns and records the batch of some order of completion, with one number taken per started child and at most max(1, max_concurrency) left in flight; a panic exactly for a non-empty map with a minimum of zero |
| `BatchScheduler.BatchContext.FinishBatch` | src/context/durable_context/parallel/execute.rs:125-338 | items and reason of the finished batch, and the update that records it |
| `BatchScheduler.BatchContext.EvaluateRecord` | src/context/durable_context/map/replay.rs:12-126 | decision, operation numbers consumed by a full payload, and the switch to execution for an unfinished record |
| `BatchScheduler.BatchContext.ReconstructFromChildren` | src/context/durable_context/map/replay.rs:131-289 | the batch that the children's records spell, or the first child's error that they do not |
| `BatchScheduler.BatchContext.Run` | src/context/durable_context/map.rs:13-115 | rejects bad configurations before taking a number; otherwise replays exactly in replay mode with a usable record, else runs |
| `BatchScheduler.ReplayRecorded` | src/context/durable_context/map/replay.rs:131-289 | the replay of a recorded batch leaves the counter where the run left it, and returns the batch exactly when the children are found as they were |
| `BatchScheduler.RunThenReplay` | src/context/durable_context/map.rs:74-115 | a batch is run and then replayed: the enclosing counter ends at the same number, so every later operation keeps its id |
| `BatchOutcomes.OrderIndependentExactly` | src/context/durable_context/map/execute.rs:127-199 | the result is the same for every order of completion if and only if children run one at a time, the minimum is zero, their outcomes give no reason to stop early, or all fail and only the last failure is one too many |
| `BatchOutcomes.ConditionSuffices` | src/context/durable_context/map/execute.rs:127-199 | under that condition any two runs end in the same state |
| `BatchOutcomes.TwoRuns` | src/context/durable_context/map/execute.rs:194-199 | without it there are two runs, join by join, that end in different states |
| `BatchReplay.CounterAgreement` | src/context/durable_context/map/replay.rs:73-117 | with k started children, full payload and summary both consume exactly k numbers, in whatever order children finished, and a replay with fewer items is refused |
| `BatchReplay.SummaryIsRecognised` | src/context/durable_context/map/replay.rs:46-114 | a summary is told from a full payload and gives its total back |
| `BatchReplay.FullPayloadIsNoSummary` | src/context/durable_context/map/replay.rs:47-60 | a full payload is never taken for a summary |
| `BatchReplay.SummariesExactly` | src/context/durable_context/map/replay.rs:47-60 | a document is taken for a summary exactly if it is an object of another kind than a batch with the right type or any total |
| `BatchReplay.SummaryCounts` | src/context/durable_context/batch.rs:110-142 | a summary says of which operation it is, and how many items there are, succeeded and failed |
| `BatchReplay.SummaryStatus` | src/context/durable_context/batch.rs:94-142 | it says why the batch was complete, whether any item failed, and, for `parallel` alone, how many were in flight |
| `BatchReplay.SummaryCountsItems` | src/context/durable_context/map/execute.rs:243-300 | the counts of a summary are those of the batch's items by status |
| `BatchReplay.BatchRecordSays` | src/context/durable_context/map/execute.rs:243-300 | a batch whose document takes at most 262144 bytes is stored whole, any other as a summary with the order to ask the children |
| `BatchReplay.OtherRecordsRead` | src/context/durable_context/map/replay.rs:20-46 | a failed record is raised with its message, or a default; an open one, or one without a payload, has the batch run |
| `BatchReplay.OtherPayloadsRead` | src/context/durable_context/map/replay.rs:46-126 | an unreadable payload ends the invocation; a summary without a usable total has the batch run |
| `BatchReplay.TargetIsBound` | src/context/durable_context/map/replay.rs:73-100 | the number of operations a full payload stands for is one more than its largest index |
| `BatchReplay.FullReplayIsExact` | src/types/batch_serdes.rs:106-177 | the batch read back equals the batch returned if and only if no structured error and no null value is in it |
| `BatchReplay.ReconstructsExactly` | src/context/durable_context/map/replay.rs:167-289 | reconstruction gives a batch if and only if every child is read as that batch has it |
| `BatchReplay.ChildReadsExactly` | src/context/durable_context/map/replay.rs:167-246 | what is read of a child, for every record it can have |
| `BatchReplay.ChildReadsBack` | src/context/durable_context/map/replay.rs:183-246 | a completed child reads back as the outcome the batch saw; an abandoned one if and only if its record is not final |
| `BatchReplay.ReconstructionAgreesExactly` | src/context/durable_context/map/replay.rs:167-289 | items, values, error messages and reason are those of the execution if and only if every abandoned child still has an open record |
| `BatchReplay.UnrecordedChildFailsReplay` | src/context/durable_context/map/replay.rs:176-181 | an abandoned child that never sent its START makes the replay fail, naming it |
| `BatchReplay.BigItemIsRebuilt` | src/context/durable_context/map/replay.rs:184-212 | a child too big to store is read, through the engine's re-run, as its value |
| `BatchSerdes.StatusCodec` | src/types/batch_serdes.rs:67-99 | a text denotes a status or a reason if and only if it is the one printed for it |
| `BatchSerdes.DocumentSays` | src/types/batch_serdes.rs:106-136 | the document of a batch: its kind, the text of its reason, and one object per item in place |
| `BatchSerdes.ItemSays` | src/types/batch_serdes.rs:106-136 | the object of an item: its index, the text of its status, its value, and its error's message |
| `BatchSerdes.Deserialize` | src/types/batch_serdes.rs:138-176 | the loop reads exactly the documents the specification reads, with the same first error |
| `BatchSerdes.RefusedWith` | src/types/batch_serdes.rs:138-176 | which error refuses a document: no payload, another kind, an unknown reason, an unknown status, in this order |
| `BatchSerdes.RefusesFirstStatus` | src/types/batch_serdes.rs:150-170 | items are refused exactly for the first unknown status |
| `BatchSerdes.ItemReads` | src/types/batch_serdes.rs:150-170 | a failed item without a message is read with a default one, an item that did not fail without an error |
| `BatchSerdes.DecodesToNormalForm` | src/types/batch_serdes.rs:106-176 | every batch can be read back, to its stable order with failures as messages |
| `BatchSerdes.RoundTripExactly` | src/types/batch_serdes.rs:106-176 | the round trip is the identity if and only if items are in order and plain |
| `Coalesce.CoalesceUpdates` | src/checkpoint/manager/coalesce.rs:4-80 | fails if and only if two updates of one operation differ in type, otherwise gives one merged update per operation; the mismatch warning is dead code |
| `Coalesce.MergedFields` | src/checkpoint/manager/coalesce.rs:34-65 | every optional field is the last present value, the action the last action |
| `Coalesce.LastPresentExactly` | src/checkpoint/manager/coalesce.rs:34-65 | the value of a merged field is that of the last update that has one |
| `Coalesce.CoalescedIds` | src/checkpoint/manager/coalesce.rs:76-79 | output ids are the input ids in first-occurrence order, without repetition |
| `Coalesce.CoalesceInStages` | src/checkpoint/manager/coalesce.rs:12-79 | coalescing in two stages is coalescing at once, failures included |
| `Batching.BatchIsLongest` | src/checkpoint/manager/queue.rs:30-42 | a batch is the longest prefix of the queue that fits |
| `Batching.EstimateByTheByte` | src/checkpoint/manager/queue.rs:170-178 | an update without texts costs 100, and one more byte of id, parent id, name or payload costs one more |
| `Batching.EstimateIgnoresTheRest` | src/checkpoint/manager/queue.rs:170-178 | nothing but those four texts counts |
| `Batching.BatchStaysWithinBytes` | src/checkpoint/manager/queue.rs:30-42 | a batch of two or more updates stays, with 100 bytes each and 100 more, within 768000 bytes of text |
| `Batching.BigPayloadsNeverShare` | src/checkpoint/manager/queue.rs:34-37 | two updates whose payloads together exceed 768000 bytes are never sent in one batch |
| `Batching.GreedyIsSplit` | src/checkpoint/manager/queue.rs:21-45 | batches are non-empty, fit or are single updates, and concatenate to the queue |
| `Batching.GreedyIsOptimal` | src/checkpoint/manager/queue.rs:30-42 | no in-order split that respects the limit has fewer batches |
| `Batching.CoalescingNeverGrows` | src/checkpoint/manager/queue.rs:170-178 | coalescing never raises a batch's estimate |
| `Batching.BatchesRefineSingleWrites` | src/checkpoint/manager/coalesce.rs:34-65 | coalesced batches in order leave the store that single writes leave, although updates move across other operations |
| `Batching.UnnoticedBatches` | src/checkpoint/manager/coalesce.rs:34-65 | the same for any backend and batches whose own updates merge in its store, without a law for all pairs |
| `Batching.LastWriteWinsRespectsMerge` | src/checkpoint/manager/coalesce.rs:34-65 | the last-write-wins store is such a backend |
| `Batching.RefinementNeedsMergeLaw` | src/checkpoint/manager/coalesce.rs:34-65 | coalescing goes unnoticed if and only if the backend treats two updates as their merge |
| `EngineBackend.StartIsAbsorbed` | src/checkpoint/manager/coalesce.rs:34-65 | in the engine's store a START disappears in the update merged after it |
| `EngineBackend.UpdateCarriesWrite` | src/context/durable_context/child/execute.rs:53-139 | the engine's records take from an update just the kind, action, payload, message and flag put into it |
| `EngineBackend.RetriesDoNotMerge` | src/checkpoint/manager/coalesce.rs:34-65 | two merged RETRYs would be counted once |
| `EngineBackend.CallsSendMergeableUpdates` | src/context/durable_context/step/execute.rs:30-193 | of two updates one call sends, the first is a bare START, so only that can be merged |
| `EngineBackend.QueueRefinesEngine` | src/checkpoint/manager/queue.rs:108-127 | batches in which each operation has the updates of at most one call, coalesced and sent in order, leave the records that the engine's single writes leave |
| `EngineBackend.EngineSeesAcceptedPrefix` | src/checkpoint/manager/queue.rs:51-70 | in every interleaving and from any starting records, if each operation's accepted updates are those of at most one call, the records are those of the engine's single writes of a prefix of the accepted updates until a batch fails |
| `CheckpointQueue.EveryRunKeepsInv` | src/checkpoint/manager/queue.rs:5-139 | one worker, accept order, token chain and sent prefix hold in every interleaving |
| `QueueGuarantees.AtMostOneWorker` | src/checkpoint/manager/queue.rs:5-18 | at most one worker, and the flag says whether there is one |
| `QueueGuarantees.EachUpdateHasOnePlace` | src/checkpoint/manager/queue.rs:21-105 | each accepted update is answered, in flight or queued, in exactly one place and in accept order, and is answered once |
| `QueueGuarantees.CallsChainTokens` | src/checkpoint/manager/queue.rs:109-127 | each call carries the token the previous call left |
| `QueueGuarantees.BackendSeesAcceptedPrefix` | src/checkpoint/manager/queue.rs:51-70 | from any starting records and until a batch fails, the backend holds what single writes of a prefix of the accepted updates would leave |
| `QueueGuarantees.StrandedExactly` | src/checkpoint/manager/queue.rs:24-28 | a run strands an update if and only if a producer finds the flag of a worker that has already seen the queue empty |
| `QueueGuarantees.OneStepExitNeverStrands` | src/checkpoint/manager/queue.rs:102-104 | with empty test and flag clear in one step no update is ever stranded |
| `QueueGuarantees.TwoStepExitCanStrand` | src/checkpoint/manager/queue.rs:102-104 | the trace that strands an update in the code as it is |
| `QueueGuarantees.FurtherStepsAreBounded` | src/checkpoint/manager/queue.rs:21-105 | from any reachable state only a bounded number of steps is possible if nobody pushes |
| `QueueGuarantees.WaitingEnds` | src/checkpoint/manager.rs:253-269 | when no step is left, the queue is complete with every update answered, or (two steps only) an update is stranded |
| `CheckpointManager.CheckpointManager.Enqueue` | src/checkpoint/manager.rs:174-181 | the push of a producer is the atomic push |
| `CheckpointManager.CheckpointManager.MaybeStartProcessing` | src/checkpoint/manager/queue.rs:5-18 | starting a worker is the atomic start |
| `CheckpointManager.CheckpointManager.Others` | src/checkpoint/manager.rs:174-181 | producers that push and try to start a worker while one runs take atomic steps and leave the worker's state alone |
| `CheckpointManager.CheckpointManager.BuildBatch` | src/checkpoint/manager/queue.rs:24-45 | the loop takes the greedy batch off the queue |
| `CheckpointManager.CheckpointManager.TakeBatch` | src/checkpoint/manager/queue.rs:24-49 | producers' steps, then the atomic take: a batch, or the sight of an empty queue |
| `CheckpointManager.CheckpointManager.SendBatch` | src/checkpoint/manager/queue.rs:111-122 | coalescing and the start of the call as one atomic step, or the failure of the batch |
| `CheckpointManager.CheckpointManager.ReceiveReply` | src/checkpoint/manager/queue.rs:119-139 | the answer ends the call, and an accepted one may replace the token |
| `CheckpointManager.CheckpointManager.ProcessBatch` | src/checkpoint/manager/queue.rs:108-139 | token, coalescing, call and new token as atomic steps, for any reply and with producers pushing between them |
| `CheckpointManager.CheckpointManager.NotifyBatch` | src/checkpoint/manager/queue.rs:54-77 | every waiter of the batch is answered, one atomic step each, with producers pushing between them |
| `CheckpointManager.CheckpointManager.DrainQueue` | src/checkpoint/manager/queue.rs:80-88 | after a failure everything still queued is answered too |
| `CheckpointManager.CheckpointManager.ProcessRound` | src/checkpoint/manager/queue.rs:51-96 | a round, with producers pushing at any time, is a run of atomic steps; it ends the loop only with the queue seen empty or emptied |
| `CheckpointManager.CheckpointManager.ProcessQueue` | src/checkpoint/manager/queue.rs:21-105 | the worker's loop, with producers pushing at any time, ends, is a run of the atomic steps, and leaves in the queue only what was pushed meanwhile |
| `CheckpointManager.RunWorker` | src/checkpoint/manager/queue.rs:21-105 | a loop started in a reachable state ends in a reachable one, with all that had been accepted before answered in order |
| `Durations.ToIso8601` | src/types/duration.rs:193-210 | the loop prints the specified text form |
| `Durations.ParseIso8601` | src/types/duration.rs:150-190 | the loop reads the specified text form, with its errors |
| `Durations.ParseAfterPrint` | src/types/duration.rs:150-210 | every duration of four 32-bit fields is read back as it was printed |
| `Durations.ParsesExactly` | src/types/duration.rs:150-190 | exactly which texts are read, and as what: numbers of 32 bits, each with one of four letters, the last of a letter counting, and digits at the end ignored |
| `Durations.RefusesTheFirstFault` | src/types/duration.rs:150-190 | the error of a refused text is about its first part that is no number with a letter |
| `Durations.RefusesOtherPrefix` | src/types/duration.rs:150-155 | the prefix is missed exactly if the text does not begin with P and T |
| `Durations.SomeDurations` | src/types/duration.rs:193-210 | nothing is PT0S, an hour and a half PT1H30M |
| `Durations.SomeSeconds` | src/types/duration.rs:250-271 | a day, two hours, three minutes and four seconds are 93784 seconds; a second after 23:59:59 is a day |
| `Durations.SumIsClampedSeconds` | src/types/duration.rs:250-271 | the sum is normalised and has the summed seconds, clamped |
| `Durations.NormalFormIsUnique` | src/types/duration.rs:250-271 | no other normalised duration has those seconds |

## Left out

- AWS calls, Lambda runtime and type conversions: the service is a responder that accepts with an optional token or refuses.
- serde_json's text syntax and custom `Serdes`: a codec with a stated law; only the default batch serializer is modelled, and floating-point JSON numbers are not.
- SHA-256: a function with the stated assumptions.
- Tokio scheduling, the 50 ms cooldown and task abort: an aborted child takes no further step; a panic in a child task is not modelled.
- Interleaving of the effects of concurrent map and parallel children in the replay engine: children of a batch are black boxes with an outcome and a record each.
- ReplayRuns.InterruptionIsUnobservable: handlers of steps, waits, nested child contexts and polls that do not exceed their attempt limits (for one that does it is false, see `ReplayLimits`); map and parallel are in `BatchScheduler` and `BatchReplay`.
- Callback and invoke operations: the record-or-suspend shape of step and wait.
- The execution/replay mode inside the engine: it only affects logging there; `BatchScheduler` has it, where it decides.
- The older `execution_details` payload of child contexts (`src/context/durable_context/child/replay.rs:52-66`).
- `force_checkpoint`: it calls the service outside the worker and is not part of the token chain.
- The terminating flag, pending completions, operation lifecycles and waiting notifications of the manager, and the refresh of its own copy of the store.
- Enclosing-context checks look at the direct parent only, as in the code; that a parent of a parent has finished is not looked for.
- The `parent_id` field of updates in the engine: every update of an operation is checked against its context, also those that the code sends without it.
- Validation of non-finite percentages: percentages, backoff rates and delays are reals, and floating-point rounding is not modelled.
- Number widths of counters, indices and sizes other than durations, attempts and the 32-bit exponent: counts are unbounded.
- State paging, loggers, configuration builders, presets and error texts.
