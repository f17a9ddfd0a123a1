# Verified model of RuptureGrid's execution protocol and its targets

This project models the parts of RuptureGrid whose correctness is an argument over many interleaved
steps, and proves those arguments with Dafny 4.11. It verifies with `dafny verify dfyconfig.toml`.

**Step execution.** PostgreSQL rows are the durable state, workers are unreliable and queue delivery
is at-least-once. `ControlRows` gives the rows of one run and every locked transaction as a function
from rows to rows; `ControlDb` is the same database updated in place by the writers' methods, each
tied to its transaction. `Machine` lets claims, takeovers, heartbeats, fenced writes, sweeps,
settlements, cancels and repairs interleave in any order, with every read made outside the lock an
event of its own, and proves one invariant over all of them. `Fencing`, `Settlement`, `Provenance`,
`Emergency` and `DurableKnowledge` draw the consequences, `FalseAbsence` has the runs in which a record is false,
and `Progress` says what the engine must do: which claims land, what discovery finds, how runs settle, and
that every run can complete. `Classify` and `StepProcessor` model what a
single claiming generation does: waves, retries, cancel polls, denials, and the side-effect knowledge
it reports. The network is an arbitrary function from (slot, attempt) to what that attempt does, with an
`effect` fact the program cannot see, so that recorded knowledge is proved true and not only well typed.

**Targets.** `Checkout` has the two reserve pipelines of the demo shop as atomic functions and as a
service with mutable state; `CheckoutLocks` runs them at row-lock granularity, with modes switched and
transactions crashing anywhere; `CheckoutCounting` adds up what that leaves, and `CheckoutSequence` ties the
service to the events. `Wallet` does the same for
the wallet credits of the demo fintech, which a unique idempotency key guards.

**Snapshots and replay.** `Text` and `Json` model JavaScript strings (UTF-16 code units) and the
canonical printer; `JsonParser` reads its texts back; `CanonicalText` proves what a canonical text is
worth and `CanonicalOrder` where each key stands in it. `Credentials`, `Documents`, `Snapshot` and `Replay` build on that: the frozen document is a real
JSON value, it is printed, parsed, stored with its keys in any order, and read member by member again;
`FrozenDocument` says what is written under which name and when a freeze or a replay succeeds.

**Exit decision.** `ExitCode` is the classifier with its reason list, `AuthorizedVerdicts` the
projections in front of it.

## What the proofs found

- The emergency repair reads the step row and the invocation rows in two separate reads and compares
  the lease owner, not the generation that failed. It also runs when the claim itself threw and no
  generation failed. So it can find a live generation of the same worker, a later one or, behind a
  second delivery of the job, the step's first and only one, and land KNOWN_ABSENT although that
  generation sends. `Emergency.RepairIsSafeIff` gives the exact condition under which one repair lands no
  KNOWN_ABSENT, `Emergency.HazardIsReachable` and `Emergency.FirstGenerationHazardIsReachable` the runs.
  Over whole runs the record of a step claimed once is true if no repair's first read finds that hazard
  (`DurableKnowledge.RecordIsTrueWithoutHazard`), and a repair after a claim that threw can falsify it
  exactly if its read does (`FalseAbsence.TokenlessRepairMisleadsIff`). Comparing the token read with the
  one the failed claim was given, and repairing nothing if none was, rules it out
  (`DurableKnowledge.ComparingTokensKeepsRecordsTrue`). The comment at
  packages/engine/src/engine-emergency.ts:53-58 says that a superseded generation writes nothing, which
  holds between different worker ids only.
- KNOWN_ABSENT on a row is the word of its last generation. After a takeover of a mutating step it says
  nothing of what the first generation sent (`FalseAbsence.TakeoverCanMislead`), and
  `settleCancelledRun` writes it over a step in flight without asking
  (`FalseAbsence.CancelInFlightCanMislead`).
- A target without a manifest is frozen without asking for credential grants but replayed only with
  them, so an accepted run of such a target can be refused with nothing changed
  (`Replay.LegacyRunMayNotReplay`); `Replay.UnchangedReplayIff` says when.
- The printer loses two things: a hole of a sparse array joins as nothing, so that one alone prints `[]`, and negative zero prints
  `0`. The header of packages/engine/src/canonicalize.ts says that undefined elements are rejected and
  that -0 never occurs in a document built from JSON; `JSON.parse("-0")` is negative zero. Round trips
  hold exactly for values with neither (`CanonicalText.CanonicalRoundTrip`, `CanonicalText.LossyDocuments`).
- With both checkout modes in play the stock can reach -K with K submissions between check and act, one
  unit below the 1 - K that VULNERABLE alone allows (`CheckoutCounting.MixedFloorIsReached`). It does so
  exactly if a SECURE commit takes the last unit while K submissions wait
  (`CheckoutCounting.FloorUnlessSqueezed`, `CheckoutCounting.SqueezeReachesTheFloor`).
- The financial transaction of a wallet credit and the update of its processing attempt are two commits,
  so a credit can stand beside an unanswered attempt, and beside a FAILED one if the call reported an
  error although its commit took effect (`Wallet.CreditWithoutAnswerIsReachable`). The comment at
  apps/demo-fintech/src/webhook-processing-service.ts:196-198 says that no mutation survives a failure.
  `Wallet.FailedBesideCreditIff` says over the order of events when one does, and
  `Wallet.ScheduleDecides` when an attempt is answered.
- A step of a run that is still SNAPSHOT_PINNED can be claimed, and the run is then not promoted to
  RUNNING (`Settlement.ClaimPromotesIff`): the comment at packages/engine/src/claim.ts:61-63 has only
  DISPATCHING in mind. If no other claim lands while the run is DISPATCHING, it is never settled although
  every step is closed (`Settlement.ClosedRunSettlesIff`, `Settlement.ClosedRunCanWaitForever`). The
  callers of `markRunDispatching` enqueue after it, and a run marked before every claim does settle
  (`Settlement.MarkedRunSettles`).

## Assumptions

One per-run advisory lock serialises the transactions of a run; a conditional UPDATE waits for a row
lock and re-checks its condition; a unique index admits one of two equal keys. The executor reports
success only for a complete 2xx, bytes that did not leave have no effect, and a DEMO_FINTECH_WEBHOOK
target has no effect when it answers 4xx (`Classify.Honest`). SHA-256 is injective on texts that UTF-8
can encode, and canonical texts are such (`CanonicalText.CanonicalTextIsWellFormed`). A JSON column
reorders keys and changes nothing else (`Snapshot.KeepsMeaning`): it stores every string, although
PostgreSQL refuses `\u0000` and lone surrogates. Columns that may be stored again hold neither holes nor
negative zeros. Above 2^53 `Json.Number.Int` is the integer that is printed, which may differ from the
value of the JavaScript number that prints so. `Snapshot.ValidateInstance` and
`Snapshot.DeriveRunScope` freeze the validated raw value where the program rebuilds it member by member.

## Model

| member | source | states |
|---|---|---|
| `Classify.WorstOfIsGreatest` | packages/engine/src/step-processor.ts:204-215 | the aggregate of any list of knowledge values dominates each of them and is one of them, or NOT_APPLICABLE |
| `Classify.WorstOfByMembership` | packages/engine/src/step-processor.ts:204-215 | the aggregate is INDETERMINATE exactly if one result is, KNOWN_OCCURRED exactly if one is and none is INDETERMINATE, KNOWN_ABSENT exactly if one is and the others are that or NOT_APPLICABLE |
| `Classify.WorstOfIgnoresOrder` | packages/engine/src/step-processor.ts:461-549 | permuting the results does not change the aggregate |
| `StepProcessor.RunInvocationWithRetry` | packages/engine/src/step-processor.ts:797-988 | a slot's attempts are the one unbroken chain its retry rule allows, and the slot returns its last attempt, a lost lease or an escape |
| `StepProcessor.RetriedAttemptsAreHarmless` | packages/engine/src/classify.ts:143-163 | every attempt that was followed by another is KNOWN_ABSENT, or belongs to a read-only action; attempts stay within the budget |
| `StepProcessor.SlotLengthIsExact` | packages/engine/src/classify.ts:143-163 | over the replies alone: a SAFE slot stops at its first attempt that succeeded, lost its lease or, mutating, was sent without a no-effect 4xx, and otherwise after three; a NONE slot after one |
| `StepProcessor.UnsentIsTriedThreeTimes` | packages/engine/src/classify.ts:156-158 | a SAFE slot none of whose attempts leaves the worker makes exactly three and ends KNOWN_ABSENT |
| `StepProcessor.SecondTrySucceeds` | packages/engine/src/step-processor.ts:797-988 | an attempt that was not sent is tried again, and a success of the second makes the slot a success |
| `StepProcessor.KnowledgeIsExact` | packages/engine/src/classify.ts:78-119 | each value of recorded knowledge holds exactly under its condition on mutation, stage, status, intent and contract |
| `StepProcessor.LimitsAreNearest` | packages/engine/src/step-processor.ts:462-467 | repeats and concurrency are the numbers within 1..100 and 1..32 nearest to what is declared, one if nothing is |
| `StepProcessor.HealthyGenerationSucceeds` | packages/engine/src/step-processor.ts:285-581 | where nothing fails, a step that may run makes one attempt for every repeat and ends SUCCEEDED; one that may not sends nothing and ends FAILED as KNOWN_ABSENT |
| `StepProcessor.OnlyAllowedStepsSend` | packages/engine/src/step-processor.ts:298-352 | whatever happens around it, a generation that sent anything had a non-production target, and with a controlled fault a local one that declares it, marked EXECUTING, uncancelled and armed |
| `StepProcessor.LastAttemptIsWorst` | packages/engine/src/step-processor.ts:797-988 | although a slot returns only its last attempt, that is the worst over all its attempts |
| `StepProcessor.AtMostOnePossiblyEffective` | packages/engine/src/classify.ts:143-163 | a slot holds at most one possibly effective attempt, its last |
| `StepProcessor.Gate` | packages/engine/src/step-processor.ts:285-459 | the waves start if and only if the frozen step loads and is allowed, the EXECUTING mark lands, the first cancel poll answers no and the fault control arms; each other way ends in its own report or exception before any delivery |
| `StepProcessor.RunWave` | packages/engine/src/step-processor.ts:525-552 | one wave folds the outcomes of its slots into counters that describe exactly the slots run so far |
| `StepProcessor.RunClaimed` | packages/engine/src/step-processor.ts:285-581 | every way a generation can end up to its terminal write: denied, cancelled before or between waves, failed after its first bad wave with the worst over every attempt, succeeded after covering every slot once, fenced out, a slot's exception, or one from loading the snapshot, the mark, a poll or the terminal write itself; whatever it sent had passed every gate and the poll of its wave; attemptCount is the number of attempts |
| `StepProcessor.AttemptKnowledgeIsTrue` | packages/engine/src/classify.ts:78-119 | an attempt that had an effect is never recorded as effect-free, and KNOWN_OCCURRED had a definitive 2xx |
| `StepProcessor.KnowledgeIsTrue` | packages/engine/src/step-processor.ts:461-581 | over every wave, slot, retry, cancel and denial, also when the write itself throws: a terminal KNOWN_ABSENT of a mutating step means no attempt had an effect, KNOWN_OCCURRED that some attempt got a definitive 2xx |
| `StepProcessor.EffectsAndAttemptsAreBounded` | packages/engine/src/step-processor.ts:462-559 | possible effects are at most one per slot, attempts at most slots times the retry budget, however the generation ends |
| `StepProcessor.SequencesAreDistinct` | packages/engine/src/step-processor.ts:861-872 | proposed invocation sequence numbers never clash within a generation |
| `StepProcessor.CompletionOrderIsIrrelevant` | packages/engine/src/step-processor.ts:525-552 | recording the attempts in any order of completion gives the same aggregate and count |
| `StepProcessor.LastErrorIsLast` | packages/engine/src/step-processor.ts:531-549 | the error a report gives is that of the last slot that had one |
| `Machine.RowsKept` | packages/engine/src/recovery.ts:88-275 | every transaction keeps the row invariant, never lowers a token, and never changes a terminal row but for its marker |
| `Machine.OnlyClaimsActivate` | packages/engine/src/claim.ts:75-148 | no event but a landed claim makes an inactive step active |
| `Machine.ReachableInv` | packages/engine/src/run-create.ts:83-135 | every world any interleaving can produce from a created run satisfies the whole invariant |
| `Fencing.FencedWriteLandsIffUntouched` | packages/engine/src/transitions.ts:205-252 | after any interleaving a generation still owns its step if and only if no later claim, requeue or terminal write touched it |
| `Fencing.FencedWriteIsAllOrNothing` | packages/engine/src/transitions.ts:205-293 | after any interleaving the terminal write of a generation puts its outcome on its row alone if nobody touched the step since, and otherwise changes no step and is on record as a stale writer |
| `Fencing.TokenCountsClaims` | packages/engine/src/claim.ts:79-117 | the fencing token is exactly the number of claims that ever landed |
| `Fencing.LiveLeaseIsNeverStolen` | packages/engine/src/claim.ts:89-99 | while a lease is live only its holder or a run cancel can touch the step |
| `Fencing.GrantedLeaseLasts` | packages/engine/src/claim.ts:173-214 | from a landed claim or heartbeat on, no other claim and no sweep takes the step away before the database clock has passed the lease |
| `Fencing.TerminalIsWrittenOnce` | packages/engine/src/transitions.ts:205-252 | a terminal state with its knowledge, counts and stamps never changes again, whatever happens |
| `Fencing.AtMostOneActive` | packages/engine/src/claim.ts:105-117 | in every reachable world at most one step of a run is CLAIMED or EXECUTING |
| `Fencing.EverClaimedMeansPriorsSucceeded` | packages/engine/src/claim.ts:105-117 | a step that was ever claimed has every earlier step SUCCEEDED |
| `Fencing.DiscoveryIsTheFrontier` | packages/engine/src/recovery.ts:53-77 | discovery and claiming offer only the least step that has not succeeded, so at most one per run |
| `Progress.ClaimLandsIff` | packages/engine/src/claim.ts:75-148 | over the row fields: a claim is on the row with the token raised by one if and only if the run is not over, the step is the frontier, and it waits unleased or its lease has run out; otherwise nothing changes |
| `Progress.DiscoveryFindsIff` | packages/engine/src/recovery.ts:53-77 | discovery finds a step exactly if it is the frontier of a dispatched run, open, unleased and not yet handed over |
| `Progress.CreatedRunIsDiscovered` | packages/engine/src/run-create.ts:83-135 | once marked DISPATCHING, a created run has its first step, and no other, found by discovery |
| `Progress.ClaimantCanStart` | packages/engine/src/transitions.ts:42-83 | a landed claim holds its step and is marked EXECUTING on the first try |
| `Progress.HolderCanGoOn` | packages/engine/src/transitions.ts:205-252 | the holder of a step renews its lease and writes its outcome whenever it tries |
| `Progress.EveryRunCanComplete` | packages/engine/src/claim.ts:75-148 | for every non-empty list of steps some schedule of claims, marks and successful reports, with the DISPATCHING mark first, ends COMPLETED with every step SUCCEEDED |
| `Progress.SweepIsExact` | packages/engine/src/reconciler.ts:106-151 | the lease sweep acts on a step exactly if it is CLAIMED or EXECUTING with its deadline passed, and leaves exactly the FAILED or the reopened RECONCILE row |
| `Progress.RequeuedStepGoesOn` | packages/engine/src/recovery.ts:88-150 | a read-only frontier step reopened by the sweep is found by discovery and can be claimed at once |
| `Progress.CancelClosesEverything` | packages/engine/src/recovery.ts:250-275 | a run cancel closes exactly the steps that are not closed, and cancels a run that is not over |
| `Fencing.ClaimedMutatingStepIsNeverRequeued` | packages/engine/src/reconciler.ts:106-151 | a mutating step that was ever claimed is never open again |
| `Settlement.SettlementVerdict` | packages/engine/src/recovery.ts:198-240 | one settlement commit closes every step; COMPLETED if and only if all succeeded, FAILED if and only if some did not |
| `Settlement.SettlementIsRightAtCommit` | packages/engine/src/recovery.ts:163-243 | a candidate picked before the lock is still right whenever it is committed, and no step is active then |
| `Settlement.SettlementCancelsOnlyUnclaimed` | packages/engine/src/recovery.ts:202-216 | every step a settlement cancels was never claimed, nothing was sent for it and it has no rows, so its KNOWN_ABSENT is true |
| `Settlement.OverMeansClosed` | packages/engine/src/recovery.ts:152-162 | a run that is over has only terminal steps; COMPLETED means that all SUCCEEDED, FAILED that some did not |
| `Progress.FailedRunIsSettled` | packages/engine/src/recovery.ts:163-243 | a RUNNING run with nobody at work and a step FAILED or CANCELLED is found and ends FAILED: waiting steps CANCELLED as KNOWN_ABSENT, every step terminal, and the reason counts the unsuccessful steps and the INDETERMINATE rows |
| `Progress.SucceededRunIsSettled` | packages/engine/src/recovery.ts:163-243 | a RUNNING run whose steps all SUCCEEDED is found and ends COMPLETED |
| `ControlDb.SettleSweepIsComplete` | packages/engine/src/recovery.ts:163-243 | a sweep within its limit closes exactly the runs that are ready, as their rows say, and leaves every other one alone |
| `Settlement.ClaimPromotesIff` | packages/engine/src/claim.ts:61-131 | a landed claim leaves the run RUNNING if and only if it was DISPATCHING or RUNNING already |
| `Settlement.WaitingUnlessPromoted` | packages/engine/src/claim.ts:121-131 | short of a cancel, a run leaves its waiting states exactly by a claim that lands while it is DISPATCHING |
| `Settlement.ClosedRunSettlesIff` | packages/engine/src/recovery.ts:163-243 | a created run whose steps are all closed, uncancelled: it is settled or the next settlement finds it if and only if some claim landed while it was DISPATCHING; otherwise it waits for ever short of a cancel |
| `Settlement.MarkedRunSettles` | packages/engine/src/run-create.ts:119-135 | a run marked DISPATCHING before any of its steps is claimed is settled, or found by the next settlement, once its steps are closed, unless it was cancelled |
| `Settlement.ClosedRunCanWaitForever` | packages/engine/src/claim.ts:121-131 | the run of a step claimed, closed and only then marked DISPATCHING is never settled |
| `Provenance.ChangeAdvancesP` | packages/engine/src/truth-input-head.ts:98-147 | every event leaves the run's rows exactly as they were or advances P by one in the same step |
| `Provenance.ZeroRowWriteLeavesPAlone` | packages/engine/src/claim.ts:142-147 | a guarded write changes nothing, P included, exactly when its guard matches no row |
| `Provenance.EqualPMeansEqualRows` | packages/engine/src/truth-input-head.ts:98-147 | two reads of equal P saw identical run, step, invocation and stale-writer rows, and so did every read between them |
| `Emergency.DerivedKnownAbsent` | packages/engine/src/engine-emergency.ts:116-154 | KNOWN_ABSENT is derived exactly from a pre-send proof and a non-empty list of harmless rows, NOT_APPLICABLE exactly for read-only steps, INDETERMINATE otherwise; the attempt count is the number of rows |
| `Emergency.RepairLandsOnlyOnOwnStep` | packages/engine/src/engine-emergency.ts:174-221 | after any interleaving since its first read the repair puts its outcome on its row alone if the step was leased to this worker then and nobody touched it since; in every other case no step changes |
| `Emergency.SimultaneousReadsAreIndeterminate` | packages/engine/src/engine-emergency.ts:236-301 | if both reads see one reachable state, a mutating step always gets INDETERMINATE |
| `Progress.RepairEndsHeldStep` | packages/engine/src/engine-emergency.ts:236-339 | a worker that repairs a step it holds, with nobody in between, ends it FAILED, INDETERMINATE or NOT_APPLICABLE, with as many attempts as the step has rows, and touches no other step |
| `Emergency.RepairIsSafeIff` | packages/engine/src/engine-emergency.ts:236-339 | a worker repairs a step after a generation of its own threw, or after its claim threw: no interleaving lands KNOWN_ABSENT at all if and only if the token it reads is the failed generation's, or the step is stamped, read-only, leased to another worker, or of another generation that threw too; otherwise one lands it on a step for which bytes have left |
| `Emergency.ComparingTokensMakesRepairSafe` | packages/engine/src/engine-emergency.ts:236-300 | a repair that compares the token it reads with the one its failed claim was given lands no KNOWN_ABSENT under any interleaving |
| `Emergency.HazardRace` | packages/engine/src/engine-emergency.ts:236-339 | the interleaving that lands the false record whenever the condition fails, whatever the worker repairs after |
| `Emergency.HazardIsReachable` | packages/engine/src/claim.ts:89-99 | a worker whose first claim threw repairs it while its second claim of the step is live |
| `Emergency.FirstGenerationHazardIsReachable` | apps/worker/src/execution-worker.ts:444-501 | one claim is enough: a worker whose claim of a second delivery threw repairs the step while its first generation is live |
| `Emergency.NoHazardousReadNoAbsentRepair` | packages/engine/src/engine-emergency.ts:236-339 | over a whole run in which no repair's first read finds the hazard on a step, no repair ever puts KNOWN_ABSENT on it |
| `Emergency.ComparingTokensAvoidsTheHazard` | packages/engine/src/engine-emergency.ts:236-300 | if every repair goes on only with the token its failed claim was given, none reads in the hazard |
| `DurableKnowledge.RecordedKnowledgeIsTrue` | packages/engine/src/step-processor.ts:285-581 | in every world that generations running their programs can reach, through any claims, takeovers, lost leases, repairs, sweeps, settlements and cancels: KNOWN_OCCURRED on the terminal row of a mutating step means that its last generation got a definitive 2xx; KNOWN_ABSENT that a repair or a cancel in flight did not write means that nothing its last generation sent had an effect, and if it was the only one, that nothing ever sent for the step had |
| `DurableKnowledge.RecordIsTrueWithoutHazard` | packages/engine/src/engine-emergency.ts:236-339 | KNOWN_ABSENT on a step claimed at most once and not cancelled in flight is true if no repair's first read found the hazard |
| `DurableKnowledge.ComparingTokensKeepsRecordsTrue` | apps/worker/src/execution-worker.ts:444-501 | it is true if every repair compares tokens and a claim that threw repairs nothing |
| `FalseAbsence.TokenlessRepairMisleadsIff` | apps/worker/src/execution-worker.ts:444-501 | after any run free of hazardous reads, a repair behind a throwing claim can end, for some program of the step's only generation and some continuation, in a false KNOWN_ABSENT if and only if its first read finds the hazard |
| `FalseAbsence.FirstClaimCanBeMisrecorded` | packages/engine/src/step-processor.ts:263-280 | the smallest input: one claim, a second delivery whose claim throws, and the race |
| `FalseAbsence.TakeoverCanMislead` | packages/engine/src/claim.ts:89-99 | a second generation reports KNOWN_ABSENT although the first one sent with an effect; nobody repaired or cancelled |
| `FalseAbsence.CancelInFlightCanMislead` | packages/engine/src/recovery.ts:250-275 | a run cancel writes KNOWN_ABSENT over a step that has sent with an effect |
| `DurableKnowledge.InvocationRowsAreAppendOnlyAndUnique` | packages/engine/src/transitions.ts:123-203 | invocation rows are only appended and their keys stay unique over every run |
| `ControlDb.SettleQueryIsComplete` | packages/engine/src/recovery.ts:164-194 | the settlement query returns candidates only, and all of them when it stays under its limit |
| `ControlDb.SweepLeavesNoExpiredLease` | packages/engine/src/reconciler.ts:106-151 | a full sweep fails every expired mutating step as INDETERMINATE, reopens every expired read-only one and leaves all others alone |
| `ControlDb.RecordAppendsUnderFreeKey` | packages/engine/src/transitions.ts:123-203 | recording appends one attributed row under a free sequence number |
| `ControlDb.ControlDb.CreateRun` | packages/engine/src/run-create.ts:83-103 | appends a SNAPSHOT_PINNED run with one fresh PENDING step per frozen step |
| `ControlDb.ControlDb.MarkRunDispatching` | packages/engine/src/run-create.ts:123-135 | promotes a pinned run once and is a no-op otherwise |
| `ControlDb.ControlDb.ClaimStep` | packages/engine/src/claim.ts:56-161 | claims exactly when the step is claimable, returning a token that owns it |
| `ControlDb.ControlDb.HeartbeatStep` | packages/engine/src/claim.ts:179-214 | renews the lease if and only if the generation owns the step |
| `ControlDb.ControlDb.MarkExecuting` | packages/engine/src/transitions.ts:42-83 | stamps EXECUTING from CLAIMED for the owner, records a stale writer otherwise |
| `ControlDb.ControlDb.WriteTerminalState` | packages/engine/src/transitions.ts:205-252 | the fenced terminal write and its rejected form |
| `ControlDb.ControlDb.RecordInvocation` | packages/engine/src/transitions.ts:123-203 | the bounded search for a free sequence number needs at most two of its 64 tries |
| `ControlDb.ControlDb.ResolveExpiredLease` | packages/engine/src/recovery.ts:88-150 | fails, requeues or leaves the step, and says which |
| `ControlDb.ControlDb.ReconcileExpiredLeases` | packages/engine/src/reconciler.ts:106-151 | the sweep over a run with its two counters |
| `ControlDb.ControlDb.SettleRun` | packages/engine/src/recovery.ts:198-240 | one settlement commit, step by step |
| `ControlDb.ControlDb.SettleRuns` | packages/engine/src/recovery.ts:163-243 | settles exactly the queried runs and counts them; within its limit no run that is ready stays RUNNING, and a run with a waiting step and no failure is untouched |
| `ControlDb.ControlDb.SettleCancelledRun` | packages/engine/src/recovery.ts:250-275 | closes every unfinished step and the run, and is idempotent |
| `ControlDb.ControlDb.DispatchNextOrderedStep` | packages/engine/src/step-processor.ts:736-795 | hands the next step over at most once; a RECONCILE marker with the error stays when the queue refuses it, or takes it and the marker's transaction fails |
| `ControlDb.ControlDb.ReconcileDispatch` | packages/engine/src/reconciler.ts:49-99 | re-enqueues at most one step of a run and flips its marker exactly when the queue took it and the marker's transaction committed; otherwise the error is recorded |
| `ControlDb.ControlDb.RepairEmergencyStepTerminal` | packages/engine/src/engine-emergency.ts:326-339 | both reads and the fenced write without interference |
| `Checkout.AcceptKeepsBalance` | packages/commerce-db/src/checkout-core.ts:566-605 | an accepted order keeps stock plus reservations equal to the opening units and one SECURE order per settled intent |
| `Checkout.CheckoutService.SubmitCheckout` | packages/commerce-db/src/checkout-core.ts:315-485 | without overlap: a repeated request identity changes nothing, any other runs its mode's pipeline and records its outcome |
| `CheckoutSequence.NaiveRunSellsEveryUnit` | packages/commerce-db/src/checkout-core.ts:538-607 | n VULNERABLE submissions one after the other on u units make exactly min(u, n) orders, the first ones, and leave the rest |
| `CheckoutSequence.SecureRunSellsEveryUnit` | packages/commerce-db/src/checkout-core.ts:613-711 | the same of SECURE submissions of intents of their own, and a repeated intent is told so |
| `CheckoutSequence.EventsAnswerLikeTheService` | packages/commerce-db/src/checkout-core.ts:538-711 | alone at work, the row-lock events of one submission in either mode leave the books and the answer of the service's pipeline |
| `Checkout.CheckoutService.SetProcessingConfiguration` | packages/commerce-db/src/checkout-core.ts:268-278 | every setting is a new revision, so a recorded revision stands for one mode for good |
| `Checkout.CheckoutService.ReserveNaiveCheckThenAct` | packages/commerce-db/src/checkout-core.ts:538-607 | the VULNERABLE pipeline when nobody interferes |
| `Checkout.CheckoutService.ReserveIdempotentIntentScoped` | packages/commerce-db/src/checkout-core.ts:613-711 | the SECURE pipeline with its rollback when no unit is left |
| `CheckoutLocks.EventIsAtomicOrSilent` | packages/commerce-db/src/checkout-core.ts:631-686 | each row-lock event leaves the books alone or takes one decision that the atomic pipeline would have taken |
| `CheckoutLocks.EveryInterleavingIsSerial` | packages/commerce-db/src/checkout-core.ts:613-711 | every lock-level interleaving, crashes and mode switches included, refines a serial run of atomic reserves and keeps the books balanced |
| `CheckoutCounting.SecureCountIsExact` | packages/commerce-db/src/checkout-core.ts:613-711 | with all modes SECURE there are exactly min(opening units, distinct intents decided) orders in every state, an intent being decided when a reserve transaction for it has ended, whether or not its attempt row says so yet, and at rest min(opening units, distinct intents submitted under a fresh request); stock never negative |
| `CheckoutCounting.UnitsAreConserved` | apps/demo-commerce/src/inspection-service.ts:336-358 | in both modes remaining stock plus accepted reservations equals the opening units |
| `CheckoutCounting.SecureOrderIffSettled` | packages/commerce-db/src/checkout-core.ts:629-711 | under any mode switching an intent has one SECURE order if and only if it is SETTLED; INTENT_ALREADY_ACCEPTED is answered only after that order committed, and nothing undoes it |
| `CheckoutCounting.SomeoneCanMove` | packages/commerce-db/src/checkout-core.ts:632-653 | while a submission is undecided some submission can move: the two row locks cannot deadlock |
| `CheckoutCounting.StockFloor` | packages/commerce-db/src/checkout-core.ts:554-605 | with at most K submissions between check and act, stock never drops below 1 - K in VULNERABLE mode and never below -K in mixed modes |
| `CheckoutCounting.VulnerableFloorIsReached` | packages/commerce-db/src/checkout-core.ts:566-605 | for every K some VULNERABLE run over one unit makes K orders and ends at 1 - K |
| `CheckoutCounting.MixedFloorIsReached` | packages/commerce-db/src/checkout-core.ts:538-711 | for every K some run with mixed modes ends at -K |
| `CheckoutCounting.FloorUnlessSqueezed` | packages/commerce-db/src/checkout-core.ts:538-711 | with at most k submissions between check and act, under any mixture of modes the stock stays at 1 - k unless some SECURE commit takes the last unit while k submissions wait |
| `CheckoutCounting.SqueezeReachesTheFloor` | packages/commerce-db/src/checkout-core.ts:538-711 | every run in which one does can go on, without another check, to -k |
| `Wallet.KeysAreInjective` | packages/demo-db/src/keys.ts:41-52 | keys of the two modes never collide, and within a mode a key names one payment, or one event, and one wallet, although ids may contain colons |
| `Wallet.EachKeyIsCreditedOnce` | packages/demo-db/src/index.ts:124-180 | over any order, duplication and overlap of deliveries, with processes dying or failing anywhere: a balance is its opening value plus the ledger's credits; a key is credited once if some attempt under it had a commit that came when it was able to settle, and never otherwise; an answered key is credited, and it is answered if and only if for some attempt under it the row update came before the catch handler |
| `Wallet.ScheduleDecides` | apps/demo-fintech/src/webhook-processing-service.ts:176-219 | after any schedule an attempt has settled if and only if one of its commits came when it was able to; it is answered or FAILED according to which came first, the row update after the commit or the catch handler |
| `Wallet.FailedBesideCreditIff` | apps/demo-fintech/src/webhook-processing-service.ts:193-212 | a FAILED attempt stands beside its credit if and only if one of its commits was able to settle, before or after, and the catch handler came before any row update that would have answered it |
| `Wallet.DeliveredOnce` | packages/demo-db/src/index.ts:124-180 | SECURE throughout: one credit per payment some attempt settled; VULNERABLE throughout: one per event; if every commit that settled had its row update before any catch handler, the answers count the credits too |
| `Wallet.CreditWithoutAnswerIsReachable` | apps/demo-fintech/src/webhook-processing-service.ts:176-219 | any well-formed delivery to a known wallet can stop after its commit with no attempt answered, or leave a FAILED attempt beside its credit |
| `Wallet.BalancesDependOnKeysOnly` | packages/demo-db/src/index.ts:137-167 | two runs that settled the same keys end with the same balances, whatever was answered |
| `Wallet.DemoTarget.ApplyWalletCreditFinancialEffect` | packages/demo-db/src/index.ts:124-180 | one financial transaction with its rollback on a taken key |
| `Wallet.DemoTarget.ProcessDelivery` | apps/demo-fintech/src/webhook-processing-service.ts:79-231 | one delivery without overlap: screened, recorded once, started, credited under the mode read, answered |
| `Wallet.DeliveryIsRecordedIff` | apps/demo-fintech/src/webhook-processing-service.ts:79-175 | a delivery is recorded exactly if it repeats the registered payment, type, amount and currency, no fault is armed and its identity is new |
| `Wallet.RefusalsAreExact` | apps/demo-fintech/src/webhook-processing-service.ts:79-175 | which refusal a delivery meets first: unknown event, rewritten fact, armed fault, used identity |
| `Wallet.DeliveryCredits` | packages/demo-db/src/index.ts:124-180 | a well-formed delivery that runs to its end credits the payment's wallet with the payment's amount if its key is free, and otherwise answers that it is a duplicate and moves nothing |
| `Wallet.CreditsAreThePaymentsOwn` | packages/demo-db/src/index.ts:124-180 | every ledger entry of any run has its payment's wallet and amount and its attempt's event |
| `Json.CanonicalIsSortedText` | packages/engine/src/canonicalize.ts:66-113 | the canonical text is the plain text of the value with all keys sorted; it exists exactly for supported values |
| `Text.LessIsByIndex` | packages/engine/src/canonicalize.ts:97 | the order of the sort: at the first difference the smaller code unit, or the end of the shorter string, comes first |
| `CanonicalOrder.CanonicalObjectText` | packages/engine/src/canonicalize.ts:97-109 | the text of any object is its members in braces, every key once, quoted key, colon and canonical value, in code unit order |
| `CanonicalOrder.PartStandsAtOffset` | packages/engine/src/canonicalize.ts:97-109 | each part of a comma-joined list stands in the text at its offset |
| `CanonicalOrder.EarlierKeyIsPrintedFirst` | packages/engine/src/canonicalize.ts:97-109 | of two keys of an object the one that comes first by code units is printed first, each member standing in the text at its offset |
| `CanonicalOrder.EscapesAreExact` | packages/engine/src/canonicalize.ts:66-84 | which code units of a string are escaped and how: seven short forms, lower-case hexadecimal for other controls and lone surrogates, all else as it is |
| `CanonicalOrder.TokensAreJson` | packages/engine/src/canonicalize.ts:66-109 | the delimiters and literals are those of JSON |
| `JsonParser.StringRoundTrip` | packages/engine/src/canonicalize.ts:69 | every string, control characters and lone surrogates included, is read back from its JSON text |
| `JsonParser.ValueRoundTrip` | packages/engine/src/canonicalize.ts:66-113 | the parser reads exactly a printed value, whatever follows it |
| `CanonicalText.CanonicalTextIsWellFormed` | packages/engine/src/canonicalize.ts:130-137 | a canonical text has no lone surrogate, so its UTF-8 bytes determine it |
| `CanonicalText.CanonicalRoundTrip` | packages/engine/src/canonicalize.ts:122-124 | parsing a canonical text gives the value back up to key order if and only if it has no array hole and no negative zero |
| `CanonicalText.KeyOrderIsIrrelevant` | packages/engine/src/canonicalize.ts:97-107 | values that differ in key order only have the same canonical text or are both rejected |
| `CanonicalText.SameTextIffSamePlainMeaning` | packages/engine/src/canonicalize.ts:130-137 | over everything the printer accepts, two values have one hash if and only if they differ in key order, in the sign of zeros, and in whether an array printing as `[]` has no element or one hole |
| `CanonicalText.CanonicalTextParsesIff` | packages/engine/src/canonicalize.ts:87-90 | a canonical text is JSON if and only if no hole shows in it, and parses to what it shows |
| `CanonicalText.StoredDocumentKeepsItsText` | packages/engine/src/snapshot.ts:233-243 | any document whose canonical text is JSON, stored and read back with permuted keys, canonicalizes to the same text |
| `CanonicalText.LossyDocuments` | packages/engine/src/canonicalize.ts:87-90 | the two inputs on which the printer is not injective |
| `Credentials.AuthorizedRefsForTarget` | packages/engine/src/credential-authorization.ts:193-213 | exactly the references granted for every origin, none without an origin |
| `Credentials.AuthorizedIffGrantedEverywhere` | packages/engine/src/credential-authorization.ts:186-213 | a reference is authorized exactly if the executor knows it and every origin, of which there is one, grants it; it can sign exactly if it is a signing reference besides |
| `Credentials.AssertCredentialRefsAuthorized` | packages/engine/src/credential-authorization.ts:220-238 | passes if and only if every reference is authorized, and otherwise names exactly the others |
| `Credentials.ResolveSignatureCredentialBinding` | packages/engine/src/credential-authorization.ts:276-308 | the two stages and their three errors |
| `Credentials.BindingIffExactlyOne` | packages/engine/src/credential-authorization.ts:286-307 | a signature is bound to a reference if and only if all are authorized and it is the only one that can sign |
| `Credentials.AuthorizedForEachOrigin` | packages/engine/src/credential-authorization.ts:186-213 | authorized for all origins implies authorized for each alone |
| `Snapshot.SameHashSameDocument` | packages/engine/src/snapshot.ts:228-231 | an existing row under the same hash holds the same document |
| `Snapshot.NewRowStores` | packages/engine/src/snapshot.ts:233-243 | what is inserted means what was frozen, under the hash of its canonical text |
| `Snapshot.BuiltDocumentIsStorable` | packages/engine/src/snapshot.ts:154-180 | every document the checks let through can be stored and read back |
| `FrozenDocument.FreezeSucceedsIff` | packages/engine/src/snapshot.ts:70-187 | which check fails a freeze first, and that none does exactly if origins, environment, credentials, bindings and run scope are in order and everything can be canonicalized |
| `FrozenDocument.FrozenOriginIsEarliest` | packages/engine/src/snapshot.ts:80-82 | the frozen origin is registered and comes before every other one by code units |
| `FrozenDocument.PolicyMembers` | packages/engine/src/manifest.ts:366-402 | the header of the manifest stands under signatureHeader and the signing reference under signatureCredentialRef, both or neither |
| `FrozenDocument.TargetMembers` | packages/engine/src/snapshot.ts:154-178 | what the frozen target holds under each name |
| `FrozenDocument.DocumentMembers` | packages/engine/src/snapshot.ts:154-187 | what the document and its experiment block hold under each name |
| `FrozenDocument.FrozenSignature` | packages/engine/src/manifest.ts:366-402 | a signed manifest target freezes its own header with its only reference that can sign |
| `FrozenDocument.InstancesAreFrozenInKeyOrder` | packages/engine/src/generic-invariant-registry.ts:1396 | invariant instances are frozen in the order of their keys, none lost and none added |
| `Snapshot.SnapshotStore.FreezeDocument` | packages/engine/src/snapshot.ts:189-245 | returns a row holding the document, appending one only if no row has its hash |
| `Snapshot.SnapshotStore.CreateRow` | packages/engine/src/snapshot.ts:228-243 | the insert alone: refused, with nothing changed, exactly if the hash is taken |
| `Snapshot.LateInsertFailsIff` | packages/engine/src/snapshot.ts:228-243 | a freeze whose lookup found nothing is refused if and only if another freeze inserted in between, and then that row stores the very document |
| `Snapshot.SnapshotStore.CreateRun` | packages/engine/src/run-create.ts:54-103 | succeeds exactly when every freeze check passes, the target is not production and the steps are a list; the snapshot row stays even when the run is denied |
| `Replay.ValidateReplayBinding` | packages/engine/src/replay.ts:117-275 | the checks on a stored snapshot in their order, each with its own error |
| `FrozenDocument.StoredRowReplayableIff` | packages/engine/src/replay.ts:117-275 | any stored row may be replayed exactly if it is a document of this engine whose canonical text has the recorded hash and whose target block agrees with a registration and a policy that allow it |
| `Replay.ReplayIff` | packages/engine/src/replay.ts:117-275 | an accepted run replays under any later registration and policy if and only if target, environment and contract are the same, origin and references still registered, and every reference granted for the frozen origin; hash, shape, engine and kinds always re-check |
| `Replay.UnchangedReplayIff` | packages/engine/src/replay.ts:209-231 | with nothing changed only a missing grant for the frozen origin can refuse a replay |
| `Replay.AcceptedManifestRunReplays` | packages/engine/src/replay.ts:117-275 | a run accepted for a manifest target whose registered references are its manifest's always replays under the same registration and policy |
| `Replay.AlteredDocumentIsRefused` | packages/engine/src/replay.ts:139-152 | a stored document that no longer means what was frozen is refused as corrupt or tampered |
| `Replay.LegacyRunMayNotReplay` | packages/engine/src/replay.ts:225-231 | a family of accepted runs whose unchanged replay is refused |
| `ExitCode.ExitClassFor` | packages/cli/src/exit-code.ts:68-79 | inverts the exit codes, and finds none only when there is none |
| `ExitCode.ClassifyExit` | packages/cli/src/exit-code.ts:165-306 | the loops over domains, subjects, verdicts and anomalies collect exactly the specified reasons, and precedence decides |
| `ExitCode.ClassIff` | packages/cli/src/exit-code.ts:165-306 | each class from the facts alone: PASS never vacuous, FAIL dominating everything but an untrusted run |
| `ExitCode.ExitCodeIsExact` | packages/cli/src/exit-code.ts:59-66 | the numbers: 3 for an untrusted run, 1 for a failing subject, 0 exactly for a complete pass, 2 otherwise, 4 for usage errors, and the rule that decided |
| `ExitCode.ReasonsAreExact` | packages/cli/src/exit-code.ts:207-282 | every reason of the eleven kinds is found exactly if what it says holds of the input |
| `ExitCode.ReasonIsExact` | packages/cli/src/exit-code.ts:159-311 | the reason beside the class: a given failure reason first, then the message of its rule; the collected reasons are sorted, distinct and cut to 500 |
| `ExitCode.FailLabelsAre` | packages/cli/src/exit-code.ts:191-204 | the labels of a FAIL are key/subject of the failing verdicts, one each |
| `ExitCode.OrderIsIrrelevant` | packages/cli/src/exit-code.ts:160-164 | permuting any input list, subject lists inside domains included, changes neither class nor reason |
| `AuthorizedVerdicts.BoundSubjectVerdicts` | packages/cli/src/orchestrator.ts:718-743 | the counted verdicts in order, or an error exactly when a counted pointer has an unknown verdict |
| `AuthorizedVerdicts.EndToEndPassIff` | packages/cli/src/orchestrator.ts:691-743 | PASS from the authorized state if and only if the run is completed and verified, some key is bound, every bound key is proven, covered and has a verdict, every counted pointer passes, and nothing else was noted |
| `AuthorizedVerdicts.EndToEndFailIff` | packages/cli/src/orchestrator.ts:711-743 | FAIL if and only if a trusted run has a counted failing pointer; a foreign or unbound one never counts |
| `AuthorizedVerdicts.EndToEndOrderIsIrrelevant` | packages/cli/src/orchestrator.ts:691-743 | the order of proof rows, pointers, subjects, bound keys and anomalies changes neither class nor reason |

## Left out

- One run per `Machine`: every lock is per run and no transaction holds two, so runs do not interact; sweeps over many runs are in `ControlDb`, without the database's choice of order under LIMIT.
- Redis and BullMQ: any worker may claim any step at any time, which covers lost, repeated and reordered jobs; `Progress` says what can be done next, not that it is done, since discovery skips a step marked DISPATCHED whose job was lost.
- DurableKnowledge.RecordedKnowledgeIsTrue: promises nothing for a KNOWN_ABSENT that a repair or `settleCancelledRun` wrote over a running step, nor of the earlier generations of a step taken over; `FalseAbsence` shows that each can be false.
- Settlement.SettlementVerdict: says nothing of `settleCancelledRun`, which marks steps in flight KNOWN_ABSENT; its transitions are in the machine for ordering and write-once.
- Error texts of step rows, timestamps other than lease, executing and terminal ones, heartbeat timers, wave staggering and the backoff between retries: no effect on the proved state.
- Telemetry, evidence capture, adapters, variable substitution from earlier responses and the arming protocol of controlled faults, apart from its three outcomes.
- HTTP, DNS, TLS, HMAC and the routes: the transport stages are taken at their documented meaning.
- Checkout resets and the re-binding of a SKU to a new scope, and the reset of the fintech scenario, which deletes ledger, attempts and wallets (apps/demo-fintech/src/admin-service.ts:54-63): all counts are between two resets.
- Snapshot.SnapshotStore.FreezeDocument: looks up and inserts with nobody in between; `Snapshot.LateInsertFailsIff` has the overlap, whose loser fails with a database error.
- VULNERABLE order and reservation rows of one transaction are written in one event: nothing else reads them before it commits.
- StepProcessor.RunClaimed: ends at the terminal write; the chaining of the next step is `ControlDb.ControlDb.DispatchNextOrderedStep`, and an exception from it changes nothing on the step's row.
- Wallet.EachKeyIsCreditedOnce: payments and events are registered before the run it speaks of; signature checks and payload parsing come before it.
- Recognition of Prisma errors: a unique violation and a zero-row update are assumed to be identified correctly.
- Numbers that do not print as an integer are kept as their shortest spelling, which is assumed to determine them; integers of 1e21 and more are among them.
- JsonParser.ValueRoundTrip: the parser is for compact texts; white space, an upper-case exponent and over-long number spellings are not modelled.
- Symbol keys, accessors, inherited and non-enumerable properties of JavaScript objects.
- Validation inside a manifest, an invariant's params and a run scope: taken as given predicates, since only acceptance of kind, registry version, key and references matters for replay; the regular expressions and size caps are not modelled.
- `createRunFromSnapshot` beyond its validation: it inserts the same rows as a new run.
- Messages of freeze and replay errors: each failing check has its own constructor instead.
- AuthorizedVerdicts.EndToEndOrderIsIrrelevant: needs one proof row per key, as the table's key demands, because the program takes the first it finds.
