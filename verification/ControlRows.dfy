/**
 * The durable rows of one run and the transactions that change them (packages/engine/src/claim.ts,
 * transitions.ts, recovery.ts, reconciler.ts, run-create.ts, engine-emergency.ts). Each transaction
 * holds the per-run lock throughout, so it is one function from rows to rows; `now` is the
 * database's statement time.
 */
module ControlRows {
  import opened Wrappers
  import opened Classify

  datatype StepState = Pending | Dispatched | Claimed | Executing | Succeeded | Failed | Cancelled
  datatype RunState = Created | SnapshotPinned | Dispatching | Running | RunCompleted | RunFailed | RunCancelled
  datatype DispatchState = DispatchPending | DispatchDone | DispatchReconcile

  type OwnerId = string

  datatype StepRow = StepRow(
    mutation: Mutation,                 // frozen in the run's snapshot
    state: StepState,
    leaseOwner: Option<OwnerId>, leaseExpiresAt: Option<int>, token: nat,
    dispatch: DispatchState, dispatchAttempts: nat, dispatchError: Option<string>,
    executingAt: Option<int>, terminalAt: Option<int>,
    intent: Option<Intent>, knowledge: Option<Knowledge>, attemptCount: nat)

  datatype Invocation = Invocation(step: nat, sequence: nat, knowledge: Knowledge, writer: OwnerId, writerToken: nat)
  datatype StaleWriter = StaleWriter(step: nat, attemptedBy: OwnerId, token: nat)
  datatype FailureReason = FailureReason(failedSteps: nat, indeterminateInvocations: nat)

  datatype Run = Run(state: RunState, cancelRequested: bool, failureReason: Option<FailureReason>,
                     steps: seq<StepRow>, invocations: seq<Invocation>, staleWriters: seq<StaleWriter>,
                     provenance: nat)

  predicate Open(s: StepState) { s == Pending || s == Dispatched }
  predicate Active(s: StepState) { s == Claimed || s == Executing }
  predicate Unsuccessful(s: StepState) { s == Failed || s == Cancelled }
  predicate Terminal(s: StepState) { s == Succeeded || Unsuccessful(s) }
  predicate RunOver(s: RunState) { s == RunCompleted || s == RunFailed || s == RunCancelled }

  /** SQL's `leaseExpiresAt < statement_timestamp()`: not true of a null deadline. */
  predicate LeaseLapsed(s: StepRow, now: int) { s.leaseExpiresAt.Some? && s.leaseExpiresAt.value < now }

  predicate LeaseFree(s: StepRow, now: int) { s.leaseOwner.None? || LeaseLapsed(s, now) }

  predicate EarlierSucceeded(r: Run, i: nat)
    requires i <= |r.steps|
  {
    forall k: nat :: k < i ==> r.steps[k].state == Succeeded
  }

  /** A write that changed rows: the new step row and the revision advance commit together. */
  function PutStep(r: Run, i: nat, s: StepRow): Run
    requires i < |r.steps|
  {
    r.(steps := r.steps[i := s], provenance := r.provenance + 1)
  }

  // ------------------------------------------------------------------
  // Creation and dispatch markers
  // ------------------------------------------------------------------

  function FreshStep(m: Mutation): StepRow {
    StepRow(m, Pending, None, None, 0, DispatchPending, 0, None, None, None, None, None, 0)
  }

  function CreateRunTx(mutations: seq<Mutation>): Run {
    Run(SnapshotPinned, false, None, seq(|mutations|, i requires 0 <= i < |mutations| => FreshStep(mutations[i])), [], [], 1)
  }

  function MarkRunDispatchingTx(r: Run): Run {
    if r.state == SnapshotPinned then r.(state := Dispatching, provenance := r.provenance + 1) else r
  }

  function RequestCancelTx(r: Run): Run {
    r.(cancelRequested := true, provenance := r.provenance + 1)
  }

  /** A guarded dispatch-marker write: it matches on the marker and, for the sweep, on an open step. */
  function MarkerTx(r: Run, i: nat, from: set<DispatchState>, openOnly: bool, change: Marker): Run {
    if i < |r.steps| && r.steps[i].dispatch in from && (openOnly ==> Open(r.steps[i].state)) then
      PutStep(r, i, match change
                    case MarkSent => r.steps[i].(dispatch := DispatchDone)
                    case MarkDone => r.steps[i].(dispatch := DispatchDone, dispatchError := None)
                    case MarkReconcile => r.steps[i].(dispatch := DispatchReconcile)
                    case MarkError(e) => r.steps[i].(dispatchError := Some(e)))
    else r
  }

  datatype Marker = MarkSent | MarkDone | MarkReconcile | MarkError(error: string)

  const UNDISPATCHED: set<DispatchState> := {DispatchPending, DispatchReconcile}

  /** Steps the reconciler may hand to the queue again. */
  predicate Undispatched(r: Run, i: nat, now: int)
    requires i < |r.steps|
  {
    var s := r.steps[i];
    && (r.state == Dispatching || r.state == Running)
    && Open(s.state) && s.dispatch in UNDISPATCHED
    && LeaseFree(s, now)
    && s.dispatchError != Some("enqueue-pending")
    && EarlierSucceeded(r, i)
  }

  // ------------------------------------------------------------------
  // Claim, heartbeat and the fenced writes
  // ------------------------------------------------------------------

  predicate Claimable(r: Run, i: nat, now: int) {
    && i < |r.steps|
    && var s := r.steps[i];
    && (Open(s.state) || (Active(s.state) && LeaseLapsed(s, now)))
    && LeaseFree(s, now)
    && !RunOver(r.state)
    && EarlierSucceeded(r, i)
  }

  function ClaimTx(r: Run, i: nat, now: int, owner: OwnerId, lease: nat): Run {
    if !Claimable(r, i, now) then r
    else
      var s := r.steps[i];
      var promoted := if r.state == Dispatching then Running else r.state;
      PutStep(r.(state := promoted), i,
              s.(state := Claimed, leaseOwner := Some(owner), leaseExpiresAt := Some(now + lease), token := s.token + 1,
                 dispatch := DispatchDone, dispatchAttempts := s.dispatchAttempts + 1))
  }

  /** The ownership predicate of every fenced write: same worker, same generation, not terminal. */
  predicate Owns(r: Run, i: nat, owner: OwnerId, token: nat) {
    i < |r.steps| && r.steps[i].leaseOwner == Some(owner) && r.steps[i].token == token && Active(r.steps[i].state)
  }

  function HeartbeatTx(r: Run, i: nat, now: int, owner: OwnerId, token: nat, lease: nat): Run {
    if Owns(r, i, owner, token) then PutStep(r, i, r.steps[i].(leaseExpiresAt := Some(now + lease))) else r
  }

  /** A rejected write changes no step row; the attempt itself is recorded and advances the revision. */
  function RecordStale(r: Run, i: nat, owner: OwnerId, token: nat): Run {
    r.(staleWriters := r.staleWriters + [StaleWriter(i, owner, token)], provenance := r.provenance + 1)
  }

  function MarkExecutingTx(r: Run, i: nat, now: int, owner: OwnerId, token: nat): Run {
    if Owns(r, i, owner, token) && r.steps[i].state == Claimed then
      PutStep(r, i, r.steps[i].(state := Executing, executingAt := Some(now)))
    else RecordStale(r, i, owner, token)
  }

  datatype TerminalState = StepSucceeded | StepFailed | StepCancelled
  datatype TerminalWrite = TerminalWrite(state: TerminalState, intent: Intent, knowledge: Knowledge,
                                         attemptCount: nat, error: Option<string>)

  function RowState(t: TerminalState): StepState {
    match t
    case StepSucceeded => Succeeded
    case StepFailed => Failed
    case StepCancelled => Cancelled
  }

  function Settle(s: StepRow, state: StepState, intent: Intent, knowledge: Knowledge, now: int): StepRow {
    s.(state := state, intent := Some(intent), knowledge := Some(knowledge), terminalAt := Some(now))
  }

  function WriteTerminalTx(r: Run, i: nat, now: int, owner: OwnerId, token: nat, w: TerminalWrite): Run {
    if Owns(r, i, owner, token) then
      PutStep(r, i, Settle(r.steps[i], RowState(w.state), w.intent, w.knowledge, now).(attemptCount := w.attemptCount))
    else RecordStale(r, i, owner, token)
  }

  // ------------------------------------------------------------------
  // Invocation rows
  // ------------------------------------------------------------------

  predicate SequenceTaken(r: Run, i: nat, sequence: nat) {
    exists k: nat :: k < |r.invocations| && r.invocations[k].step == i && r.invocations[k].sequence == sequence
  }

  /** The greatest sequence number recorded for a step, 0 when there is none. */
  function MaxSequence(rows: seq<Invocation>, i: nat): nat {
    if rows == [] then 0
    else
      var rest := MaxSequence(rows[..|rows| - 1], i);
      var last := rows[|rows| - 1];
      if last.step == i && last.sequence > rest then last.sequence else rest
  }

  function RecordTx(r: Run, row: Invocation): Run {
    var sequence := if SequenceTaken(r, row.step, row.sequence) then MaxSequence(r.invocations, row.step) + 1 else row.sequence;
    r.(invocations := r.invocations + [row.(sequence := sequence)], provenance := r.provenance + 1)
  }

  // ------------------------------------------------------------------
  // Recovery
  // ------------------------------------------------------------------

  datatype LeaseResolution = ResolvedIndeterminate | ResolvedRequeue | NotResolved

  function LeaseDecision(r: Run, i: nat, now: int, mutation: Mutation, maybeSent: bool): LeaseResolution {
    if i >= |r.steps| || !Active(r.steps[i].state) || !LeaseLapsed(r.steps[i], now) then NotResolved
    else if mutation == Mutating && maybeSent then ResolvedIndeterminate
    else ResolvedRequeue
  }

  function ResolveLeaseTx(r: Run, i: nat, now: int, mutation: Mutation, maybeSent: bool): Run {
    match LeaseDecision(r, i, now, mutation, maybeSent)
    case NotResolved => r
    case ResolvedIndeterminate => PutStep(r, i, Settle(r.steps[i], Failed, IntentFailed, Indeterminate, now))
    case ResolvedRequeue =>
      PutStep(r, i, r.steps[i].(state := Pending, leaseOwner := None, leaseExpiresAt := None, dispatch := DispatchReconcile))
  }

  /** The sweep's call: a mutating step is always taken to have possibly sent. */
  function SweepLeaseTx(r: Run, i: nat, now: int): Run {
    if i >= |r.steps| then r
    else
      var mutating := r.steps[i].mutation == Mutating;
      ResolveLeaseTx(r, i, now, r.steps[i].mutation, mutating)
  }

  /** What the settlement query, outside the lock, remembers about a candidate run. */
  datatype Candidate = Candidate(hasFailure: bool, hasOpen: bool)

  predicate AnyOpen(r: Run) { exists k: nat :: k < |r.steps| && Open(r.steps[k].state) }
  predicate AnyActive(r: Run) { exists k: nat :: k < |r.steps| && Active(r.steps[k].state) }
  predicate AnyUnsuccessful(r: Run) { exists k: nat :: k < |r.steps| && Unsuccessful(r.steps[k].state) }

  function SettleCandidate(r: Run): Option<Candidate> {
    if r.state == Running && r.steps != [] && !AnyActive(r) && (!AnyOpen(r) || AnyUnsuccessful(r)) then
      Some(Candidate(AnyUnsuccessful(r), AnyOpen(r) || AnyActive(r)))
    else None
  }

  function CancelStep(s: StepRow, now: int): StepRow { Settle(s, Cancelled, IntentCancelled, KnownAbsent, now) }

  function CancelOpen(steps: seq<StepRow>, now: int): (out: seq<StepRow>)
    ensures |out| == |steps|
  {
    seq(|steps|, i requires 0 <= i < |steps| => if Open(steps[i].state) then CancelStep(steps[i], now) else steps[i])
  }

  function CancelUnfinished(steps: seq<StepRow>, now: int): (out: seq<StepRow>)
    ensures |out| == |steps|
  {
    seq(|steps|, i requires 0 <= i < |steps| => if Terminal(steps[i].state) then steps[i] else CancelStep(steps[i], now))
  }

  function CountUnsuccessful(steps: seq<StepRow>): nat {
    if steps == [] then 0
    else CountUnsuccessful(steps[..|steps| - 1]) + if Unsuccessful(steps[|steps| - 1].state) then 1 else 0
  }

  function CountIndeterminate(rows: seq<Invocation>): nat {
    if rows == [] then 0
    else CountIndeterminate(rows[..|rows| - 1]) + if rows[|rows| - 1].knowledge == Indeterminate then 1 else 0
  }

  function SettleTx(r: Run, now: int, c: Candidate): Run {
    var cancels := c.hasFailure && c.hasOpen;
    var steps := if cancels then CancelOpen(r.steps, now) else r.steps;
    var failed := CountUnsuccessful(steps);
    var settles := r.state == Running;
    var changed := (cancels && AnyOpen(r)) || settles;
    r.(steps := steps,
       state := if !settles then r.state else if failed > 0 then RunFailed else RunCompleted,
       failureReason := if settles && failed > 0 then Some(FailureReason(failed, CountIndeterminate(r.invocations))) else r.failureReason,
       provenance := if changed then r.provenance + 1 else r.provenance)
  }

  function SettleCancelledTx(r: Run, now: int): Run {
    var anyUnfinished := AnyOpen(r) || AnyActive(r);
    var steps := CancelUnfinished(r.steps, now);
    if anyUnfinished || !RunOver(r.state) then
      r.(steps := steps, state := if RunOver(r.state) then r.state else RunCancelled, provenance := r.provenance + 1)
    else r
  }

  // ------------------------------------------------------------------
  // Emergency repair
  // ------------------------------------------------------------------

  /** The terminal truth derived from invocation rows and the pre-send proof. */
  function DeriveEmergencyTruth(knowledge: seq<Knowledge>, mutation: Mutation, preSendProven: bool): TerminalWrite {
    var k :=
      if mutation == ReadOnly then NotApplicable
      else if Indeterminate in knowledge || KnownOccurred in knowledge then Indeterminate
      else if !preSendProven || |knowledge| == 0 then Indeterminate
      else KnownAbsent;
    TerminalWrite(StepFailed, IntentFailed, k, |knowledge|, Some("step failed before terminal state"))
  }

  function StepKnowledge(rows: seq<Invocation>, i: nat): seq<Knowledge> {
    if rows == [] then []
    else
      var rest := StepKnowledge(rows[..|rows| - 1], i);
      if rows[|rows| - 1].step == i then rest + [rows[|rows| - 1].knowledge] else rest
  }

  /** What the repair's first read keeps: the token it saw and whether EXECUTING was ever stamped. */
  datatype StepRead = StepRead(step: nat, owner: OwnerId, token: nat, mutation: Mutation, preSendProven: bool)

  function ReadForRepair(r: Run, i: nat, owner: OwnerId): Option<StepRead> {
    if i < |r.steps| && Active(r.steps[i].state) then
      Some(StepRead(i, owner, r.steps[i].token, r.steps[i].mutation, r.steps[i].executingAt.None?))
    else None
  }

  function RepairTruth(read: StepRead, rows: seq<Invocation>): TerminalWrite {
    DeriveEmergencyTruth(StepKnowledge(rows, read.step), read.mutation, read.preSendProven)
  }
}
