/**
 * One claimed generation of a step (packages/engine/src/step-processor.ts): the repeat waves, the
 * retry loop of a slot, and the terminal report they end in.
 *
 * The network is an arbitrary function from (slot, attempt) to what that physical attempt does, so
 * a result for every such function covers every order in which concurrent slots can complete.
 */
module StepProcessor {
  import opened Wrappers
  import opened Classify
  import opened ControlRows

  const SAFE_RETRY_MAX_ATTEMPTS: nat := 3
  const MAX_REPEAT: int := 100
  const MAX_CONCURRENCY: int := 32

  datatype Plan = Plan(mutation: Mutation, contract: Contract, policy: RetryPolicy,
                       declaredRepeat: Option<int>, declaredConcurrency: Option<int>)

  function Clamp(declared: Option<int>, limit: int): int {
    var wanted := if declared.Some? then declared.value else 1;
    var capped := if wanted < limit then wanted else limit;
    if capped > 1 then capped else 1
  }

  function Repeat(p: Plan): (n: nat) ensures n >= 1 { Clamp(p.declaredRepeat, MAX_REPEAT) }
  function Concurrency(p: Plan): (n: nat) ensures n >= 1 { Clamp(p.declaredConcurrency, MAX_CONCURRENCY) }
  function MaxAttempts(p: Plan): (n: nat) ensures 1 <= n <= SAFE_RETRY_MAX_ATTEMPTS {
    if p.policy == SafeRetry then SAFE_RETRY_MAX_ATTEMPTS else 1
  }

  /**
   * What one physical attempt does: it is answered and recorded, it is answered but ownership
   * turns out to be lost, or an exception escapes (which may be after bytes have left).
   */
  datatype Delivery = Recorded(reply: Reply) | OwnershipLost(reply: Reply) | Escapes(effect: bool)

  type Network = (nat, nat) -> Delivery

  datatype Attempt = Attempt(slot: nat, number: nat, sequence: nat, reply: Reply, knowledge: Knowledge)

  datatype SlotOutcome =
    | SlotDone(ok: bool, attemptsUsed: nat, intent: Intent, knowledge: Knowledge, error: Option<string>)
    | SlotEscaped

  datatype SlotRun = SlotRun(outcome: SlotOutcome, log: seq<Attempt>)

  const LEASE_LOST := "lease lost after invocation; ownership no longer held"

  function LostKnowledge(p: Plan): Knowledge {
    if p.mutation == Mutating then Indeterminate else NotApplicable
  }

  /**
   * The row of the attempt after `k` earlier ones in its slot; a lost attempt counts with the
   * knowledge its slot reports for it.
   */
  function AttemptOf(p: Plan, slot: nat, k: nat, d: Delivery): Attempt
    requires !d.Escapes?
  {
    Attempt(slot, k + 1, slot * SAFE_RETRY_MAX_ATTEMPTS + (k + 1), d.reply,
            if d.Recorded? then KnowledgeOf(p.mutation, p.contract, d.reply) else LostKnowledge(p))
  }

  predicate Retried(p: Plan, k: nat, d: Delivery) {
    && d.Recorded?
    && WillRetry(p.policy, p.mutation, KnowledgeOf(p.mutation, p.contract, d.reply), d.reply.intent, k + 1, MaxAttempts(p))
  }

  predicate Logged(p: Plan, net: Network, slot: nat, k: nat, a: Attempt) {
    !net(slot, k).Escapes? && a == AttemptOf(p, slot, k, net(slot, k))
  }

  /**
   * The log of a slot is the one unbroken chain of attempts the retry rule allows: each attempt is
   * followed by the next exactly when it is retried.
   */
  predicate SlotTrace(p: Plan, net: Network, slot: nat, run: SlotRun) {
    var log := run.log;
    && (forall k: nat :: k < |log| ==> Logged(p, net, slot, k, log[k]))
    && match run.outcome
       case SlotEscaped =>
         && net(slot, |log|).Escapes?
         && (forall k: nat :: k < |log| ==> Retried(p, k, net(slot, k)))
       case SlotDone(ok, used, intent, knowledge, error) =>
         && 1 <= |log| == used
         && (forall k: nat :: k < |log| - 1 ==> Retried(p, k, net(slot, k)))
         && var last := net(slot, |log| - 1);
         && !Retried(p, |log| - 1, last)
         && knowledge == log[|log| - 1].knowledge
         && ok == (last.Recorded? && last.reply.intent == IntentSucceeded)
         && (last.Recorded? ==> intent == last.reply.intent && error == last.reply.error)
         && (last.OwnershipLost? ==> intent == IntentFailed && error == Some(LEASE_LOST))
  }

  method RunInvocationWithRetry(p: Plan, slot: nat, net: Network) returns (run: SlotRun)
    ensures SlotTrace(p, net, slot, run)
  {
    var k := 0;
    var log: seq<Attempt> := [];
    while true
      invariant |log| == k < MaxAttempts(p)
      invariant forall i: nat :: i < k ==> Logged(p, net, slot, i, log[i])
      invariant forall i: nat :: i < k ==> Retried(p, i, net(slot, i))
      decreases MaxAttempts(p) - k
    {
      var d := net(slot, k);
      match d {
        case Escapes(_) =>
          return SlotRun(SlotEscaped, log);
        case OwnershipLost(reply) =>
          log := log + [AttemptOf(p, slot, k, d)];
          return SlotRun(SlotDone(false, k + 1, IntentFailed, LostKnowledge(p), Some(LEASE_LOST)), log);
        case Recorded(reply) =>
          var knowledge := KnowledgeOf(p.mutation, p.contract, reply);
          log := log + [AttemptOf(p, slot, k, d)];
          if !WillRetry(p.policy, p.mutation, knowledge, reply.intent, k + 1, MaxAttempts(p)) {
            return SlotRun(SlotDone(reply.intent == IntentSucceeded, k + 1, reply.intent, knowledge, reply.error), log);
          }
          k := k + 1;
      }
    }
  }

  // ------------------------------------------------------------------
  // What a slot's trace implies
  // ------------------------------------------------------------------

  function KnowledgeSeq(log: seq<Attempt>): (ks: seq<Knowledge>)
    ensures |ks| == |log| && forall k :: 0 <= k < |log| ==> ks[k] == log[k].knowledge
  {
    seq(|log|, k requires 0 <= k < |log| => log[k].knowledge)
  }

  predicate PossiblyEffective(a: Attempt) { a.knowledge == KnownOccurred || a.knowledge == Indeterminate }

  /** Every attempt but the last is a provably effect-free failure or belongs to a read-only action. */
  lemma RetriedAttemptsAreHarmless(p: Plan, net: Network, slot: nat, run: SlotRun)
    requires SlotTrace(p, net, slot, run)
    ensures |run.log| <= MaxAttempts(p)
    ensures forall k :: 0 <= k < |run.log| && (k + 1 < |run.log| || run.outcome.SlotEscaped?) ==>
      run.log[k].knowledge == if p.mutation == Mutating then KnownAbsent else NotApplicable
    ensures p.mutation == ReadOnly ==> forall k :: 0 <= k < |run.log| ==> run.log[k].knowledge == NotApplicable
  {
    assert forall k: nat :: Retried(p, k, net(slot, k)) ==> k + 1 < MaxAttempts(p);
    if |run.log| > 1 {
      assert Retried(p, |run.log| - 2, net(slot, |run.log| - 2));
    }
  }

  // How long a slot goes on, over the replies alone.

  /** The reply proves that nothing happened: it was not sent, or the target's contract says so. */
  predicate ProvesNothingHappened(p: Plan, r: Reply) {
    || r.stage in {Prepared, Connecting}
    || (p.contract == DemoFintechWebhook && r.status.Some? && 400 <= r.status.value < 500)
  }

  /** A failure that a SAFE plan tries again. */
  predicate MayTryAgain(p: Plan, d: Delivery) {
    d.Recorded? && d.reply.intent == IntentFailed && (p.mutation == ReadOnly || ProvesNothingHappened(p, d.reply))
  }

  /**
   * The number of attempts is exact. A SAFE slot stops at its first attempt that may not be tried
   * again, and otherwise after three; any other slot stops after one. An exception ends it where it is.
   */
  lemma SlotLengthIsExact(p: Plan, net: Network, slot: nat, run: SlotRun)
    requires SlotTrace(p, net, slot, run)
    ensures var n := |run.log|;
      && (p.policy == SafeRetry && run.outcome.SlotDone? ==>
            && 1 <= n <= 3
            && (forall k: nat :: k < n - 1 ==> MayTryAgain(p, net(slot, k)))
            && (n == 3 || !MayTryAgain(p, net(slot, n - 1))))
      && (p.policy == SafeRetry && run.outcome.SlotEscaped? ==>
            n < 3 && net(slot, n).Escapes? && forall k: nat :: k < n ==> MayTryAgain(p, net(slot, k)))
      && (p.policy == NoRetry ==> n == if run.outcome.SlotDone? then 1 else 0)
  {
    RetryIsExact(p, net, slot);
    if |run.log| > 1 {
      assert Retried(p, |run.log| - 2, net(slot, |run.log| - 2));
    }
    if |run.log| > 0 && run.outcome.SlotEscaped? {
      assert Retried(p, |run.log| - 1, net(slot, |run.log| - 1));
    }
  }

  lemma RetryIsExact(p: Plan, net: Network, slot: nat)
    ensures forall k: nat :: Retried(p, k, net(slot, k)) <==> p.policy == SafeRetry && k + 1 < 3 && MayTryAgain(p, net(slot, k))
  {
  }

  /** Replies that never leave the worker are tried exactly three times. */
  lemma UnsentIsTriedThreeTimes(p: Plan, net: Network, slot: nat, run: SlotRun)
    requires SlotTrace(p, net, slot, run) && p.policy == SafeRetry
    requires forall k: nat :: net(slot, k).Recorded? && net(slot, k).reply.intent == IntentFailed && net(slot, k).reply.stage in {Prepared, Connecting}
    ensures run.outcome.SlotDone? && !run.outcome.ok && |run.log| == 3
    ensures run.outcome.knowledge == if p.mutation == Mutating then KnownAbsent else NotApplicable
  {
    SlotLengthIsExact(p, net, slot, run);
    assert MayTryAgain(p, net(slot, |run.log| - 1));
  }

  /** A second attempt that succeeds after one that was not sent makes the slot a success. */
  lemma SecondTrySucceeds(p: Plan, net: Network, slot: nat, run: SlotRun)
    requires SlotTrace(p, net, slot, run) && p.policy == SafeRetry
    requires net(slot, 0).Recorded? && net(slot, 0).reply.intent == IntentFailed && net(slot, 0).reply.stage in {Prepared, Connecting}
    requires net(slot, 1).Recorded? && net(slot, 1).reply.intent == IntentSucceeded
    ensures run.outcome.SlotDone? && run.outcome.ok && run.outcome.attemptsUsed == |run.log| == 2
    ensures run.outcome.knowledge == if p.mutation == Mutating then KnownOccurred else NotApplicable
  {
    SlotLengthIsExact(p, net, slot, run);
    assert MayTryAgain(p, net(slot, 0)) && !MayTryAgain(p, net(slot, 1));
  }

  /** What a recorded attempt is known to have done, over its reply. */
  lemma KnowledgeIsExact(p: Plan, slot: nat, k: nat, d: Delivery)
    requires d.Recorded?
    ensures var a, r := AttemptOf(p, slot, k, d), d.reply;
      && a.slot == slot && a.number == k + 1 && a.sequence == slot * 3 + k + 1
      && (a.knowledge == NotApplicable <==> p.mutation == ReadOnly)
      && (a.knowledge == KnownOccurred <==> p.mutation == Mutating && r.intent == IntentSucceeded)
      && (a.knowledge == KnownAbsent <==>
            && p.mutation == Mutating
            && ((r.intent == IntentFailed && ProvesNothingHappened(p, r)) || (r.intent == IntentCancelled && r.stage in {Prepared, Connecting})))
  {
  }

  function Distance(a: int, b: int): nat { if a < b then b - a else a - b }

  /** A declared number is taken to the nearest one allowed; none means one. */
  predicate Nearest(n: int, declared: Option<int>, limit: int) {
    && 1 <= n <= limit
    && (declared.None? ==> n == 1)
    && (declared.Some? ==> forall m :: 1 <= m <= limit ==> Distance(n, declared.value) <= Distance(m, declared.value))
  }

  /** At most 100 repeats, 32 at a time, three attempts each, and exactly as declared within these limits. */
  lemma LimitsAreNearest(p: Plan)
    ensures Nearest(Repeat(p), p.declaredRepeat, 100) && Nearest(Concurrency(p), p.declaredConcurrency, 32)
    ensures MaxAttempts(p) == if p.policy == SafeRetry then 3 else 1
  {
  }

  /** A slot returns only its last attempt, yet that is the worst over all its attempts. */
  lemma LastAttemptIsWorst(p: Plan, net: Network, slot: nat, run: SlotRun)
    requires SlotTrace(p, net, slot, run) && run.outcome.SlotDone?
    ensures WorstOf(KnowledgeSeq(run.log)) == run.outcome.knowledge
  {
    RetriedAttemptsAreHarmless(p, net, slot, run);
    var ks := KnowledgeSeq(run.log);
    WorstOfIsGreatest(ks);
    var last := ks[|ks| - 1];
    assert last in ks;
    assert forall k :: 0 <= k < |ks| ==> Rank(ks[k]) <= Rank(last);
  }

  /** A slot holds at most one possibly-effective attempt, and it is the last one. */
  lemma AtMostOnePossiblyEffective(p: Plan, net: Network, slot: nat, run: SlotRun)
    requires SlotTrace(p, net, slot, run)
    ensures forall j, k :: 0 <= j < |run.log| && 0 <= k < |run.log| && PossiblyEffective(run.log[j]) && PossiblyEffective(run.log[k]) ==> j == k
    ensures forall k :: 0 <= k < |run.log| && PossiblyEffective(run.log[k]) ==> k == |run.log| - 1 && run.outcome.SlotDone?
  {
    RetriedAttemptsAreHarmless(p, net, slot, run);
  }

  // ------------------------------------------------------------------
  // The gates in front of the first delivery
  // ------------------------------------------------------------------

  datatype Environment = LocalDevelopment | Staging | Production
  datatype FaultHook = FaultHook(path: string, kinds: set<string>)
  datatype ArmResult = NoControlHook | Armed | ArmingFailed(reason: string)

  /** The part of the frozen snapshot that decides how this step runs. */
  datatype FrozenStep = FrozenStep(environment: Environment, path: string, faultKind: Option<string>,
                                   hook: Option<FaultHook>, plan: Plan)

  /** Why the worker denies the step before it is marked EXECUTING, if it does. */
  function Denial(f: FrozenStep): Option<string> {
    if f.environment == Production then Some("worker denied execution: production-classified target")
    else if f.faultKind.None? then None
    else if f.environment != LocalDevelopment then Some("controlled fault denied: not a local target")
    else if f.hook.None? then Some("controlled fault denied: no declared hook")
    else if f.path != f.hook.value.path then Some("controlled fault denied: not the hook path")
    else if f.faultKind.value in f.hook.value.kinds then None
    else Some("controlled fault denied: kind not declared")
  }

  /** A call of the generation to its database; poll 0 precedes all work, poll `w + 1` precedes wave `w`. */
  datatype Call = LoadSnapshot | Mark | Poll(n: nat) | WriteReport

  /**
   * Everything outside the generation: which database calls throw, whether its fenced writes find
   * their row, what each cancel poll answers, whether the fault control arms, and the network.
   */
  datatype Surroundings = Surroundings(throws: Call -> bool, markLands: bool, writeLands: bool, cancelled: nat -> bool,
                                       arming: ArmResult, net: Network)

  /**
   * The end of `runClaimed` up to its terminal write: the fenced write, landed or not; a terminal
   * write that threw, which may have landed; a lost lease; or an exception from a slot or a call.
   */
  datatype Ending =
    | Wrote(write: TerminalWrite)
    | Fenced(write: TerminalWrite)
    | WriteThrew(write: TerminalWrite)
    | NotMarked
    | Escaped
    | CallThrew(call: Call)

  function Submit(env: Surroundings, w: TerminalWrite): Ending {
    if env.throws(WriteReport) then WriteThrew(w) else if env.writeLands then Wrote(w) else Fenced(w)
  }

  function DeniedWrite(reason: string): TerminalWrite {
    TerminalWrite(StepFailed, IntentFailed, KnownAbsent, 0, Some(reason))
  }

  // ------------------------------------------------------------------
  // Aggregates over the slots that ran
  // ------------------------------------------------------------------

  function AllAttempts(slots: seq<SlotRun>): seq<Attempt> {
    if slots == [] then [] else AllAttempts(slots[..|slots| - 1]) + slots[|slots| - 1].log
  }

  function LastError(slots: seq<SlotRun>): Option<string> {
    if slots == [] then None
    else
      var o := slots[|slots| - 1].outcome;
      if o.SlotDone? && o.error.Some? then o.error else LastError(slots[..|slots| - 1])
  }

  predicate Ran(p: Plan, net: Network, slots: seq<SlotRun>) {
    forall s: nat :: s < |slots| ==> SlotTrace(p, net, s, slots[s])
  }

  predicate SlotOk(run: SlotRun) { run.outcome.SlotDone? && run.outcome.ok }

  predicate NoneEscaped(slots: seq<SlotRun>) { forall s: nat :: s < |slots| ==> slots[s].outcome.SlotDone? }

  predicate FirstOk(slots: seq<SlotRun>, n: nat)
    requires n <= |slots|
  {
    forall s: nat :: s < n ==> SlotOk(slots[s])
  }

  function Worst(slots: seq<SlotRun>): Knowledge { WorstOf(KnowledgeSeq(AllAttempts(slots))) }

  /** The loop's variables describe exactly the slots that have run so far. */
  predicate Tallied(p: Plan, net: Network, slots: seq<SlotRun>, t: Tally) {
    && Ran(p, net, slots)
    && t.attempts == |AllAttempts(slots)|
    && t.lastError == LastError(slots)
    && (t.escaped <==> !NoneEscaped(slots))
    && (t.ok <==> FirstOk(slots, |slots|))
    && (!t.escaped ==> t.knowledge == Worst(slots))
  }

  datatype Tally = Tally(attempts: nat, knowledge: Knowledge, lastError: Option<string>, ok: bool, escaped: bool)

  function CountSlot(t: Tally, run: SlotRun): Tally {
    match run.outcome
    case SlotEscaped => t.(attempts := t.attempts + |run.log|, ok := false, escaped := true)
    case SlotDone(ok, _, _, knowledge, error) =>
      Tally(t.attempts + |run.log|, WorstKnowledge(t.knowledge, knowledge),
            if error.Some? then error else t.lastError, t.ok && ok, t.escaped)
  }

  /** The error a report gives is that of the last slot that had one. */
  lemma {:induction false} LastErrorIsLast(slots: seq<SlotRun>)
    ensures LastError(slots).Some? <==> exists s: nat :: s < |slots| && HasError(slots[s])
    ensures LastError(slots).Some? ==>
      exists s: nat :: s < |slots| && HasError(slots[s]) && LastError(slots) == slots[s].outcome.error
        && forall t: nat :: s < t < |slots| ==> !HasError(slots[t])
  {
    if slots != [] {
      var n := |slots| - 1;
      LastErrorIsLast(slots[..n]);
      assert forall t: nat :: t < n ==> slots[..n][t] == slots[t];
      if !HasError(slots[n]) && LastError(slots[..n]).Some? {
        var s: nat :| s < n && HasError(slots[..n][s]) && LastError(slots[..n]) == slots[..n][s].outcome.error
          && forall t: nat :: s < t < n ==> !HasError(slots[..n][t]);
        assert HasError(slots[s]) && forall t: nat :: s < t < |slots| ==> !HasError(slots[t]);
      }
    }
  }

  predicate HasError(run: SlotRun) { run.outcome.SlotDone? && run.outcome.error.Some? }

  lemma {:induction false} AppendAttempts(slots: seq<SlotRun>, run: SlotRun)
    ensures AllAttempts(slots + [run]) == AllAttempts(slots) + run.log
    ensures LastError(slots + [run]) == if run.outcome.SlotDone? && run.outcome.error.Some? then run.outcome.error else LastError(slots)
  {
    var more := slots + [run];
    assert more[..|more| - 1] == slots && more[|more| - 1] == run;
  }

  lemma {:induction false} AppendOutcomes(slots: seq<SlotRun>, run: SlotRun)
    ensures NoneEscaped(slots + [run]) <==> NoneEscaped(slots) && run.outcome.SlotDone?
    ensures FirstOk(slots + [run], |slots| + 1) <==> FirstOk(slots, |slots|) && SlotOk(run)
  {
    var more := slots + [run];
    assert more[|slots|] == run;
    assert forall s: nat :: s < |slots| ==> more[s] == slots[s];
  }

  lemma KnowledgeSeqAppend(a: seq<Attempt>, b: seq<Attempt>)
    ensures KnowledgeSeq(a + b) == KnowledgeSeq(a) + KnowledgeSeq(b)
  {
  }

  lemma {:induction false} AppendWorst(p: Plan, net: Network, slots: seq<SlotRun>, run: SlotRun)
    requires SlotTrace(p, net, |slots|, run) && run.outcome.SlotDone?
    ensures Worst(slots + [run]) == WorstKnowledge(Worst(slots), run.outcome.knowledge)
  {
    AppendAttempts(slots, run);
    LastAttemptIsWorst(p, net, |slots|, run);
    WorstOfAppend(KnowledgeSeq(AllAttempts(slots)), KnowledgeSeq(run.log));
    KnowledgeSeqAppend(AllAttempts(slots), run.log);
  }

  lemma {:induction false} TallySlot(p: Plan, net: Network, slots: seq<SlotRun>, t: Tally, run: SlotRun)
    requires Tallied(p, net, slots, t) && SlotTrace(p, net, |slots|, run)
    ensures Tallied(p, net, slots + [run], CountSlot(t, run))
  {
    AppendAttempts(slots, run);
    AppendOutcomes(slots, run);
    if run.outcome.SlotDone? {
      AppendWorst(p, net, slots, run);
    }
  }

  /** One wave: `size` slots started together, their outcomes folded in slot order. */
  method RunWave(p: Plan, net: Network, before: seq<SlotRun>, size: nat, t0: Tally) returns (slots: seq<SlotRun>, t: Tally)
    requires Tallied(p, net, before, t0)
    ensures before <= slots && |slots| == |before| + size && Tallied(p, net, slots, t)
  {
    slots, t := before, t0;
    for slot := 0 to size
      invariant |slots| == |before| + slot && slots[..|before|] == before
      invariant Tallied(p, net, slots, t)
    {
      var run := RunInvocationWithRetry(p, |slots|, net);
      TallySlot(p, net, slots, t, run);
      t := CountSlot(t, run);
      slots := slots + [run];
    }
  }

  // ------------------------------------------------------------------
  // The report
  // ------------------------------------------------------------------

  /** A success has covered every slot index once, all of them successfully. */
  predicate ReportsSuccess(p: Plan, w: TerminalWrite, slots: seq<SlotRun>) {
    && |slots| == Repeat(p) && FirstOk(slots, |slots|)
    && w.intent == IntentSucceeded
    && w.error == LastError(slots)
    && w.knowledge == (if p.mutation == Mutating then KnownOccurred else NotApplicable)
  }

  /** A failure stops after its own wave and reports the worst over every physical attempt. */
  predicate ReportsFailure(p: Plan, w: TerminalWrite, slots: seq<SlotRun>, waves: nat) {
    var start := waves * Concurrency(p);
    && w.intent == IntentFailed
    && start < |slots| == Least(start + Concurrency(p), Repeat(p))
    && FirstOk(slots, start) && !FirstOk(slots, |slots|)
    && w.knowledge == Worst(slots)
    && w.error == LastError(slots)
  }

  /** The frozen step was loaded and may run. */
  predicate Allowed(f: FrozenStep, env: Surroundings) { !env.throws(LoadSnapshot) && Denial(f).None? }

  predicate Marked(f: FrozenStep, env: Surroundings) { Allowed(f, env) && !env.throws(Mark) && env.markLands }

  /** The first poll was answered and asked for no cancel. */
  predicate Started(f: FrozenStep, env: Surroundings) { Marked(f, env) && !env.throws(Poll(0)) && !env.cancelled(0) }

  /** Nothing stopped the generation before its first wave. */
  predicate GatesPassed(f: FrozenStep, env: Surroundings) {
    Started(f, env) && (f.faultKind.Some? ==> env.arming.Armed?)
  }

  /** Polls 1 to `n` were answered, and none asked for a cancel. */
  predicate PollsPassed(env: Surroundings, n: nat) {
    forall k: nat :: 0 < k <= n ==> !env.throws(Poll(k)) && !env.cancelled(k)
  }

  predicate ReportsDenial(f: FrozenStep, env: Surroundings, w: TerminalWrite, slots: seq<SlotRun>) {
    && slots == [] && w.intent == IntentFailed && w.knowledge == KnownAbsent
    && ((!env.throws(LoadSnapshot) && Denial(f).Some?) || (Started(f, env) && f.faultKind.Some? && !env.arming.Armed?))
  }

  predicate ReportsCancel(f: FrozenStep, env: Surroundings, w: TerminalWrite, slots: seq<SlotRun>, waves: nat) {
    var p := f.plan;
    && |slots| == waves * Concurrency(p) < Repeat(p) && FirstOk(slots, |slots|)
    && w.intent == IntentCancelled
    && ((slots == [] && Marked(f, env) && !env.throws(Poll(0)) && env.cancelled(0))
        || (GatesPassed(f, env) && PollsPassed(env, waves) && !env.throws(Poll(waves + 1)) && env.cancelled(waves + 1)))
    && w.knowledge == (if w.attemptCount > 0 && p.mutation == Mutating then Indeterminate else KnownAbsent)
  }

  function Least(a: int, b: int): int { if a < b then a else b }

  predicate ReportsWrite(f: FrozenStep, env: Surroundings, w: TerminalWrite, slots: seq<SlotRun>, waves: nat) {
    && NoneEscaped(slots)
    && w.attemptCount == |AllAttempts(slots)|
    && match w.state
       case StepSucceeded => ReportsSuccess(f.plan, w, slots)
       case StepFailed => ReportsDenial(f, env, w, slots) || ReportsFailure(f.plan, w, slots, waves)
       case StepCancelled => ReportsCancel(f, env, w, slots, waves)
  }

  /** What was sent passed every gate and the poll of its wave. */
  predicate SentInOrder(f: FrozenStep, env: Surroundings, slots: seq<SlotRun>, waves: nat) {
    slots != [] ==>
      GatesPassed(f, env) && PollsPassed(env, if |slots| > waves * Concurrency(f.plan) then waves + 1 else waves)
  }

  /** What a generation may end with, given the slots it ran and its fully successful waves. */
  predicate Reports(f: FrozenStep, env: Surroundings, ending: Ending, slots: seq<SlotRun>, waves: nat) {
    && Ran(f.plan, env.net, slots)
    && |slots| <= Repeat(f.plan)
    && SentInOrder(f, env, slots, waves)
    && match ending
       case NotMarked => slots == [] && Allowed(f, env) && !env.throws(Mark) && !env.markLands
       case Escaped => !NoneEscaped(slots)
       case CallThrew(call) => env.throws(call) && ThrewBetweenWaves(f, env, call, slots, waves)
       case WriteThrew(w) => env.throws(WriteReport) && ReportsWrite(f, env, w, slots, waves)
       case Wrote(w) => !env.throws(WriteReport) && env.writeLands && ReportsWrite(f, env, w, slots, waves)
       case Fenced(w) => !env.throws(WriteReport) && !env.writeLands && ReportsWrite(f, env, w, slots, waves)
  }

  /** A call that throws before the terminal write leaves only whole, fully successful waves behind. */
  predicate ThrewBetweenWaves(f: FrozenStep, env: Surroundings, call: Call, slots: seq<SlotRun>, waves: nat) {
    match call
    case LoadSnapshot => slots == []
    case Mark => slots == [] && Allowed(f, env)
    case Poll(n) =>
      if n == 0 then slots == [] && Marked(f, env)
      else
        && GatesPassed(f, env) && PollsPassed(env, n - 1) && waves == n - 1
        && |slots| == waves * Concurrency(f.plan) < Repeat(f.plan) && FirstOk(slots, |slots|)
    case WriteReport => false
  }

  lemma DenialReport(f: FrozenStep, env: Surroundings, reason: string)
    requires (!env.throws(LoadSnapshot) && Denial(f).Some?) || (Started(f, env) && f.faultKind.Some? && !env.arming.Armed?)
    ensures Reports(f, env, Submit(env, DeniedWrite(reason)), [], 0)
  {
  }

  lemma EarlyCancelReport(f: FrozenStep, env: Surroundings, w: TerminalWrite)
    requires Marked(f, env) && !env.throws(Poll(0)) && env.cancelled(0)
    requires w.state == StepCancelled && w.intent == IntentCancelled
    requires w.knowledge == KnownAbsent && w.attemptCount == 0
    ensures Reports(f, env, Submit(env, w), [], 0)
  {
  }

  /** The gates before the waves: `Some` is the terminal write that ends the step before any delivery. */
  method Gate(f: FrozenStep, env: Surroundings) returns (stop: Option<Ending>)
    ensures stop.Some? ==> Reports(f, env, stop.value, [], 0)
    ensures stop.None? <==> GatesPassed(f, env)
  {
    if env.throws(LoadSnapshot) {
      return Some(CallThrew(LoadSnapshot));
    }
    var denial := Denial(f);
    if denial.Some? {
      DenialReport(f, env, denial.value);
      return Some(Submit(env, DeniedWrite(denial.value)));
    }
    if env.throws(Mark) {
      return Some(CallThrew(Mark));
    }
    if !env.markLands {
      return Some(NotMarked);
    }
    if env.throws(Poll(0)) {
      return Some(CallThrew(Poll(0)));
    }
    if env.cancelled(0) {
      var cancel := TerminalWrite(StepCancelled, IntentCancelled, KnownAbsent, 0, Some("run cancelled before execution"));
      EarlyCancelReport(f, env, cancel);
      return Some(Submit(env, cancel));
    }
    if f.faultKind.Some? {
      match env.arming {
        case Armed =>
        case NoControlHook =>
          var reason := "no fault-control hook configured";
          DenialReport(f, env, reason);
          return Some(Submit(env, DeniedWrite(reason)));
        case ArmingFailed(error) =>
          var reason := "controlled fault arming failed: " + error;
          DenialReport(f, env, reason);
          return Some(Submit(env, DeniedWrite(reason)));
      }
    }
    return None;
  }

  function CancelledWrite(p: Plan, t: Tally): TerminalWrite {
    var sentAnything := t.attempts > 0 && p.mutation == Mutating;
    TerminalWrite(StepCancelled, IntentCancelled, if sentAnything then Indeterminate else KnownAbsent,
                  t.attempts, Some("run cancelled mid-flight"))
  }

  function FinalWrite(p: Plan, t: Tally): TerminalWrite {
    var knowledge := if !t.ok then t.knowledge else if p.mutation == Mutating then KnownOccurred else NotApplicable;
    if t.ok then TerminalWrite(StepSucceeded, IntentSucceeded, knowledge, t.attempts, t.lastError)
    else TerminalWrite(StepFailed, IntentFailed, knowledge, t.attempts, t.lastError)
  }

  /** `waves` waves have fully succeeded. */
  predicate Underway(f: FrozenStep, env: Surroundings, slots: seq<SlotRun>, t: Tally, waves: nat) {
    && GatesPassed(f, env) && PollsPassed(env, waves)
    && Tallied(f.plan, env.net, slots, t)
    && |slots| == Least(waves * Concurrency(f.plan), Repeat(f.plan))
    && t.ok && !t.escaped
  }

  /** Wave number `waves` has run after `before`. */
  predicate WaveRan(f: FrozenStep, env: Surroundings, before: seq<SlotRun>, slots: seq<SlotRun>, t: Tally, waves: nat) {
    && GatesPassed(f, env) && PollsPassed(env, waves + 1)
    && Tallied(f.plan, env.net, slots, t) && before <= slots
    && |before| == waves * Concurrency(f.plan) < Repeat(f.plan) && FirstOk(before, |before|)
    && |slots| == Least(|before| + Concurrency(f.plan), Repeat(f.plan))
  }

  lemma CancelReport(f: FrozenStep, env: Surroundings, slots: seq<SlotRun>, t: Tally, waves: nat)
    requires Underway(f, env, slots, t, waves)
    requires waves * Concurrency(f.plan) < Repeat(f.plan) && !env.throws(Poll(waves + 1)) && env.cancelled(waves + 1)
    ensures Reports(f, env, Submit(env, CancelledWrite(f.plan, t)), slots, waves)
  {
  }

  lemma PollThrewReport(f: FrozenStep, env: Surroundings, slots: seq<SlotRun>, t: Tally, waves: nat)
    requires Underway(f, env, slots, t, waves)
    requires waves * Concurrency(f.plan) < Repeat(f.plan) && env.throws(Poll(waves + 1))
    ensures Reports(f, env, CallThrew(Poll(waves + 1)), slots, waves)
  {
  }

  lemma EscapeReport(f: FrozenStep, env: Surroundings, before: seq<SlotRun>, slots: seq<SlotRun>, t: Tally, waves: nat)
    requires WaveRan(f, env, before, slots, t, waves) && t.escaped
    ensures Reports(f, env, Escaped, slots, waves)
  {
  }

  lemma FailureReport(f: FrozenStep, env: Surroundings, before: seq<SlotRun>, slots: seq<SlotRun>, t: Tally, waves: nat)
    requires WaveRan(f, env, before, slots, t, waves) && !t.ok && !t.escaped
    ensures Reports(f, env, Submit(env, FinalWrite(f.plan, t)), slots, waves)
  {
    assert forall s: nat :: s < |before| ==> slots[s] == before[s];
    assert ReportsFailure(f.plan, FinalWrite(f.plan, t), slots, waves);
  }

  lemma SuccessReport(f: FrozenStep, env: Surroundings, slots: seq<SlotRun>, t: Tally, waves: nat)
    requires Underway(f, env, slots, t, waves) && waves * Concurrency(f.plan) >= Repeat(f.plan)
    ensures Reports(f, env, Submit(env, FinalWrite(f.plan, t)), slots, waves)
  {
  }

  lemma BeforeWaves(f: FrozenStep, env: Surroundings)
    requires GatesPassed(f, env)
    ensures Underway(f, env, [], Tally(0, NotApplicable, None, true, false), 0)
  {
  }

  lemma AfterWave(f: FrozenStep, env: Surroundings, before: seq<SlotRun>, t0: Tally, slots: seq<SlotRun>, t: Tally, waves: nat)
    requires Underway(f, env, before, t0, waves) && waves * Concurrency(f.plan) < Repeat(f.plan)
    requires !env.throws(Poll(waves + 1)) && !env.cancelled(waves + 1)
    requires Tallied(f.plan, env.net, slots, t) && before <= slots
    requires |slots| == Least(|before| + Concurrency(f.plan), Repeat(f.plan))
    ensures WaveRan(f, env, before, slots, t, waves)
  {
  }

  lemma OneMore(n: nat, m: nat)
    ensures (n + 1) * m == n * m + m
  {
  }

  lemma NextWave(f: FrozenStep, env: Surroundings, before: seq<SlotRun>, slots: seq<SlotRun>, t: Tally, waves: nat)
    requires WaveRan(f, env, before, slots, t, waves)
    ensures t.ok && !t.escaped ==> Underway(f, env, slots, t, waves + 1)
    ensures (waves + 1) * Concurrency(f.plan) > waves * Concurrency(f.plan)
  {
    OneMore(waves, Concurrency(f.plan));
  }

  method RunClaimed(f: FrozenStep, env: Surroundings) returns (ending: Ending, slots: seq<SlotRun>, waves: nat)
    ensures Reports(f, env, ending, slots, waves)
  {
    slots, waves := [], 0;
    var stop := Gate(f, env);
    if stop.Some? {
      return stop.value, slots, waves;
    }
    var p := f.plan;
    var t := Tally(0, NotApplicable, None, true, false);
    BeforeWaves(f, env);
    while waves * Concurrency(p) < Repeat(p)
      invariant Underway(f, env, slots, t, waves)
      decreases Repeat(p) - waves * Concurrency(p)
    {
      if env.throws(Poll(waves + 1)) {
        PollThrewReport(f, env, slots, t, waves);
        return CallThrew(Poll(waves + 1)), slots, waves;
      }
      if env.cancelled(waves + 1) {
        CancelReport(f, env, slots, t, waves);
        return Submit(env, CancelledWrite(p, t)), slots, waves;
      }
      var start := waves * Concurrency(p);
      var after, tally := RunWave(p, env.net, slots, Least(Concurrency(p), Repeat(p) - start), t);
      AfterWave(f, env, slots, t, after, tally, waves);
      NextWave(f, env, slots, after, tally, waves);
      if tally.escaped {
        EscapeReport(f, env, slots, after, tally, waves);
        return Escaped, after, waves;
      }
      if !tally.ok {
        FailureReport(f, env, slots, after, tally, waves);
        return Submit(env, FinalWrite(p, tally)), after, waves;
      }
      slots, t, waves := after, tally, waves + 1;
    }
    SuccessReport(f, env, slots, t, waves);
    ending := Submit(env, FinalWrite(p, t));
  }

  // ------------------------------------------------------------------
  // A healthy generation succeeds
  // ------------------------------------------------------------------

  /** The target may be executed against, and a controlled fault is one that its local target declares. */
  predicate MayRun(f: FrozenStep) {
    && f.environment != Production
    && (f.faultKind.Some? ==>
          f.environment == LocalDevelopment && f.hook.Some? && f.path == f.hook.value.path && f.faultKind.value in f.hook.value.kinds)
  }

  /** Nothing around the generation fails, and nobody cancels. */
  ghost predicate Healthy(f: FrozenStep, env: Surroundings) {
    && (forall c: Call :: !env.throws(c)) && env.markLands && env.writeLands
    && (forall n: nat :: !env.cancelled(n))
    && (f.faultKind.Some? ==> env.arming.Armed?)
  }

  ghost predicate AlwaysSucceeds(net: Network) {
    forall slot: nat, k: nat :: net(slot, k).Recorded? && net(slot, k).reply.intent == IntentSucceeded
  }

  lemma SlotsSucceed(p: Plan, net: Network, slots: seq<SlotRun>)
    requires Ran(p, net, slots) && AlwaysSucceeds(net)
    ensures forall s: nat :: s < |slots| ==> SlotOk(slots[s]) && |slots[s].log| == 1
  {
    forall s: nat | s < |slots|
      ensures SlotOk(slots[s]) && |slots[s].log| == 1
    {
      assert SlotTrace(p, net, s, slots[s]);
      assert !MayTryAgain(p, net(s, 0));
      SlotLengthIsExact(p, net, s, slots[s]);
    }
  }

  lemma {:induction false} OneAttemptEach(slots: seq<SlotRun>)
    requires forall s: nat :: s < |slots| ==> |slots[s].log| == 1
    ensures |AllAttempts(slots)| == |slots|
  {
    if slots != [] {
      OneAttemptEach(slots[..|slots| - 1]);
    }
  }

  /**
   * Over a network on which every delivery succeeds, a step that may run makes one attempt for every
   * repeat and ends SUCCEEDED; one that may not sends nothing and ends FAILED.
   */
  lemma HealthyGenerationSucceeds(f: FrozenStep, env: Surroundings, ending: Ending, slots: seq<SlotRun>, waves: nat)
    requires Reports(f, env, ending, slots, waves) && Healthy(f, env) && AlwaysSucceeds(env.net)
    ensures ending.Wrote? && ending.write.attemptCount == |slots|
    ensures MayRun(f) ==> ending.write.state == StepSucceeded && |slots| == Repeat(f.plan)
    ensures !MayRun(f) ==> ending.write.state == StepFailed && ending.write.knowledge == KnownAbsent && slots == []
  {
    SlotsSucceed(f.plan, env.net, slots);
    OneAttemptEach(slots);
    assert Denial(f).None? <==> MayRun(f);
  }

  /** Nothing leaves for a target that may not be executed against, whatever happens around the generation. */
  lemma OnlyAllowedStepsSend(f: FrozenStep, env: Surroundings, ending: Ending, slots: seq<SlotRun>, waves: nat)
    requires Reports(f, env, ending, slots, waves) && slots != []
    ensures MayRun(f) && env.markLands && !env.cancelled(0) && (f.faultKind.Some? ==> env.arming.Armed?)
  {
  }

  // ------------------------------------------------------------------
  // What the report is worth
  // ------------------------------------------------------------------

  ghost predicate HonestNetwork(contract: Contract, net: Network) {
    forall slot: nat, k: nat :: !net(slot, k).Escapes? ==> Honest(contract, net(slot, k).reply)
  }

  lemma {:induction false} AttemptIsInSomeSlot(slots: seq<SlotRun>, a: Attempt)
    ensures a in AllAttempts(slots) <==> exists s: nat :: s < |slots| && a in slots[s].log
  {
    if slots != [] {
      var n := |slots| - 1;
      AttemptIsInSomeSlot(slots[..n], a);
      assert a in slots[..n + 1][n].log ==> a in AllAttempts(slots);
      if s: nat :| s < |slots| && a in slots[s].log {
        assert s < n ==> slots[..n][s] == slots[s];
      }
    }
  }

  /** An attempt that had an effect is possibly effective; one that succeeded is known to have occurred. */
  lemma {:induction false} AttemptKnowledgeIsTrue(p: Plan, net: Network, slots: seq<SlotRun>, a: Attempt)
    requires Ran(p, net, slots) && HonestNetwork(p.contract, net) && a in AllAttempts(slots)
    ensures p.mutation == Mutating && a.reply.effect ==> PossiblyEffective(a)
    ensures a.knowledge == KnownOccurred ==> Definitive2xx(a.reply)
  {
    AttemptIsInSomeSlot(slots, a);
    var s: nat :| s < |slots| && a in slots[s].log;
    assert SlotTrace(p, net, s, slots[s]);
    var k: nat :| k < |slots[s].log| && slots[s].log[k] == a;
    assert Logged(p, net, s, k, a);
  }

  lemma WorstInAttempts(slots: seq<SlotRun>)
    ensures forall a :: a in AllAttempts(slots) ==> Rank(a.knowledge) <= Rank(Worst(slots))
    ensures Worst(slots) == NotApplicable || exists a :: a in AllAttempts(slots) && a.knowledge == Worst(slots)
  {
    var all := AllAttempts(slots);
    var ks := KnowledgeSeq(all);
    WorstOfIsGreatest(ks);
    forall a | a in all ensures Rank(a.knowledge) <= Rank(Worst(slots)) {
      var k: nat :| k < |all| && all[k] == a;
      assert ks[k] in ks;
    }
    if Worst(slots) in ks {
      var k: nat :| k < |ks| && ks[k] == Worst(slots);
      assert all[k] in all;
    }
  }

  lemma FirstSlotSucceeded(p: Plan, net: Network, slots: seq<SlotRun>)
    requires Ran(p, net, slots) && slots != [] && SlotOk(slots[0]) && HonestNetwork(p.contract, net)
    ensures exists a :: a in AllAttempts(slots) && Definitive2xx(a.reply)
  {
    assert SlotTrace(p, net, 0, slots[0]);
    var log := slots[0].log;
    var a := log[|log| - 1];
    assert Logged(p, net, 0, |log| - 1, a);
    assert a in slots[0].log;
    AttemptIsInSomeSlot(slots, a);
  }

  /**
   * On every path through waves, retries, cancels and denials: a terminal KNOWN_ABSENT of a
   * mutating step means that no physical attempt had an effect, and KNOWN_OCCURRED means that some
   * attempt got a definitive 2xx.
   */
  lemma KnowledgeIsTrue(f: FrozenStep, env: Surroundings, ending: Ending, slots: seq<SlotRun>, waves: nat)
    requires Reports(f, env, ending, slots, waves) && (ending.Wrote? || ending.Fenced? || ending.WriteThrew?)
    requires HonestNetwork(f.plan.contract, env.net)
    ensures f.plan.mutation == Mutating && ending.write.knowledge == KnownAbsent ==>
      forall a :: a in AllAttempts(slots) ==> !a.reply.effect
    ensures ending.write.knowledge == KnownOccurred ==>
      exists a :: a in AllAttempts(slots) && Definitive2xx(a.reply)
  {
    var p, w := f.plan, ending.write;
    WorstInAttempts(slots);
    forall a | a in AllAttempts(slots)
      ensures p.mutation == Mutating && a.reply.effect ==> PossiblyEffective(a)
      ensures a.knowledge == KnownOccurred ==> Definitive2xx(a.reply)
    {
      AttemptKnowledgeIsTrue(p, env.net, slots, a);
    }
    if w.state == StepSucceeded {
      FirstSlotSucceeded(p, env.net, slots);
    }
  }

  /** An escaped attempt counts too: its bytes may have left although no row tells of it. */
  predicate EscapedSlot(run: SlotRun) { run.outcome.SlotEscaped? }

  function PossibleEffects(run: SlotRun): nat {
    |set k: nat | k < |run.log| && PossiblyEffective(run.log[k])| + if EscapedSlot(run) then 1 else 0
  }

  function TotalPossibleEffects(slots: seq<SlotRun>): nat {
    if slots == [] then 0 else TotalPossibleEffects(slots[..|slots| - 1]) + PossibleEffects(slots[|slots| - 1])
  }

  lemma SlotBounds(p: Plan, net: Network, slot: nat, run: SlotRun)
    requires SlotTrace(p, net, slot, run)
    ensures PossibleEffects(run) <= 1 && |run.log| <= MaxAttempts(p)
  {
    AtMostOnePossiblyEffective(p, net, slot, run);
    RetriedAttemptsAreHarmless(p, net, slot, run);
    var effective := set k: nat | k < |run.log| && PossiblyEffective(run.log[k]);
    if effective != {} {
      var k :| k in effective;
      assert effective == {k};
    }
  }

  /**
   * However the generation ends, at most one attempt per slot can have had an effect, so there are
   * at most `repeat` of them, and the attempts stay within repeat times the retry budget.
   */
  lemma {:induction false} EffectsAndAttemptsAreBounded(p: Plan, net: Network, slots: seq<SlotRun>)
    requires Ran(p, net, slots)
    ensures TotalPossibleEffects(slots) <= |slots|
    ensures |AllAttempts(slots)| <= |slots| * MaxAttempts(p)
  {
    if slots != [] {
      var n := |slots| - 1;
      var prefix := slots[..n];
      assert Ran(p, net, prefix) by {
        assert forall s: nat :: s < n ==> prefix[s] == slots[s];
      }
      EffectsAndAttemptsAreBounded(p, net, prefix);
      SlotBounds(p, net, n, slots[n]);
      OneMore(n, MaxAttempts(p));
    }
  }

  /** The sequence numbers proposed for the invocation rows never clash within one generation. */
  lemma SequencesAreDistinct(p: Plan, net: Network, slots: seq<SlotRun>, s1: nat, k1: nat, s2: nat, k2: nat)
    requires Ran(p, net, slots)
    requires s1 < |slots| && k1 < |slots[s1].log| && s2 < |slots| && k2 < |slots[s2].log|
    requires slots[s1].log[k1].sequence == slots[s2].log[k2].sequence
    ensures s1 == s2 && k1 == k2
  {
    assert SlotTrace(p, net, s1, slots[s1]) && SlotTrace(p, net, s2, slots[s2]);
    SlotBounds(p, net, s1, slots[s1]);
    SlotBounds(p, net, s2, slots[s2]);
    assert Logged(p, net, s1, k1, slots[s1].log[k1]) && Logged(p, net, s2, k2, slots[s2].log[k2]);
  }

  /** Rows may be recorded in any order of completion: the aggregate and the count are the same. */
  lemma CompletionOrderIsIrrelevant(slots: seq<SlotRun>, recorded: seq<Attempt>)
    requires multiset(recorded) == multiset(AllAttempts(slots))
    ensures WorstOf(KnowledgeSeq(recorded)) == Worst(slots)
    ensures |recorded| == |AllAttempts(slots)|
  {
    var all := AllAttempts(slots);
    assert |multiset(recorded)| == |multiset(all)|;
    WorstOfIsGreatest(KnowledgeSeq(recorded));
    WorstInAttempts(slots);
    assert forall a :: a in recorded <==> a in multiset(recorded);
    assert forall a :: a in all <==> a in multiset(all);
    var ks := KnowledgeSeq(recorded);
    forall a | a in recorded ensures Rank(a.knowledge) <= Rank(WorstOf(ks)) {
      var k: nat :| k < |recorded| && recorded[k] == a;
      assert ks[k] in ks;
    }
    if WorstOf(ks) in ks {
      var k: nat :| k < |ks| && ks[k] == WorstOf(ks);
      assert recorded[k] in recorded;
    }
  }
}
