/**
 * What the engine must do, beside what it must not: which claims land, which steps discovery finds,
 * which runs settle and how, what the lease sweep and a repair leave, and that every run can complete.
 * The conditions are stated over the fields of the rows.
 */
module Progress {
  import opened Wrappers
  import opened Classify
  import opened ControlRows
  import opened Machine
  import opened Fencing
  import opened Emergency
  import opened ControlDb

  // ------------------------------------------------------------------
  // Claims and discovery
  // ------------------------------------------------------------------

  lemma {:induction false} FrontierSplits(steps: seq<StepRow>)
    ensures Frontier(steps) <= |steps|
    ensures forall k: nat :: k < Frontier(steps) ==> steps[k].state == Succeeded
    ensures Frontier(steps) < |steps| ==> steps[Frontier(steps)].state != Succeeded
  {
    if steps != [] && steps[0].state == Succeeded {
      FrontierSplits(steps[1..]);
      assert forall k: nat :: 0 < k < |steps| ==> steps[k] == steps[1..][k - 1];
    }
  }

  predicate Lapsed(s: StepRow, now: int) { s.leaseExpiresAt.Some? && s.leaseExpiresAt.value < now }

  /** The row says that a worker may take the step: it waits unleased, or its lease has run out. */
  predicate Free(s: StepRow, now: int) {
    || (s.state in {Pending, Dispatched} && s.leaseOwner.None?)
    || (s.state in {Pending, Dispatched, Claimed, Executing} && Lapsed(s, now))
  }

  predicate Unfinished(r: Run) { r.state !in {RunCompleted, RunFailed, RunCancelled} }

  /** The claim of `owner` is on row `i`, and no other row has changed. */
  predicate ClaimIsOnRow(r: Run, q: Run, i: nat, owner: OwnerId, deadline: int)
    requires i < |r.steps|
  {
    && |q.steps| == |r.steps|
    && q.steps[i] == r.steps[i].(state := Claimed, leaseOwner := Some(owner), leaseExpiresAt := Some(deadline),
                                 token := r.steps[i].token + 1, dispatch := DispatchDone, dispatchAttempts := r.steps[i].dispatchAttempts + 1)
    && forall k: nat :: k < |r.steps| && k != i ==> q.steps[k] == r.steps[k]
  }

  /**
   * A claim lands if and only if the run is not over, the step is the frontier and its row is free;
   * otherwise nothing changes.
   */
  lemma ClaimLandsIff(w: World, i: nat, owner: OwnerId, lease: nat)
    requires i < |w.run.steps|
    ensures var q := RunAfter(w, Claim(i, owner, lease));
      if Unfinished(w.run) && i == Frontier(w.run.steps) && Free(w.run.steps[i], w.now)
      then ClaimIsOnRow(w.run, q, i, owner, w.now + lease)
      else q == w.run
  {
    FrontierSplits(w.run.steps);
    if EarlierSucceeded(w.run, i) && w.run.steps[i].state != Succeeded {
      FrontierIsLeast(w.run.steps, i);
    }
  }

  /** Discovery finds exactly the frontier of a dispatched run, if it is open, unleased and not yet handed over. */
  lemma DiscoveryFindsIff(r: Run, i: nat, now: int)
    requires i < |r.steps|
    ensures var s := r.steps[i];
      Undispatched(r, i, now) <==>
        && r.state in {Dispatching, Running} && i == Frontier(r.steps)
        && s.state in {Pending, Dispatched} && (s.leaseOwner.None? || Lapsed(s, now))
        && s.dispatch in {DispatchPending, DispatchReconcile} && s.dispatchError != Some("enqueue-pending")
  {
    FrontierSplits(r.steps);
    if EarlierSucceeded(r, i) && r.steps[i].state != Succeeded {
      FrontierIsLeast(r.steps, i);
    }
  }

  predicate HeldUnder(r: Run, i: nat, owner: OwnerId, token: nat) {
    && i < |r.steps| && r.steps[i].state in {Claimed, Executing}
    && r.steps[i].leaseOwner == Some(owner) && r.steps[i].token == token
  }

  /** The holder of a step renews its lease and writes its outcome whenever it tries. */
  lemma HolderCanGoOn(w: World, i: nat, owner: OwnerId, token: nat, lease: nat, write: TerminalWrite)
    requires HeldUnder(w.run, i, owner, token)
    ensures RunAfter(w, Heartbeat(i, owner, token, lease)).steps == w.run.steps[i := w.run.steps[i].(leaseExpiresAt := Some(w.now + lease))]
    ensures WroteOutcome(w.run, RunAfter(w, WriteTerminal(i, owner, token, write)), i, write)
    ensures RunAfter(w, WriteTerminal(i, owner, token, write)).steps[i].terminalAt == Some(w.now)
  {
  }

  /** A claim that landed holds its step, and is marked EXECUTING on the first try. */
  lemma ClaimantCanStart(w: World, i: nat, owner: OwnerId, lease: nat)
    requires i < |w.run.steps| && Unfinished(w.run) && i == Frontier(w.run.steps) && Free(w.run.steps[i], w.now)
    requires Generation(i, w.run.steps[i].token + 1) !in w.stopped
    ensures var v, token := Apply(w, Claim(i, owner, lease)), w.run.steps[i].token + 1;
      && HeldUnder(v.run, i, owner, token)
      && RunAfter(v, MarkExecuting(i, owner, token)).steps == v.run.steps[i := v.run.steps[i].(state := Executing, executingAt := Some(v.now))]
  {
    ClaimLandsIff(w, i, owner, lease);
  }

  // ------------------------------------------------------------------
  // Every run can complete
  // ------------------------------------------------------------------

  const SUCCESS: TerminalWrite := TerminalWrite(StepSucceeded, IntentSucceeded, KnownOccurred, 1, None)

  /** Step `k` after `es`: claimed, marked and reported as a success. */
  function Then(es: seq<Event>, k: nat, owner: OwnerId): seq<Event> {
    es + [Claim(k, owner, 0)] + [MarkExecuting(k, owner, 1)] + [WriteTerminal(k, owner, 1, SUCCESS)]
  }

  function Steps(k: nat, owner: OwnerId): seq<Event> {
    if k == 0 then [MarkDispatching] else Then(Steps(k - 1, owner), k - 1, owner)
  }

  function ToCompletion(n: nat, owner: OwnerId): seq<Event> {
    Steps(n, owner) + [SelectSettle] + [CommitSettle(Candidate(false, false))]
  }

  /** The first `k` steps have succeeded, the others are as they were created. */
  predicate Through(w: World, k: nat) {
    && k <= |w.run.steps| && w.stopped == {}
    && (forall j: nat :: j < k ==> w.run.steps[j].state == Succeeded)
    && (forall j: nat :: k <= j < |w.run.steps| ==> w.run.steps[j] == FreshStep(w.run.steps[j].mutation))
    && w.run.state == if k == 0 then Dispatching else Running
  }

  lemma OneMoreStep(w: World, k: nat, owner: OwnerId)
    requires Through(w, k) && k < |w.run.steps|
    ensures var v := Apply(Apply(Apply(w, Claim(k, owner, 0)), MarkExecuting(k, owner, 1)), WriteTerminal(k, owner, 1, SUCCESS));
      Through(v, k + 1) && |v.run.steps| == |w.run.steps|
  {
    FrontierIsLeast(w.run.steps, k);
    ClaimLandsIff(w, k, owner, 0);
    var claimed := Apply(w, Claim(k, owner, 0));
    assert claimed.run.state == Running;
    var marked := Apply(claimed, MarkExecuting(k, owner, 1));
    assert marked.run.steps == claimed.run.steps[k := claimed.run.steps[k].(state := Executing, executingAt := Some(w.now))];
  }

  lemma StepsNext(w: World, es: seq<Event>, k: nat, owner: OwnerId)
    requires Through(Exec(w, es), k) && k < |Exec(w, es).run.steps|
    ensures var v := Exec(w, Then(es, k, owner));
      Through(v, k + 1) && |v.run.steps| == |Exec(w, es).run.steps|
  {
    var claim, mark := Claim(k, owner, 0), MarkExecuting(k, owner, 1);
    ExecStep(w, es, claim);
    ExecStep(w, es + [claim], mark);
    ExecStep(w, es + [claim] + [mark], WriteTerminal(k, owner, 1, SUCCESS));
    OneMoreStep(Exec(w, es), k, owner);
  }

  lemma NextSucceeds(w: World, k: nat, n: nat, owner: OwnerId)
    requires Reaches(w, k, n, owner) && k < n
    ensures Reaches(w, k + 1, n, owner)
  {
    StepsNext(w, Steps(k, owner), k, owner);
  }

  predicate Reaches(w: World, k: nat, n: nat, owner: OwnerId) {
    var v := Exec(w, Steps(k, owner)); Through(v, k) && |v.run.steps| == n
  }

  lemma NoStepYet(mutations: seq<Mutation>, now: int)
    ensures forall owner :: Reaches(Start(mutations, now), 0, |mutations|, owner)
  {
    Exec1(Start(mutations, now), MarkDispatching);
  }

  lemma {:induction false} StepsSucceed(mutations: seq<Mutation>, now: int, k: nat, owner: OwnerId)
    requires k <= |mutations|
    ensures Reaches(Start(mutations, now), k, |mutations|, owner)
  {
    if k == 0 {
      NoStepYet(mutations, now);
    } else {
      StepsSucceed(mutations, now, k - 1, owner);
      NextSucceeds(Start(mutations, now), k - 1, |mutations|, owner);
    }
  }

  lemma AllSucceededSettles(w: World)
    requires w.run.state == Running && w.run.steps != [] && forall k: nat :: k < |w.run.steps| ==> w.run.steps[k].state == Succeeded
    ensures var v := Apply(Apply(w, SelectSettle), CommitSettle(Candidate(false, false)));
      v.run.state == RunCompleted && v.run.steps == w.run.steps
  {
    CountIsPositive(w.run.steps);
  }

  /** Whatever a run is made of, some schedule completes it with every step succeeded. */
  lemma EveryRunCanComplete(mutations: seq<Mutation>, now: int, owner: OwnerId)
    requires mutations != []
    ensures var w := Exec(Start(mutations, now), ToCompletion(|mutations|, owner));
      && ToCompletion(|mutations|, owner)[0] == MarkDispatching
      && w.run.state == RunCompleted && |w.run.steps| == |mutations|
      && forall k: nat :: k < |mutations| ==> w.run.steps[k].state == Succeeded
  {
    var start, all := Start(mutations, now), Steps(|mutations|, owner);
    StepsSucceed(mutations, now, |mutations|, owner);
    ExecStep(start, all, SelectSettle);
    ExecStep(start, all + [SelectSettle], CommitSettle(Candidate(false, false)));
    AllSucceededSettles(Exec(start, all));
    StepsStart(|mutations|, owner);
  }

  /** The first step of a created run is handed to the queue as soon as the run is marked DISPATCHING. */
  lemma CreatedRunIsDiscovered(mutations: seq<Mutation>, now: int)
    requires mutations != []
    ensures var w := Exec(Start(mutations, now), [MarkDispatching]);
      w.run.steps != [] && Undispatched(w.run, 0, w.now) && forall i: nat :: 0 < i < |w.run.steps| ==> !Undispatched(w.run, i, w.now)
  {
    Exec1(Start(mutations, now), MarkDispatching);
  }

  lemma {:induction false} StepsStart(k: nat, owner: OwnerId)
    ensures Steps(k, owner) != [] && Steps(k, owner)[0] == MarkDispatching
  {
    if k > 0 {
      StepsStart(k - 1, owner);
    }
  }

  // ------------------------------------------------------------------
  // Settlement
  // ------------------------------------------------------------------

  lemma FailureSettles(w: World)
    requires w.run.state == Running && NobodyRuns(w.run) && SomeDidNotSucceed(w.run)
    ensures ClosedBehindFailure(w.run, Apply(Apply(w, SelectSettle), CommitSettle(Candidate(true, SomeWaits(w.run)))).run)
  {
    CandidateOver(w.run);
    FailureCloses(w.run, w.now);
  }

  /** A RUNNING run behind a failure, with nobody at work, is found and closed as FAILED. */
  lemma FailedRunIsSettled(w: World)
    requires w.run.state == Running && NobodyRuns(w.run) && SomeDidNotSucceed(w.run)
    ensures ClosedBehindFailure(w.run, Exec(w, [SelectSettle, CommitSettle(Candidate(true, SomeWaits(w.run)))]).run)
    ensures forall k: nat :: k < |w.run.steps| ==>
      Exec(w, [SelectSettle, CommitSettle(Candidate(true, SomeWaits(w.run)))]).run.steps[k].state in {Succeeded, Failed, Cancelled}
  {
    Exec2(w, SelectSettle, CommitSettle(Candidate(true, SomeWaits(w.run))));
    FailureSettles(w);
    BehindFailureAllClosed(w.run, Exec(w, [SelectSettle, CommitSettle(Candidate(true, SomeWaits(w.run)))]).run);
  }

  lemma BehindFailureAllClosed(r: Run, q: Run)
    requires NobodyRuns(r) && ClosedBehindFailure(r, q)
    ensures forall k: nat :: k < |r.steps| ==> q.steps[k].state in {Succeeded, Failed, Cancelled}
  {
    forall k: nat | k < |r.steps|
      ensures q.steps[k].state in {Succeeded, Failed, Cancelled}
    {
      var s := r.steps[k].state;
      assert s.Pending? || s.Dispatched? || s.Claimed? || s.Executing? || s.Succeeded? || s.Failed? || s.Cancelled?;
    }
  }

  lemma SucceededRunIsSettled(w: World)
    requires w.run.state == Running && w.run.steps != [] && AllDidSucceed(w.run)
    ensures var q := Exec(w, [SelectSettle, CommitSettle(Candidate(false, false))]).run; q.state == RunCompleted && q.steps == w.run.steps
  {
    Exec2(w, SelectSettle, CommitSettle(Candidate(false, false)));
    AllSucceededSettles(w);
  }

  // ------------------------------------------------------------------
  // Cancels, expired leases and repairs
  // ------------------------------------------------------------------

  /** A run cancel closes whatever is not closed, as never sent, and cancels a run that is not over. */
  lemma CancelClosesEverything(w: World)
    ensures var q := RunAfter(w, SettleCancelled);
      && |q.steps| == |w.run.steps|
      && (forall k: nat :: k < |w.run.steps| ==>
            if w.run.steps[k].state in {Succeeded, Failed, Cancelled} then q.steps[k] == w.run.steps[k]
            else q.steps[k].state == Cancelled && q.steps[k].knowledge == Some(KnownAbsent))
      && q.state == if Unfinished(w.run) then RunCancelled else w.run.state
  {
    assert forall k: nat :: k < |w.run.steps| ==>
      (w.run.steps[k].state !in {Succeeded, Failed, Cancelled} <==> Open(w.run.steps[k].state) || Active(w.run.steps[k].state));
  }

  predicate AtWorkTooLong(s: StepRow, now: int) { s.state in {Claimed, Executing} && Lapsed(s, now) }

  /** The sweep on one row: nothing but a lapsed lease makes it act, and what it writes is this. */
  lemma SweepIsExact(r: Run, now: int, k: nat)
    requires k < |r.steps|
    ensures var s, q := r.steps[k], SweepRun(r, |r.steps|, now);
      && |q.steps| == |r.steps| && q.state == r.state
      && q.steps[k] ==
         if !AtWorkTooLong(s, now) then s
         else if s.mutation == Mutating then
           s.(state := Failed, intent := Some(IntentFailed), knowledge := Some(Indeterminate), terminalAt := Some(now))
         else s.(state := Pending, leaseOwner := None, leaseExpiresAt := None, dispatch := DispatchReconcile)
  {
    SweepsSoFar(r, |r.steps|, now, k);
  }

  lemma {:induction false} SweepsSoFar(r: Run, n: nat, now: int, k: nat)
    requires n <= |r.steps| && k < |r.steps|
    ensures var s, q := r.steps[k], SweepRun(r, n, now);
      && |q.steps| == |r.steps| && q.state == r.state
      && q.steps[k] ==
         if k >= n || !AtWorkTooLong(s, now) then s
         else if s.mutation == Mutating then
           s.(state := Failed, intent := Some(IntentFailed), knowledge := Some(Indeterminate), terminalAt := Some(now))
         else s.(state := Pending, leaseOwner := None, leaseExpiresAt := None, dispatch := DispatchReconcile)
  {
    if n > 0 {
      SweepsSoFar(r, n - 1, now, k);
      if k != n - 1 {
        SweepsSoFar(r, n - 1, now, n - 1);
      }
    }
  }

  /** A read-only frontier step whose lease ran out is found by discovery and claimable again right after the sweep. */
  lemma RequeuedStepGoesOn(r: Run, now: int, i: nat)
    requires r.state in {Dispatching, Running} && i < |r.steps| && i == Frontier(r.steps)
    requires r.steps[i].mutation == ReadOnly && AtWorkTooLong(r.steps[i], now) && r.steps[i].dispatchError != Some("enqueue-pending")
    ensures var q := SweepRun(r, |r.steps|, now);
      && |q.steps| == |r.steps| && i == Frontier(q.steps)
      && Undispatched(q, i, now) && Unfinished(q) && Free(q.steps[i], now)
  {
    var q := SweepRun(r, |r.steps|, now);
    FrontierSplits(r.steps);
    SweepIsExact(r, now, i);
    forall k: nat | k <= i
      ensures (if k < i then q.steps[k].state == Succeeded else q.steps[k].state == Pending)
    {
      SweepIsExact(r, now, k);
    }
    FrontierIsLeast(q.steps, i);
    DiscoveryFindsIff(q, i, now);
  }

  function RowsOf(rows: seq<Invocation>, i: nat): set<nat> { set k: nat | k < |rows| && rows[k].step == i }

  lemma {:induction false} KnowledgeOfRows(rows: seq<Invocation>, i: nat)
    ensures |StepKnowledge(rows, i)| == |RowsOf(rows, i)|
    ensures forall k: Knowledge :: k in StepKnowledge(rows, i) <==> exists n: nat :: n < |rows| && rows[n].step == i && rows[n].knowledge == k
  {
    if rows != [] {
      var n := |rows| - 1;
      KnowledgeOfRows(rows[..n], i);
      assert forall m: nat :: m < n ==> rows[..n][m] == rows[m];
      assert RowsOf(rows, i) == if rows[n].step == i then RowsOf(rows[..n], i) + {n} else RowsOf(rows[..n], i);
    }
  }

  /** What a repair does to a step of its own when nobody comes in between. */
  function RepairNow(r: Run, i: nat, owner: OwnerId): seq<Event>
    requires i < |r.steps|
  {
    var s := r.steps[i];
    var read := StepRead(i, owner, s.token, s.mutation, s.executingAt.None?);
    [RepairReadStep(i, owner, None)] + [RepairReadRows(read)] + [RepairWrite(Repair(read, RepairTruth(read, r.invocations)))]
  }

  /** A worker that repairs a step it holds always ends it, as FAILED, with every attempt on record counted. */
  lemma RepairEndsHeldStep(w: World, i: nat, owner: OwnerId)
    requires Reachable(w) && i < |w.run.steps| && HeldUnder(w.run, i, owner, w.run.steps[i].token)
    ensures var q := Exec(w, RepairNow(w.run, i, owner)).run;
      && |q.steps| == |w.run.steps|
      && q.steps[i].state == Failed && q.steps[i].intent == Some(IntentFailed)
      && q.steps[i].knowledge == Some(if w.run.steps[i].mutation == Mutating then Indeterminate else NotApplicable)
      && q.steps[i].attemptCount == |RowsOf(w.run.invocations, i)|
      && forall k: nat :: k < |w.run.steps| && k != i ==> q.steps[k] == w.run.steps[k]
  {
    var s := w.run.steps[i];
    var read := StepRead(i, owner, s.token, s.mutation, s.executingAt.None?);
    var p := Repair(read, RepairTruth(read, w.run.invocations));
    SimultaneousReadsAreIndeterminate(w, i, owner);
    KnowledgeOfRows(w.run.invocations, i);
    RepairRuns(w, i, owner);
    FencedRepairWrite(Exec(w, [RepairReadStep(i, owner, None)] + [RepairReadRows(read)]), p);
  }

  lemma ReadIsKept(w: World, i: nat, owner: OwnerId)
    requires i < |w.run.steps| && HeldUnder(w.run, i, owner, w.run.steps[i].token)
    ensures var v, s := Apply(w, RepairReadStep(i, owner, None)), w.run.steps[i];
      v.run == w.run && v.now == w.now && StepRead(i, owner, s.token, s.mutation, s.executingAt.None?) in v.stepReads
  {
  }

  lemma RowsAreKept(w: World, read: StepRead)
    requires read in w.stepReads
    ensures var v := Apply(w, RepairReadRows(read));
      v.run == w.run && v.now == w.now && Repair(read, RepairTruth(read, w.run.invocations)) in v.repairs
  {
  }

  lemma RepairRuns(w: World, i: nat, owner: OwnerId)
    requires i < |w.run.steps| && HeldUnder(w.run, i, owner, w.run.steps[i].token)
    ensures var s := w.run.steps[i];
      var read := StepRead(i, owner, s.token, s.mutation, s.executingAt.None?);
      var p := Repair(read, RepairTruth(read, w.run.invocations));
      var v := Exec(w, [RepairReadStep(i, owner, None)] + [RepairReadRows(read)]);
      && v.run == w.run && v.now == w.now && p in v.repairs
      && Exec(w, RepairNow(w.run, i, owner)) == Apply(v, RepairWrite(p))
  {
    var s, first := w.run.steps[i], RepairReadStep(i, owner, None);
    var read := StepRead(i, owner, s.token, s.mutation, s.executingAt.None?);
    ReadIsKept(w, i, owner);
    RowsAreKept(Apply(w, first), read);
    Exec1(w, first);
    ExecStep(w, [first], RepairReadRows(read));
    ExecStep(w, [first] + [RepairReadRows(read)], RepairWrite(Repair(read, RepairTruth(read, w.run.invocations))));
  }
}
