/**
 * The control database as the engine's writers use it: rows changed in place, one run's lock at a
 * time, sweeps that loop over runs and steps. Each method is tied to the transaction function whose
 * properties over all interleavings are proved in Machine and the modules built on it.
 */
module ControlDb {
  import opened Wrappers
  import opened Classify
  import opened ControlRows

  datatype ClaimResult = ClaimResult(token: nat, leaseExpiresAt: int)

  /** The first `limit` runs a settlement query returns, in index order. */
  function SettleQuery(runs: seq<Run>, limit: nat): seq<nat> {
    if runs == [] then []
    else
      var before := SettleQuery(runs[..|runs| - 1], limit);
      if |before| < limit && SettleCandidate(runs[|runs| - 1]).Some? then before + [|runs| - 1] else before
  }

  lemma {:induction false} SettleQueryIsComplete(runs: seq<Run>, limit: nat)
    ensures var q := SettleQuery(runs, limit);
      && |q| <= limit
      && (forall k: nat :: k < |q| ==> q[k] < |runs| && SettleCandidate(runs[q[k]]).Some?)
      && (forall j: nat, k: nat :: j < k < |q| ==> q[j] < q[k])
      && (|q| < limit ==> forall r: nat :: r < |runs| && SettleCandidate(runs[r]).Some? ==> r in q)
  {
    if runs != [] {
      var n := |runs| - 1;
      SettleQueryIsComplete(runs[..n], limit);
      assert forall r: nat :: r < n ==> runs[..n][r] == runs[r];
    }
  }

  function SettleFound(r: Run, now: int): Run {
    var c := SettleCandidate(r);
    if c.Some? then SettleTx(r, now, c.value) else r
  }

  // What a settlement sweep makes of a run, over its rows.

  predicate NobodyRuns(r: Run) { forall k: nat :: k < |r.steps| ==> r.steps[k].state !in {Claimed, Executing} }
  predicate SomeDidNotSucceed(r: Run) { exists k: nat :: k < |r.steps| && r.steps[k].state in {Failed, Cancelled} }
  predicate AllDidSucceed(r: Run) { forall k: nat :: k < |r.steps| ==> r.steps[k].state == Succeeded }
  predicate SomeWaits(r: Run) { exists k: nat :: k < |r.steps| && r.steps[k].state in {Pending, Dispatched} }

  function RowsThat(rows: seq<StepRow>, states: set<StepState>): set<nat> {
    set k: nat | k < |rows| && rows[k].state in states
  }

  function Uncertain(rows: seq<Invocation>): set<nat> {
    set k: nat | k < |rows| && rows[k].knowledge == Indeterminate
  }

  /** FAILED: what waited is cancelled as never sent, nothing else changes, and the reason counts both kinds of trouble. */
  predicate ClosedBehindFailure(r: Run, q: Run) {
    && q.state == RunFailed && |q.steps| == |r.steps|
    && (forall k: nat :: k < |r.steps| ==>
          if r.steps[k].state in {Pending, Dispatched}
          then q.steps[k].state == Cancelled && q.steps[k].knowledge == Some(KnownAbsent)
          else q.steps[k] == r.steps[k])
    && q.failureReason == Some(FailureReason(|RowsThat(q.steps, {Failed, Cancelled})|, |Uncertain(r.invocations)|))
  }

  lemma {:induction false} UnsuccessfulAreCounted(steps: seq<StepRow>)
    ensures CountUnsuccessful(steps) == |RowsThat(steps, {Failed, Cancelled})|
  {
    if steps != [] {
      var n := |steps| - 1;
      UnsuccessfulAreCounted(steps[..n]);
      var before, after := RowsThat(steps[..n], {Failed, Cancelled}), RowsThat(steps, {Failed, Cancelled});
      assert after == if Unsuccessful(steps[n].state) then before + {n} else before;
    }
  }

  lemma {:induction false} UncertainAreCounted(rows: seq<Invocation>)
    ensures CountIndeterminate(rows) == |Uncertain(rows)|
  {
    if rows != [] {
      var n := |rows| - 1;
      UncertainAreCounted(rows[..n]);
      assert Uncertain(rows) == if rows[n].knowledge == Indeterminate then Uncertain(rows[..n]) + {n} else Uncertain(rows[..n]);
    }
  }

  lemma FailureCloses(r: Run, now: int)
    requires r.state == Running && NobodyRuns(r) && SomeDidNotSucceed(r)
    ensures ClosedBehindFailure(r, SettleTx(r, now, Candidate(true, SomeWaits(r))))
  {
    var q := SettleTx(r, now, Candidate(true, SomeWaits(r)));
    UnsuccessfulAreCounted(q.steps);
    UncertainAreCounted(r.invocations);
    var f: nat :| f < |r.steps| && r.steps[f].state in {Failed, Cancelled};
    assert q.steps[f] == r.steps[f] && f in RowsThat(q.steps, {Failed, Cancelled});
  }

  /** Which settlement query row a run gives, over its rows. */
  lemma CandidateOver(r: Run)
    ensures r.state == Running && NobodyRuns(r) && SomeDidNotSucceed(r) ==> SettleCandidate(r) == Some(Candidate(true, SomeWaits(r)))
    ensures r.state == Running && r.steps != [] && AllDidSucceed(r) ==> SettleCandidate(r) == Some(Candidate(false, false))
    ensures SettleCandidate(r).Some? ==> r.state == Running && NobodyRuns(r) && (SomeDidNotSucceed(r) || (r.steps != [] && AllDidSucceed(r)))
  {
    if SomeDidNotSucceed(r) {
      var f: nat :| f < |r.steps| && r.steps[f].state in {Failed, Cancelled};
      assert Unsuccessful(r.steps[f].state);
    }
    assert forall k: nat :: k < |r.steps| && r.steps[k].state in {Pending, Dispatched} ==> Open(r.steps[k].state);
    assert forall k: nat :: k < |r.steps| && !Open(r.steps[k].state) && !Active(r.steps[k].state) && !Unsuccessful(r.steps[k].state) ==> r.steps[k].state == Succeeded;
    assert forall k: nat :: k < |r.steps| && r.steps[k].state in {Claimed, Executing} ==> Active(r.steps[k].state);
  }

  /** What a sweep that reaches every run makes of one of them. */
  predicate SweptRun(r: Run, q: Run) {
    if r.state == Running && NobodyRuns(r) && SomeDidNotSucceed(r) then ClosedBehindFailure(r, q)
    else if r.state == Running && r.steps != [] && AllDidSucceed(r) then q.state == RunCompleted && q.steps == r.steps
    else q == r
  }

  /** A settlement sweep within its limit closes exactly the runs that are ready, and leaves all others alone. */
  lemma SettleSweepIsComplete(runs: seq<Run>, limit: nat, now: int, r: nat)
    requires r < |runs| && limit >= |runs|
    ensures SweptRun(runs[r], if r in SettleQuery(runs, limit) then SettleFound(runs[r], now) else runs[r])
  {
    QueryReachesAll(runs, limit);
    CandidateOver(runs[r]);
    if SettleCandidate(runs[r]).Some? {
      if SomeDidNotSucceed(runs[r]) {
        FailureCloses(runs[r], now);
      } else {
        UnsuccessfulAreCounted(runs[r].steps);
        assert RowsThat(runs[r].steps, {Failed, Cancelled}) == {};
      }
    }
  }

  lemma {:induction false} QueryReachesAll(runs: seq<Run>, limit: nat)
    requires limit >= |runs|
    ensures forall r: nat :: r < |runs| ==> (r in SettleQuery(runs, limit) <==> SettleCandidate(runs[r]).Some?)
    ensures |SettleQuery(runs, limit)| <= |runs|
  {
    if runs != [] {
      var n := |runs| - 1;
      QueryReachesAll(runs[..n], limit);
      SettleQueryIsComplete(runs[..n], limit);
      assert forall r: nat :: r < n ==> runs[..n][r] == runs[r];
    }
  }

  predicate Expired(s: StepRow, now: int) { Active(s.state) && LeaseLapsed(s, now) }

  /** One run after the lease sweep has gone over its first `n` steps. */
  function SweepRun(r: Run, n: nat, now: int): Run {
    if n == 0 then r else SweepLeaseTx(SweepRun(r, n - 1, now), n - 1, now)
  }

  function CountExpired(r: Run, n: nat, now: int, mutation: Mutation): nat
    requires n <= |r.steps|
  {
    if n == 0 then 0
    else CountExpired(r, n - 1, now, mutation) + if Expired(r.steps[n - 1], now) && r.steps[n - 1].mutation == mutation then 1 else 0
  }

  /** After a full sweep no lease is left expired; what was expired is closed or, read-only, open again. */
  lemma {:induction false} SweepLeavesNoExpiredLease(r: Run, n: nat, now: int)
    requires n <= |r.steps|
    ensures var q := SweepRun(r, n, now);
      && |q.steps| == |r.steps|
      && (forall k: nat :: n <= k < |r.steps| ==> q.steps[k] == r.steps[k])
      && (forall k: nat :: k < n && !Expired(r.steps[k], now) ==> q.steps[k] == r.steps[k])
      && (forall k: nat :: k < n && Expired(r.steps[k], now) ==>
            if r.steps[k].mutation == Mutating
            then q.steps[k].state == Failed && q.steps[k].knowledge == Some(Indeterminate)
            else q.steps[k].state == Pending && q.steps[k].leaseOwner.None? && q.steps[k].token == r.steps[k].token)
  {
    if n > 0 {
      SweepLeavesNoExpiredLease(r, n - 1, now);
    }
  }

  lemma {:induction false} MaxSequenceBounds(rows: seq<Invocation>, i: nat)
    ensures forall k: nat :: k < |rows| && rows[k].step == i ==> rows[k].sequence <= MaxSequence(rows, i)
  {
    if rows != [] {
      var n := |rows| - 1;
      MaxSequenceBounds(rows[..n], i);
      assert forall k: nat :: k < n ==> rows[..n][k] == rows[k];
    }
  }

  /** (step, sequence) is the unique key of the invocation rows. */
  predicate SequencesUnique(r: Run) {
    forall j: nat, k: nat :: j < k < |r.invocations| ==>
      r.invocations[j].step != r.invocations[k].step || r.invocations[j].sequence != r.invocations[k].sequence
  }

  /** Recording appends exactly one attributed row, under a free sequence number. */
  lemma RecordAppendsUnderFreeKey(r: Run, row: Invocation)
    requires SequencesUnique(r)
    ensures var q := RecordTx(r, row);
      && SequencesUnique(q)
      && |q.invocations| == |r.invocations| + 1 && r.invocations <= q.invocations
      && (var added := q.invocations[|r.invocations|]; added == row.(sequence := added.sequence))
      && (!SequenceTaken(r, row.step, row.sequence) ==> q.invocations[|r.invocations|] == row)
  {
    MaxSequenceBounds(r.invocations, row.step);
  }

  /**
   * One hand-over of a step: the queue refuses it, or takes it and the transaction that writes the
   * marker returns, or throws (`landed` if it committed nevertheless).
   */
  datatype Handover = QueueRefused(error: string) | MarkerReturned | MarkerThrew(error: string, landed: bool)

  predicate MarkerStands(h: Handover) { h.MarkerReturned? || (h.MarkerThrew? && h.landed) }

  class ControlDb {
    var runs: seq<Run>
    var now: int

    constructor (now: int)
      ensures runs == [] && this.now == now
    {
      this.runs, this.now := [], now;
    }

    method CreateRun(mutations: seq<Mutation>) returns (r: nat)
      modifies this`runs
      ensures r == |old(runs)| && runs == old(runs) + [CreateRunTx(mutations)]
    {
      r := |runs|;
      var steps: seq<StepRow> := [];
      for i := 0 to |mutations|
        invariant steps == seq(i, k requires 0 <= k < i => FreshStep(mutations[k]))
      {
        steps := steps + [FreshStep(mutations[i])];
      }
      runs := runs + [Run(SnapshotPinned, false, None, steps, [], [], 1)];
    }

    method MarkRunDispatching(r: nat)
      requires r < |runs|
      modifies this`runs
      ensures runs == old(runs)[r := MarkRunDispatchingTx(old(runs)[r])]
    {
      var run := runs[r];
      if run.state == SnapshotPinned {
        run := run.(state := Dispatching, provenance := run.provenance + 1);
      }
      runs := runs[r := run];
    }

    /** `None` when there is no such step or it is not claimable: nothing is written then. */
    method ClaimStep(r: nat, i: nat, owner: OwnerId, lease: nat) returns (claim: Option<ClaimResult>)
      modifies this`runs
      ensures r >= |old(runs)| ==> runs == old(runs) && claim.None?
      ensures r < |old(runs)| ==>
        && runs == old(runs)[r := ClaimTx(old(runs)[r], i, now, owner, lease)]
        && (claim.Some? <==> Claimable(old(runs)[r], i, now))
        && (claim.Some? ==> Owns(runs[r], i, owner, claim.value.token) && claim.value.leaseExpiresAt == now + lease)
    {
      if r >= |runs| || i >= |runs[r].steps| { return None; }
      var run := runs[r];
      var s := run.steps[i];
      if !(Open(s.state) || (Active(s.state) && LeaseLapsed(s, now))) || !LeaseFree(s, now) || RunOver(run.state) {
        return None;
      }
      for k := 0 to i
        invariant forall j: nat :: j < k ==> run.steps[j].state == Succeeded
      {
        if run.steps[k].state != Succeeded { return None; }
      }
      var claimed := s.(state := Claimed, leaseOwner := Some(owner), leaseExpiresAt := Some(now + lease),
                        token := s.token + 1, dispatch := DispatchDone, dispatchAttempts := s.dispatchAttempts + 1);
      run := run.(steps := run.steps[i := claimed], provenance := run.provenance + 1,
                  state := if run.state == Dispatching then Running else run.state);
      runs := runs[r := run];
      claim := Some(ClaimResult(claimed.token, now + lease));
    }

    /** `None` is the lost lease. */
    method HeartbeatStep(r: nat, i: nat, owner: OwnerId, token: nat, lease: nat) returns (deadline: Option<int>)
      requires r < |runs|
      modifies this`runs
      ensures runs == old(runs)[r := HeartbeatTx(old(runs)[r], i, now, owner, token, lease)]
      ensures deadline == if Owns(old(runs)[r], i, owner, token) then Some(now + lease) else None
    {
      var run := runs[r];
      if !Owns(run, i, owner, token) { return None; }
      deadline := Some(now + lease);
      runs := runs[r := PutStep(run, i, run.steps[i].(leaseExpiresAt := deadline))];
    }

    /** False is the lost lease; the rejected attempt is on record. */
    method MarkExecuting(r: nat, i: nat, owner: OwnerId, token: nat) returns (ok: bool)
      requires r < |runs|
      modifies this`runs
      ensures runs == old(runs)[r := MarkExecutingTx(old(runs)[r], i, now, owner, token)]
      ensures ok <==> Owns(old(runs)[r], i, owner, token) && old(runs)[r].steps[i].state == Claimed
    {
      var run := runs[r];
      ok := Owns(run, i, owner, token) && run.steps[i].state == Claimed;
      if ok {
        runs := runs[r := PutStep(run, i, run.steps[i].(state := Executing, executingAt := Some(now)))];
      } else {
        runs := runs[r := RecordStale(run, i, owner, token)];
      }
    }

    method WriteTerminalState(r: nat, i: nat, owner: OwnerId, token: nat, w: TerminalWrite) returns (written: bool)
      requires r < |runs|
      modifies this`runs
      ensures runs == old(runs)[r := WriteTerminalTx(old(runs)[r], i, now, owner, token, w)]
      ensures written <==> Owns(old(runs)[r], i, owner, token)
    {
      var run := runs[r];
      written := Owns(run, i, owner, token);
      if written {
        var s := run.steps[i].(state := RowState(w.state), intent := Some(w.intent), knowledge := Some(w.knowledge),
                               attemptCount := w.attemptCount, terminalAt := Some(now));
        runs := runs[r := PutStep(run, i, s)];
      } else {
        runs := runs[r := RecordStale(run, i, owner, token)];
      }
    }

    method SequenceInUse(r: nat, i: nat, sequence: nat) returns (taken: bool)
      requires r < |runs|
      ensures taken <==> SequenceTaken(runs[r], i, sequence)
    {
      var rows := runs[r].invocations;
      for k := 0 to |rows|
        invariant forall j: nat :: j < k ==> !(rows[j].step == i && rows[j].sequence == sequence)
      {
        if rows[k].step == i && rows[k].sequence == sequence { return true; }
      }
      return false;
    }

    /** The bounded search for a free sequence number never exhausts its 64 tries: the second is free. */
    method RecordInvocation(r: nat, row: Invocation) returns (sequence: nat)
      requires r < |runs|
      modifies this`runs
      ensures runs == old(runs)[r := RecordTx(old(runs)[r], row)]
      ensures sequence == runs[r].invocations[|old(runs)[r].invocations|].sequence
    {
      var run := runs[r];
      sequence := row.sequence;
      MaxSequenceBounds(run.invocations, row.step);
      var attempt := 0;
      while attempt < 64
        invariant runs == old(runs)
        invariant attempt <= 1
        invariant attempt == 0 ==> sequence == row.sequence
        invariant attempt == 1 ==> SequenceTaken(run, row.step, row.sequence) && sequence == MaxSequence(run.invocations, row.step) + 1
        decreases 64 - attempt
      {
        var occupied := SequenceInUse(r, row.step, sequence);
        if !occupied {
          runs := runs[r := run.(invocations := run.invocations + [row.(sequence := sequence)], provenance := run.provenance + 1)];
          return;
        }
        sequence := MaxSequence(run.invocations, row.step) + 1;
        attempt := attempt + 1;
      }
    }

    method ResolveExpiredLease(r: nat, i: nat, mutation: Mutation, maybeSent: bool) returns (result: LeaseResolution)
      requires r < |runs|
      modifies this`runs
      ensures runs == old(runs)[r := ResolveLeaseTx(old(runs)[r], i, now, mutation, maybeSent)]
      ensures result == LeaseDecision(old(runs)[r], i, now, mutation, maybeSent)
    {
      var run := runs[r];
      if i >= |run.steps| || !Active(run.steps[i].state) { return NotResolved; }
      var s := run.steps[i];
      if !LeaseLapsed(s, now) { return NotResolved; }
      if mutation == Mutating && maybeSent {
        s := s.(state := Failed, intent := Some(IntentFailed), knowledge := Some(Indeterminate), terminalAt := Some(now));
        runs := runs[r := PutStep(run, i, s)];
        return ResolvedIndeterminate;
      }
      s := s.(state := Pending, leaseOwner := None, leaseExpiresAt := None, dispatch := DispatchReconcile);
      runs := runs[r := PutStep(run, i, s)];
      return ResolvedRequeue;
    }

    /** The lease sweep over one run's steps, with its counters. */
    method ReconcileExpiredLeases(r: nat) returns (indeterminate: nat, requeued: nat)
      requires r < |runs|
      modifies this`runs
      ensures runs == old(runs)[r := SweepRun(old(runs)[r], |old(runs)[r].steps|, now)]
      ensures indeterminate == CountExpired(old(runs)[r], |old(runs)[r].steps|, now, Mutating)
      ensures requeued == CountExpired(old(runs)[r], |old(runs)[r].steps|, now, ReadOnly)
    {
      var before := runs[r];
      indeterminate, requeued := 0, 0;
      for i := 0 to |before.steps|
        invariant |runs| == |old(runs)| && runs == old(runs)[r := SweepRun(before, i, now)]
        invariant indeterminate == CountExpired(before, i, now, Mutating)
        invariant requeued == CountExpired(before, i, now, ReadOnly)
      {
        SweepLeavesNoExpiredLease(before, i, now);
        var mutation := before.steps[i].mutation;
        var result := ResolveExpiredLease(r, i, mutation, mutation == Mutating);
        if result == ResolvedIndeterminate {
          indeterminate := indeterminate + 1;
        } else if result == ResolvedRequeue {
          requeued := requeued + 1;
        }
      }
    }

    method SettleRun(r: nat, c: Candidate) returns (settled: bool)
      requires r < |runs|
      modifies this`runs
      ensures runs == old(runs)[r := SettleTx(old(runs)[r], now, c)]
      ensures settled <==> old(runs)[r].state == Running
    {
      var run := runs[r];
      var steps := run.steps;
      var changed := false;
      if c.hasFailure && c.hasOpen {
        for i := 0 to |steps|
          invariant |steps| == |run.steps|
          invariant forall k: nat :: k < |steps| ==> steps[k] == if k < i && Open(run.steps[k].state) then CancelStep(run.steps[k], now) else run.steps[k]
          invariant changed <==> exists k: nat :: k < i && Open(run.steps[k].state)
        {
          if Open(steps[i].state) {
            steps := steps[i := steps[i].(state := Cancelled, intent := Some(IntentCancelled), knowledge := Some(KnownAbsent), terminalAt := Some(now))];
            changed := true;
          }
        }
        assert steps == CancelOpen(run.steps, now);
      }
      var failed := CountUnsuccessful(steps);
      settled := run.state == Running;
      changed := changed || settled;
      runs := runs[r := run.(
        steps := steps,
        state := if !settled then run.state else if failed > 0 then RunFailed else RunCompleted,
        failureReason := if settled && failed > 0 then Some(FailureReason(failed, CountIndeterminate(run.invocations))) else run.failureReason,
        provenance := if changed then run.provenance + 1 else run.provenance)];
    }

    /** One bounded settlement sweep: the query first, then each run under its own lock. */
    method SettleRuns(limit: nat) returns (settled: nat)
      modifies this`runs
      ensures |runs| == |old(runs)|
      ensures settled == |SettleQuery(old(runs), limit)|
      ensures forall r: nat :: r < |runs| ==>
        runs[r] == if r in SettleQuery(old(runs), limit) then SettleFound(old(runs)[r], now) else old(runs)[r]
      ensures limit >= |runs| ==> forall r: nat :: r < |runs| ==> SweptRun(old(runs)[r], runs[r])
    {
      var found := runs;
      var query := SettleQuery(found, limit);
      SettleQueryIsComplete(found, limit);
      settled := 0;
      for k := 0 to |query|
        invariant |runs| == |found| && settled == k
        invariant forall r: nat :: r < |runs| ==>
          runs[r] == if r in query[..k] then SettleFound(found[r], now) else found[r]
      {
        var r := query[k];
        assert r !in query[..k];
        var done := SettleRun(r, SettleCandidate(found[r]).value);
        settled := settled + (if done then 1 else 0);
        assert query[..k + 1] == query[..k] + [r];
      }
      assert query[..|query|] == query;
      if limit >= |found| {
        forall r: nat | r < |runs|
          ensures SweptRun(found[r], runs[r])
        {
          SettleSweepIsComplete(found, limit, now, r);
        }
      }
    }

    method SettleCancelledRun(r: nat)
      requires r < |runs|
      modifies this`runs
      ensures runs == old(runs)[r := SettleCancelledTx(old(runs)[r], now)]
    {
      var run := runs[r];
      var steps := run.steps;
      var changed := false;
      for i := 0 to |steps|
        invariant |steps| == |run.steps|
        invariant forall k: nat :: k < |steps| ==> steps[k] == if k < i && !Terminal(run.steps[k].state) then CancelStep(run.steps[k], now) else run.steps[k]
        invariant changed <==> exists k: nat :: k < i && !Terminal(run.steps[k].state)
      {
        if !Terminal(steps[i].state) {
          steps := steps[i := steps[i].(state := Cancelled, intent := Some(IntentCancelled), knowledge := Some(KnownAbsent), terminalAt := Some(now))];
          changed := true;
        }
      }
      assert steps == CancelUnfinished(run.steps, now);
      assert changed <==> AnyOpen(run) || AnyActive(run) by {
        assert forall k: nat :: k < |run.steps| ==> (!Terminal(run.steps[k].state) <==> Open(run.steps[k].state) || Active(run.steps[k].state));
      }
      if changed || !RunOver(run.state) {
        runs := runs[r := run.(steps := steps, state := if RunOver(run.state) then run.state else RunCancelled, provenance := run.provenance + 1)];
      }
    }

    /**
     * After a step succeeded: hand the next one to the queue if nobody has. A RECONCILE marker with the
     * error stays behind when the queue refuses it, or takes it and the marker is then not written.
     */
    method DispatchNextOrderedStep(r: nat, sequence: nat, handover: Handover) returns (enqueued: bool)
      requires r < |runs|
      modifies this`runs
      ensures |runs| == |old(runs)| && forall k: nat :: k < |runs| && k != r ==> runs[k] == old(runs)[k]
      ensures var run, next := old(runs)[r], sequence + 1;
        if next < |run.steps| && run.steps[next].state == Pending && run.steps[next].dispatch == DispatchPending then
          && enqueued == !handover.QueueRefused?
          && runs[r] == run.(provenance := run.provenance + 2,
                             steps := run.steps[next := if MarkerStands(handover) then run.steps[next].(dispatch := DispatchDone, dispatchError := None)
                                                        else run.steps[next].(dispatch := DispatchReconcile, dispatchError := Some(handover.error))])
        else runs[r] == run && !enqueued
    {
      var next := sequence + 1;
      enqueued := false;
      if next >= |runs[r].steps| || runs[r].steps[next].state != Pending || runs[r].steps[next].dispatch == DispatchDone {
        return;
      }
      var promoted := WriteMarker(r, next, {DispatchPending}, false, MarkReconcile);
      if !promoted { return; }
      if !handover.QueueRefused? {
        enqueued := true;
        if MarkerStands(handover) {
          var _ := WriteMarker(r, next, {DispatchReconcile}, false, MarkDone);
        }
        if handover.MarkerReturned? { return; }
      }
      var _ := WriteMarker(r, next, {DispatchReconcile}, false, MarkError(handover.error));
    }

    method WriteMarker(r: nat, i: nat, from: set<DispatchState>, openOnly: bool, change: Marker) returns (matched: bool)
      requires r < |runs| && i < |runs[r].steps|
      modifies this`runs
      ensures runs == old(runs)[r := MarkerTx(old(runs)[r], i, from, openOnly, change)]
      ensures matched <==> old(runs)[r].steps[i].dispatch in from && (openOnly ==> Open(old(runs)[r].steps[i].state))
    {
      var run := runs[r];
      matched := run.steps[i].dispatch in from && (openOnly ==> Open(run.steps[i].state));
      if matched {
        runs := runs[r := MarkerTx(run, i, from, openOnly, change)];
      }
    }

    /**
     * The dispatch half of a reconcile sweep over one run: whatever is found undispatched is handed
     * to the queue, and the marker flips only when the queue took it.
     */
    method ReconcileDispatch(r: nat, handover: Handover) returns (requeued: nat)
      requires r < |runs|
      modifies this`runs
      ensures requeued <= 1
      ensures |runs| == |old(runs)| && forall k: nat :: k < |runs| && k != r ==> runs[k] == old(runs)[k]
      ensures (forall i: nat :: i < |old(runs)[r].steps| ==> !Undispatched(old(runs)[r], i, now)) ==> runs[r] == old(runs)[r] && requeued == 0
      ensures forall i: nat :: i < |old(runs)[r].steps| && Undispatched(old(runs)[r], i, now) ==>
        && requeued == (if handover.MarkerReturned? then 1 else 0)
        && runs[r] == MarkerTx(old(runs)[r], i, UNDISPATCHED, MarkerStands(handover), if MarkerStands(handover) then MarkDone else MarkError(handover.error))
    {
      requeued := 0;
      var i, n := 0, |runs[r].steps|;
      while i < n && !Undispatched(runs[r], i, now)
        invariant i <= n && runs == old(runs)
        invariant forall k: nat :: k < i ==> !Undispatched(runs[r], k, now)
      {
        i := i + 1;
      }
      if i == n { return; }
      assert forall k: nat :: i < k < n ==> !Undispatched(runs[r], k, now);
      if MarkerStands(handover) {
        var _ := WriteMarker(r, i, UNDISPATCHED, true, MarkDone);
      }
      if handover.MarkerReturned? {
        requeued := 1;
      } else {
        var _ := WriteMarker(r, i, UNDISPATCHED, false, MarkError(handover.error));
      }
      assert Undispatched(old(runs)[r], i, now);
    }

    /** The worker's catch handler run without interference: both reads and the write see the same rows. */
    method RepairEmergencyStepTerminal(r: nat, i: nat, owner: OwnerId) returns (written: bool, truth: Option<TerminalWrite>)
      requires r < |runs|
      modifies this`runs
      ensures var run := old(runs)[r]; var read := ReadForRepair(run, i, owner);
        if read.None? then !written && truth.None? && runs == old(runs)
        else
          && truth == Some(RepairTruth(read.value, run.invocations))
          && runs == old(runs)[r := WriteTerminalTx(run, i, now, owner, read.value.token, truth.value)]
          && (written <==> run.steps[i].leaseOwner == Some(owner))
    {
      var run := runs[r];
      if i >= |run.steps| || !Active(run.steps[i].state) { return false, None; }
      var preSendProven := run.steps[i].executingAt.None?;
      var knowledge: seq<Knowledge> := [];
      for k := 0 to |run.invocations|
        invariant knowledge == StepKnowledge(run.invocations[..k], i)
      {
        assert run.invocations[..k + 1][..k] == run.invocations[..k];
        if run.invocations[k].step == i { knowledge := knowledge + [run.invocations[k].knowledge]; }
      }
      assert run.invocations[..|run.invocations|] == run.invocations;
      truth := Some(DeriveEmergencyTruth(knowledge, run.steps[i].mutation, preSendProven));
      written := WriteTerminalState(r, i, owner, run.steps[i].token, truth.value);
    }
  }
}
