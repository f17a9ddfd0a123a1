/**
 * `settleRuns` decides outside the lock and commits later: its decision is still right. Which runs it
 * ever finds depends on when their steps were claimed.
 */
module Settlement {
  import opened Wrappers
  import opened Classify
  import opened ControlRows
  import opened Machine

  /** Every step of `q` is closed, and if `r` was RUNNING the rows bear out the verdict. */
  predicate ClosedRightly(r: Run, q: Run) {
    && AllTerminal(q)
    && (r.state == Running ==>
          && (q.state == RunCompleted <==> AllSucceeded(q))
          && (q.state == RunFailed <==> AnyUnsuccessful(q))
          && (q.state == RunCompleted || q.state == RunFailed))
    && (r.state != Running ==> q.state == r.state)
  }

  /** The verdict of one settlement commit on rows that bear its candidate out. */
  lemma SettlementVerdict(r: Run, now: int, c: Candidate)
    requires RowsOk(r) && CandidateOk(r, c)
    ensures ClosedRightly(r, SettleTx(r, now, c))
  {
    SettleKeeps(r, now, c);
    var q := SettleTx(r, now, c);
    CountIsPositive(q.steps);
    if !AnyUnsuccessful(q) {
      forall k: nat | k < |q.steps| ensures q.steps[k].state == Succeeded {
        assert Terminal(q.steps[k].state);
      }
    }
    assert AllSucceeded(q) ==> q.steps[0].state == Succeeded;
  }

  /**
   * A candidate selected in any world, committed after any interleaving: no step is active at
   * commit, every step is closed by it, and a still RUNNING run becomes COMPLETED exactly when every
   * step SUCCEEDED and otherwise FAILED with some step unsuccessful.
   */
  lemma SettlementIsRightAtCommit(w: World, es: seq<Event>)
    requires Inv(w) && SettleCandidate(w.run).Some?
    ensures var later := Exec(w, [SelectSettle] + es);
      var c := SettleCandidate(w.run).value;
      c in later.candidates && !AnyActive(later.run) && ClosedRightly(later.run, RunAfter(later, CommitSettle(c)))
  {
    var c, selected := SettleCandidate(w.run).value, Apply(w, SelectSettle);
    Step(w, SelectSettle);
    ExecFirst(w, SelectSettle, es);
    Committed(selected, es, c);
    SettlementVerdict(Exec(selected, es).run, Exec(selected, es).now, c);
  }

  lemma ExecFirst(w: World, e: Event, es: seq<Event>)
    ensures Exec(w, [e] + es) == Exec(Apply(w, e), es)
  {
    assert [] + [e] == [e];
    ExecStep(w, [], e);
    ExecAppend(w, [e], es);
  }

  lemma Committed(selected: World, es: seq<Event>, c: Candidate)
    requires Inv(selected) && c in selected.candidates
    ensures var later := Exec(selected, es); c in later.candidates && RowsOk(later.run) && CandidateOk(later.run, c)
  {
    Always(selected, es);
    CandidateIsKept(selected, es, c);
  }

  lemma {:induction false} CandidateIsKept(w: World, es: seq<Event>, c: Candidate)
    requires c in w.candidates
    ensures c in Exec(w, es).candidates
  {
    if es != [] {
      CandidateIsKept(w, es[..|es| - 1], c);
    }
  }

  /**
   * Every step that a settlement cancels was never claimed by anyone, and nothing was ever sent for
   * it: its KNOWN_ABSENT is true.
   */
  lemma SettlementCancelsOnlyUnclaimed(w: World, c: Candidate, i: nat)
    requires Reachable(w) && c in w.candidates && i < |w.run.steps|
    requires Open(w.run.steps[i].state) && RunAfter(w, CommitSettle(c)).steps[i].state == Cancelled
    ensures RunAfter(w, CommitSettle(c)).steps[i].knowledge == Some(KnownAbsent)
    ensures w.run.steps[i].token == 0 && i !in w.sent
    ensures forall k: nat :: k < |w.run.invocations| ==> w.run.invocations[k].step != i
  {
    ReachableInv(w);
    var r := w.run;
    OnlyBehindFailure(r, w.now, c, i);
    assert CandidateOk(r, c) && RowOk(r.steps[i]);
    NeverClaimedBehindFailure(r, i);
  }

  lemma OnlyBehindFailure(r: Run, now: int, c: Candidate, i: nat)
    requires i < |r.steps| && Open(r.steps[i].state) && SettleTx(r, now, c).steps[i].state == Cancelled
    ensures c.hasFailure && SettleTx(r, now, c).steps[i].knowledge == Some(KnownAbsent)
  {
  }

  lemma NeverClaimedBehindFailure(r: Run, i: nat)
    requires RowsOk(r) && AnyUnsuccessful(r) && i < |r.steps| && Open(r.steps[i].state)
    ensures r.steps[i].token == 0 && r.steps[i].executingAt.None?
  {
    var f: nat :| f < |r.steps| && Unsuccessful(r.steps[f].state);
    assert RowOk(r.steps[f]) && RowOk(r.steps[i]);
    assert r.steps[f].token > 0 ==> f < i;
  }

  /** A FAILED run is final: nothing in it is open or active in any reachable world. */
  lemma OverMeansClosed(w: World)
    requires Reachable(w) && RunOver(w.run.state)
    ensures AllTerminal(w.run)
    ensures w.run.state == RunCompleted ==> AllSucceeded(w.run)
    ensures w.run.state == RunFailed ==> AnyUnsuccessful(w.run)
  {
    ReachableInv(w);
  }

  // ------------------------------------------------------------------
  // Which runs settle at all
  // ------------------------------------------------------------------

  /** The run was never promoted to RUNNING. */
  predicate Waiting(s: RunState) { s == Created || s == SnapshotPinned || s == Dispatching }

  /** A landed claim leaves the run RUNNING if and only if it was DISPATCHING or RUNNING already. */
  lemma ClaimPromotesIff(w: World, i: nat, owner: OwnerId, lease: nat)
    requires Claimable(w.run, i, w.now)
    ensures var q := RunAfter(w, Claim(i, owner, lease));
      && Active(q.steps[i].state)
      && (q.state == Running <==> w.run.state == Dispatching || w.run.state == Running)
      && (q.state != Running ==> q.state == w.run.state && Waiting(q.state))
  {
  }

  predicate Promotes(w: World, e: Event) { e.Claim? && Claimable(w.run, e.i, w.now) && w.run.state == Dispatching }

  /** Some claim landed while the run was DISPATCHING. */
  predicate EverPromoted(w: World, es: seq<Event>) {
    es != [] && (EverPromoted(w, es[..|es| - 1]) || Promotes(Exec(w, es[..|es| - 1]), es[|es| - 1]))
  }

  lemma WaitingStep(w: World, e: Event)
    ensures Waiting(w.run.state) ==> RunAfter(w, e).state == RunCancelled || (Waiting(RunAfter(w, e).state) <==> !Promotes(w, e))
    ensures Waiting(w.run.state) && RunAfter(w, e).state == RunCancelled ==> e.SettleCancelled?
    ensures !Waiting(w.run.state) ==> !Waiting(RunAfter(w, e).state) && !Promotes(w, e)
  {
  }

  lemma CancelledRunStays(w: World, e: Event)
    requires w.run.state == RunCancelled
    ensures RunAfter(w, e).state == RunCancelled
  {
  }

  /** Short of a cancel, a run leaves its waiting states exactly by a claim that lands while it is DISPATCHING. */
  lemma {:induction false} WaitingUnlessPromoted(w: World, es: seq<Event>)
    requires Waiting(w.run.state)
    ensures Exec(w, es).run.state != RunCancelled ==> (Waiting(Exec(w, es).run.state) <==> !EverPromoted(w, es))
  {
    if es != [] {
      var before, e := es[..|es| - 1], es[|es| - 1];
      WaitingUnlessPromoted(w, before);
      WaitingStep(Exec(w, before), e);
      if Exec(w, before).run.state == RunCancelled {
        CancelledRunStays(Exec(w, before), e);
      }
    }
  }

  predicate Cancels(es: seq<Event>) { exists k :: 0 <= k < |es| && es[k].SettleCancelled? }

  /** With every step closed nothing can be claimed, so a waiting run waits on until it is cancelled. */
  lemma {:induction false} WaitsForever(w: World, es: seq<Event>)
    requires Inv(w) && AllTerminal(w.run) && Waiting(w.run.state) && !Cancels(es)
    ensures Inv(Exec(w, es)) && AllTerminal(Exec(w, es).run) && Waiting(Exec(w, es).run.state)
  {
    if es != [] {
      var before, e := es[..|es| - 1], es[|es| - 1];
      assert forall k :: 0 <= k < |before| ==> before[k] == es[k];
      WaitsForever(w, before);
      var v := Exec(w, before);
      Step(v, e);
      WaitingStep(v, e);
      StaysClosed(v, e);
    }
  }

  lemma StaysClosed(w: World, e: Event)
    requires Inv(w) && AllTerminal(w.run)
    ensures AllTerminal(RunAfter(w, e)) && !Promotes(w, e)
  {
    RowsKept(w, e);
    forall k: nat | k < |RunAfter(w, e).steps|
      ensures Terminal(RunAfter(w, e).steps[k].state)
    {
      assert RowMoves(w.run.steps[k], RunAfter(w, e).steps[k]);
      assert Outcome(RunAfter(w, e).steps[k]).state == Outcome(w.run.steps[k]).state;
    }
  }

  /**
   * A created run whose steps are all closed and that was not cancelled: it is settled, or the next
   * settlement finds it, if and only if some claim landed while it was DISPATCHING. Otherwise it
   * waits for ever, whatever happens short of a cancel.
   */
  lemma ClosedRunSettlesIff(mutations: seq<Mutation>, now: int, es: seq<Event>)
    requires mutations != []
    requires var r := Exec(Start(mutations, now), es).run; AllTerminal(r) && r.state != RunCancelled
    ensures var w := Exec(Start(mutations, now), es);
      && (SettleCandidate(w.run).Some? || w.run.state == RunCompleted || w.run.state == RunFailed <==> EverPromoted(Start(mutations, now), es))
      && (!EverPromoted(Start(mutations, now), es) ==> forall fs :: !Cancels(fs) ==> Waiting(Exec(w, fs).run.state))
  {
    var start := Start(mutations, now);
    var w := Exec(start, es);
    Always(start, es);
    WaitingUnlessPromoted(start, es);
    StepsStay(start, es);
    assert forall k: nat :: k < |w.run.steps| ==> Terminal(w.run.steps[k].state);
    if !EverPromoted(start, es) {
      forall fs | !Cancels(fs)
        ensures Waiting(Exec(w, fs).run.state)
      {
        WaitsForever(w, fs);
      }
    }
  }

  lemma {:induction false} StepsStay(w: World, es: seq<Event>)
    requires Inv(w)
    ensures |Exec(w, es).run.steps| == |w.run.steps|
  {
    if es != [] {
      StepsStay(w, es[..|es| - 1]);
      Always(w, es[..|es| - 1]);
      RowsKept(Exec(w, es[..|es| - 1]), es[|es| - 1]);
    }
  }

  /** Every claim comes after the run was marked DISPATCHING. */
  predicate MarkedFirst(es: seq<Event>) {
    forall k :: 0 <= k < |es| && es[k].Claim? ==> MarkDispatching in es[..k]
  }

  /** No claim has landed, so nothing is closed and there is nothing to settle. */
  predicate Untouched(w: World) {
    && (w.run.state == SnapshotPinned || w.run.state == Dispatching)
    && w.candidates == {}
    && forall k: nat :: k < |w.run.steps| ==> Open(w.run.steps[k].state)
  }

  lemma UntouchedStep(w: World, e: Event)
    requires Untouched(w) && !e.SettleCancelled? && (e.Claim? ==> w.run.state == Dispatching)
    ensures Promotes(w, e) || Untouched(Apply(w, e))
    ensures e.MarkDispatching? || (w.run.state == Dispatching && !Promotes(w, e)) ==> RunAfter(w, e).state == Dispatching
  {
  }

  lemma CancelCancels(w: World)
    requires Waiting(w.run.state)
    ensures RunAfter(w, SettleCancelled).state == RunCancelled
  {
  }

  /** The run is cancelled or promoted, or still untouched and DISPATCHING if it was marked. */
  predicate MarkedFate(w: World, promoted: bool, marked: bool) {
    || w.run.state == RunCancelled
    || promoted
    || (Untouched(w) && (marked ==> w.run.state == Dispatching))
  }

  lemma MarkedFateStep(w: World, e: Event, marked: bool)
    requires MarkedFate(w, false, marked) && (e.Claim? ==> marked)
    ensures MarkedFate(Apply(w, e), Promotes(w, e), marked || e == MarkDispatching)
  {
    if w.run.state == RunCancelled {
      CancelledRunStays(w, e);
    } else if e.SettleCancelled? {
      CancelCancels(w);
    } else {
      UntouchedStep(w, e);
    }
  }

  lemma {:induction false} MarkedRunFate(start: World, es: seq<Event>)
    requires Untouched(start) && MarkedFirst(es)
    ensures MarkedFate(Exec(start, es), EverPromoted(start, es), MarkDispatching in es)
  {
    if es != [] {
      var before, e := es[..|es| - 1], es[|es| - 1];
      assert forall k :: 0 <= k < |before| ==> before[k] == es[k] && before[..k] == es[..k];
      MarkedRunFate(start, before);
      if !EverPromoted(start, before) {
        MarkedFateStep(Exec(start, before), e, MarkDispatching in before);
      }
      assert es == before + [e];
    }
  }

  /** A run that is marked DISPATCHING before any of its steps is claimed is settled once its steps are closed. */
  lemma MarkedRunSettles(mutations: seq<Mutation>, now: int, es: seq<Event>)
    requires mutations != [] && MarkedFirst(es)
    requires var r := Exec(Start(mutations, now), es).run; AllTerminal(r) && r.state != RunCancelled
    ensures var r := Exec(Start(mutations, now), es).run;
      SettleCandidate(r).Some? || r.state == RunCompleted || r.state == RunFailed
  {
    var start := Start(mutations, now);
    MarkedRunFate(start, es);
    Always(start, es);
    StepsStay(start, es);
    assert Terminal(Exec(start, es).run.steps[0].state);
    ClosedRunSettlesIff(mutations, now, es);
  }

  function ClaimedTooEarly(owner: OwnerId, write: TerminalWrite): seq<Event> {
    [Claim(0, owner, 0)] + [WriteTerminal(0, owner, 1, write)] + [MarkDispatching]
  }

  /** A step claimed while its run is SNAPSHOT_PINNED: the step is closed, the run is never settled. */
  lemma ClosedRunCanWaitForever(owner: OwnerId, write: TerminalWrite)
    ensures var w := Exec(Start([Mutating], 0), ClaimedTooEarly(owner, write));
      && AllTerminal(w.run) && w.run.state == Dispatching
      && forall fs :: !Cancels(fs) ==> Waiting(Exec(w, fs).run.state)
  {
    var start, claim, end := Start([Mutating], 0), Claim(0, owner, 0), WriteTerminal(0, owner, 1, write);
    assert [] + [claim] == [claim];
    ExecStep(start, [], claim);
    ExecStep(start, [claim], end);
    ExecStep(start, [claim] + [end], MarkDispatching);
    ClaimWriteMark(owner, write);
    var w := Exec(start, ClaimedTooEarly(owner, write));
    Always(start, ClaimedTooEarly(owner, write));
    forall fs | !Cancels(fs)
      ensures Waiting(Exec(w, fs).run.state)
    {
      WaitsForever(w, fs);
    }
  }

  lemma ClaimWriteMark(owner: OwnerId, write: TerminalWrite)
    ensures var r := Apply(Apply(Apply(Start([Mutating], 0), Claim(0, owner, 0)), WriteTerminal(0, owner, 1, write)), MarkDispatching).run;
      AllTerminal(r) && r.state == Dispatching
  {
  }
}
