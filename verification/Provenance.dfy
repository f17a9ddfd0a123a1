/** The provenance revision P of a run (packages/engine/src/truth-input-head.ts) as a version number. */
module Provenance {
  import opened Wrappers
  import opened ControlRows
  import opened Machine

  /** Every event either leaves the run's rows exactly as they were or advances P by one. */
  lemma ChangeAdvancesP(w: World, e: Event)
    requires Inv(w)
    ensures RunAfter(w, e) == w.run || RunAfter(w, e).provenance == w.run.provenance + 1
  {
    match e
    case CommitSettle(c) => if c in w.candidates { SettleAdvancesP(w.run, w.now, c); }
    case _ =>
  }

  lemma SettleAdvancesP(r: Run, now: int, c: Candidate)
    ensures SettleTx(r, now, c) == r || SettleTx(r, now, c).provenance == r.provenance + 1
  {
    if !AnyOpen(r) {
      assert CancelOpen(r.steps, now) == r.steps;
    }
  }

  /** A guarded write whose predicate matches no row changes nothing, P included. */
  lemma ZeroRowWriteLeavesPAlone(r: Run, i: nat, now: int, owner: OwnerId, token: nat, lease: nat)
    ensures !Claimable(r, i, now) <==> ClaimTx(r, i, now, owner, lease) == r
    ensures !Owns(r, i, owner, token) <==> HeartbeatTx(r, i, now, owner, token, lease) == r
    ensures r.state != SnapshotPinned <==> MarkRunDispatchingTx(r) == r
    ensures RunOver(r.state) && !AnyOpen(r) && !AnyActive(r) <==> SettleCancelledTx(r, now) == r
  {
  }

  lemma {:induction false} PNeverFalls(w: World, es: seq<Event>)
    requires Inv(w)
    ensures Exec(w, es).run.provenance >= w.run.provenance
    ensures Exec(w, es).run.provenance == w.run.provenance ==> Exec(w, es).run == w.run
  {
    if es != [] {
      var before := es[..|es| - 1];
      PNeverFalls(w, before);
      Always(w, before);
      ChangeAdvancesP(Exec(w, before), es[|es| - 1]);
    }
  }

  lemma NothingInBetween(w: World, a: seq<Event>, b: seq<Event>)
    requires Inv(w) && Exec(w, a + b).run.provenance == w.run.provenance
    ensures Exec(w, a).run == w.run
  {
    ExecAppend(w, a, b);
    PNeverFalls(w, a);
    Always(w, a);
    PNeverFalls(Exec(w, a), b);
  }

  /**
   * Two reads with the same P, however much happened between them, saw the same run, step,
   * invocation and stale-writer rows, and so did every read in between: there is no ABA.
   */
  lemma EqualPMeansEqualRows(w: World, es: seq<Event>, n: nat)
    requires Inv(w) && n <= |es|
    requires Exec(w, es).run.provenance == w.run.provenance
    ensures Exec(w, es[..n]).run == w.run
  {
    assert es[..n] + es[n..] == es;
    NothingInBetween(w, es[..n], es[n..]);
  }
}
