/** Leases, fencing tokens, write-once terminal states and step order, over whole interleavings. */
module Fencing {
  import opened Wrappers
  import opened Classify
  import opened ControlRows
  import opened Machine

  // ------------------------------------------------------------------
  // Fencing
  // ------------------------------------------------------------------

  /** Event `e` of world `w` is a claim, a requeue or a terminal write that really hits step `i`. */
  predicate Touches(w: World, e: Event, i: nat) {
    match e
    case Claim(k, _, _) => k == i && Claimable(w.run, i, w.now)
    case SweepLease(k) => k == i && i < |w.run.steps| && Active(w.run.steps[i].state) && LeaseLapsed(w.run.steps[i], w.now)
    case WriteTerminal(k, owner, token, _) => k == i && Owns(w.run, i, owner, token)
    case RepairWrite(p) => p in w.repairs && p.read.step == i && Owns(w.run, i, p.read.owner, p.read.token)
    case CommitSettle(c) => c in w.candidates && c.hasFailure && c.hasOpen && i < |w.run.steps| && Open(w.run.steps[i].state)
    case SettleCancelled => i < |w.run.steps| && !Terminal(w.run.steps[i].state)
    case _ => false
  }

  predicate EverTouched(w: World, es: seq<Event>, i: nat) {
    es != [] && (EverTouched(w, es[..|es| - 1], i) || Touches(Exec(w, es[..|es| - 1]), es[|es| - 1], i))
  }

  /** Generation (owner, token) of step `i` can never own it again. */
  predicate Superseded(r: Run, i: nat, token: nat) {
    && i < |r.steps| && token <= r.steps[i].token
    && (r.steps[i].token == token ==> !Active(r.steps[i].state))
  }

  lemma TouchSupersedes(w: World, e: Event, i: nat, owner: OwnerId, token: nat)
    requires Inv(w) && Owns(w.run, i, owner, token)
    ensures Touches(w, e, i) ==> Superseded(RunAfter(w, e), i, token)
    ensures !Touches(w, e, i) ==> Owns(RunAfter(w, e), i, owner, token)
  {
  }

  lemma SupersededStays(w: World, e: Event, i: nat, token: nat)
    requires Inv(w) && Superseded(w.run, i, token)
    ensures Superseded(RunAfter(w, e), i, token)
  {
    RowsKept(w, e);
    assert RowMoves(w.run.steps[i], RunAfter(w, e).steps[i]);
    if !Active(w.run.steps[i].state) {
      OnlyClaimsActivate(w, e, i);
    }
  }

  /**
   * A generation's fenced write lands after any interleaving exactly when no later claim, requeue
   * or terminal write has touched its step.
   */
  lemma {:induction false} FencedWriteLandsIffUntouched(w: World, es: seq<Event>, i: nat, owner: OwnerId, token: nat)
    requires Inv(w) && Owns(w.run, i, owner, token)
    ensures Owns(Exec(w, es).run, i, owner, token) <==> !EverTouched(w, es, i)
    ensures EverTouched(w, es, i) ==> Superseded(Exec(w, es).run, i, token)
  {
    if es != [] {
      var before, e := es[..|es| - 1], es[|es| - 1];
      FencedWriteLandsIffUntouched(w, before, i, owner, token);
      Always(w, before);
      if EverTouched(w, before, i) {
        SupersededStays(Exec(w, before), e, i, token);
      } else {
        TouchSupersedes(Exec(w, before), e, i, owner, token);
      }
    }
  }

  /** The write's outcome is on row `i`, and nothing else about the steps has changed. */
  predicate WroteOutcome(r: Run, q: Run, i: nat, write: TerminalWrite) {
    && i < |r.steps| && |q.steps| == |r.steps|
    && q.steps[i].state == RowState(write.state)
    && q.steps[i].intent == Some(write.intent) && q.steps[i].knowledge == Some(write.knowledge)
    && q.steps[i].attemptCount == write.attemptCount
    && forall k: nat :: k < |r.steps| && k != i ==> q.steps[k] == r.steps[k]
  }

  /**
   * A generation that owns its step now writes its outcome after any interleaving: either nobody has
   * touched the step and the outcome is on its row alone, or somebody has, no step changes and the
   * attempt is on record. There is nothing in between.
   */
  lemma FencedWriteIsAllOrNothing(w: World, es: seq<Event>, i: nat, owner: OwnerId, token: nat, write: TerminalWrite)
    requires Inv(w) && Owns(w.run, i, owner, token)
    ensures var r := Exec(w, es).run; var q := RunAfter(Exec(w, es), WriteTerminal(i, owner, token, write));
      if EverTouched(w, es, i) then
        q.steps == r.steps && q.staleWriters == r.staleWriters + [StaleWriter(i, owner, token)]
      else
        WroteOutcome(r, q, i, write) && q.staleWriters == r.staleWriters
  {
    FencedWriteLandsIffUntouched(w, es, i, owner, token);
  }

  // ------------------------------------------------------------------
  // Tokens count claims; live leases are never stolen
  // ------------------------------------------------------------------

  function LandedClaims(w: World, es: seq<Event>, i: nat): nat {
    if es == [] then 0
    else
      var before, e := es[..|es| - 1], es[|es| - 1];
      LandedClaims(w, before, i) + if e.Claim? && Touches(Exec(w, before), e, i) then 1 else 0
  }

  lemma ClaimRaisesToken(w: World, e: Event, i: nat)
    requires Inv(w) && i < |w.run.steps|
    ensures i < |RunAfter(w, e).steps|
    ensures RunAfter(w, e).steps[i].token == w.run.steps[i].token + if e.Claim? && Touches(w, e, i) then 1 else 0
  {
  }

  /** The token of a step is exactly the number of claims that ever landed on it. */
  lemma {:induction false} TokenCountsClaims(w: World, es: seq<Event>, i: nat)
    requires Inv(w) && i < |w.run.steps|
    ensures i < |Exec(w, es).run.steps|
    ensures Exec(w, es).run.steps[i].token == w.run.steps[i].token + LandedClaims(w, es, i)
  {
    if es != [] {
      var before := es[..|es| - 1];
      TokenCountsClaims(w, before, i);
      Always(w, before);
      ClaimRaisesToken(Exec(w, before), es[|es| - 1], i);
    }
  }

  /** While its lease is live nobody but the holder can change who runs a step, or end it, short of a run cancel. */
  lemma LiveLeaseIsNeverStolen(w: World, e: Event, i: nat)
    requires Inv(w) && i < |w.run.steps| && Active(w.run.steps[i].state) && !LeaseLapsed(w.run.steps[i], w.now)
    requires Touches(w, e, i)
    ensures e.WriteTerminal? || e.RepairWrite? || e.SettleCancelled?
    ensures e.WriteTerminal? ==> w.run.steps[i].leaseOwner == Some(e.owner) && w.run.steps[i].token == e.token
    ensures e.RepairWrite? ==> w.run.steps[i].leaseOwner == Some(e.repair.read.owner)
  {
    assert RowOk(w.run.steps[i]);
  }

  /** The step is over, or still owned with a deadline no earlier than `deadline`. */
  predicate Protected(r: Run, i: nat, owner: OwnerId, token: nat, deadline: int) {
    && i < |r.steps|
    && (Terminal(r.steps[i].state)
        || (Owns(r, i, owner, token) && r.steps[i].leaseExpiresAt.Some? && r.steps[i].leaseExpiresAt.value >= deadline))
  }

  predicate TakesAway(w: World, e: Event, i: nat) { (e.Claim? || e.SweepLease?) && Touches(w, e, i) }

  predicate EverTakenAway(w: World, es: seq<Event>, i: nat) {
    es != [] && (EverTakenAway(w, es[..|es| - 1], i) || TakesAway(Exec(w, es[..|es| - 1]), es[|es| - 1], i))
  }

  lemma ProtectedStep(w: World, e: Event, i: nat, owner: OwnerId, token: nat, deadline: int)
    requires Inv(w) && Protected(w.run, i, owner, token, deadline) && w.now <= deadline
    requires e.Heartbeat? && e.i == i ==> w.now + e.lease >= deadline
    ensures Protected(RunAfter(w, e), i, owner, token, deadline) && !TakesAway(w, e, i)
  {
    assert RowOk(w.run.steps[i]);
    if Terminal(w.run.steps[i].state) {
      TerminalRowStays(w, e, i);
    } else {
      LeaseOnlyGrows(w, e, i, owner, token, deadline);
    }
  }

  /** Short of ending it, only the owner's heartbeats move the deadline of a step whose lease is live. */
  lemma LeaseOnlyGrows(w: World, e: Event, i: nat, owner: OwnerId, token: nat, deadline: int)
    requires Owns(w.run, i, owner, token) && w.run.steps[i].leaseExpiresAt.Some? && w.run.steps[i].leaseExpiresAt.value >= deadline
    requires w.now <= deadline && (e.Heartbeat? && e.i == i ==> w.now + e.lease >= deadline)
    ensures Protected(RunAfter(w, e), i, owner, token, deadline)
  {
  }

  lemma {:induction false} TimePasses(w: World, es: seq<Event>)
    ensures Exec(w, es).now >= w.now
  {
    if es != [] {
      TimePasses(w, es[..|es| - 1]);
    }
  }

  lemma {:induction false} ProtectedStays(w: World, es: seq<Event>, i: nat, owner: OwnerId, token: nat, lease: nat)
    requires Inv(w) && Protected(w.run, i, owner, token, w.now + lease)
    requires forall k :: 0 <= k < |es| && es[k].Heartbeat? && es[k].i == i ==> es[k].lease >= lease
    requires Exec(w, es).now <= w.now + lease
    ensures Protected(Exec(w, es).run, i, owner, token, w.now + lease) && !EverTakenAway(w, es, i)
  {
    if es != [] {
      var before := es[..|es| - 1];
      TimePasses(w, before);
      ProtectedStays(w, before, i, owner, token, lease);
      Always(w, before);
      ProtectedStep(Exec(w, before), es[|es| - 1], i, owner, token, w.now + lease);
    }
  }

  /** A claim or a heartbeat that lands and sets the lease of step `i`. */
  predicate Grants(w: World, e: Event, i: nat, lease: nat) {
    || (e.Heartbeat? && e.i == i && e.lease == lease && Owns(w.run, i, e.owner, e.token))
    || (e.Claim? && e.i == i && e.lease == lease && Claimable(w.run, i, w.now))
  }

  /**
   * A lease lasts: from the moment a claim or a heartbeat lands, no other claim and no sweep takes
   * the step away before the database clock has moved past the lease, provided renewals are no
   * shorter than it.
   */
  lemma GrantedLeaseLasts(w: World, e: Event, es: seq<Event>, i: nat, lease: nat)
    requires Inv(w) && Grants(w, e, i, lease)
    requires forall k :: 0 <= k < |es| && es[k].Heartbeat? && es[k].i == i ==> es[k].lease >= lease
    requires Exec(Apply(w, e), es).now <= w.now + lease
    ensures !EverTakenAway(Apply(w, e), es, i)
  {
    Step(w, e);
    var v := Apply(w, e);
    ProtectedStays(v, es, i, e.owner, v.run.steps[i].token, lease);
  }

  // ------------------------------------------------------------------
  // Write-once terminal states
  // ------------------------------------------------------------------

  lemma TerminalRowStays(w: World, e: Event, i: nat)
    requires Inv(w) && i < |w.run.steps| && Terminal(w.run.steps[i].state)
    ensures i < |RunAfter(w, e).steps| && Outcome(RunAfter(w, e).steps[i]) == Outcome(w.run.steps[i])
    ensures Terminal(RunAfter(w, e).steps[i].state)
  {
    RowsKept(w, e);
    assert RowMoves(w.run.steps[i], RunAfter(w, e).steps[i]);
    assert Outcome(RunAfter(w, e).steps[i]).state == Outcome(w.run.steps[i]).state;
  }

  lemma {:induction false} TerminalIsWrittenOnce(w: World, es: seq<Event>, i: nat)
    requires Inv(w) && i < |w.run.steps| && Terminal(w.run.steps[i].state)
    ensures i < |Exec(w, es).run.steps| && Outcome(Exec(w, es).run.steps[i]) == Outcome(w.run.steps[i])
    ensures Terminal(Exec(w, es).run.steps[i].state)
  {
    if es != [] {
      var before := es[..|es| - 1];
      TerminalIsWrittenOnce(w, before, i);
      Always(w, before);
      TerminalRowStays(Exec(w, before), es[|es| - 1], i);
    }
  }

  // ------------------------------------------------------------------
  // Order of steps
  // ------------------------------------------------------------------

  /** In every reachable world at most one step of the run is CLAIMED or EXECUTING. */
  lemma AtMostOneActive(w: World, i: nat, j: nat)
    requires Reachable(w) && i < |w.run.steps| && j < |w.run.steps|
    requires Active(w.run.steps[i].state) && Active(w.run.steps[j].state)
    ensures i == j
  {
    ReachableInv(w);
    assert RowOk(w.run.steps[i]) && RowOk(w.run.steps[j]);
  }

  lemma EverClaimedMeansPriorsSucceeded(w: World, i: nat)
    requires Reachable(w) && i < |w.run.steps| && w.run.steps[i].token > 0
    ensures EarlierSucceeded(w.run, i)
  {
    ReachableInv(w);
  }

  /** The least step that has not succeeded, or the number of steps. */
  function Frontier(steps: seq<StepRow>): nat {
    if steps == [] || steps[0].state != Succeeded then 0 else 1 + Frontier(steps[1..])
  }

  lemma {:induction false} FrontierIsLeast(steps: seq<StepRow>, n: nat)
    requires n <= |steps| && (forall k: nat :: k < n ==> steps[k].state == Succeeded)
    requires n == |steps| || steps[n].state != Succeeded
    ensures Frontier(steps) == n
  {
    if n > 0 {
      FrontierIsLeast(steps[1..], n - 1);
    }
  }

  /** Discovery and claiming only ever offer the frontier, so at most one step of a run. */
  lemma DiscoveryIsTheFrontier(r: Run, i: nat, now: int)
    requires i < |r.steps| && (Undispatched(r, i, now) || Claimable(r, i, now))
    ensures i == Frontier(r.steps)
  {
    FrontierIsLeast(r.steps, i);
  }

  /** A mutating step that was ever claimed is never again open for another worker. */
  lemma ClaimedMutatingStepIsNeverRequeued(w: World, i: nat)
    requires Reachable(w) && i < |w.run.steps|
    requires w.run.steps[i].mutation == Mutating && w.run.steps[i].token > 0
    ensures !Open(w.run.steps[i].state)
  {
    ReachableInv(w);
    assert RowOk(w.run.steps[i]);
  }
}
