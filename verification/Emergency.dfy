/**
 * The emergency repair (packages/engine/src/engine-emergency.ts). It reads the step row, then the
 * invocation rows, then writes, with anything in between.
 */
module Emergency {
  import opened Wrappers
  import opened Classify
  import opened ControlRows
  import opened Machine
  import opened Fencing

  /** KNOWN_ABSENT is derived only from recorded rows that are all harmless and a pre-send proof. */
  lemma DerivedKnownAbsent(knowledge: seq<Knowledge>, mutation: Mutation, preSendProven: bool)
    ensures DeriveEmergencyTruth(knowledge, mutation, preSendProven).knowledge == KnownAbsent <==>
      && mutation == Mutating && preSendProven && knowledge != []
      && (forall k :: k in knowledge ==> k == KnownAbsent || k == NotApplicable)
    ensures mutation == Mutating && !preSendProven ==>
      DeriveEmergencyTruth(knowledge, mutation, preSendProven).knowledge == Indeterminate
    ensures var t := DeriveEmergencyTruth(knowledge, mutation, preSendProven);
      && (t.knowledge == NotApplicable <==> mutation == ReadOnly)
      && t.knowledge in {NotApplicable, KnownAbsent, Indeterminate}
      && t.state == StepFailed && t.intent == IntentFailed && t.attemptCount == |knowledge|
  {
    var k := DeriveEmergencyTruth(knowledge, mutation, preSendProven).knowledge;
    if mutation == Mutating && (forall x :: x in knowledge ==> x == KnownAbsent || x == NotApplicable) {
      assert Indeterminate !in knowledge && KnownOccurred !in knowledge;
    }
  }

  lemma {:induction false} RowsOfStep(rows: seq<Invocation>, i: nat)
    ensures StepKnowledge(rows, i) != [] <==> exists k: nat :: k < |rows| && rows[k].step == i
  {
    if rows != [] {
      var n := |rows| - 1;
      RowsOfStep(rows[..n], i);
      assert forall k: nat :: k < n ==> rows[..n][k] == rows[k];
    }
  }

  /** With both reads in one reachable world, a mutating step is never called KNOWN_ABSENT. */
  lemma SimultaneousReadsAreIndeterminate(w: World, i: nat, owner: OwnerId)
    requires Reachable(w) && ReadForRepair(w.run, i, owner).Some?
    ensures w.run.steps[i].mutation == Mutating ==>
      RepairTruth(ReadForRepair(w.run, i, owner).value, w.run.invocations).knowledge == Indeterminate
    ensures w.run.steps[i].mutation == ReadOnly ==>
      RepairTruth(ReadForRepair(w.run, i, owner).value, w.run.invocations).knowledge == NotApplicable
  {
    ReachableInv(w);
    RowsOfStep(w.run.invocations, i);
    var read := ReadForRepair(w.run, i, owner).value;
    DerivedKnownAbsent(StepKnowledge(w.run.invocations, i), read.mutation, read.preSendProven);
    assert forall k: nat :: k < |w.run.invocations| ==> Stamped(w.run, w.run.invocations[k].step);
  }

  // ------------------------------------------------------------------
  // The two reads apart
  // ------------------------------------------------------------------

  /** The world after the first read of a repair. */
  function AfterRead(w: World, i: nat, owner: OwnerId, failed: Option<nat>): World { Apply(w, RepairReadStep(i, owner, failed)) }

  /**
   * A worker repairs the step after its generation or its claim threw; it reads the step in `w` and
   * the rows after `es`, and writes after `fs`: it lands a KNOWN_ABSENT.
   */
  predicate LandsAbsent(w: World, i: nat, owner: OwnerId, failed: Option<nat>, es: seq<Event>, fs: seq<Event>)
    requires ReadForRepair(w.run, i, owner).Some?
  {
    var read := ReadForRepair(w.run, i, owner).value;
    var atRows := Exec(AfterRead(w, i, owner, failed), es);
    && RepairTruth(read, atRows.run.invocations).knowledge == KnownAbsent
    && Owns(AtWrite(w, i, owner, failed, es, fs).run, i, owner, read.token)
  }

  /** The world in which that repair writes. */
  function AtWrite(w: World, i: nat, owner: OwnerId, failed: Option<nat>, es: seq<Event>, fs: seq<Event>): World
    requires ReadForRepair(w.run, i, owner).Some?
  {
    var atRows := Exec(AfterRead(w, i, owner, failed), es);
    Exec(Apply(atRows, RepairReadRows(ReadForRepair(w.run, i, owner).value)), fs)
  }

  /** The KNOWN_ABSENT lands on a step for which bytes may have left already. */
  predicate LandsFalseAbsent(w: World, i: nat, owner: OwnerId, failed: Option<nat>, es: seq<Event>, fs: seq<Event>)
    requires ReadForRepair(w.run, i, owner).Some?
  {
    LandsAbsent(w, i, owner, failed, es, fs) && i in AtWrite(w, i, owner, failed, es, fs).sent
  }

  /**
   * The first read found an unstamped mutating step leased to this very worker, in a generation that
   * has not stopped: what failed is an older generation of the same worker, or only its claim.
   */
  predicate Hazard(w: World, i: nat, owner: OwnerId) {
    && i < |w.run.steps| && Active(w.run.steps[i].state)
    && w.run.steps[i].leaseOwner == Some(owner)
    && w.run.steps[i].mutation == Mutating
    && w.run.steps[i].executingAt.None?
    && Generation(i, w.run.steps[i].token) !in w.stopped
  }

  // The code as it stands: with the hazard there is an interleaving that writes the false record.

  function RaceBeforeRows(i: nat, owner: OwnerId, token: nat): seq<Event> {
    [MarkExecuting(i, owner, token), Record(Invocation(i, 1, KnownAbsent, owner, token))]
  }

  function RaceAfterRows(i: nat, token: nat): seq<Event> { [Send(i, token, 1, 0)] }

  lemma Exec1(w: World, e: Event)
    ensures Exec(w, [e]) == Apply(w, e)
  {
    assert [e][..0] == [];
    assert Exec(w, []) == w;
  }

  lemma Exec2(w: World, e: Event, f: Event)
    ensures Exec(w, [e, f]) == Apply(Apply(w, e), f)
  {
    assert [e, f] == [e] + [f];
    Exec1(w, e);
    ExecStep(w, [e], f);
  }

  lemma NoRowsYet(w: World, i: nat)
    requires Inv(w) && i < |w.run.steps| && w.run.steps[i].executingAt.None?
    ensures StepKnowledge(w.run.invocations, i) == []
    ensures !SequenceTaken(w.run, i, 1)
  {
    RowsOfStep(w.run.invocations, i);
    forall k: nat | k < |w.run.invocations| ensures w.run.invocations[k].step != i {
      assert Stamped(w.run, w.run.invocations[k].step);
    }
  }

  lemma MarkLands(w: World, i: nat, owner: OwnerId)
    requires Hazard(w, i, owner) && w.run.steps[i].state == Claimed
    ensures var token := w.run.steps[i].token; var marked := Apply(w, MarkExecuting(i, owner, token));
      && marked.run.invocations == w.run.invocations && marked.stepReads == w.stepReads
      && Generation(i, token) in marked.armed
      && Owns(marked.run, i, owner, token)
  {
  }

  lemma RecordLands(w: World, row: Invocation)
    requires Generation(row.step, row.writerToken) in w.armed && !SequenceTaken(w.run, row.step, row.sequence)
    ensures var v := Apply(w, Record(row));
      && v.run.invocations == w.run.invocations + [row] && v.run.steps == w.run.steps
      && v.stepReads == w.stepReads && v.armed == w.armed
  {
  }

  lemma OneRowMore(rows: seq<Invocation>, row: Invocation)
    ensures StepKnowledge(rows + [row], row.step) == StepKnowledge(rows, row.step) + [row.knowledge]
  {
    assert (rows + [row])[..|rows|] == rows;
  }

  lemma MarkThenRecord(w: World, i: nat, owner: OwnerId)
    requires Inv(w) && Hazard(w, i, owner)
    ensures var token := w.run.steps[i].token;
      var v := Exec(w, RaceBeforeRows(i, owner, token));
      && StepKnowledge(v.run.invocations, i) == [KnownAbsent]
      && Generation(i, token) in v.armed
      && Owns(v.run, i, owner, token)
      && v.stepReads == w.stepReads
  {
    assert RowOk(w.run.steps[i]);
    NoRowsYet(w, i);
    var token := w.run.steps[i].token;
    var mark, row := MarkExecuting(i, owner, token), Invocation(i, 1, KnownAbsent, owner, token);
    Exec2(w, mark, Record(row));
    MarkLands(w, i, owner);
    RecordLands(Apply(w, mark), row);
    OneRowMore(w.run.invocations, row);
  }

  lemma SendAfterRows(w: World, read: StepRead, token: nat)
    requires Generation(read.step, token) in w.armed
    ensures var v := Exec(Apply(w, RepairReadRows(read)), RaceAfterRows(read.step, token)); v.run == w.run && read.step in v.sent
  {
    Exec1(Apply(w, RepairReadRows(read)), Send(read.step, token, 1, 0));
  }

  lemma ReadChangesNothingElse(w: World, i: nat, owner: OwnerId, failed: Option<nat>)
    requires Inv(w)
    ensures var v := AfterRead(w, i, owner, failed); Inv(v) && v.run == w.run && v.stopped == w.stopped
  {
    Step(w, RepairReadStep(i, owner, failed));
  }

  lemma HazardRace(w: World, i: nat, owner: OwnerId, failed: Option<nat>)
    requires Inv(w) && Hazard(w, i, owner) && RepairDue(w, i, owner, failed)
    ensures LandsFalseAbsent(w, i, owner, failed, RaceBeforeRows(i, owner, w.run.steps[i].token), RaceAfterRows(i, w.run.steps[i].token))
  {
    var token := w.run.steps[i].token;
    var read := ReadForRepair(w.run, i, owner).value;
    var w0 := AfterRead(w, i, owner, failed);
    ReadChangesNothingElse(w, i, owner, failed);
    MarkThenRecord(w0, i, owner);
    DerivedKnownAbsent([KnownAbsent], Mutating, true);
    SendAfterRows(Exec(w0, RaceBeforeRows(i, owner, token)), read, token);
  }

  // Without the hazard no interleaving does.

  /** The generation has stopped without ever marking EXECUTING, so nobody can do it for this token. */
  predicate StoppedUnstamped(w: World, g: Generation) {
    && g in w.stopped && g.step < |w.run.steps|
    && g.token <= w.run.steps[g.step].token
    && (w.run.steps[g.step].token == g.token ==> w.run.steps[g.step].executingAt.None?)
  }

  lemma {:induction false} StaysUnstamped(w: World, es: seq<Event>, g: Generation)
    requires Inv(w) && StoppedUnstamped(w, g)
    ensures StoppedUnstamped(Exec(w, es), g) && Inv(Exec(w, es))
  {
    if es != [] {
      var before, e := Exec(w, es[..|es| - 1]), es[|es| - 1];
      StaysUnstamped(w, es[..|es| - 1], g);
      Step(before, e);
      UnstampedStep(before, e, g);
    }
  }

  lemma UnstampedStep(w: World, e: Event, g: Generation)
    requires Inv(w) && StoppedUnstamped(w, g)
    ensures StoppedUnstamped(Apply(w, e), g)
  {
    RowsKept(w, e);
    assert RowMoves(w.run.steps[g.step], RunAfter(w, e).steps[g.step]);
    if RunAfter(w, e).steps[g.step].executingAt != w.run.steps[g.step].executingAt {
      StampsAreMarks(w, e, g.step);
    }
  }

  /** Only the EXECUTING mark of a generation that has not thrown stamps a step. */
  lemma StampsAreMarks(w: World, e: Event, i: nat)
    requires i < |w.run.steps| && i < |RunAfter(w, e).steps|
    requires RunAfter(w, e).steps[i].executingAt != w.run.steps[i].executingAt
    ensures e.MarkExecuting? && e.i == i && w.run.steps[i].token == e.token && Generation(i, e.token) !in w.stopped
  {
  }

  /** While its token stands, a step is leased to the worker that got the token, or to nobody. */
  predicate LeasedToOrNobody(w: World, i: nat, token: nat, owner: Option<OwnerId>) {
    && i < |w.run.steps| && token <= w.run.steps[i].token
    && (w.run.steps[i].token == token ==> w.run.steps[i].leaseOwner == owner || w.run.steps[i].leaseOwner.None?)
  }

  lemma LeaseStep(w: World, e: Event, i: nat, token: nat, owner: Option<OwnerId>)
    requires Inv(w) && LeasedToOrNobody(w, i, token, owner)
    ensures LeasedToOrNobody(Apply(w, e), i, token, owner)
  {
    RowsKept(w, e);
    assert RowMoves(w.run.steps[i], RunAfter(w, e).steps[i]);
  }

  lemma {:induction false} LeaseStays(w: World, es: seq<Event>, i: nat, token: nat, owner: Option<OwnerId>)
    requires Inv(w) && LeasedToOrNobody(w, i, token, owner)
    ensures LeasedToOrNobody(Exec(w, es), i, token, owner) && Inv(Exec(w, es))
  {
    if es != [] {
      var before, e := Exec(w, es[..|es| - 1]), es[|es| - 1];
      LeaseStays(w, es[..|es| - 1], i, token, owner);
      Step(before, e);
      LeaseStep(before, e, i, token, owner);
    }
  }

  /** Leased to another worker at the first read: this worker can never own the step under that token. */
  lemma ForeignLeaseNeverLands(w: World, i: nat, owner: OwnerId, failed: Option<nat>, es: seq<Event>, fs: seq<Event>)
    requires Inv(w) && ReadForRepair(w.run, i, owner).Some? && w.run.steps[i].leaseOwner != Some(owner)
    ensures !LandsAbsent(w, i, owner, failed, es, fs)
  {
    var read := ReadForRepair(w.run, i, owner).value;
    var w0 := AfterRead(w, i, owner, failed);
    ReadChangesNothingElse(w, i, owner, failed);
    LeaseStays(w0, es, i, read.token, w.run.steps[i].leaseOwner);
    Step(Exec(w0, es), RepairReadRows(read));
    LeaseStays(Apply(Exec(w0, es), RepairReadRows(read)), fs, i, read.token, w.run.steps[i].leaseOwner);
  }

  /** An unstamped generation that has stopped has no rows while its token stands, and never owns the step after. */
  lemma StoppedNeverLands(w: World, i: nat, owner: OwnerId, failed: Option<nat>, es: seq<Event>, fs: seq<Event>)
    requires Inv(w) && ReadForRepair(w.run, i, owner).Some?
    requires w.run.steps[i].mutation == Mutating && StoppedUnstamped(w, Generation(i, w.run.steps[i].token))
    ensures !LandsAbsent(w, i, owner, failed, es, fs)
  {
    var read := ReadForRepair(w.run, i, owner).value;
    var w0 := AfterRead(w, i, owner, failed);
    ReadChangesNothingElse(w, i, owner, failed);
    StaysUnstamped(w0, es, Generation(i, read.token));
    var atRows := Exec(w0, es);
    var v := Apply(atRows, RepairReadRows(read));
    Step(atRows, RepairReadRows(read));
    DerivedKnownAbsent(StepKnowledge(atRows.run.invocations, i), read.mutation, read.preSendProven);
    if atRows.run.steps[i].token == read.token {
      NoRowsYet(atRows, i);
    } else {
      TokenCountsClaims(v, fs, i);
    }
  }

  lemma NoHazardNoRace(w: World, i: nat, owner: OwnerId, failed: Option<nat>, es: seq<Event>, fs: seq<Event>)
    requires Inv(w) && ReadForRepair(w.run, i, owner).Some? && !Hazard(w, i, owner)
    ensures !LandsAbsent(w, i, owner, failed, es, fs)
  {
    var read := ReadForRepair(w.run, i, owner).value;
    var atRows := Exec(AfterRead(w, i, owner, failed), es);
    DerivedKnownAbsent(StepKnowledge(atRows.run.invocations, i), read.mutation, read.preSendProven);
    if read.mutation == Mutating && read.preSendProven {
      if w.run.steps[i].leaseOwner != Some(owner) {
        ForeignLeaseNeverLands(w, i, owner, failed, es, fs);
      } else {
        StoppedNeverLands(w, i, owner, failed, es, fs);
      }
    }
  }

  /** No interleaving after the first read, nor between the second and the write, lands a KNOWN_ABSENT. */
  ghost predicate RepairIsSafe(w: World, i: nat, owner: OwnerId, failed: Option<nat>)
    requires ReadForRepair(w.run, i, owner).Some?
  {
    forall es, fs :: !LandsAbsent(w, i, owner, failed, es, fs)
  }

  /**
   * A worker repairs its generation `failed`, or no generation because its claim threw. After its
   * first read no continuation lands a KNOWN_ABSENT if and only if the token read is the failed
   * generation's own, or the step is stamped, read-only, leased to another worker, or of another
   * generation that has thrown too. In every other case one continuation lands it on a step for which
   * bytes have left.
   */
  lemma RepairIsSafeIff(w: World, i: nat, owner: OwnerId, failed: Option<nat>)
    requires Reachable(w) && RepairDue(w, i, owner, failed) && ReadForRepair(w.run, i, owner).Some?
    ensures var read := ReadForRepair(w.run, i, owner).value;
      RepairIsSafe(w, i, owner, failed) <==>
        || failed == Some(read.token)
        || !read.preSendProven
        || read.mutation == ReadOnly
        || w.run.steps[i].leaseOwner != Some(owner)
        || Generation(i, read.token) in w.stopped
    ensures !RepairIsSafe(w, i, owner, failed) <==> exists es, fs :: LandsFalseAbsent(w, i, owner, failed, es, fs)
  {
    ReachableInv(w);
    if Hazard(w, i, owner) {
      HazardRace(w, i, owner, failed);
    } else {
      forall es, fs ensures !LandsAbsent(w, i, owner, failed, es, fs) {
        NoHazardNoRace(w, i, owner, failed, es, fs);
      }
    }
  }

  /**
   * The guard the worker could evaluate: a repair that goes on only if the token it reads is the one
   * its failed claim was given is always safe.
   */
  lemma ComparingTokensMakesRepairSafe(w: World, i: nat, owner: OwnerId, failed: Option<nat>)
    requires Reachable(w) && RepairDue(w, i, owner, failed) && ReadForRepair(w.run, i, owner).Some?
    requires failed == Some(ReadForRepair(w.run, i, owner).value.token)
    ensures RepairIsSafe(w, i, owner, failed)
  {
    RepairIsSafeIff(w, i, owner, failed);
  }

  /** Ownership at the write, from the first read on: the lease was this worker's and nobody touched the step. */
  lemma OwnsIffUntouchedSinceRead(w: World, i: nat, owner: OwnerId, failed: Option<nat>, es: seq<Event>)
    requires Inv(w) && ReadForRepair(w.run, i, owner).Some?
    ensures Owns(Exec(AfterRead(w, i, owner, failed), es).run, i, owner, w.run.steps[i].token) <==>
      w.run.steps[i].leaseOwner == Some(owner) && !EverTouched(AfterRead(w, i, owner, failed), es, i)
  {
    var w0 := AfterRead(w, i, owner, failed);
    Step(w, RepairReadStep(i, owner, failed));
    if w.run.steps[i].leaseOwner == Some(owner) {
      FencedWriteLandsIffUntouched(w0, es, i, owner, w.run.steps[i].token);
    } else {
      LeaseStays(w0, es, i, w.run.steps[i].token, w.run.steps[i].leaseOwner);
    }
  }

  lemma FencedRepairWrite(w: World, p: Repair)
    requires p in w.repairs
    ensures var i, q := p.read.step, RunAfter(w, RepairWrite(p));
      if Owns(w.run, i, p.read.owner, p.read.token) then
        WroteOutcome(w.run, q, i, p.write) && q.staleWriters == w.run.staleWriters
      else q.steps == w.run.steps
  {
  }

  /**
   * After any interleaving the repair writes its outcome on its step alone, if the step was leased to
   * this worker at the first read and no claim, requeue or terminal write has touched it since; in
   * every other case no step changes.
   */
  lemma RepairLandsOnlyOnOwnStep(w: World, i: nat, owner: OwnerId, failed: Option<nat>, es: seq<Event>, p: Repair)
    requires Reachable(w) && ReadForRepair(w.run, i, owner) == Some(p.read)
    requires p in Exec(AfterRead(w, i, owner, failed), es).repairs
    ensures var later := Exec(AfterRead(w, i, owner, failed), es); var q := RunAfter(later, RepairWrite(p));
      if w.run.steps[i].leaseOwner == Some(owner) && !EverTouched(AfterRead(w, i, owner, failed), es, i) then
        WroteOutcome(later.run, q, i, p.write) && q.staleWriters == later.run.staleWriters
      else
        q.steps == later.run.steps
  {
    ReachableInv(w);
    OwnsIffUntouchedSinceRead(w, i, owner, failed, es);
    FencedRepairWrite(Exec(AfterRead(w, i, owner, failed), es), p);
  }

  lemma ClaimThrowClaim(mutating: seq<Mutation>, owner: OwnerId)
    requires mutating == [Mutating]
    ensures var w := Apply(Apply(Apply(Start(mutating, 0), Claim(0, owner, 0)), Throw(0, 1)), Tick(1));
      && Claimable(w.run, 0, w.now) && w.run.steps[0].token == 1 && w.run.steps[0].mutation == Mutating
      && w.run.steps[0].executingAt.None?
      && w.stopped == {Generation(0, 1)} && w.holders == map[Generation(0, 1) := owner]
  {
  }

  lemma SecondClaimIsHazard(w: World, owner: OwnerId)
    requires Claimable(w.run, 0, w.now) && w.run.steps[0].token == 1 && w.run.steps[0].mutation == Mutating
    requires w.run.steps[0].executingAt.None?
    requires w.stopped == {Generation(0, 1)} && w.holders == map[Generation(0, 1) := owner]
    ensures var v := Apply(w, Claim(0, owner, 0)); RepairDue(v, 0, owner, Some(1)) && Hazard(v, 0, owner)
  {
  }

  /** The hazard does arise: a worker loses its lease, claims again, and then repairs its first failure. */
  lemma HazardIsReachable(owner: OwnerId)
    ensures exists w :: Reachable(w) && RepairDue(w, 0, owner, Some(1)) && Hazard(w, 0, owner)
  {
    var start := Start([Mutating], 0);
    var claim, throw, tick := Claim(0, owner, 0), Throw(0, 1), Tick(1);
    Exec2(start, claim, throw);
    ExecStep(start, [claim, throw], tick);
    ExecStep(start, [claim, throw] + [tick], claim);
    ClaimThrowClaim([Mutating], owner);
    SecondClaimIsHazard(Apply(Apply(Apply(start, claim), throw), tick), owner);
    assert Reachable(Exec(start, [claim, throw] + [tick] + [claim]));
  }

  /**
   * Nor does it take a second claim: while a worker's first generation of a step is live, the claim of
   * a second delivery throws, and the repair finds the first generation.
   */
  lemma FirstGenerationHazardIsReachable(owner: OwnerId)
    ensures exists w :: Reachable(w) && w.run.steps != [] && w.run.steps[0].token == 1 && RepairDue(w, 0, owner, None) && Hazard(w, 0, owner)
  {
    var start := Start([Mutating], 0);
    Exec1(start, Claim(0, owner, 0));
    assert Reachable(Exec(start, [Claim(0, owner, 0)]));
  }

  // ------------------------------------------------------------------
  // Whole runs
  // ------------------------------------------------------------------

  /** Event `e` is the first read of a repair that finds the hazard on step `i`. */
  predicate ReadsInHazard(w: World, e: Event, i: nat) {
    e.RepairReadStep? && e.i == i && RepairDue(w, i, e.owner, e.failed) && Hazard(w, i, e.owner)
  }

  predicate HazardousRead(w: World, es: seq<Event>, i: nat) {
    es != [] && (HazardousRead(w, es[..|es| - 1], i) || ReadsInHazard(Exec(w, es[..|es| - 1]), es[|es| - 1], i))
  }

  predicate RepairLands(w: World, e: Event, i: nat) {
    e.RepairWrite? && e.repair in w.repairs && e.repair.read.step == i && Owns(w.run, i, e.repair.read.owner, e.repair.read.token)
  }

  predicate LandsAbsentNow(w: World, e: Event, i: nat) { RepairLands(w, e, i) && e.repair.write.knowledge == KnownAbsent }

  /** Some repair has put KNOWN_ABSENT on step `i`. */
  predicate AbsentRepaired(w: World, es: seq<Event>, i: nat) {
    es != [] && (AbsentRepaired(w, es[..|es| - 1], i) || LandsAbsentNow(Exec(w, es[..|es| - 1]), es[|es| - 1], i))
  }

  /** The reader does not own the step under the token it read, and never will. */
  predicate NeverOwns(r: Run, read: StepRead) {
    && read.step < |r.steps| && read.token <= r.steps[read.step].token
    && (read.token == r.steps[read.step].token ==> r.steps[read.step].leaseOwner != Some(read.owner))
  }

  /** A pre-send proof read outside the hazard: nobody will stamp the step under that token, or the write cannot land. */
  predicate ReadHarmless(w: World, read: StepRead) {
    read.mutation == Mutating && read.preSendProven ==>
      StoppedUnstamped(w, Generation(read.step, read.token)) || NeverOwns(w.run, read)
  }

  predicate RepairHarmless(w: World, p: Repair) { p.write.knowledge == KnownAbsent ==> NeverOwns(w.run, p.read) }

  predicate RepairsHarmless(w: World, i: nat) {
    && (forall read :: read in w.stepReads && read.step == i ==> ReadHarmless(w, read))
    && (forall p :: p in w.repairs && p.read.step == i ==> RepairHarmless(w, p))
  }

  lemma NeverOwnsStays(w: World, e: Event, read: StepRead)
    requires Inv(w) && NeverOwns(w.run, read)
    ensures NeverOwns(RunAfter(w, e), read)
  {
    RowsKept(w, e);
    assert RowMoves(w.run.steps[read.step], RunAfter(w, e).steps[read.step]);
  }

  lemma ReadStaysHarmless(w: World, e: Event, read: StepRead)
    requires Inv(w) && ReadHarmless(w, read)
    ensures ReadHarmless(Apply(w, e), read)
  {
    if read.mutation == Mutating && read.preSendProven {
      if NeverOwns(w.run, read) {
        NeverOwnsStays(w, e, read);
      } else {
        UnstampedStep(w, e, Generation(read.step, read.token));
      }
    }
  }

  lemma NewReadHarmless(w: World, e: Event, read: StepRead)
    requires read in Apply(w, e).stepReads && read !in w.stepReads && !ReadsInHazard(w, e, read.step)
    ensures ReadHarmless(Apply(w, e), read)
  {
  }

  /** Rows read for an unstamped generation that has stopped are none; they prove nothing. */
  lemma RowsReadHarmless(w: World, read: StepRead)
    requires Inv(w) && ReadHarmless(w, read)
    ensures RepairHarmless(w, Repair(read, RepairTruth(read, w.run.invocations)))
  {
    DerivedKnownAbsent(StepKnowledge(w.run.invocations, read.step), read.mutation, read.preSendProven);
    if read.mutation == Mutating && read.preSendProven && !NeverOwns(w.run, read) {
      NoRowsYet(w, read.step);
    }
  }

  lemma RepairStaysHarmless(w: World, e: Event, p: Repair)
    requires Inv(w) && RepairsHarmless(w, p.read.step) && p in Apply(w, e).repairs
    ensures RepairHarmless(Apply(w, e), p)
  {
    if p !in w.repairs {
      RowsReadHarmless(w, p.read);
    }
    if p.write.knowledge == KnownAbsent {
      NeverOwnsStays(w, e, p.read);
    }
  }

  lemma HarmlessStep(w: World, e: Event, i: nat)
    requires Inv(w) && RepairsHarmless(w, i) && !ReadsInHazard(w, e, i)
    ensures RepairsHarmless(Apply(w, e), i)
  {
    forall read | read in Apply(w, e).stepReads && read.step == i
      ensures ReadHarmless(Apply(w, e), read)
    {
      if read in w.stepReads { ReadStaysHarmless(w, e, read); } else { NewReadHarmless(w, e, read); }
    }
    forall p | p in Apply(w, e).repairs && p.read.step == i
      ensures RepairHarmless(Apply(w, e), p)
    {
      RepairStaysHarmless(w, e, p);
    }
  }

  /**
   * Over a whole run: if no repair's first read finds the hazard on a step, no repair ever puts
   * KNOWN_ABSENT on it.
   */
  lemma {:induction false} NoHazardousReadNoAbsentRepair(w: World, es: seq<Event>, i: nat)
    requires Inv(w) && RepairsHarmless(w, i) && !HazardousRead(w, es, i)
    ensures !AbsentRepaired(w, es, i) && RepairsHarmless(Exec(w, es), i)
  {
    if es != [] {
      var before, e := es[..|es| - 1], es[|es| - 1];
      NoHazardousReadNoAbsentRepair(w, before, i);
      Always(w, before);
      HarmlessLandsNothing(Exec(w, before), e, i);
      HarmlessStep(Exec(w, before), e, i);
    }
  }

  lemma HarmlessLandsNothing(w: World, e: Event, i: nat)
    requires RepairsHarmless(w, i)
    ensures !LandsAbsentNow(w, e, i)
  {
    assert RepairLands(w, e, i) ==> RepairHarmless(w, e.repair);
  }

  /** The repair goes on only if the token it reads is the one its failed claim was given. */
  predicate Compares(w: World, e: Event) {
    e.RepairReadStep? && ReadForRepair(w.run, e.i, e.owner).Some? ==> e.failed == Some(w.run.steps[e.i].token)
  }

  predicate AlwaysCompares(w: World, es: seq<Event>) {
    es != [] ==> AlwaysCompares(w, es[..|es| - 1]) && Compares(Exec(w, es[..|es| - 1]), es[|es| - 1])
  }

  /** With that comparison, and no repair after a claim that threw, no repair reads in the hazard. */
  lemma {:induction false} ComparingTokensAvoidsTheHazard(w: World, es: seq<Event>, i: nat)
    requires AlwaysCompares(w, es)
    ensures !HazardousRead(w, es, i)
  {
    if es != [] {
      ComparingTokensAvoidsTheHazard(w, es[..|es| - 1], i);
    }
  }
}
