/**
 * When KNOWN_ABSENT on a row is false although every generation reports truly: a repair that began in
 * the hazard, a takeover, a run cancel of a step in flight. The runs are those of a program that the
 * code can run: two repeats in one wave, of which the first fails before it sends.
 */
module FalseAbsence {
  import opened Wrappers
  import opened Classify
  import opened ControlRows
  import opened Machine
  import opened Fencing
  import opened Emergency
  import opened DurableKnowledge
  import Processor = StepProcessor

  // ------------------------------------------------------------------
  // Runs in pieces
  // ------------------------------------------------------------------

  /** Nothing in `es` is sent, reported or cancelled. */
  predicate Quiet(es: seq<Event>) {
    forall k :: 0 <= k < |es| ==> QuietEvent(es[k])
  }

  predicate QuietEvent(e: Event) { !e.Send? && !e.WriteTerminal? && !e.SettleCancelled? }

  /** The run from `a` to `b` is legal, and generation `g` and the cancel have done nothing in it. */
  ghost predicate Unnoticed(programs: Programs, w: World, a: seq<Event>, b: seq<Event>, i: nat, g: Generation) {
    && Legal(programs, w, b)
    && Reported(b, g) == Reported(a, g) && SentBy(w, b, g) == SentBy(w, a, g)
    && CancelledInFlight(w, b, i) == CancelledInFlight(w, a, i)
  }

  lemma QuietStep(programs: Programs, w: World, before: seq<Event>, e: Event, i: nat, g: Generation)
    requires Legal(programs, w, before) && QuietEvent(e)
    ensures Unnoticed(programs, w, before, before + [e], i, g)
  {
    var es := before + [e];
    assert es[..|es| - 1] == before && es[|es| - 1] == e;
  }

  lemma UnnoticedTwice(programs: Programs, w: World, a: seq<Event>, b: seq<Event>, c: seq<Event>, i: nat, g: Generation)
    requires Unnoticed(programs, w, a, b, i, g) && Unnoticed(programs, w, b, c, i, g)
    ensures Unnoticed(programs, w, a, c, i, g)
  {
  }

  lemma {:induction false} QuietRun(programs: Programs, w: World, before: seq<Event>, es: seq<Event>, i: nat, g: Generation)
    requires Legal(programs, w, before) && Quiet(es)
    ensures Unnoticed(programs, w, before, before + es, i, g)
  {
    if es == [] {
      assert before + es == before;
    } else {
      var init, e := es[..|es| - 1], es[|es| - 1];
      QuietRun(programs, w, before, init, i, g);
      QuietStep(programs, w, before + init, e, i, g);
      UnnoticedTwice(programs, w, before, before + init, (before + init) + [e], i, g);
      assert (before + init) + [e] == before + es;
    }
  }

  lemma SendStep(programs: Programs, w: World, before: seq<Event>, g: Generation, slot: nat, attempt: nat, i: nat)
    requires Legal(programs, w, before) && !Reported(before, g) && g in Exec(w, before).armed
    ensures var es := before + [Send(g.step, g.token, slot, attempt)];
      && Legal(programs, w, es) && !Reported(es, g) && (slot, attempt) in SentBy(w, es, g)
      && CancelledInFlight(w, es, i) == CancelledInFlight(w, before, i)
  {
    var es := before + [Send(g.step, g.token, slot, attempt)];
    assert es[..|es| - 1] == before && es[|es| - 1] == Send(g.step, g.token, slot, attempt);
  }

  // ------------------------------------------------------------------
  // A reported generation is over
  // ------------------------------------------------------------------

  /** A running step is leased to the worker its generation was given to. */
  predicate Held(w: World) {
    forall i: nat :: i < |w.run.steps| ==> HeldRow(w, i)
  }

  predicate HeldRow(w: World, i: nat)
    requires i < |w.run.steps|
  {
    var s := w.run.steps[i]; var g := Generation(i, s.token);
    Active(s.state) ==> g in w.holders && s.leaseOwner == Some(w.holders[g])
  }

  predicate GivenOnce(w: World) {
    forall g :: g in w.holders ==> g.step < |w.run.steps| && g.token <= w.run.steps[g.step].token
  }

  lemma GivenOnceKept(w: World, e: Event)
    requires Inv(w) && GivenOnce(w)
    ensures GivenOnce(Apply(w, e))
  {
    RowsKept(w, e);
    forall g | g in w.holders
      ensures g.step < |RunAfter(w, e).steps| && g.token <= RunAfter(w, e).steps[g.step].token
    {
      assert RowMoves(w.run.steps[g.step], RunAfter(w, e).steps[g.step]);
    }
  }

  lemma ClaimHolds(w: World, e: Event)
    requires e.Claim? && Claimable(w.run, e.i, w.now)
    ensures e.i < |RunAfter(w, e).steps| && HeldRow(Apply(w, e), e.i)
  {
  }

  lemma HoldersStay(w: World, e: Event, g: Generation)
    requires g in w.holders && GivenOnce(w)
    ensures g in HoldersAfter(w, e) && HoldersAfter(w, e)[g] == w.holders[g]
  {
  }

  lemma HeldRowKept(w: World, e: Event, i: nat)
    requires Inv(w) && i < |w.run.steps| && HeldRow(w, i) && GivenOnce(w)
    ensures i < |RunAfter(w, e).steps| && HeldRow(Apply(w, e), i)
  {
    RowsKept(w, e);
    if e.Claim? && e.i == i && Claimable(w.run, i, w.now) {
      ClaimHolds(w, e);
    } else if Active(RunAfter(w, e).steps[i].state) {
      ClaimRaisesToken(w, e, i);
      StillActive(w, e, i);
      HoldersStay(w, e, Generation(i, w.run.steps[i].token));
    }
  }

  lemma ClaimOfAnother(w: World, e: Event, i: nat)
    requires e.Claim? && e.i != i && i < |w.run.steps|
    ensures i < |RunAfter(w, e).steps| && RunAfter(w, e).steps[i] == w.run.steps[i]
  {
  }

  lemma StillActive(w: World, e: Event, i: nat)
    requires Inv(w) && i < |w.run.steps| && i < |RunAfter(w, e).steps| && Active(RunAfter(w, e).steps[i].state)
    requires !(e.Claim? && e.i == i && Claimable(w.run, i, w.now))
    ensures Active(w.run.steps[i].state) && RunAfter(w, e).steps[i].leaseOwner == w.run.steps[i].leaseOwner
  {
    RowsKept(w, e);
    assert RowOk(RunAfter(w, e).steps[i]) && RowMoves(w.run.steps[i], RunAfter(w, e).steps[i]);
    ClaimRaisesToken(w, e, i);
    if !Active(w.run.steps[i].state) {
      OnlyClaimsActivate(w, e, i);
      ClaimOfAnother(w, e, i);
    }
  }

  lemma ReportEnds(programs: Programs, w: World, before: seq<Event>, e: Event, g: Generation)
    requires LegalStep(programs, w, before, e) && ReportsFor(e, g)
    requires Inv(Exec(w, before)) && Held(Exec(w, before)) && GivenOnce(Exec(w, before))
    ensures Superseded(RunAfter(Exec(w, before), e), g.step, g.token)
  {
    var v := Exec(w, before);
    assert HeldRow(v, g.step);
    if Owns(v.run, g.step, e.owner, g.token) {
      TouchSupersedes(v, e, g.step, e.owner, g.token);
    } else {
      SupersededStays(v, e, g.step, g.token);
    }
  }

  predicate Kept(w: World) { Inv(w) && Held(w) && GivenOnce(w) }

  lemma KeptStep(w: World, e: Event)
    requires Kept(w)
    ensures Kept(Apply(w, e))
  {
    Step(w, e);
    GivenOnceKept(w, e);
    RowsKept(w, e);
    forall i: nat | i < |RunAfter(w, e).steps|
      ensures HeldRow(Apply(w, e), i)
    {
      assert HeldRow(w, i);
      HeldRowKept(w, e, i);
    }
  }

  lemma {:induction false} KeptAlways(w: World, es: seq<Event>)
    requires Kept(w)
    ensures Kept(Exec(w, es))
  {
    if es != [] {
      KeptAlways(w, es[..|es| - 1]);
      KeptStep(Exec(w, es[..|es| - 1]), es[|es| - 1]);
    }
  }

  lemma {:induction false} ReportedIsOver(programs: Programs, w: World, es: seq<Event>, g: Generation)
    requires Kept(w) && Legal(programs, w, es) && Reported(es, g)
    ensures Superseded(Exec(w, es).run, g.step, g.token)
  {
    var before, e := es[..|es| - 1], es[|es| - 1];
    KeptAlways(w, before);
    if Reported(before, g) {
      ReportedIsOver(programs, w, before, g);
      SupersededStays(Exec(w, before), e, g.step, g.token);
    } else {
      ReportEnds(programs, w, before, e, g);
    }
  }

  lemma {:induction false} CancelledStaysClosed(w: World, es: seq<Event>, i: nat)
    requires Inv(w) && CancelledInFlight(w, es, i)
    ensures i < |Exec(w, es).run.steps| && Terminal(Exec(w, es).run.steps[i].state)
  {
    var before, e := es[..|es| - 1], es[|es| - 1];
    Always(w, before);
    if CancelledInFlight(w, before, i) {
      CancelledStaysClosed(w, before, i);
      TerminalRowStays(Exec(w, before), e, i);
    } else {
      CancelCloses(Exec(w, before), i);
    }
  }

  lemma CancelCloses(w: World, i: nat)
    requires Inv(w) && i < |w.run.steps| && Active(w.run.steps[i].state)
    ensures i < |RunAfter(w, SettleCancelled).steps| && Terminal(RunAfter(w, SettleCancelled).steps[i].state)
  {
    CancelKeeps(w.run, w.now);
  }

  // ------------------------------------------------------------------
  // The program of the runs
  // ------------------------------------------------------------------

  const UNRESOLVED: Reply := Reply(Prepared, None, IntentFailed, Some("host name not resolved"), false)

  /** Two repeats in one wave: the first fails before it sends, the second sends and its answer is lost. */
  function TwoSlots(): Program {
    Program(
      Processor.FrozenStep(Processor.LocalDevelopment, "/", None, None, Processor.Plan(Mutating, GenericHttp, NoRetry, Some(2), Some(2))),
      Processor.Surroundings((call: Processor.Call) => false, true, true, (poll: nat) => false, Processor.NoControlHook,
                             (slot: nat, attempt: nat) => if slot == 0 then Processor.Recorded(UNRESOLVED) else Processor.Escapes(true)))
  }

  function TwoSlotsEverywhere(): (programs: Programs)
    ensures Faithful(programs, [Mutating])
  {
    TwoSlotsMakes();
    (h: Generation) => TwoSlots()
  }

  function With(programs: Programs, g: Generation, p: Program): Programs {
    (h: Generation) => if h == g then p else programs(h)
  }

  /** The program passes its gates, and the attempt is one of its first wave that the retry rule lets it make. */
  predicate Makes(p: Program, slot: nat, attempt: nat) {
    && Processor.GatesPassed(p.f, p.env) && Processor.PollsPassed(p.env, 1)
    && slot < Processor.Concurrency(p.f.plan) && slot < Processor.Repeat(p.f.plan)
    && forall k: nat :: k < attempt ==> Processor.Retried(p.f.plan, k, p.env.net(slot, k))
  }

  predicate Records(p: Program, row: Invocation, slot: nat, attempt: nat) {
    && Makes(p, slot, attempt) && !p.env.net(slot, attempt).Escapes?
    && var a := Processor.AttemptOf(p.f.plan, slot, attempt, p.env.net(slot, attempt));
    row.knowledge == a.knowledge && row.sequence == a.sequence
  }

  /** What generation `g` sends or records in this event is what its program sends or records. */
  ghost predicate Possible(p: Program, e: Event, g: Generation) {
    && (e.Send? && Generation(e.i, e.token) == g ==> Makes(p, e.slot, e.attempt))
    && (e.Record? && Generation(e.row.step, e.row.writerToken) == g ==> exists slot: nat, attempt: nat :: Records(p, e.row, slot, attempt))
  }

  lemma TwoSlotsMakes()
    ensures Makes(TwoSlots(), 0, 0) && Makes(TwoSlots(), 1, 0)
    ensures HadEffect(TwoSlots(), (1, 0))
    ensures Processor.HonestNetwork(TwoSlots().f.plan.contract, TwoSlots().env.net) && TwoSlots().f.plan.mutation == Mutating
    ensures forall row: Invocation :: row.knowledge == KnownAbsent && row.sequence == 1 ==> Records(TwoSlots(), row, 0, 0)
  {
  }

  lemma FaithfulWith(programs: Programs, mutations: seq<Mutation>, g: Generation)
    requires Faithful(programs, mutations) && (g.step < |mutations| ==> mutations[g.step] == Mutating)
    ensures Faithful(With(programs, g, TwoSlots()), mutations)
  {
    TwoSlotsMakes();
  }

  /** A generation that has filed no report may run any program: what has happened stays legal. */
  lemma {:induction false} LegalWith(programs: Programs, w: World, es: seq<Event>, g: Generation, p: Program)
    requires Legal(programs, w, es) && !Reported(es, g)
    ensures Legal(With(programs, g, p), w, es)
  {
    if es != [] {
      var before, e := es[..|es| - 1], es[|es| - 1];
      LegalWith(programs, w, before, g, p);
      assert LegalStep(programs, w, before, e);
      assert e.WriteTerminal? ==> With(programs, g, p)(Generation(e.i, e.token)) == programs(Generation(e.i, e.token));
    }
  }

  // ------------------------------------------------------------------
  // A repair that begins in the hazard
  // ------------------------------------------------------------------

  /** KNOWN_ABSENT stands on step `i`, claimed once and never cancelled, and something sent for it had an effect. */
  ghost predicate Misrecorded(programs: Programs, w: World, es: seq<Event>, i: nat) {
    var v, g := Exec(w, es), Generation(i, 1);
    && i < |v.run.steps| && Terminal(v.run.steps[i].state)
    && v.run.steps[i].knowledge == Some(KnownAbsent) && v.run.steps[i].token == 1
    && !CancelledInFlight(w, es, i)
    && exists a: Sending :: a in SentBy(w, es, g) && HadEffect(programs(g), a)
  }

  /**
   * After `before` the claim of a second delivery throws, and its worker repairs the step; `after` is
   * what then happens, without another hazardous read: the record ends up false.
   */
  ghost predicate Misleads(programs: Programs, mutations: seq<Mutation>, w: World, before: seq<Event>,
                           i: nat, owner: OwnerId, after: seq<Event>) {
    var read := RepairReadStep(i, owner, None);
    && Faithful(programs, mutations) && Legal(programs, w, (before + [read]) + after)
    && (forall k :: 0 <= k < |after| ==> Possible(programs(Generation(i, 1)), after[k], Generation(i, 1)))
    && !HazardousRead(Exec(w, before + [read]), after, i)
    && Misrecorded(programs, w, (before + [read]) + after, i)
  }

  lemma {:induction false} HazardousReadAppend(w: World, a: seq<Event>, b: seq<Event>, i: nat)
    ensures HazardousRead(w, a + b, i) <==> HazardousRead(w, a, i) || HazardousRead(Exec(w, a), b, i)
  {
    if b == [] {
      assert a + b == a;
    } else {
      var init, e := b[..|b| - 1], b[|b| - 1];
      HazardousReadAppend(w, a, init, i);
      ExecAppend(w, a, init);
      assert (a + b)[..|a + b| - 1] == a + init;
    }
  }

  function FirstRead(v: World, i: nat, owner: OwnerId): StepRead
    requires i < |v.run.steps|
  {
    StepRead(i, owner, v.run.steps[i].token, v.run.steps[i].mutation, v.run.steps[i].executingAt.None?)
  }

  /** The repair as it stands when its rows have been read. */
  function RaceRepair(v: World, i: nat, owner: OwnerId): Repair
    requires i < |v.run.steps|
  {
    var read := FirstRead(v, i, owner);
    Repair(read, RepairTruth(read, Exec(AfterRead(v, i, owner, None), RaceBeforeRows(i, owner, read.token)).run.invocations))
  }

  function UpToRows(v: World, i: nat, owner: OwnerId): seq<Event>
    requires i < |v.run.steps|
  {
    RaceBeforeRows(i, owner, v.run.steps[i].token) + [RepairReadRows(FirstRead(v, i, owner))]
  }

  function Race(v: World, i: nat, owner: OwnerId): seq<Event>
    requires i < |v.run.steps|
  {
    UpToRows(v, i, owner) + RaceAfterRows(i, v.run.steps[i].token) + [RepairWrite(RaceRepair(v, i, owner))]
  }

  lemma RowsAreRead(v: World, i: nat, owner: OwnerId)
    requires Inv(v) && Hazard(v, i, owner)
    ensures var w1 := Exec(AfterRead(v, i, owner, None), UpToRows(v, i, owner)); var p := RaceRepair(v, i, owner);
      && Generation(i, v.run.steps[i].token) in w1.armed
      && p in w1.repairs && p.write.knowledge == KnownAbsent
      && Owns(w1.run, i, owner, v.run.steps[i].token)
  {
    var w0, read := AfterRead(v, i, owner, None), FirstRead(v, i, owner);
    ReadChangesNothingElse(v, i, owner, None);
    MarkThenRecord(w0, i, owner);
    DerivedKnownAbsent([KnownAbsent], Mutating, true);
    ExecStep(w0, RaceBeforeRows(i, owner, read.token), RepairReadRows(read));
    assert read in w0.stepReads;
  }

  lemma SendChangesNothingElse(w: World, i: nat, token: nat)
    ensures var v := Apply(w, Send(i, token, 1, 0)); v.run == w.run && v.repairs == w.repairs && v.armed == w.armed
  {
  }

  lemma RepairCloses(w: World, p: Repair)
    requires p in w.repairs && Owns(w.run, p.read.step, p.read.owner, p.read.token)
    ensures var i, q := p.read.step, RunAfter(w, RepairWrite(p));
      && i < |q.steps| && Terminal(q.steps[i].state) && q.steps[i].knowledge == Some(p.write.knowledge) && q.steps[i].token == p.read.token
  {
  }

  lemma NobodyReadsAgain(w: World, es: seq<Event>, i: nat)
    requires forall k :: 0 <= k < |es| ==> !es[k].RepairReadStep?
    ensures !HazardousRead(w, es, i)
  {
    if es != [] {
      NobodyReadsAgain(w, es[..|es| - 1], i);
    }
  }

  lemma RaceIsPossible(programs: Programs, v: World, i: nat, owner: OwnerId)
    requires i < |v.run.steps| && v.run.steps[i].token == 1 && programs(Generation(i, 1)) == TwoSlots()
    ensures forall k :: 0 <= k < |Race(v, i, owner)| ==> Possible(programs(Generation(i, 1)), Race(v, i, owner)[k], Generation(i, 1))
  {
    TwoSlotsMakes();
    assert Records(TwoSlots(), Invocation(i, 1, KnownAbsent, owner, 1), 0, 0);
  }

  function UpToSend(v: World, before: seq<Event>, i: nat, owner: OwnerId): seq<Event>
    requires i < |v.run.steps|
  {
    before + ([RepairReadStep(i, owner, None)] + UpToRows(v, i, owner))
  }

  lemma RaceInPieces(v: World, before: seq<Event>, i: nat, owner: OwnerId)
    requires i < |v.run.steps|
    ensures (before + [RepairReadStep(i, owner, None)]) + Race(v, i, owner) ==
      (UpToSend(v, before, i, owner) + [Send(i, v.run.steps[i].token, 1, 0)]) + [RepairWrite(RaceRepair(v, i, owner))]
  {
  }

  /** Before the second slot sends, the row of the first has been read. */
  lemma RowsAreReadAfter(w: World, before: seq<Event>, i: nat, owner: OwnerId)
    requires Inv(Exec(w, before)) && Hazard(Exec(w, before), i, owner)
    ensures var v := Exec(w, before); var w1 := Exec(w, UpToSend(v, before, i, owner)); var p := RaceRepair(v, i, owner);
      && Generation(i, v.run.steps[i].token) in w1.armed
      && p in w1.repairs && p.write.knowledge == KnownAbsent
      && Owns(w1.run, i, owner, v.run.steps[i].token)
  {
    var v, read := Exec(w, before), RepairReadStep(i, owner, None);
    assert UpToSend(v, before, i, owner) == (before + [read]) + UpToRows(v, i, owner);
    ExecStep(w, before, read);
    ExecAppend(w, before + [read], UpToRows(v, i, owner));
    RowsAreRead(v, i, owner);
  }

  lemma RaceEnds(w: World, before: seq<Event>, i: nat, owner: OwnerId)
    requires Inv(Exec(w, before)) && Hazard(Exec(w, before), i, owner)
    ensures var v := Exec(w, before); var row := Exec(w, (before + [RepairReadStep(i, owner, None)]) + Race(v, i, owner)).run.steps;
      i < |row| && Terminal(row[i].state) && row[i].knowledge == Some(KnownAbsent) && row[i].token == v.run.steps[i].token
  {
    var v := Exec(w, before);
    var upTo, send, p := UpToSend(v, before, i, owner), Send(i, v.run.steps[i].token, 1, 0), RaceRepair(v, i, owner);
    RaceInPieces(v, before, i, owner);
    RowsAreReadAfter(w, before, i, owner);
    ExecStep(w, upTo, send);
    SendChangesNothingElse(Exec(w, upTo), i, v.run.steps[i].token);
    ExecStep(w, upTo + [send], RepairWrite(p));
    RepairCloses(Exec(w, upTo + [send]), p);
  }

  /** The race is legal for any programs, with attempt (1, 0) among what was sent. */
  lemma RaceIsLegal(programs: Programs, w: World, before: seq<Event>, i: nat, owner: OwnerId)
    requires Legal(programs, w, before) && Inv(Exec(w, before)) && Hazard(Exec(w, before), i, owner)
    requires !Reported(before, Generation(i, Exec(w, before).run.steps[i].token))
    ensures var v := Exec(w, before); var es := (before + [RepairReadStep(i, owner, None)]) + Race(v, i, owner);
      && Legal(programs, w, es) && CancelledInFlight(w, es, i) == CancelledInFlight(w, before, i)
      && (1, 0) in SentBy(w, es, Generation(i, v.run.steps[i].token))
  {
    var v := Exec(w, before);
    var g, upTo := Generation(i, v.run.steps[i].token), UpToSend(v, before, i, owner);
    RaceInPieces(v, before, i, owner);
    RowsAreReadAfter(w, before, i, owner);
    QuietRun(programs, w, before, [RepairReadStep(i, owner, None)] + UpToRows(v, i, owner), i, g);
    SendStep(programs, w, upTo, g, 1, 0, i);
    QuietStep(programs, w, upTo + [Send(i, g.token, 1, 0)], RepairWrite(RaceRepair(v, i, owner)), i, g);
  }

  lemma KeptAtStart(mutations: seq<Mutation>, now: int)
    ensures Kept(Start(mutations, now))
  {
  }

  /** A step in the hazard is running: its generation has filed no report and no cancel has closed it. */
  lemma StillOpen(programs: Programs, mutations: seq<Mutation>, now: int, es: seq<Event>, i: nat, owner: OwnerId)
    requires Legal(programs, Start(mutations, now), es) && Hazard(Exec(Start(mutations, now), es), i, owner)
    ensures Inv(Exec(Start(mutations, now), es)) && !CancelledInFlight(Start(mutations, now), es, i)
    ensures !Reported(es, Generation(i, Exec(Start(mutations, now), es).run.steps[i].token))
  {
    var w := Start(mutations, now);
    var g := Generation(i, Exec(w, es).run.steps[i].token);
    KeptAtStart(mutations, now);
    Always(w, es);
    if Reported(es, g) { ReportedIsOver(programs, w, es, g); }
    if CancelledInFlight(w, es, i) { CancelledStaysClosed(w, es, i); }
  }

  lemma RaceMisrecords(programs: Programs, w: World, before: seq<Event>, i: nat, owner: OwnerId)
    requires Legal(programs, w, before) && Inv(Exec(w, before)) && Hazard(Exec(w, before), i, owner)
    requires Exec(w, before).run.steps[i].token == 1 && !Reported(before, Generation(i, 1)) && !CancelledInFlight(w, before, i)
    requires HadEffect(programs(Generation(i, 1)), (1, 0))
    ensures var es := (before + [RepairReadStep(i, owner, None)]) + Race(Exec(w, before), i, owner);
      Legal(programs, w, es) && Misrecorded(programs, w, es, i)
  {
    RaceIsLegal(programs, w, before, i, owner);
    RaceEnds(w, before, i, owner);
  }

  lemma RaceMisleads(programs: Programs, mutations: seq<Mutation>, w: World, before: seq<Event>, i: nat, owner: OwnerId)
    requires Faithful(programs, mutations) && Legal(programs, w, before) && programs(Generation(i, 1)) == TwoSlots()
    requires Inv(Exec(w, before)) && Hazard(Exec(w, before), i, owner) && Exec(w, before).run.steps[i].token == 1
    requires !Reported(before, Generation(i, 1)) && !CancelledInFlight(w, before, i)
    ensures Misleads(programs, mutations, w, before, i, owner, Race(Exec(w, before), i, owner))
  {
    TwoSlotsMakes();
    RaceMisrecords(programs, w, before, i, owner);
    RaceIsPossible(programs, Exec(w, before), i, owner);
    NobodyReadsAgain(Exec(w, before + [RepairReadStep(i, owner, None)]), Race(Exec(w, before), i, owner), i);
  }

  lemma HazardousRepairMisleads(programs: Programs, mutations: seq<Mutation>, now: int, before: seq<Event>, i: nat, owner: OwnerId)
    requires Faithful(programs, mutations) && Legal(programs, Start(mutations, now), before)
    requires i < |mutations| && mutations[i] == Mutating
    requires Hazard(Exec(Start(mutations, now), before), i, owner) && Exec(Start(mutations, now), before).run.steps[i].token == 1
    ensures var w := Start(mutations, now);
      Misleads(With(programs, Generation(i, 1), TwoSlots()), mutations, w, before, i, owner, Race(Exec(w, before), i, owner))
  {
    var w, g := Start(mutations, now), Generation(i, 1);
    StillOpen(programs, mutations, now, before, i, owner);
    FaithfulWith(programs, mutations, g);
    LegalWith(programs, w, before, g, TwoSlots());
    RaceMisleads(With(programs, g, TwoSlots()), mutations, w, before, i, owner);
  }

  lemma OutsideTheHazardNothingMisleads(programs: Programs, mutations: seq<Mutation>, now: int, before: seq<Event>,
                                        i: nat, owner: OwnerId, after: seq<Event>)
    requires i < |mutations| && mutations[i] == Mutating
    requires !HazardousRead(Start(mutations, now), before, i) && !Hazard(Exec(Start(mutations, now), before), i, owner)
    ensures !Misleads(programs, mutations, Start(mutations, now), before, i, owner, after)
  {
    var w, read := Start(mutations, now), RepairReadStep(i, owner, None);
    var es := (before + [read]) + after;
    if Misleads(programs, mutations, Start(mutations, now), before, i, owner, after) {
      HazardousReadAppend(w, before + [read], after, i);
      assert (before + [read])[..|before|] == before;
      RecordIsTrueWithoutHazard(programs, mutations, now, es, i);
    }
  }

  /**
   * A worker repairs a step after its claim threw. In any run that was free of hazardous reads so
   * far, and whatever the other generations run: some program of the step's only generation and some
   * continuation end with a false KNOWN_ABSENT if and only if the repair's first read finds the hazard.
   */
  lemma TokenlessRepairMisleadsIff(programs: Programs, mutations: seq<Mutation>, now: int, before: seq<Event>, i: nat, owner: OwnerId)
    requires Faithful(programs, mutations) && Legal(programs, Start(mutations, now), before)
    requires i < |mutations| && mutations[i] == Mutating && !HazardousRead(Start(mutations, now), before, i)
    requires i < |Exec(Start(mutations, now), before).run.steps| && Exec(Start(mutations, now), before).run.steps[i].token <= 1
    ensures (exists p, after :: Misleads(With(programs, Generation(i, 1), p), mutations, Start(mutations, now), before, i, owner, after)) <==>
      Hazard(Exec(Start(mutations, now), before), i, owner)
  {
    var v := Exec(Start(mutations, now), before);
    if Hazard(v, i, owner) {
      KeptAtStart(mutations, now);
      Always(Start(mutations, now), before);
      assert RowOk(v.run.steps[i]);
      HazardousRepairMisleads(programs, mutations, now, before, i, owner);
    } else {
      forall p, after
        ensures !Misleads(With(programs, Generation(i, 1), p), mutations, Start(mutations, now), before, i, owner, after)
      {
        OutsideTheHazardNothingMisleads(With(programs, Generation(i, 1), p), mutations, now, before, i, owner, after);
      }
    }
  }

  /** It takes one claim, a second delivery whose claim throws, and the race. */
  lemma FirstClaimCanBeMisrecorded(owner: OwnerId)
    ensures exists programs, after :: Misleads(programs, [Mutating], Start([Mutating], 0), [Claim(0, owner, 0)], 0, owner, after)
  {
    var w, claim := Start([Mutating], 0), Claim(0, owner, 0);
    Exec1(w, claim);
    assert [claim][..0] == [];
    HazardousRepairMisleads(TwoSlotsEverywhere(), [Mutating], 0, [claim], 0, owner);
  }

  // ------------------------------------------------------------------
  // A takeover, and a cancel in flight
  // ------------------------------------------------------------------

  /** The first generation of a step has sent its second slot. */
  function FirstSend(owner: OwnerId): seq<Event> { ([Claim(0, owner, 0)] + [MarkExecuting(0, owner, 1)]) + [Send(0, 1, 1, 0)] }

  lemma FirstSendRuns(owner: OwnerId)
    ensures Exec(Start([Mutating], 0), FirstSend(owner)) ==
      Apply(Apply(Apply(Start([Mutating], 0), Claim(0, owner, 0)), MarkExecuting(0, owner, 1)), Send(0, 1, 1, 0))
  {
    var w, claim, mark, send := Start([Mutating], 0), Claim(0, owner, 0), MarkExecuting(0, owner, 1), Send(0, 1, 1, 0);
    Exec1(w, claim);
    ExecStep(w, [claim], mark);
    ExecStep(w, [claim] + [mark], send);
  }

  lemma MarkedIsArmed(owner: OwnerId)
    ensures Generation(0, 1) in Exec(Start([Mutating], 0), [Claim(0, owner, 0)] + [MarkExecuting(0, owner, 1)]).armed
  {
    Exec1(Start([Mutating], 0), Claim(0, owner, 0));
    ExecStep(Start([Mutating], 0), [Claim(0, owner, 0)], MarkExecuting(0, owner, 1));
  }

  lemma SendOfAnother(w: World, before: seq<Event>, e: Event, g: Generation)
    requires e.Send? && Generation(e.i, e.token) != g
    ensures SentBy(w, before + [e], g) == SentBy(w, before, g) && Reported(before + [e], g) == Reported(before, g)
  {
    assert (before + [e])[..|before|] == before;
  }

  lemma FirstSendIsLegal(programs: Programs, owner: OwnerId)
    ensures var w := Start([Mutating], 0); var es := FirstSend(owner);
      && Legal(programs, w, es) && !Reported(es, Generation(0, 1)) && !Reported(es, Generation(0, 2))
      && (1, 0) in SentBy(w, es, Generation(0, 1)) && SentBy(w, es, Generation(0, 2)) == {}
      && !CancelledInFlight(w, es, 0)
  {
    var w, marked := Start([Mutating], 0), [Claim(0, owner, 0)] + [MarkExecuting(0, owner, 1)];
    assert [] + marked == marked;
    QuietRun(programs, w, [], marked, 0, Generation(0, 1));
    QuietRun(programs, w, [], marked, 0, Generation(0, 2));
    MarkedIsArmed(owner);
    SendStep(programs, w, marked, Generation(0, 1), 1, 0, 0);
    SendOfAnother(w, marked, Send(0, 1, 1, 0), Generation(0, 2));
  }

  /** What has been sent with an effect stays sent, whatever is written next. */
  lemma WriteAfter(programs: Programs, w: World, before: seq<Event>, e: Event, g: Generation, i: nat)
    requires Legal(programs, w, before) && LegalStep(programs, w, before, e) && !e.Send?
    requires (1, 0) in SentBy(w, before, g) && programs(g) == TwoSlots()
    ensures Legal(programs, w, before + [e]) && !SentInVain(programs, w, before + [e], g)
    ensures !e.SettleCancelled? ==> CancelledInFlight(w, before + [e], i) == CancelledInFlight(w, before, i)
  {
    var es := before + [e];
    assert es[..|es| - 1] == before && es[|es| - 1] == e;
    TwoSlotsMakes();
    assert (1, 0) in SentBy(w, es, g) && HadEffect(programs(g), (1, 0));
  }

  lemma {:induction false} NothingRepaired(w: World, es: seq<Event>, i: nat)
    requires forall k :: 0 <= k < |es| ==> !es[k].RepairWrite?
    ensures !AbsentRepaired(w, es, i)
  {
    if es != [] {
      NothingRepaired(w, es[..|es| - 1], i);
    }
  }

  /** The legal run ends with KNOWN_ABSENT on step 0 under `token`, and the first generation sent with an effect. */
  ghost predicate FalseAbsent(programs: Programs, w: World, es: seq<Event>, token: nat) {
    Legal(programs, w, es) && EndsAbsent(Exec(w, es).run, token) && !SentInVain(programs, w, es, Generation(0, 1))
  }

  predicate EndsAbsent(r: Run, token: nat) {
    r.steps != [] && Terminal(r.steps[0].state) && r.steps[0].token == token && r.steps[0].knowledge == Some(KnownAbsent)
  }

  lemma FalseAfter(programs: Programs, w: World, before: seq<Event>, e: Event, token: nat)
    requires Legal(programs, w, before) && LegalStep(programs, w, before, e) && !e.Send?
    requires (1, 0) in SentBy(w, before, Generation(0, 1)) && programs(Generation(0, 1)) == TwoSlots()
    requires EndsAbsent(RunAfter(Exec(w, before), e), token)
    ensures FalseAbsent(programs, w, before + [e], token)
    ensures !e.SettleCancelled? ==> CancelledInFlight(w, before + [e], 0) == CancelledInFlight(w, before, 0)
  {
    WriteAfter(programs, w, before, e, Generation(0, 1), 0);
    ExecStep(w, before, e);
  }

  /**
   * `settleCancelledRun` closes a step in flight as KNOWN_ABSENT without asking what it has sent: the
   * record is false although the step was claimed once and nobody repaired it.
   */
  lemma CancelInFlightCanMislead(owner: OwnerId)
    ensures exists programs, es ::
      && Faithful(programs, [Mutating]) && FalseAbsent(programs, Start([Mutating], 0), es, 1)
      && !AbsentRepaired(Start([Mutating], 0), es, 0)
  {
    var w, before := Start([Mutating], 0), FirstSend(owner);
    var programs := TwoSlotsEverywhere();
    FirstSendIsLegal(programs, owner);
    FirstSendRuns(owner);
    CancelledAfterSend(owner);
    FalseAfter(programs, w, before, SettleCancelled, 1);
    NothingRepaired(w, before + [SettleCancelled], 0);
  }

  lemma CancelledAfterSend(owner: OwnerId)
    ensures EndsAbsent(RunAfter(Apply(Apply(Apply(Start([Mutating], 0), Claim(0, owner, 0)), MarkExecuting(0, owner, 1)), Send(0, 1, 1, 0)), SettleCancelled), 1)
  {
  }

  /** The same frozen step, met by a cancel before it starts. */
  function CancelledEarly(): Program {
    var p := TwoSlots();
    p.(env := p.env.(cancelled := (poll: nat) => true))
  }

  const EARLY_CANCEL: TerminalWrite := TerminalWrite(StepCancelled, IntentCancelled, KnownAbsent, 0, Some("run cancelled before execution"))

  function Takeover(owner: OwnerId, other: OwnerId): seq<Event> {
    FirstSend(owner) + ([Tick(1)] + [Claim(0, other, 0)] + [RequestCancel] + [MarkExecuting(0, other, 2)])
  }

  lemma TakeoverIsLegal(programs: Programs, owner: OwnerId, other: OwnerId)
    ensures var w := Start([Mutating], 0); var es := Takeover(owner, other);
      && Legal(programs, w, es) && !Reported(es, Generation(0, 2))
      && (1, 0) in SentBy(w, es, Generation(0, 1)) && SentBy(w, es, Generation(0, 2)) == {}
      && !CancelledInFlight(w, es, 0)
  {
    var w, sent, rest := Start([Mutating], 0), FirstSend(owner), [Tick(1)] + [Claim(0, other, 0)] + [RequestCancel] + [MarkExecuting(0, other, 2)];
    FirstSendIsLegal(programs, owner);
    QuietRun(programs, w, sent, rest, 0, Generation(0, 1));
    QuietRun(programs, w, sent, rest, 0, Generation(0, 2));
  }

  predicate HeldBy(w: World, owner: OwnerId, token: nat) {
    && Owns(w.run, 0, owner, token) && w.stopped == {}
    && Generation(0, token) in w.holders && w.holders[Generation(0, token)] == owner
  }

  /** A second generation has taken over after the first one's lease ran out, and is EXECUTING when a cancel is asked for. */
  lemma TakeoverHappens(owner: OwnerId, other: OwnerId)
    ensures HeldBy(Exec(Start([Mutating], 0), Takeover(owner, other)), other, 2)
  {
    var w, sent := Start([Mutating], 0), FirstSend(owner);
    var tick, claim, mark := Tick(1), Claim(0, other, 0), MarkExecuting(0, other, 2);
    FirstSendRuns(owner);
    assert Takeover(owner, other) == (((sent + [tick]) + [claim]) + [RequestCancel]) + [mark];
    ExecStep(w, sent, tick);
    ExecStep(w, sent + [tick], claim);
    ExecStep(w, (sent + [tick]) + [claim], RequestCancel);
    ExecStep(w, ((sent + [tick]) + [claim]) + [RequestCancel], mark);
    TakenOver(owner, other);
  }

  lemma TakenOver(owner: OwnerId, other: OwnerId)
    ensures var sent := Apply(Apply(Apply(Start([Mutating], 0), Claim(0, owner, 0)), MarkExecuting(0, owner, 1)), Send(0, 1, 1, 0));
      var v := Apply(Apply(Apply(Apply(sent, Tick(1)), Claim(0, other, 0)), RequestCancel), MarkExecuting(0, other, 2));
      HeldBy(v, other, 2)
  {
  }

  lemma EarlyCancelIsReport(armed: bool)
    ensures IsReport(CancelledEarly(), EARLY_CANCEL, true, armed, {}, [], 0)
  {
    Processor.EarlyCancelReport(CancelledEarly().f, CancelledEarly().env, EARLY_CANCEL);
  }

  /**
   * After a takeover the second generation reports on its own attempts: its KNOWN_ABSENT says nothing
   * about what the first one sent.
   */
  lemma TakeoverCanMislead(owner: OwnerId, other: OwnerId)
    ensures exists programs, es ::
      && Faithful(programs, [Mutating]) && FalseAbsent(programs, Start([Mutating], 0), es, 2)
      && !Overridden(Start([Mutating], 0), es, 0)
  {
    var w, before := Start([Mutating], 0), Takeover(owner, other);
    TakeoverIsLegal(CancelledAtSecond(), owner, other);
    TakeoverHappens(owner, other);
    ReportMisleads(w, before, other);
  }

  lemma ReportMisleads(w: World, before: seq<Event>, owner: OwnerId)
    requires Legal(CancelledAtSecond(), w, before) && HeldBy(Exec(w, before), owner, 2)
    requires !Reported(before, Generation(0, 2)) && SentBy(w, before, Generation(0, 2)) == {}
    requires (1, 0) in SentBy(w, before, Generation(0, 1)) && !CancelledInFlight(w, before, 0)
    requires forall k :: 0 <= k < |before| ==> !before[k].RepairWrite?
    ensures var es := before + [WriteTerminal(0, owner, 2, EARLY_CANCEL)];
      FalseAbsent(CancelledAtSecond(), w, es, 2) && !Overridden(w, es, 0)
  {
    var report := WriteTerminal(0, owner, 2, EARLY_CANCEL);
    ReportIsLegal(w, before, owner);
    ReportCloses(Exec(w, before), owner, 2);
    FalseAfter(CancelledAtSecond(), w, before, report, 2);
    NothingRepaired(w, before + [report], 0);
  }

  /** The second generation meets the cancel. */
  function CancelledAtSecond(): (programs: Programs)
    ensures Faithful(programs, [Mutating])
  {
    TwoSlotsMakes();
    With(TwoSlotsEverywhere(), Generation(0, 2), CancelledEarly())
  }

  lemma ReportIsLegal(w: World, before: seq<Event>, owner: OwnerId)
    requires !Reported(before, Generation(0, 2)) && SentBy(w, before, Generation(0, 2)) == {}
    requires HeldBy(Exec(w, before), owner, 2)
    ensures LegalStep(CancelledAtSecond(), w, before, WriteTerminal(0, owner, 2, EARLY_CANCEL))
  {
    EarlyCancelIsReport(Generation(0, 2) in Exec(w, before).armed);
  }

  lemma ReportCloses(w: World, owner: OwnerId, token: nat)
    requires Owns(w.run, 0, owner, token)
    ensures EndsAbsent(RunAfter(w, WriteTerminal(0, owner, token, EARLY_CANCEL)), token)
  {
  }
}
