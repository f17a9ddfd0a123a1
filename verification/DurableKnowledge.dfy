/**
 * Recorded knowledge on the durable rows. The machine's events are tied to the programs of the
 * generations: what a generation sends are attempts of its program, and what it writes is a report of
 * exactly those attempts. Repairs, sweeps, settlements and cancels interleave as they like.
 */
module DurableKnowledge {
  import opened Wrappers
  import opened Classify
  import opened ControlRows
  import opened Machine
  import opened Emergency
  import Processor = StepProcessor
  import Db = ControlDb

  lemma RowsOnlyAppended(w: World, e: Event)
    requires Inv(w)
    ensures w.run.invocations <= RunAfter(w, e).invocations
    ensures e.Record? || RunAfter(w, e).invocations == w.run.invocations
  {
  }

  /** Invocation rows are append-only and their (step, sequence) keys stay unique over every run. */
  lemma {:induction false} InvocationRowsAreAppendOnlyAndUnique(w: World, es: seq<Event>)
    requires Inv(w) && Db.SequencesUnique(w.run)
    ensures w.run.invocations <= Exec(w, es).run.invocations
    ensures Db.SequencesUnique(Exec(w, es).run)
  {
    if es != [] {
      var before, e := Exec(w, es[..|es| - 1]), es[|es| - 1];
      InvocationRowsAreAppendOnlyAndUnique(w, es[..|es| - 1]);
      Always(w, es[..|es| - 1]);
      RowsOnlyAppended(before, e);
      if e.Record? { Db.RecordAppendsUnderFreeKey(before.run, e.row); }
    }
  }

  // ------------------------------------------------------------------
  // Generations as programs
  // ------------------------------------------------------------------

  /** What a generation runs: its frozen step, and everything outside it that it will meet. */
  datatype Program = Program(f: Processor.FrozenStep, env: Processor.Surroundings)
  type Programs = Generation -> Program

  /** Attempt (slot, number) of a program. */
  type Sending = (nat, nat)

  predicate HadEffect(p: Program, a: Sending) {
    var d := p.env.net(a.0, a.1);
    if d.Escapes? then d.effect else d.reply.effect
  }

  predicate Got2xx(p: Program, a: Sending) {
    var d := p.env.net(a.0, a.1);
    !d.Escapes? && Definitive2xx(d.reply)
  }

  /** The attempts of generation `g` for which bytes may have left in the course of `es`. */
  function SentBy(w: World, es: seq<Event>, g: Generation): set<Sending> {
    if es == [] then {}
    else
      var before, e := es[..|es| - 1], es[|es| - 1];
      SentBy(w, before, g)
      + if Sends(Exec(w, before), e) && Generation(e.i, e.token) == g then {(e.slot, e.attempt)} else {}
  }

  predicate ReportsFor(e: Event, g: Generation) { e.WriteTerminal? && Generation(e.i, e.token) == g }

  predicate Reported(es: seq<Event>, g: Generation) {
    es != [] && (Reported(es[..|es| - 1], g) || ReportsFor(es[|es| - 1], g))
  }

  /** `settleCancelledRun` closed the step while it was running. */
  predicate CancelledInFlight(w: World, es: seq<Event>, i: nat) {
    es != [] &&
    var before, e := es[..|es| - 1], es[|es| - 1];
    CancelledInFlight(w, before, i)
    || (e.SettleCancelled? && i < |Exec(w, before).run.steps| && Active(Exec(w, before).run.steps[i].state))
  }

  /** The attempts in the slots are those that were sent, and the ones that were never sent stayed behind. */
  ghost predicate LogsWhatWasSent(slots: seq<Processor.SlotRun>, sent: set<Sending>) {
    && (forall a :: a in sent ==> a.0 < |slots| && a.1 < |slots[a.0].log|)
    && (forall s: nat, k: nat :: s < |slots| && k < |slots[s].log| && Sent(Some(slots[s].log[k].reply.stage)) ==> (s, k) in sent)
  }

  /** The write is the report of the program's run, which sent exactly these attempts; its call may throw although it landed. */
  ghost predicate IsReport(p: Program, write: TerminalWrite, lands: bool, armed: bool, sent: set<Sending>,
                           slots: seq<Processor.SlotRun>, waves: nat) {
    && p.env.writeLands == lands
    && Processor.Reports(p.f, p.env, Processor.Submit(p.env, write), slots, waves)
    && LogsWhatWasSent(slots, sent)
    && (slots != [] ==> armed)
  }

  /**
   * A generation writes once, in the name of the worker it was given to, only if its processing did
   * not throw, and sends nothing after its report.
   */
  ghost predicate LegalStep(programs: Programs, w: World, before: seq<Event>, e: Event) {
    match e
    case Send(i, token, _, _) => !Reported(before, Generation(i, token))
    case WriteTerminal(i, owner, token, write) =>
      var g, v := Generation(i, token), Exec(w, before);
      && !Reported(before, g) && g !in v.stopped
      && g in v.holders && v.holders[g] == owner
      && exists slots, waves :: IsReport(programs(g), write, Owns(v.run, i, owner, token), g in v.armed, SentBy(w, before, g), slots, waves)
    case _ => true
  }

  ghost predicate Legal(programs: Programs, w: World, es: seq<Event>) {
    es != [] ==> Legal(programs, w, es[..|es| - 1]) && LegalStep(programs, w, es[..|es| - 1], es[|es| - 1])
  }

  /** Every program runs the frozen step of its row, over a network that honours the transport stages. */
  ghost predicate Faithful(programs: Programs, mutations: seq<Mutation>) {
    forall g: Generation :: g.step < |mutations| ==>
      programs(g).f.plan.mutation == mutations[g.step] && Processor.HonestNetwork(programs(g).f.plan.contract, programs(g).env.net)
  }

  // ------------------------------------------------------------------
  // A report is true of what was sent
  // ------------------------------------------------------------------

  ghost predicate TrueOf(p: Program, k: Knowledge, sent: set<Sending>) {
    && (k == KnownAbsent ==> forall a :: a in sent ==> !HadEffect(p, a))
    && (k == KnownOccurred ==> exists a :: a in sent && Got2xx(p, a))
  }

  lemma LoggedReply(p: Program, slots: seq<Processor.SlotRun>, s: nat, k: nat)
    requires Processor.Ran(p.f.plan, p.env.net, slots) && s < |slots| && k < |slots[s].log|
    ensures !p.env.net(s, k).Escapes? && slots[s].log[k].reply == p.env.net(s, k).reply
    ensures slots[s].log[k] in Processor.AllAttempts(slots)
  {
    assert Processor.SlotTrace(p.f.plan, p.env.net, s, slots[s]);
    assert Processor.Logged(p.f.plan, p.env.net, s, k, slots[s].log[k]);
    Processor.AttemptIsInSomeSlot(slots, slots[s].log[k]);
  }

  lemma ReportIsTrue(p: Program, write: TerminalWrite, lands: bool, armed: bool, sent: set<Sending>,
                     slots: seq<Processor.SlotRun>, waves: nat)
    requires IsReport(p, write, lands, armed, sent, slots, waves)
    requires p.f.plan.mutation == Mutating && Processor.HonestNetwork(p.f.plan.contract, p.env.net)
    ensures TrueOf(p, write.knowledge, sent)
  {
    Processor.KnowledgeIsTrue(p.f, p.env, Processor.Submit(p.env, write), slots, waves);
    if write.knowledge == KnownAbsent {
      forall a | a in sent
        ensures !HadEffect(p, a)
      {
        LoggedReply(p, slots, a.0, a.1);
      }
    }
    if write.knowledge == KnownOccurred {
      SuccessWasSent(p, slots, sent);
    }
  }

  lemma LoggedSuccessWasSent(p: Program, slots: seq<Processor.SlotRun>, sent: set<Sending>, s: nat, k: nat)
    requires Processor.Ran(p.f.plan, p.env.net, slots) && LogsWhatWasSent(slots, sent)
    requires s < |slots| && k < |slots[s].log| && Definitive2xx(slots[s].log[k].reply)
    ensures (s, k) in sent && Got2xx(p, (s, k))
  {
    LoggedReply(p, slots, s, k);
    assert Sent(Some(slots[s].log[k].reply.stage));
  }

  lemma SuccessWasSent(p: Program, slots: seq<Processor.SlotRun>, sent: set<Sending>)
    requires Processor.Ran(p.f.plan, p.env.net, slots) && LogsWhatWasSent(slots, sent)
    requires exists a :: a in Processor.AllAttempts(slots) && Definitive2xx(a.reply)
    ensures exists a :: a in sent && Got2xx(p, a)
  {
    var a :| a in Processor.AllAttempts(slots) && Definitive2xx(a.reply);
    Processor.AttemptIsInSomeSlot(slots, a);
    var s: nat :| s < |slots| && a in slots[s].log;
    var k: nat :| k < |slots[s].log| && slots[s].log[k] == a;
    LoggedSuccessWasSent(p, slots, sent, s, k);
  }

  // ------------------------------------------------------------------
  // What ends a step
  // ------------------------------------------------------------------

  predicate Decided(k: Option<Knowledge>) { k == Some(KnownAbsent) || k == Some(KnownOccurred) }

  /** No repair claims that anything occurred. */
  predicate RepairsClaimNothing(v: World) { forall p :: p in v.repairs ==> p.write.knowledge != KnownOccurred }

  lemma RepairsClaimNothingKept(v: World, e: Event)
    requires RepairsClaimNothing(v)
    ensures RepairsClaimNothing(Apply(v, e))
  {
  }

  /** The events that close a mutating step, once claimed, with something else than INDETERMINATE. */
  lemma WhatCloses(w: World, e: Event, i: nat)
    requires Inv(w) && i < |w.run.steps| && i < |RunAfter(w, e).steps|
    requires w.run.steps[i].mutation == Mutating && !Terminal(w.run.steps[i].state)
    requires Terminal(RunAfter(w, e).steps[i].state) && RunAfter(w, e).steps[i].token > 0
    ensures
      || RunAfter(w, e).steps[i].knowledge == Some(Indeterminate)
      || (e.WriteTerminal? && e.i == i && Owns(w.run, i, e.owner, e.token) && RunAfter(w, e).steps[i].knowledge == Some(e.write.knowledge))
      || (e.SettleCancelled? && Active(w.run.steps[i].state) && RunAfter(w, e).steps[i].knowledge == Some(KnownAbsent))
      || (RepairLands(w, e, i) && RunAfter(w, e).steps[i].knowledge == Some(e.repair.write.knowledge))
  {
    assert RowOk(w.run.steps[i]);
  }

  lemma ClosingKeepsToken(w: World, e: Event, i: nat)
    requires i < |w.run.steps| && i < |RunAfter(w, e).steps| && Terminal(RunAfter(w, e).steps[i].state)
    ensures RunAfter(w, e).steps[i].token == w.run.steps[i].token
  {
  }

  /**
   * A mutating step that was claimed ends with a definite answer only by the report of the generation
   * that holds it, or as KNOWN_ABSENT by a run cancel or a repair.
   */
  lemma HowStepsEnd(w: World, e: Event, i: nat)
    requires Inv(w) && RepairsClaimNothing(w) && i < |w.run.steps| && i < |RunAfter(w, e).steps|
    requires w.run.steps[i].mutation == Mutating && !Terminal(w.run.steps[i].state)
    requires Terminal(RunAfter(w, e).steps[i].state) && RunAfter(w, e).steps[i].token > 0
    requires Decided(RunAfter(w, e).steps[i].knowledge)
    ensures
      || (e.WriteTerminal? && e.i == i && Owns(w.run, i, e.owner, e.token) && e.token == RunAfter(w, e).steps[i].token
          && RunAfter(w, e).steps[i].knowledge == Some(e.write.knowledge))
      || (RunAfter(w, e).steps[i].knowledge == Some(KnownAbsent)
          && ((e.SettleCancelled? && Active(w.run.steps[i].state)) || LandsAbsentNow(w, e, i)))
  {
    WhatCloses(w, e, i);
    ClosingKeepsToken(w, e, i);
  }

  /** A step nobody ever claimed ends only by being cancelled, as KNOWN_ABSENT. */
  lemma UnclaimedEndsAbsent(w: World, e: Event, i: nat)
    requires Inv(w) && i < |w.run.steps| && i < |RunAfter(w, e).steps|
    requires !Terminal(w.run.steps[i].state) && Terminal(RunAfter(w, e).steps[i].state) && RunAfter(w, e).steps[i].token == 0
    ensures RunAfter(w, e).steps[i].knowledge == Some(KnownAbsent)
  {
    assert RowOk(w.run.steps[i]);
  }

  lemma ArmedSend(w: World, es: seq<Event>, g: Generation)
    requires Inv(w)
    ensures SentBy(w, es, g) != {} ==> g in Exec(w, es).armed
  {
    if es != [] {
      ArmedSend(w, es[..|es| - 1], g);
    }
  }

  // ------------------------------------------------------------------
  // What a row says is true
  // ------------------------------------------------------------------

  /** KNOWN_ABSENT was not written by the generation: a run cancel or a repair has decided. */
  predicate Overridden(w: World, es: seq<Event>, i: nat) { CancelledInFlight(w, es, i) || AbsentRepaired(w, es, i) }

  /** The row of step `i` tells the truth about everything its last generation sent. */
  ghost predicate Truthful(programs: Programs, w: World, es: seq<Event>, i: nat) {
    var v := Exec(w, es);
    i < |v.run.steps| &&
    var row := v.run.steps[i];
    var g := Generation(i, row.token);
    Terminal(row.state) && Decided(row.knowledge) && (row.knowledge == Some(KnownAbsent) ==> !Overridden(w, es, i)) ==>
      && (row.token > 0 ==> Reported(es, g))
      && (row.token == 0 ==> row.knowledge == Some(KnownAbsent))
      && TrueOf(programs(g), row.knowledge.value, SentBy(w, es, g))
  }

  /** Where a row is terminal already, nothing more is sent by its generation. */
  lemma NothingMoreIsSent(programs: Programs, w: World, before: seq<Event>, e: Event, g: Generation)
    requires LegalStep(programs, w, before, e) && Inv(w)
    requires Reported(before, g) || g !in Exec(w, before).armed
    ensures SentBy(w, before + [e], g) == SentBy(w, before, g)
  {
    assert (before + [e])[..|before + [e]| - 1] == before;
  }

  lemma UnclaimedIsUnarmed(v: World, i: nat, token: nat)
    requires Inv(v) && i < |v.run.steps| && v.run.steps[i].token == 0
    ensures Generation(i, token) !in v.armed
  {
    assert forall g :: g in v.armed ==> GenerationOk(v.run, g);
  }

  predicate Sound(v: World, i: nat) {
    Inv(v) && RepairsClaimNothing(v) && i < |v.run.steps| && v.run.steps[i].mutation == Mutating
  }

  /** Every generation of step `i` runs a mutating program over an honest network. */
  ghost predicate HonestStep(programs: Programs, i: nat) {
    forall t: nat ::
      programs(Generation(i, t)).f.plan.mutation == Mutating
      && Processor.HonestNetwork(programs(Generation(i, t)).f.plan.contract, programs(Generation(i, t)).env.net)
  }

  lemma ReportedRowIsTrue(programs: Programs, w: World, before: seq<Event>, e: Event, i: nat)
    requires e.WriteTerminal? && e.i == i && LegalStep(programs, w, before, e) && HonestStep(programs, i)
    ensures Reported(before + [e], Generation(i, e.token))
    ensures TrueOf(programs(Generation(i, e.token)), e.write.knowledge, SentBy(w, before + [e], Generation(i, e.token)))
  {
    var g, v, es := Generation(i, e.token), Exec(w, before), before + [e];
    assert es[..|es| - 1] == before && es[|es| - 1] == e;
    var slots, waves :| IsReport(programs(g), e.write, Owns(v.run, i, e.owner, e.token), g in v.armed, SentBy(w, before, g), slots, waves);
    ReportIsTrue(programs(g), e.write, Owns(v.run, i, e.owner, e.token), g in v.armed, SentBy(w, before, g), slots, waves);
    assert SentBy(w, es, g) == SentBy(w, before, g);
  }

  lemma TruthfulStep(programs: Programs, w: World, before: seq<Event>, e: Event, i: nat)
    requires Inv(w) && LegalStep(programs, w, before, e)
    requires Sound(Exec(w, before), i) && HonestStep(programs, i)
    requires Truthful(programs, w, before, i)
    ensures Truthful(programs, w, before + [e], i)
  {
    var v, es := Exec(w, before), before + [e];
    ExecStep(w, before, e);
    assert es[..|es| - 1] == before && es[|es| - 1] == e;
    RowsKept(v, e);
    assert RowMoves(v.run.steps[i], RunAfter(v, e).steps[i]);
    var row := RunAfter(v, e).steps[i];
    if Terminal(row.state) && Decided(row.knowledge) && (row.knowledge == Some(KnownAbsent) ==> !Overridden(w, es, i)) {
      if Terminal(v.run.steps[i].state) {
        assert Outcome(row).knowledge == Outcome(v.run.steps[i]).knowledge && Outcome(row).token == Outcome(v.run.steps[i]).token;
        if row.token == 0 { UnclaimedIsUnarmed(v, i, 0); }
        NothingMoreIsSent(programs, w, before, e, Generation(i, row.token));
      } else if row.token == 0 {
        UnclaimedEndsAbsent(v, e, i);
        UnclaimedIsUnarmed(v, i, 0);
        NothingMoreIsSent(programs, w, before, e, Generation(i, 0));
        ArmedSend(w, before, Generation(i, 0));
      } else {
        HowStepsEnd(v, e, i);
        ReportedRowIsTrue(programs, w, before, e, i);
      }
    }
  }

  lemma SoundStep(v: World, e: Event, i: nat)
    requires Sound(v, i)
    ensures Sound(Apply(v, e), i)
  {
    Step(v, e);
    RepairsClaimNothingKept(v, e);
    RowsKept(v, e);
    assert RowMoves(v.run.steps[i], RunAfter(v, e).steps[i]);
  }

  lemma {:induction false} SoundAlways(w: World, es: seq<Event>, i: nat)
    requires Sound(w, i)
    ensures Sound(Exec(w, es), i)
  {
    if es != [] {
      SoundAlways(w, es[..|es| - 1], i);
      SoundStep(Exec(w, es[..|es| - 1]), es[|es| - 1], i);
    }
  }

  lemma {:induction false} TruthfulAlways(programs: Programs, w: World, es: seq<Event>, i: nat)
    requires Sound(w, i) && Truthful(programs, w, [], i) && HonestStep(programs, i)
    requires Legal(programs, w, es)
    ensures Truthful(programs, w, es, i)
  {
    if es != [] {
      var before, e := es[..|es| - 1], es[|es| - 1];
      assert es == before + [e];
      TruthfulAlways(programs, w, before, i);
      SoundAlways(w, before, i);
      TruthfulStep(programs, w, before, e, i);
    }
  }

  lemma OnlyGivenGenerationsSend(w: World, es: seq<Event>, g: Generation)
    requires Inv(w) && SentBy(w, es, g) != {}
    ensures Inv(Exec(w, es)) && g.step < |Exec(w, es).run.steps| && 0 < g.token <= Exec(w, es).run.steps[g.step].token
  {
    ArmedSend(w, es, g);
    Always(w, es);
    assert GenerationOk(Exec(w, es).run, g);
  }

  /** Nothing that generation `g` sent had an effect. */
  ghost predicate SentInVain(programs: Programs, w: World, es: seq<Event>, g: Generation) {
    forall a: Sending :: a in SentBy(w, es, g) ==> !HadEffect(programs(g), a)
  }

  lemma OnlyGenerationInVain(programs: Programs, w: World, es: seq<Event>, i: nat)
    requires Inv(w) && i < |Exec(w, es).run.steps| && Exec(w, es).run.steps[i].token <= 1
    requires SentInVain(programs, w, es, Generation(i, Exec(w, es).run.steps[i].token))
    ensures forall t: nat :: SentInVain(programs, w, es, Generation(i, t))
  {
    forall t: nat
      ensures SentInVain(programs, w, es, Generation(i, t))
    {
      if SentBy(w, es, Generation(i, t)) != {} {
        OnlyGivenGenerationsSend(w, es, Generation(i, t));
        assert t == Exec(w, es).run.steps[i].token;
      }
    }
  }

  lemma ReachedIsTruthful(programs: Programs, mutations: seq<Mutation>, now: int, es: seq<Event>, i: nat)
    requires Faithful(programs, mutations) && Legal(programs, Start(mutations, now), es)
    requires i < |mutations| && mutations[i] == Mutating
    ensures Truthful(programs, Start(mutations, now), es, i) && Inv(Start(mutations, now))
  {
    assert HonestStep(programs, i);
    TruthfulAlways(programs, Start(mutations, now), es, i);
  }

  /**
   * In every world that generations running their programs can reach, through any interleaving of
   * claims, takeovers, retries, lost leases, repairs, sweeps, settlements and cancels: KNOWN_OCCURRED
   * on a terminal row means that its last generation got a definitive 2xx, and KNOWN_ABSENT, unless a
   * repair or a run cancel put it there while the step was running, that nothing its last generation
   * sent had an effect; if it was the only one, that nothing ever sent for the step had an effect.
   */
  lemma RecordedKnowledgeIsTrue(programs: Programs, mutations: seq<Mutation>, now: int, es: seq<Event>, i: nat)
    requires Faithful(programs, mutations) && Legal(programs, Start(mutations, now), es)
    requires i < |mutations| && mutations[i] == Mutating && i < |Exec(Start(mutations, now), es).run.steps|
    requires Terminal(Exec(Start(mutations, now), es).run.steps[i].state)
    ensures var w := Start(mutations, now); var row := Exec(w, es).run.steps[i];
      && (row.knowledge == Some(KnownOccurred) ==>
            exists a :: a in SentBy(w, es, Generation(i, row.token)) && Got2xx(programs(Generation(i, row.token)), a))
      && (row.knowledge == Some(KnownAbsent) && !Overridden(w, es, i) ==>
            && SentInVain(programs, w, es, Generation(i, row.token))
            && (row.token <= 1 ==> forall t: nat :: SentInVain(programs, w, es, Generation(i, t))))
  {
    var w := Start(mutations, now);
    ReachedIsTruthful(programs, mutations, now, es, i);
    var token := Exec(w, es).run.steps[i].token;
    if token <= 1 && SentInVain(programs, w, es, Generation(i, token)) {
      OnlyGenerationInVain(programs, w, es, i);
    }
  }

  lemma NothingToRepairYet(mutations: seq<Mutation>, now: int, i: nat)
    ensures Inv(Start(mutations, now)) && RepairsHarmless(Start(mutations, now), i)
  {
  }

  /**
   * The record of a step that was claimed once, in terms of the schedule alone: it is true if no
   * repair's first read finds the hazard and no run cancel closes the step while it runs.
   */
  lemma RecordIsTrueWithoutHazard(programs: Programs, mutations: seq<Mutation>, now: int, es: seq<Event>, i: nat)
    requires Faithful(programs, mutations) && Legal(programs, Start(mutations, now), es)
    requires i < |mutations| && mutations[i] == Mutating && i < |Exec(Start(mutations, now), es).run.steps|
    requires var row := Exec(Start(mutations, now), es).run.steps[i];
      Terminal(row.state) && row.token <= 1 && row.knowledge == Some(KnownAbsent)
    requires !CancelledInFlight(Start(mutations, now), es, i)
    requires !HazardousRead(Start(mutations, now), es, i)
    ensures forall t: nat :: SentInVain(programs, Start(mutations, now), es, Generation(i, t))
  {
    NothingToRepairYet(mutations, now, i);
    NoHazardousReadNoAbsentRepair(Start(mutations, now), es, i);
    RecordedKnowledgeIsTrue(programs, mutations, now, es, i);
  }

  /** A worker that compares tokens before it repairs, and repairs nothing after a claim that threw, keeps it true. */
  lemma ComparingTokensKeepsRecordsTrue(programs: Programs, mutations: seq<Mutation>, now: int, es: seq<Event>, i: nat)
    requires Faithful(programs, mutations) && Legal(programs, Start(mutations, now), es)
    requires i < |mutations| && mutations[i] == Mutating && i < |Exec(Start(mutations, now), es).run.steps|
    requires var row := Exec(Start(mutations, now), es).run.steps[i];
      Terminal(row.state) && row.token <= 1 && row.knowledge == Some(KnownAbsent)
    requires !CancelledInFlight(Start(mutations, now), es, i)
    requires AlwaysCompares(Start(mutations, now), es)
    ensures forall t: nat :: SentInVain(programs, Start(mutations, now), es, Generation(i, t))
  {
    ComparingTokensAvoidsTheHazard(Start(mutations, now), es, i);
    RecordIsTrueWithoutHazard(programs, mutations, now, es, i);
  }
}
