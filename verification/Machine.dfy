/**
 * One run under every interleaving: workers, the queue, the sweeps and the API act in any order,
 * each locked transaction being one event and every read made outside the lock an event of its
 * own. Delivery is at-least-once, so any worker may claim any step at any time, any number of times.
 */
module Machine {
  import opened Wrappers
  import opened Classify
  import opened ControlRows

  /** A claim generation of a step. */
  datatype Generation = Generation(step: nat, token: nat)

  /** The second read of a repair is done: what it will try to write. */
  datatype Repair = Repair(read: StepRead, write: TerminalWrite)

  /**
   * `holders` names the worker of every generation, `armed` are those whose EXECUTING mark landed,
   * `stopped` those whose processing threw, or whose claim landed although its call threw, `sent` the
   * steps for which bytes may have left. The last three fields hold reads made outside the lock that
   * have not been acted on yet.
   */
  datatype World = World(run: Run, now: int, holders: map<Generation, OwnerId>,
                         armed: set<Generation>, stopped: set<Generation>, sent: set<nat>,
                         candidates: set<Candidate>, stepReads: set<StepRead>, repairs: set<Repair>)

  datatype Event =
    | Tick(elapsed: nat)
    | MarkDispatching
    | RequestCancel
    | Mark(i: nat, from: set<DispatchState>, openOnly: bool, change: Marker)
    | Claim(i: nat, owner: OwnerId, lease: nat)
    | Heartbeat(i: nat, owner: OwnerId, token: nat, lease: nat)
    | MarkExecuting(i: nat, owner: OwnerId, token: nat)
    | Send(i: nat, token: nat, slot: nat, attempt: nat)
    | Record(row: Invocation)
    | Throw(i: nat, token: nat)
    | WriteTerminal(i: nat, owner: OwnerId, token: nat, write: TerminalWrite)
    | SweepLease(i: nat)
    | SelectSettle
    | CommitSettle(candidate: Candidate)
    | SettleCancelled
    | RepairReadStep(i: nat, owner: OwnerId, failed: Option<nat>)
    | RepairReadRows(read: StepRead)
    | RepairWrite(repair: Repair)

  /** What each event does to the rows; events that only read or wait leave them alone. */
  function RunAfter(w: World, e: Event): Run {
    match e
    case MarkDispatching => MarkRunDispatchingTx(w.run)
    case RequestCancel => RequestCancelTx(w.run)
    case Mark(i, from, openOnly, change) => MarkerTx(w.run, i, from, openOnly, change)
    case Claim(i, owner, lease) => ClaimTx(w.run, i, w.now, owner, lease)
    case Heartbeat(i, owner, token, lease) => HeartbeatTx(w.run, i, w.now, owner, token, lease)
    case MarkExecuting(i, owner, token) =>
      // A generation that has thrown takes no further step of its own program.
      if Generation(i, token) in w.stopped then w.run else MarkExecutingTx(w.run, i, w.now, owner, token)
    case Record(row) =>
      // Only an armed generation has sent anything to record.
      if Generation(row.step, row.writerToken) in w.armed then RecordTx(w.run, row) else w.run
    case WriteTerminal(i, owner, token, write) => WriteTerminalTx(w.run, i, w.now, owner, token, write)
    case SweepLease(i) => SweepLeaseTx(w.run, i, w.now)
    case CommitSettle(c) => if c in w.candidates then SettleTx(w.run, w.now, c) else w.run
    case SettleCancelled => SettleCancelledTx(w.run, w.now)
    case RepairWrite(p) =>
      if p in w.repairs then WriteTerminalTx(w.run, p.read.step, w.now, p.read.owner, p.read.token, p.write) else w.run
    case _ => w.run
  }

  /**
   * A worker repairs a step after any exception: `Some` token if a generation it was given threw,
   * `None` if the claim itself threw, before any token was given, which may happen at any time.
   */
  predicate RepairDue(w: World, i: nat, owner: OwnerId, failed: Option<nat>) {
    failed.Some? ==>
      var g := Generation(i, failed.value);
      g in w.stopped && g in w.holders && w.holders[g] == owner
  }

  function HoldersAfter(w: World, e: Event): map<Generation, OwnerId> {
    if e.Claim? && Claimable(w.run, e.i, w.now) then w.holders[Generation(e.i, w.run.steps[e.i].token + 1) := e.owner] else w.holders
  }

  predicate Arms(w: World, e: Event) {
    && e.MarkExecuting? && Generation(e.i, e.token) !in w.stopped
    && Owns(w.run, e.i, e.owner, e.token) && w.run.steps[e.i].state == Claimed
  }

  predicate Sends(w: World, e: Event) { e.Send? && Generation(e.i, e.token) in w.armed }

  predicate Throws(w: World, e: Event) { e.Throw? && Generation(e.i, e.token) in w.holders }

  function CandidatesAfter(w: World, e: Event): set<Candidate> {
    if e.SelectSettle? && SettleCandidate(w.run).Some? then w.candidates + {SettleCandidate(w.run).value} else w.candidates
  }

  function StepReadsAfter(w: World, e: Event): set<StepRead> {
    if e.RepairReadStep? && RepairDue(w, e.i, e.owner, e.failed) && ReadForRepair(w.run, e.i, e.owner).Some? then
      w.stepReads + {ReadForRepair(w.run, e.i, e.owner).value}
    else w.stepReads
  }

  function RepairsAfter(w: World, e: Event): set<Repair> {
    if e.RepairReadRows? && e.read in w.stepReads then w.repairs + {Repair(e.read, RepairTruth(e.read, w.run.invocations))} else w.repairs
  }

  function Apply(w: World, e: Event): World {
    World(RunAfter(w, e),
          if e.Tick? then w.now + e.elapsed else w.now,
          HoldersAfter(w, e),
          if Arms(w, e) then w.armed + {Generation(e.i, e.token)} else w.armed,
          if Throws(w, e) then w.stopped + {Generation(e.i, e.token)} else w.stopped,
          if Sends(w, e) then w.sent + {e.i} else w.sent,
          CandidatesAfter(w, e), StepReadsAfter(w, e), RepairsAfter(w, e))
  }

  function Exec(w: World, es: seq<Event>): World {
    if es == [] then w else Apply(Exec(w, es[..|es| - 1]), es[|es| - 1])
  }

  function Start(mutations: seq<Mutation>, now: int): World {
    World(CreateRunTx(mutations), now, map[], {}, {}, {}, {}, {}, {})
  }

  ghost predicate Reachable(w: World) {
    exists mutations, now, es :: w == Exec(Start(mutations, now), es)
  }

  lemma ExecStep(w: World, es: seq<Event>, e: Event)
    ensures Exec(w, es + [e]) == Apply(Exec(w, es), e)
  {
    assert (es + [e])[..|es|] == es;
  }

  lemma AppendStep(w: World, a: seq<Event>, b: seq<Event>, e: Event)
    requires Exec(w, a + b) == Exec(Exec(w, a), b)
    ensures Exec(w, a + (b + [e])) == Exec(Exec(w, a), b + [e])
  {
    assert a + (b + [e]) == (a + b) + [e];
    ExecStep(w, a + b, e);
    ExecStep(Exec(w, a), b, e);
  }

  lemma {:induction false} ExecAppend(w: World, a: seq<Event>, b: seq<Event>)
    ensures Exec(w, a + b) == Exec(Exec(w, a), b)
  {
    if b == [] {
      assert a + b == a;
    } else {
      var before, e := b[..|b| - 1], b[|b| - 1];
      ExecAppend(w, a, before);
      AppendStep(w, a, before, e);
      assert b == before + [e];
    }
  }

  // ------------------------------------------------------------------
  // The invariant
  // ------------------------------------------------------------------

  predicate AllTerminal(r: Run) { forall k: nat :: k < |r.steps| ==> Terminal(r.steps[k].state) }
  predicate AllSucceeded(r: Run) { forall k: nat :: k < |r.steps| ==> r.steps[k].state == Succeeded }

  /** One row: what its token says about the rest of it. */
  predicate RowOk(s: StepRow) {
    && (s.token == 0 ==> (Open(s.state) || s.state == Cancelled) && s.executingAt.None?)
    && (s.token > 0 && s.mutation == Mutating ==> !Open(s.state))
    && (s.leaseOwner.Some? <==> s.leaseExpiresAt.Some?)
    && (Active(s.state) ==> s.leaseOwner.Some?)
    && (s.state == Executing ==> s.executingAt.Some?)
  }

  /** A step that was ever claimed has every earlier step SUCCEEDED. */
  predicate Ordered(r: Run) {
    forall i: nat, j: nat :: i < j < |r.steps| && r.steps[j].token > 0 ==> r.steps[i].state == Succeeded
  }

  /** A step cancelled without ever being claimed was cancelled when nothing was left to run. */
  predicate CancelledLast(r: Run) {
    (exists k: nat :: k < |r.steps| && r.steps[k].state == Cancelled && r.steps[k].token == 0) ==> AllTerminal(r)
  }

  predicate RowsOk(r: Run) {
    && (forall k: nat :: k < |r.steps| ==> RowOk(r.steps[k]))
    && Ordered(r)
    && CancelledLast(r)
    && (RunOver(r.state) ==> AllTerminal(r))
    && (r.state == RunCompleted ==> AllSucceeded(r))
    && (r.state == RunFailed ==> AnyUnsuccessful(r))
  }

  predicate Stamped(r: Run, i: nat) { i < |r.steps| && r.steps[i].executingAt.Some? }

  /** What a settlement candidate remembers stays true until it is committed. */
  predicate CandidateOk(r: Run, c: Candidate) {
    && r.steps != [] && !AnyActive(r)
    && (c.hasFailure ==> AnyUnsuccessful(r))
    && (!c.hasFailure ==> AllSucceeded(r))
    && (!c.hasOpen ==> AllTerminal(r))
  }

  predicate GenerationOk(r: Run, g: Generation) {
    Stamped(r, g.step) && 0 < g.token <= r.steps[g.step].token
  }

  /** Nothing is sent and no row is recorded for a step before its EXECUTING stamp. */
  predicate SendsOk(w: World) {
    && (forall g :: g in w.armed ==> GenerationOk(w.run, g))
    && (forall i :: i in w.sent ==> Stamped(w.run, i))
    && (forall k: nat :: k < |w.run.invocations| ==> Stamped(w.run, w.run.invocations[k].step))
  }

  predicate Inv(w: World) {
    && RowsOk(w.run)
    && SendsOk(w)
    && (forall c :: c in w.candidates ==> CandidateOk(w.run, c))
  }

  // ------------------------------------------------------------------
  // Every event keeps the invariant
  // ------------------------------------------------------------------

  /** Everything on a row but its dispatch marker and the marker's error text. */
  function Outcome(s: StepRow): StepRow {
    s.(dispatch := DispatchDone, dispatchError := None)
  }

  /**
   * How any transaction may change one row: tokens never fall, terminal rows and stamps stay, and
   * while the token stands the lease is only renewed or dropped.
   */
  predicate RowMoves(s: StepRow, t: StepRow) {
    && t.mutation == s.mutation
    && s.token <= t.token
    && (Terminal(s.state) ==> Outcome(t) == Outcome(s))
    && (s.executingAt.Some? ==> t.executingAt.Some?)
    && (t.token == s.token ==> t.leaseOwner == s.leaseOwner || t.leaseOwner.None?)
  }

  predicate RowsMove(r: Run, q: Run) {
    |q.steps| == |r.steps| && forall k: nat :: k < |r.steps| ==> RowMoves(r.steps[k], q.steps[k])
  }

  lemma ClaimedBefore(r: Run, i: nat, now: int)
    requires RowsOk(r) && Claimable(r, i, now)
    ensures !AnyUnsuccessful(r) && !AllTerminal(r)
  {
    forall f: nat | f < |r.steps| ensures !Unsuccessful(r.steps[f].state) {
      assert RowOk(r.steps[f]);
      assert f < i ==> r.steps[f].state == Succeeded;
      assert i < f ==> r.steps[f].token == 0;
    }
  }

  lemma SingleRow(r: Run, i: nat, s: StepRow, state: RunState)
    requires RowsOk(r) && i < |r.steps|
    requires RowMoves(r.steps[i], s) && RowOk(s)
    requires r.steps[i].token == 0 < s.token ==> EarlierSucceeded(r, i)
    requires s.state == Cancelled && s.token == 0 ==> r.steps[i].state == Cancelled && r.steps[i].token == 0
    requires state == r.state || (!RunOver(r.state) && !RunOver(state))
    ensures var q := PutStep(r.(state := state), i, s); RowsOk(q) && RowsMove(r, q)
  {
    var q := PutStep(r.(state := state), i, s);
    assert forall k: nat :: k < |q.steps| && k != i ==> q.steps[k] == r.steps[k];
    if AllTerminal(r) {
      assert AllTerminal(q);
    }
    if r.state == RunFailed {
      var f: nat :| f < |r.steps| && Unsuccessful(r.steps[f].state);
      assert q.steps[f].state == r.steps[f].state;
    }
  }

  predicate KeptOrCancelled(s: StepRow, t: StepRow, now: int) {
    t == s || (!Terminal(s.state) && t == CancelStep(s, now))
  }

  /** A transaction that closes every unfinished row. */
  lemma CloseRows(r: Run, q: Run, now: int)
    requires RowsOk(r) && |q.steps| == |r.steps|
    requires forall k: nat :: k < |r.steps| ==> KeptOrCancelled(r.steps[k], q.steps[k], now)
    requires AllTerminal(q)
    requires q.state == RunCompleted ==> AllSucceeded(q)
    requires q.state == RunFailed ==> AnyUnsuccessful(q)
    ensures RowsOk(q) && RowsMove(r, q)
  {
    forall k: nat | k < |r.steps| ensures RowOk(q.steps[k]) && RowMoves(r.steps[k], q.steps[k]) && q.steps[k].token == r.steps[k].token {
      assert KeptOrCancelled(r.steps[k], q.steps[k], now) && RowOk(r.steps[k]);
    }
  }

  lemma StillUnsuccessful(r: Run, q: Run)
    requires AnyUnsuccessful(r) && RowsMove(r, q)
    ensures AnyUnsuccessful(q)
  {
    var f: nat :| f < |r.steps| && Unsuccessful(r.steps[f].state);
    assert RowMoves(r.steps[f], q.steps[f]);
  }

  lemma {:induction false} CountIsPositive(steps: seq<StepRow>)
    ensures CountUnsuccessful(steps) > 0 <==> exists k: nat :: k < |steps| && Unsuccessful(steps[k].state)
  {
    if steps != [] {
      var n := |steps| - 1;
      CountIsPositive(steps[..n]);
      assert forall k: nat :: k < n ==> steps[..n][k] == steps[k];
    }
  }

  lemma SettleRow(r: Run, now: int, c: Candidate, k: nat)
    requires CandidateOk(r, c) && k < |r.steps|
    ensures var q := SettleTx(r, now, c);
      |q.steps| == |r.steps| && KeptOrCancelled(r.steps[k], q.steps[k], now) && Terminal(q.steps[k].state)
    ensures !c.hasFailure ==> SettleTx(r, now, c).steps[k] == r.steps[k]
  {
    assert !Active(r.steps[k].state);
    assert !c.hasFailure ==> r.steps[k].state == Succeeded;
  }

  lemma CancelledRowMoves(s: StepRow, t: StepRow, now: int)
    requires RowOk(s) && KeptOrCancelled(s, t, now)
    ensures RowMoves(s, t)
  {
  }

  lemma SettleKeeps(r: Run, now: int, c: Candidate)
    requires RowsOk(r) && CandidateOk(r, c)
    ensures var q := SettleTx(r, now, c); RowsOk(q) && RowsMove(r, q) && AllTerminal(q)
  {
    var q := SettleTx(r, now, c);
    forall k: nat | k < |r.steps| ensures KeptOrCancelled(r.steps[k], q.steps[k], now) && Terminal(q.steps[k].state) && RowMoves(r.steps[k], q.steps[k]) {
      SettleRow(r, now, c, k);
      CancelledRowMoves(r.steps[k], q.steps[k], now);
    }
    CountIsPositive(q.steps);
    if r.state == RunFailed { StillUnsuccessful(r, q); }
    if q.state == RunCompleted { CompletedMeansSucceeded(r, now, c); }
    CloseRows(r, q, now);
  }

  lemma CompletedMeansSucceeded(r: Run, now: int, c: Candidate)
    requires RowsOk(r) && CandidateOk(r, c) && SettleTx(r, now, c).state == RunCompleted
    ensures AllSucceeded(SettleTx(r, now, c))
  {
    var q := SettleTx(r, now, c);
    CountIsPositive(q.steps);
    forall k: nat | k < |q.steps| ensures q.steps[k].state == Succeeded {
      SettleRow(r, now, c, k);
    }
  }

  lemma CancelKeeps(r: Run, now: int)
    requires RowsOk(r)
    ensures var q := SettleCancelledTx(r, now); RowsOk(q) && RowsMove(r, q) && AllTerminal(q)
  {
    var q := SettleCancelledTx(r, now);
    forall k: nat | k < |r.steps| ensures KeptOrCancelled(r.steps[k], q.steps[k], now) && Terminal(q.steps[k].state) {
      assert Terminal(r.steps[k].state) || Open(r.steps[k].state) || Active(r.steps[k].state);
    }
    if RunOver(r.state) {
      assert q.steps == r.steps;
    }
    CloseRows(r, q, now);
  }

  lemma ClaimKeeps(r: Run, i: nat, now: int, owner: OwnerId, lease: nat)
    requires RowsOk(r)
    ensures var q := ClaimTx(r, i, now, owner, lease); RowsOk(q) && RowsMove(r, q)
  {
    if Claimable(r, i, now) {
      assert RowOk(r.steps[i]);
      SingleRow(r, i, ClaimTx(r, i, now, owner, lease).steps[i], if r.state == Dispatching then Running else r.state);
    }
  }

  lemma HeartbeatKeeps(r: Run, i: nat, now: int, owner: OwnerId, token: nat, lease: nat)
    requires RowsOk(r)
    ensures var q := HeartbeatTx(r, i, now, owner, token, lease); RowsOk(q) && RowsMove(r, q)
  {
    if Owns(r, i, owner, token) {
      assert RowOk(r.steps[i]);
      SingleRow(r, i, HeartbeatTx(r, i, now, owner, token, lease).steps[i], r.state);
    }
  }

  lemma MarkExecutingKeeps(r: Run, i: nat, now: int, owner: OwnerId, token: nat)
    requires RowsOk(r)
    ensures var q := MarkExecutingTx(r, i, now, owner, token); RowsOk(q) && RowsMove(r, q)
  {
    if Owns(r, i, owner, token) {
      assert RowOk(r.steps[i]);
      SingleRow(r, i, MarkExecutingTx(r, i, now, owner, token).steps[i], r.state);
    }
  }

  lemma TerminalKeeps(r: Run, i: nat, now: int, owner: OwnerId, token: nat, w: TerminalWrite)
    requires RowsOk(r)
    ensures var q := WriteTerminalTx(r, i, now, owner, token, w); RowsOk(q) && RowsMove(r, q)
  {
    if Owns(r, i, owner, token) {
      assert RowOk(r.steps[i]);
      SingleRow(r, i, WriteTerminalTx(r, i, now, owner, token, w).steps[i], r.state);
    }
  }

  lemma SweepKeeps(r: Run, i: nat, now: int)
    requires RowsOk(r)
    ensures var q := SweepLeaseTx(r, i, now); RowsOk(q) && RowsMove(r, q)
  {
    if i < |r.steps| {
      assert RowOk(r.steps[i]);
      SingleRow(r, i, SweepLeaseTx(r, i, now).steps[i], r.state);
    }
  }

  lemma MarkerKeeps(r: Run, i: nat, from: set<DispatchState>, openOnly: bool, change: Marker)
    requires RowsOk(r)
    ensures var q := MarkerTx(r, i, from, openOnly, change); RowsOk(q) && RowsMove(r, q)
  {
    if i < |r.steps| {
      assert RowOk(r.steps[i]);
      SingleRow(r, i, MarkerTx(r, i, from, openOnly, change).steps[i], r.state);
    }
  }

  // Events that write one step row, by who acts.

  predicate Advances(e: Event) { e.Claim? || e.Heartbeat? || e.MarkExecuting? }

  predicate Finishes(e: Event) { e.WriteTerminal? || e.RepairWrite? }

  predicate Recovers(e: Event) { e.Mark? || e.SweepLease? }

  lemma AdvanceKept(w: World, e: Event)
    requires Inv(w) && Advances(e)
    ensures RowsOk(RunAfter(w, e)) && RowsMove(w.run, RunAfter(w, e))
  {
    match e
    case Claim(i, owner, lease) => ClaimKeeps(w.run, i, w.now, owner, lease);
    case Heartbeat(i, owner, token, lease) => HeartbeatKeeps(w.run, i, w.now, owner, token, lease);
    case MarkExecuting(i, owner, token) => MarkExecutingKeeps(w.run, i, w.now, owner, token);
  }

  lemma FinishKept(w: World, e: Event)
    requires Inv(w) && Finishes(e)
    ensures RowsOk(RunAfter(w, e)) && RowsMove(w.run, RunAfter(w, e))
  {
    match e
    case WriteTerminal(i, owner, token, write) => TerminalKeeps(w.run, i, w.now, owner, token, write);
    case RepairWrite(p) => TerminalKeeps(w.run, p.read.step, w.now, p.read.owner, p.read.token, p.write);
  }

  lemma RecoveryKept(w: World, e: Event)
    requires Inv(w) && Recovers(e)
    ensures RowsOk(RunAfter(w, e)) && RowsMove(w.run, RunAfter(w, e))
  {
    match e
    case Mark(i, from, openOnly, change) => MarkerKeeps(w.run, i, from, openOnly, change);
    case SweepLease(i) => SweepKeeps(w.run, i, w.now);
  }

  lemma SameRowsKept(r: Run, q: Run)
    requires RowsOk(r) && q.steps == r.steps && (q.state == r.state || (!RunOver(q.state) && !RunOver(r.state)))
    ensures RowsOk(q) && RowsMove(r, q)
  {
    if r.state == RunFailed {
      assert AnyUnsuccessful(q);
    }
  }

  lemma RowsKept(w: World, e: Event)
    requires Inv(w)
    ensures RowsOk(RunAfter(w, e)) && RowsMove(w.run, RunAfter(w, e))
  {
    if Advances(e) {
      AdvanceKept(w, e);
    } else if Finishes(e) {
      FinishKept(w, e);
    } else if Recovers(e) {
      RecoveryKept(w, e);
    } else if e.CommitSettle? && e.candidate in w.candidates {
      SettleKeeps(w.run, w.now, e.candidate);
    } else if e.SettleCancelled? {
      CancelKeeps(w.run, w.now);
    } else {
      SameRowsKept(w.run, RunAfter(w, e));
    }
  }

  /** Only a claim makes a step active. */
  lemma OnlyClaimsActivate(w: World, e: Event, k: nat)
    requires Inv(w) && k < |w.run.steps| && !Active(w.run.steps[k].state)
    ensures |RunAfter(w, e).steps| == |w.run.steps|
    ensures Active(RunAfter(w, e).steps[k].state) ==> e.Claim? && Claimable(w.run, e.i, w.now)
  {
  }

  lemma CandidatesKept(w: World, e: Event, c: Candidate)
    requires Inv(w) && CandidateOk(w.run, c)
    ensures CandidateOk(RunAfter(w, e), c)
  {
    RowsKept(w, e);
    var r, q := w.run, RunAfter(w, e);
    if c.hasFailure { StillUnsuccessful(r, q); }
    forall k: nat | k < |q.steps| ensures !Active(q.steps[k].state) && (!c.hasOpen ==> Terminal(q.steps[k].state)) {
      assert RowMoves(r.steps[k], q.steps[k]) && !Active(r.steps[k].state);
      OnlyClaimsActivate(w, e, k);
      if e.Claim? && Claimable(r, e.i, w.now) { ClaimedBefore(r, e.i, w.now); }
    }
    if !c.hasFailure {
      forall k: nat | k < |q.steps| ensures q.steps[k].state == Succeeded {
        assert RowMoves(r.steps[k], q.steps[k]);
      }
    }
  }

  lemma StampStays(w: World, e: Event, i: nat)
    requires Inv(w) && Stamped(w.run, i)
    ensures Stamped(RunAfter(w, e), i)
  {
    RowsKept(w, e);
    assert RowMoves(w.run.steps[i], RunAfter(w, e).steps[i]);
  }

  lemma ArmedKept(w: World, e: Event, g: Generation)
    requires Inv(w) && g in Apply(w, e).armed
    ensures GenerationOk(RunAfter(w, e), g)
  {
    RowsKept(w, e);
    if g in w.armed {
      assert RowMoves(w.run.steps[g.step], RunAfter(w, e).steps[g.step]);
    } else {
      assert RowOk(w.run.steps[g.step]);
    }
  }

  lemma RecordedKept(w: World, e: Event, k: nat)
    requires Inv(w) && k < |RunAfter(w, e).invocations|
    ensures Stamped(RunAfter(w, e), RunAfter(w, e).invocations[k].step)
  {
    if k < |w.run.invocations| {
      StampStays(w, e, w.run.invocations[k].step);
    } else {
      assert GenerationOk(w.run, Generation(e.row.step, e.row.writerToken));
    }
  }

  lemma SendsKept(w: World, e: Event)
    requires Inv(w)
    ensures SendsOk(Apply(w, e))
  {
    var v := Apply(w, e);
    forall g | g in v.armed ensures GenerationOk(v.run, g) {
      ArmedKept(w, e, g);
    }
    forall i | i in v.sent ensures Stamped(v.run, i) {
      if i !in w.sent {
        assert GenerationOk(w.run, Generation(i, e.token));
      }
      StampStays(w, e, i);
    }
    forall k: nat | k < |v.run.invocations| ensures Stamped(v.run, v.run.invocations[k].step) {
      RecordedKept(w, e, k);
    }
  }

  lemma SelectedIsOk(r: Run)
    requires RowsOk(r) && SettleCandidate(r).Some?
    ensures CandidateOk(r, SettleCandidate(r).value)
  {
    assert forall k: nat :: k < |r.steps| ==> Open(r.steps[k].state) || Active(r.steps[k].state) || Terminal(r.steps[k].state);
    assert forall k: nat :: k < |r.steps| ==> !Active(r.steps[k].state);
  }

  lemma Step(w: World, e: Event)
    requires Inv(w)
    ensures Inv(Apply(w, e))
  {
    RowsKept(w, e);
    SendsKept(w, e);
    forall c | c in w.candidates ensures CandidateOk(Apply(w, e).run, c) {
      CandidatesKept(w, e, c);
    }
    if e.SelectSettle? && SettleCandidate(w.run).Some? {
      SelectedIsOk(w.run);
    }
  }

  lemma {:induction false} Always(w: World, es: seq<Event>)
    requires Inv(w)
    ensures Inv(Exec(w, es))
  {
    if es != [] {
      Always(w, es[..|es| - 1]);
      Step(Exec(w, es[..|es| - 1]), es[|es| - 1]);
    }
  }

  /** Every world any interleaving can produce satisfies the invariant. */
  lemma ReachableInv(w: World)
    requires Reachable(w)
    ensures Inv(w)
  {
    var mutations, now, es :| w == Exec(Start(mutations, now), es);
    Always(Start(mutations, now), es);
  }
}
