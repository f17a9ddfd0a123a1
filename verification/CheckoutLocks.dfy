/**
 * Overlapping checkouts at row-lock granularity. A SECURE transaction first locks its intent row by
 * the conditional settlement, then the stock row by the conditional decrement, and publishes both
 * at commit; a VULNERABLE one checks the stock outside any transaction and decrements it later. An
 * event that has to wait for a lock does nothing and may be tried again.
 */
module CheckoutLocks {
  import opened Wrappers
  import opened Checkout

  datatype Phase =
    | Started          // mode read, intent row resolved
    | Registered       // its request identity is recorded
    | Passed           // VULNERABLE: the check saw a unit
    | Writing          // VULNERABLE: order and decrement written, holding the stock row
    | HoldsIntent      // SECURE: settlement written, holding the intent row
    | HoldsBoth        // SECURE: decrement written too, holding the stock row
    | Finished(outcome: Outcome)
    | Refused          // request identity conflict
    | Crashed          // infrastructure failure, rolled back

  datatype Sub = Sub(request: RequestId, intent: IntentId, mode: Mode, phase: Phase)

  datatype Decision = Decision(attempt: AttemptId, intent: IntentId, mode: Mode, outcome: Outcome)

  datatype World = World(books: Books, mode: Mode, requests: set<RequestId>, subs: map<AttemptId, Sub>,
                         stockLock: Option<AttemptId>, intentLocks: map<IntentId, AttemptId>, log: seq<Decision>)

  datatype Event =
    | SwitchMode(mode: Mode)
    | Begin(t: AttemptId, request: RequestId, intent: IntentId)
    | Register(t: AttemptId)
    | Check(t: AttemptId)
    | WriteNaive(t: AttemptId)
    | CommitNaive(t: AttemptId)
    | LockIntent(t: AttemptId)
    | TakeUnit(t: AttemptId)
    | CommitSecure(t: AttemptId)
    | Crash(t: AttemptId)

  function Move(w: World, t: AttemptId, p: Phase): World
    requires t in w.subs
  {
    w.(subs := w.subs[t := w.subs[t].(phase := p)])
  }

  /** The submission has its answer: the decision is appended to the log. */
  function Decide(w: World, t: AttemptId, o: Outcome): World
    requires t in w.subs
  {
    Move(w, t, Finished(o)).(log := w.log + [Decision(t, w.subs[t].intent, w.subs[t].mode, o)])
  }

  predicate At(w: World, t: AttemptId, p: Phase) { t in w.subs && w.subs[t].phase == p }

  function ReleaseIntent(w: World, t: AttemptId): map<IntentId, AttemptId>
    requires t in w.subs
  {
    var x := w.subs[t].intent;
    if x in w.intentLocks && w.intentLocks[x] == t then w.intentLocks - {x} else w.intentLocks
  }

  function ReleaseStock(w: World, t: AttemptId): Option<AttemptId> {
    if w.stockLock == Some(t) then None else w.stockLock
  }

  predicate Unfinished(p: Phase) { !p.Finished? && !p.Refused? && !p.Crashed? }

  function Apply(w: World, e: Event): World {
    match e
    case SwitchMode(mode) => w.(mode := mode)
    case Begin(t, request, intent) =>
      if t in w.subs then w else w.(subs := w.subs[t := Sub(request, intent, w.mode, Started)])
    case Register(t) =>
      if !At(w, t, Started) then w
      else if w.subs[t].request in w.requests then Move(w, t, Refused)
      else Move(w, t, Registered).(requests := w.requests + {w.subs[t].request})
    case Check(t) =>
      if !At(w, t, Registered) || w.subs[t].mode != Vulnerable then w
      else if w.books.remaining <= 0 then Decide(w, t, StockUnavailable)
      else Move(w, t, Passed)
    case WriteNaive(t) =>
      if !At(w, t, Passed) || w.stockLock.Some? then w
      else Move(w, t, Writing).(stockLock := Some(t))
    case CommitNaive(t) =>
      if !At(w, t, Writing) then w
      else Decide(w, t, Accepted).(stockLock := None, books := Accept(w.books, w.subs[t].intent, t, Vulnerable))
    case LockIntent(t) =>
      if !At(w, t, Registered) || w.subs[t].mode != Secure || w.subs[t].intent in w.intentLocks then w
      else if w.subs[t].intent in w.books.settled then Decide(w, t, IntentAlreadyAccepted)
      else Move(w, t, HoldsIntent).(intentLocks := w.intentLocks[w.subs[t].intent := t])
    case TakeUnit(t) =>
      if !At(w, t, HoldsIntent) then w
      else if w.books.remaining <= 0 then Decide(w, t, StockUnavailable).(intentLocks := ReleaseIntent(w, t))
      else if w.stockLock.Some? then w
      else Move(w, t, HoldsBoth).(stockLock := Some(t))
    case CommitSecure(t) =>
      if !At(w, t, HoldsBoth) then w
      else
        var x := w.subs[t].intent;
        Decide(w, t, Accepted).(stockLock := None, intentLocks := ReleaseIntent(w, t),
                                books := Accept(w.books, x, t, Secure).(settled := w.books.settled + {x}))
    case Crash(t) =>
      if t in w.subs && Unfinished(w.subs[t].phase) then
        Move(w, t, Crashed).(stockLock := ReleaseStock(w, t), intentLocks := ReleaseIntent(w, t))
      else w
  }

  function Exec(w: World, es: seq<Event>): World {
    if es == [] then w else Apply(Exec(w, es[..|es| - 1]), es[|es| - 1])
  }

  function Start(units: nat, mode: Mode): World {
    World(Opening(units), mode, {}, map[], None, map[], [])
  }

  lemma {:induction false} ExecAppend(w: World, a: seq<Event>, b: seq<Event>)
    ensures Exec(w, a + b) == Exec(Exec(w, a), b)
  {
    if b == [] {
      assert a + b == a;
    } else {
      ExecAppend(w, a, b[..|b| - 1]);
      assert (a + b)[..|a + b| - 1] == a + b[..|b| - 1];
    }
  }

  // ------------------------------------------------------------------
  // Locks and books
  // ------------------------------------------------------------------

  predicate HoldsStock(p: Phase) { p == Writing || p == HoldsBoth }
  predicate HoldsAnIntent(p: Phase) { p == HoldsIntent || p == HoldsBoth }
  predicate InGap(p: Phase) { p == Passed || p == Writing }

  predicate StockLockOk(w: World) {
    && (forall t :: t in w.subs && HoldsStock(w.subs[t].phase) ==> w.stockLock == Some(t))
    && (w.stockLock.Some? ==> w.stockLock.value in w.subs && HoldsStock(w.subs[w.stockLock.value].phase))
  }

  predicate IntentLocksOk(w: World) {
    && (forall t :: t in w.subs && HoldsAnIntent(w.subs[t].phase) ==> w.subs[t].intent in w.intentLocks && w.intentLocks[w.subs[t].intent] == t)
    && (forall x :: x in w.intentLocks ==>
          w.intentLocks[x] in w.subs && w.subs[w.intentLocks[x]].intent == x && HoldsAnIntent(w.subs[w.intentLocks[x]].phase))
  }

  predicate LocksOk(w: World) { StockLockOk(w) && IntentLocksOk(w) }

  /** A held intent is not settled, and a unit that was taken is really there. */
  predicate HolderOk(w: World, t: AttemptId)
    requires t in w.subs
  {
    && (HoldsAnIntent(w.subs[t].phase) ==> w.subs[t].mode == Secure && w.subs[t].intent !in w.books.settled)
    && (w.subs[t].phase == HoldsBoth ==> w.books.remaining > 0)
    && (InGap(w.subs[t].phase) ==> w.subs[t].mode == Vulnerable)
  }

  predicate HoldersOk(w: World) {
    forall t :: t in w.subs ==> HolderOk(w, t)
  }

  lemma StockLockKept(w: World, e: Event)
    requires StockLockOk(w)
    ensures StockLockOk(Apply(w, e))
  {
  }

  lemma IntentsUntouched(w: World, v: World, t: AttemptId)
    requires IntentLocksOk(w) && v.intentLocks == w.intentLocks
    requires t in v.subs && w.subs.Keys <= v.subs.Keys
    requires forall u :: u in v.subs && u != t ==> u in w.subs && v.subs[u] == w.subs[u]
    requires t in w.subs ==> v.subs[t].intent == w.subs[t].intent
    requires HoldsAnIntent(v.subs[t].phase) <==> t in w.subs && HoldsAnIntent(w.subs[t].phase)
    ensures IntentLocksOk(v)
  {
  }

  lemma IntentReleased(w: World, v: World, t: AttemptId, p: Phase)
    requires IntentLocksOk(w) && t in w.subs && !HoldsAnIntent(p)
    requires v.subs == w.subs[t := w.subs[t].(phase := p)] && v.intentLocks == ReleaseIntent(w, t)
    ensures IntentLocksOk(v)
  {
  }

  lemma IntentAcquired(w: World, v: World, t: AttemptId, p: Phase)
    requires IntentLocksOk(w) && t in w.subs && HoldsAnIntent(p) && w.subs[t].intent !in w.intentLocks
    requires v.subs == w.subs[t := w.subs[t].(phase := p)] && v.intentLocks == w.intentLocks[w.subs[t].intent := t]
    ensures IntentLocksOk(v)
  {
  }

  lemma IntentLocksKept(w: World, e: Event)
    requires IntentLocksOk(w)
    ensures IntentLocksOk(Apply(w, e))
  {
    var v := Apply(w, e);
    if v.subs != w.subs {
      var t := e.t;
      if v.intentLocks == w.intentLocks && (HoldsAnIntent(v.subs[t].phase) <==> t in w.subs && HoldsAnIntent(w.subs[t].phase)) {
        IntentsUntouched(w, v, t);
      } else if HoldsAnIntent(v.subs[t].phase) {
        IntentAcquired(w, v, t, v.subs[t].phase);
      } else {
        IntentReleased(w, v, t, v.subs[t].phase);
      }
    }
  }

  lemma LocksKept(w: World, e: Event)
    requires LocksOk(w)
    ensures LocksOk(Apply(w, e))
  {
    StockLockKept(w, e);
    IntentLocksKept(w, e);
  }

  lemma MoverKept(w: World, e: Event)
    requires LocksOk(w) && HoldersOk(w) && !e.SwitchMode? && e.t in Apply(w, e).subs
    ensures HolderOk(Apply(w, e), e.t)
  {
  }

  lemma OtherKept(w: World, e: Event, u: AttemptId)
    requires LocksOk(w) && HoldersOk(w) && u in w.subs && (!e.SwitchMode? ==> u != e.t)
    ensures u in Apply(w, e).subs && HolderOk(Apply(w, e), u)
  {
  }

  lemma HoldersKept(w: World, e: Event)
    requires LocksOk(w) && HoldersOk(w)
    ensures HoldersOk(Apply(w, e))
  {
    forall u | u in Apply(w, e).subs
      ensures HolderOk(Apply(w, e), u)
    {
      if !e.SwitchMode? && u == e.t {
        MoverKept(w, e);
      } else {
        OtherKept(w, e, u);
      }
    }
  }

  // ------------------------------------------------------------------
  // Serialisation
  // ------------------------------------------------------------------

  /** What one decision does to the books. */
  function Effect(b: Books, d: Decision): Books {
    if d.outcome != Accepted then b
    else if d.mode == Vulnerable then Accept(b, d.intent, d.attempt, Vulnerable)
    else Accept(b, d.intent, d.attempt, Secure).(settled := b.settled + {d.intent})
  }

  function Replay(b: Books, log: seq<Decision>): Books {
    if log == [] then b else Effect(Replay(b, log[..|log| - 1]), log[|log| - 1])
  }

  /** Decision `d` on books `b` is what the atomic pipeline would have answered and done. */
  predicate Atomic(b: Books, d: Decision) {
    && (d.mode == Secure ==> AtomicReserve(b, d.intent, d.attempt) == (Effect(b, d), d.outcome))
    && (d.mode == Vulnerable && d.outcome != Accepted ==> NaiveReserve(b, d.intent, d.attempt) == (b, d.outcome))
  }

  predicate Serial(b: Books, log: seq<Decision>) {
    log == [] || (Serial(b, log[..|log| - 1]) && Atomic(Replay(b, log[..|log| - 1]), log[|log| - 1]))
  }

  /** One event either leaves books and log alone or takes one decision, atomically. */
  lemma EventIsAtomicOrSilent(w: World, e: Event)
    requires LocksOk(w) && HoldersOk(w)
    ensures var v := Apply(w, e);
      || (v.books == w.books && v.log == w.log)
      || (|v.log| == |w.log| + 1 && v.log[..|w.log|] == w.log && v.books == Effect(w.books, v.log[|w.log|]) && Atomic(w.books, v.log[|w.log|]))
  {
  }

  ghost predicate Inv(w: World, units: nat) {
    && LocksOk(w) && HoldersOk(w)
    && Serial(Opening(units), w.log)
    && w.books == Replay(Opening(units), w.log)
    && Balanced(w.books, units)
  }

  lemma BalanceKept(w: World, e: Event, units: nat)
    requires LocksOk(w) && HoldersOk(w) && Balanced(w.books, units)
    ensures Balanced(Apply(w, e).books, units)
  {
    if Apply(w, e).books != w.books {
      var t := e.t;
      AcceptKeepsBalance(w.books, units, w.subs[t].intent, t, if e.CommitNaive? then Vulnerable else Secure);
    }
  }

  lemma Step(w: World, e: Event, units: nat)
    requires Inv(w, units)
    ensures Inv(Apply(w, e), units)
  {
    LocksKept(w, e);
    HoldersKept(w, e);
    EventIsAtomicOrSilent(w, e);
    BalanceKept(w, e, units);
  }

  lemma StartInv(units: nat, mode: Mode)
    ensures Inv(Start(units, mode), units)
  {
  }

  /**
   * Every lock-level interleaving of submissions, with modes switched and transactions crashing at
   * any point, refines a serial run: the books are those of the decisions taken one after another,
   * each SECURE decision being exactly an atomic reserve on the books it found.
   */
  lemma {:induction false} EveryInterleavingIsSerial(units: nat, mode: Mode, es: seq<Event>)
    ensures Inv(Exec(Start(units, mode), es), units)
  {
    if es == [] {
      StartInv(units, mode);
    } else {
      EveryInterleavingIsSerial(units, mode, es[..|es| - 1]);
      Step(Exec(Start(units, mode), es[..|es| - 1]), es[|es| - 1], units);
    }
  }
}
