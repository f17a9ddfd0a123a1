/**
 * Submissions one after the other: how many are accepted, and that the service without overlap and the
 * row-lock events answer alike.
 */
module CheckoutSequence {
  import opened Wrappers
  import opened Checkout
  import opened CheckoutLocks
  import opened CheckoutCounting

  /** `n` VULNERABLE submissions on `u` units, one after the other, with intents and attempts of their own. */
  function NaiveRun(u: nat, n: nat): Books {
    if n == 0 then Opening(u) else NaiveReserve(NaiveRun(u, n - 1), n - 1, n - 1).0
  }

  /** Every unit is sold and no more: the first `u` submissions are accepted, the others find nothing. */
  lemma {:induction false} NaiveRunSellsEveryUnit(u: nat, n: nat)
    ensures var b := NaiveRun(u, n); var sold := if n <= u then n else u;
      && |b.orders| == |b.reservations| == sold && b.remaining == u - sold && b.settled == {}
      && (forall k: nat :: k < sold ==> b.orders[k] == Order(k, k, Vulnerable) && b.reservations[k] == Reservation(k, 1))
      && NaiveReserve(b, n, n).1 == if n < u then Accepted else StockUnavailable
  {
    if n > 0 {
      NaiveRunSellsEveryUnit(u, n - 1);
    }
  }

  /** The same for SECURE submissions of intents of their own. */
  function SecureRun(u: nat, n: nat): Books {
    if n == 0 then Opening(u) else AtomicReserve(SecureRun(u, n - 1), n - 1, n - 1).0
  }

  lemma {:induction false} SecureRunSellsEveryUnit(u: nat, n: nat)
    ensures var b := SecureRun(u, n); var sold := if n <= u then n else u;
      && |b.orders| == |b.reservations| == sold && b.remaining == u - sold
      && (forall k: nat :: k < sold ==> b.orders[k] == Order(k, k, Secure) && b.reservations[k] == Reservation(k, 1))
      && (forall x: IntentId :: x in b.settled <==> x < sold)
      && AtomicReserve(b, n, n).1 == (if n < u then Accepted else StockUnavailable)
      && (forall x: IntentId :: x < sold ==> AtomicReserve(b, x, n) == (b, IntentAlreadyAccepted))
  {
    if n > 0 {
      SecureRunSellsEveryUnit(u, n - 1);
    }
  }

  predicate Idle(w: World, t: AttemptId, request: RequestId) {
    t !in w.subs && request !in w.requests && w.stockLock.None? && w.intentLocks == map[]
  }

  function NaiveEvents(t: AttemptId, request: RequestId, x: IntentId): seq<Event> {
    [Begin(t, request, x), Register(t), Check(t)] + [WriteNaive(t), CommitNaive(t)]
  }

  function SecureEvents(t: AttemptId, request: RequestId, x: IntentId): seq<Event> {
    [Begin(t, request, x), Register(t), LockIntent(t)] + [TakeUnit(t), CommitSecure(t)]
  }

  /** One submission through the row-lock events, with nobody else at work, leaves the books and gives the answer of the service's pipeline. */
  lemma EventsAnswerLikeTheService(w: World, t: AttemptId, request: RequestId, x: IntentId)
    requires Idle(w, t, request)
    ensures w.mode == Vulnerable ==>
      var v := Exec(w, NaiveEvents(t, request, x));
      v.books == NaiveReserve(w.books, x, t).0 && v.log == w.log + [Decision(t, x, Vulnerable, NaiveReserve(w.books, x, t).1)]
    ensures w.mode == Secure ==>
      var v := Exec(w, SecureEvents(t, request, x));
      v.books == AtomicReserve(w.books, x, t).0 && v.log == w.log + [Decision(t, x, Secure, AtomicReserve(w.books, x, t).1)]
  {
    SubmissionRegisters(w, t, request, x);
    var registered := Apply(Apply(w, Begin(t, request, x)), Register(t));
    if w.mode == Vulnerable {
      ExecAppend(w, [Begin(t, request, x), Register(t), Check(t)], [WriteNaive(t), CommitNaive(t)]);
      Exec3(w, Begin(t, request, x), Register(t), Check(t));
      Exec2(Apply(registered, Check(t)), WriteNaive(t), CommitNaive(t));
      NaiveEnds(registered, t);
    } else {
      ExecAppend(w, [Begin(t, request, x), Register(t), LockIntent(t)], [TakeUnit(t), CommitSecure(t)]);
      Exec3(w, Begin(t, request, x), Register(t), LockIntent(t));
      Exec2(Apply(registered, LockIntent(t)), TakeUnit(t), CommitSecure(t));
      SecureEnds(registered, t);
    }
  }

  lemma SubmissionRegisters(w: World, t: AttemptId, request: RequestId, x: IntentId)
    requires Idle(w, t, request)
    ensures var v := Apply(Apply(w, Begin(t, request, x)), Register(t));
      && t in v.subs && v.subs[t] == Sub(request, x, w.mode, Registered)
      && v.books == w.books && v.log == w.log && v.stockLock.None? && v.intentLocks == map[]
  {
  }

  lemma NaiveEnds(w: World, t: AttemptId)
    requires t in w.subs && w.subs[t].phase == Registered && w.subs[t].mode == Vulnerable && w.stockLock.None?
    ensures var v := Apply(Apply(Apply(w, Check(t)), WriteNaive(t)), CommitNaive(t)); var (b, outcome) := NaiveReserve(w.books, w.subs[t].intent, t);
      v.books == b && v.log == w.log + [Decision(t, w.subs[t].intent, Vulnerable, outcome)]
  {
  }

  lemma SecureEnds(w: World, t: AttemptId)
    requires t in w.subs && w.subs[t].phase == Registered && w.subs[t].mode == Secure && w.stockLock.None? && w.intentLocks == map[]
    ensures var v := Apply(Apply(Apply(w, LockIntent(t)), TakeUnit(t)), CommitSecure(t)); var (b, outcome) := AtomicReserve(w.books, w.subs[t].intent, t);
      v.books == b && v.log == w.log + [Decision(t, w.subs[t].intent, Secure, outcome)]
  {
  }

  /** An attempt's recorded outcome tells its answer: accepted, already accepted, or failed for want of a unit. */
  lemma RecordedOutcomeTells(o: Outcome)
    ensures Recorded(o) == RecordedAccepted <==> o == Accepted
    ensures Recorded(o) == RecordedAlreadyAccepted <==> o == IntentAlreadyAccepted
    ensures Recorded(o) == RecordedFailed <==> o == StockUnavailable
  {
  }
}
