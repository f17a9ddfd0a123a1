/**
 * The checkout core of the demo shop (packages/commerce-db/src/checkout-core.ts) for one SKU between
 * two resets of its scope: what is committed, the two reserve pipelines as atomic functions, and the
 * service run without overlap.
 */
module Checkout {
  import opened Wrappers

  datatype Mode = Vulnerable | Secure
  datatype Outcome = Accepted | IntentAlreadyAccepted | StockUnavailable

  type IntentId = nat
  type AttemptId = nat
  type RequestId = nat

  datatype Order = Order(intent: IntentId, attempt: AttemptId, mode: Mode)
  datatype Reservation = Reservation(order: nat, units: nat)

  /** The committed business rows: stock, settled intents, orders, and a reservation per order row. */
  datatype Books = Books(remaining: int, settled: set<IntentId>, orders: seq<Order>, reservations: seq<Reservation>)

  function Opening(units: nat): Books { Books(units, {}, [], []) }

  /** An accepted order, its reservation of one unit, and the decrement: one commit. */
  function Accept(b: Books, intent: IntentId, attempt: AttemptId, mode: Mode): Books {
    b.(remaining := b.remaining - 1,
       orders := b.orders + [Order(intent, attempt, mode)],
       reservations := b.reservations + [Reservation(|b.orders|, 1)])
  }

  /** The SECURE pipeline as if nobody else existed. */
  function AtomicReserve(b: Books, intent: IntentId, attempt: AttemptId): (Books, Outcome) {
    if intent in b.settled then (b, IntentAlreadyAccepted)
    else if b.remaining <= 0 then (b, StockUnavailable)
    else (Accept(b, intent, attempt, Secure).(settled := b.settled + {intent}), Accepted)
  }

  /** The VULNERABLE pipeline as if nobody else existed. */
  function NaiveReserve(b: Books, intent: IntentId, attempt: AttemptId): (Books, Outcome) {
    if b.remaining <= 0 then (b, StockUnavailable) else (Accept(b, intent, attempt, Vulnerable), Accepted)
  }

  function Reserved(rs: seq<Reservation>): nat {
    if rs == [] then 0 else Reserved(rs[..|rs| - 1]) + rs[|rs| - 1].units
  }

  function OrdersOf(orders: seq<Order>, intent: IntentId, mode: Mode): nat {
    if orders == [] then 0
    else
      var o := orders[|orders| - 1];
      OrdersOf(orders[..|orders| - 1], intent, mode) + if o.intent == intent && o.mode == mode then 1 else 0
  }

  /**
   * What always holds of the committed rows: units are conserved, orders and reservations pair up,
   * and an intent has one SECURE order if it is SETTLED and none otherwise.
   */
  ghost predicate Balanced(b: Books, units: nat) {
    && b.remaining + Reserved(b.reservations) == units
    && |b.orders| == |b.reservations|
    && (forall k: nat :: k < |b.reservations| ==> b.reservations[k] == Reservation(k, 1))
    && (forall x: IntentId :: OrdersOf(b.orders, x, Secure) == if x in b.settled then 1 else 0)
  }

  lemma AcceptKeepsBalance(b: Books, units: nat, intent: IntentId, attempt: AttemptId, mode: Mode)
    requires Balanced(b, units) && (mode == Secure ==> intent !in b.settled)
    ensures Balanced(if mode == Secure then Accept(b, intent, attempt, mode).(settled := b.settled + {intent}) else Accept(b, intent, attempt, mode), units)
  {
    var after := Accept(b, intent, attempt, mode);
    assert after.orders[..|b.orders|] == b.orders;
    assert after.reservations[..|b.reservations|] == b.reservations;
  }

  /** A processing attempt's row calls a missing unit a failure like any other. */
  datatype RecordedOutcome = RecordedAccepted | RecordedAlreadyAccepted | RecordedFailed

  function Recorded(o: Outcome): RecordedOutcome {
    match o
    case Accepted => RecordedAccepted
    case IntentAlreadyAccepted => RecordedAlreadyAccepted
    case StockUnavailable => RecordedFailed
  }

  datatype Attempt = Attempt(request: RequestId, intent: IntentId, mode: Mode, revision: nat, outcome: Option<RecordedOutcome>)

  datatype Submission = Done(outcome: Outcome, attempt: AttemptId) | RequestIdentityConflict

  /**
   * The service without overlapping requests. `settingsMode` is switched by the admin API; every
   * submission runs under the mode it read first.
   */
  class CheckoutService {
    var settingsMode: Mode
    var revision: nat
    var intents: set<IntentId>
    var requests: set<RequestId>
    var attempts: seq<Attempt>
    var remaining: int
    var settled: set<IntentId>
    var orders: seq<Order>
    var reservations: seq<Reservation>

    constructor (units: nat, mode: Mode)
      ensures Committed() == Opening(units) && settingsMode == mode
      ensures intents == {} && requests == {} && attempts == [] && revision == 1 && Configured()
    {
      settingsMode, revision := mode, 1;
      intents, requests, attempts := {}, {}, [];
      remaining, settled, orders, reservations := units, {}, [], [];
    }

    ghost function Committed(): Books
      reads this
    {
      Books(remaining, settled, orders, reservations)
    }

    /** The revision recorded with an attempt stands for one mode: the one it ran under. */
    ghost predicate Configured()
      reads this
    {
      && (forall k :: 0 <= k < |attempts| ==> attempts[k].revision <= revision)
      && (forall k :: 0 <= k < |attempts| && attempts[k].revision == revision ==> attempts[k].mode == settingsMode)
      && (forall j, k :: 0 <= j < k < |attempts| && attempts[j].revision == attempts[k].revision ==> attempts[j].mode == attempts[k].mode)
    }

    /** Every setting is a new revision, also of the same mode. */
    method SetProcessingConfiguration(mode: Mode)
      requires Configured()
      modifies this`settingsMode, this`revision
      ensures Configured() && settingsMode == mode && revision == old(revision) + 1
    {
      settingsMode, revision := mode, revision + 1;
    }

    method ReserveNaiveCheckThenAct(intent: IntentId, attempt: AttemptId) returns (outcome: Outcome)
      modifies this`remaining, this`orders, this`reservations
      ensures (Committed(), outcome) == NaiveReserve(old(Committed()), intent, attempt)
    {
      if remaining <= 0 { return StockUnavailable; }
      var orderRow := |orders|;
      orders := orders + [Order(intent, attempt, Vulnerable)];
      reservations := reservations + [Reservation(orderRow, 1)];
      remaining := remaining - 1;
      return Accepted;
    }

    /** The settlement is written first and rolled back when no unit is left. */
    method ReserveIdempotentIntentScoped(intent: IntentId, attempt: AttemptId) returns (outcome: Outcome)
      modifies this`remaining, this`settled, this`orders, this`reservations
      ensures (Committed(), outcome) == AtomicReserve(old(Committed()), intent, attempt)
    {
      if intent in settled { return IntentAlreadyAccepted; }
      var rollback := settled;
      settled := settled + {intent};
      if remaining <= 0 {
        settled := rollback;
        return StockUnavailable;
      }
      remaining := remaining - 1;
      var orderRow := |orders|;
      orders := orders + [Order(intent, attempt, Secure)];
      reservations := reservations + [Reservation(orderRow, 1)];
      return Accepted;
    }

    /** A repeated physical request identity is a conflict and reaches no reserve pipeline. */
    method SubmitCheckout(request: RequestId, intent: IntentId) returns (result: Submission)
      requires Configured()
      modifies this
      ensures Configured()
      ensures intents == old(intents) + {intent} && requests == old(requests) + {request}
      ensures settingsMode == old(settingsMode) && revision == old(revision)
      ensures request in old(requests) ==>
        result == RequestIdentityConflict && Committed() == old(Committed()) && attempts == old(attempts)
      ensures request !in old(requests) ==>
        var mode, attempt := old(settingsMode), |old(attempts)|;
        var expected := if mode == Vulnerable then NaiveReserve(old(Committed()), intent, attempt) else AtomicReserve(old(Committed()), intent, attempt);
        && Committed() == expected.0
        && result == Done(expected.1, attempt)
        && attempts == old(attempts) + [Attempt(request, intent, mode, old(revision), Some(Recorded(expected.1)))]
    {
      var mode, modeRevision := settingsMode, revision;
      intents := intents + {intent};
      if request in requests { return RequestIdentityConflict; }
      requests := requests + {request};
      var attempt := |attempts|;
      attempts := attempts + [Attempt(request, intent, mode, modeRevision, None)];
      var outcome;
      if mode == Vulnerable {
        outcome := ReserveNaiveCheckThenAct(intent, attempt);
      } else {
        outcome := ReserveIdempotentIntentScoped(intent, attempt);
      }
      attempts := attempts[attempt := attempts[attempt].(outcome := Some(Recorded(outcome)))];
      return Done(outcome, attempt);
    }
  }
}
