/**
 * Wallet credits of the demo fintech target: webhook deliveries are recorded, and each is turned
 * into a credit by one transaction that a unique idempotency key guards
 * (packages/demo-db/src/keys.ts, packages/demo-db/src/index.ts,
 * apps/demo-fintech/src/webhook-processing-service.ts).
 */
module Wallet {
  import opened Wrappers

  datatype Mode = Vulnerable | Secure

  /** Wallet rows are named by UUIDs; the ids of the provider may contain colons. */
  type WalletId = s: string | ':' !in s witness ""

  const PAYMENT_SCOPE := "wallet-credit:payment:"
  const EVENT_SCOPE := "wallet-credit:event:"

  function DeriveIdempotencyKey(mode: Mode, paymentId: string, eventId: string, wallet: WalletId): string {
    if mode == Secure then PAYMENT_SCOPE + (paymentId + ":" + wallet) else EVENT_SCOPE + (eventId + ":" + wallet)
  }

  // ------------------------------------------------------------------
  // Keys
  // ------------------------------------------------------------------

  lemma SplitAtLastColon(a: string, w: string, b: string, v: string)
    requires ':' !in w && ':' !in v && a + ":" + w == b + ":" + v
    ensures a == b && w == v
  {
    var x, y := a + ":" + w, b + ":" + v;
    assert x[|a|] == ':' && forall i :: |a| < i < |x| ==> x[i] == w[i - |a| - 1];
    assert y[|b|] == ':' && forall i :: |b| < i < |y| ==> y[i] == v[i - |b| - 1];
    assert |a| == |b|;
    assert x[..|a|] == a && y[..|b|] == b && x[|a| + 1..] == w && y[|b| + 1..] == v;
  }

  /** Keys of the two modes never collide, and within a mode a key names one payment, or one event, and its wallet. */
  lemma KeysAreInjective(m: Mode, p: string, e: string, w: WalletId, n: Mode, q: string, f: string, v: WalletId)
    requires DeriveIdempotencyKey(m, p, e, w) == DeriveIdempotencyKey(n, q, f, v)
    ensures m == n && w == v && (m == Secure ==> p == q) && (m == Vulnerable ==> e == f)
  {
    var x, y := DeriveIdempotencyKey(m, p, e, w), DeriveIdempotencyKey(n, q, f, v);
    assert x[14] == if m == Secure then 'p' else 'e';
    assert y[14] == if n == Secure then 'p' else 'e';
    if m == Secure {
      assert x[|PAYMENT_SCOPE|..] == p + ":" + w && y[|PAYMENT_SCOPE|..] == q + ":" + v;
      SplitAtLastColon(p, w, q, v);
    } else {
      assert x[|EVENT_SCOPE|..] == e + ":" + w && y[|EVENT_SCOPE|..] == f + ":" + v;
      SplitAtLastColon(e, w, f, v);
    }
  }

  // ------------------------------------------------------------------
  // Rows
  // ------------------------------------------------------------------

  datatype Payment = Payment(wallet: WalletId, amountMinor: int, currency: string)
  datatype ProviderEvent = ProviderEvent(paymentId: string, eventType: string)
  datatype Registered = Registered(payments: map<string, Payment>, events: map<string, ProviderEvent>)

  /** The registered payments and events of one run; a foreign key ties an event to its payment. */
  type Registry = r: Registered | forall e :: e in r.events ==> r.events[e].paymentId in r.payments
    witness Registered(map[], map[])

  datatype Payload = Payload(eventId: string, paymentId: string, eventType: string, amountMinor: int, currency: string)
  datatype DeliveryError = NotFound | BusinessMismatch | ControlledFaultRejection | DuplicateDeliveryIdentity | ProcessingFailed

  datatype Outcome = Pending | Applied | IdempotentDuplicate | Failed

  /** How the financial transaction of an attempt ended; the database keeps no such column. */
  datatype Transaction = NotRun | Credited | KeyWasTaken | RolledBack

  datatype Attempt = Attempt(deliveryId: string, eventId: string, mode: Option<Mode>, transaction: Transaction, outcome: Outcome)
  datatype Entry = Entry(attempt: nat, mode: Mode, eventId: string, paymentId: string, wallet: WalletId, amountMinor: int, key: string)

  /**
   * The committed rows: deliveries with the event each names, their processing attempts, the ledger
   * and the balances. A financial effect and its ledger entry are one record here, since one
   * transaction writes both or neither.
   */
  datatype Bank = Bank(mode: Mode, deliveries: map<string, string>, attempts: seq<Attempt>, ledger: seq<Entry>, wallets: map<WalletId, int>)

  /** The checks before anything is written: a payload refers to registered facts and rewrites none. */
  function Screen(reg: Registry, p: Payload): Option<DeliveryError> {
    if p.eventId !in reg.events then Some(NotFound)
    else
      var e := reg.events[p.eventId];
      var payment := reg.payments[e.paymentId];
      if p.paymentId != e.paymentId then Some(BusinessMismatch)
      else if p.eventType != e.eventType then Some(BusinessMismatch)
      else if p.amountMinor != payment.amountMinor || p.currency != payment.currency then Some(BusinessMismatch)
      else None
  }

  function RecordDelivery(reg: Registry, b: Bank, id: string, p: Payload, rejected: bool): Result<Bank, DeliveryError> {
    if Screen(reg, p).Some? then Err(Screen(reg, p).value)
    else if rejected then Err(ControlledFaultRejection)
    else if id in b.deliveries then Err(DuplicateDeliveryIdentity)
    else Ok(b.(deliveries := b.deliveries[id := p.eventId]))
  }

  predicate HasAttempt(b: Bank, id: string) { exists i :: 0 <= i < |b.attempts| && b.attempts[i].deliveryId == id }

  predicate KeyTaken(ledger: seq<Entry>, key: string) { exists i :: 0 <= i < |ledger| && ledger[i].key == key }

  function EntryFor(reg: Registry, attempt: nat, mode: Mode, eventId: string): Entry
    requires eventId in reg.events
  {
    var paymentId := reg.events[eventId].paymentId;
    var payment := reg.payments[paymentId];
    Entry(attempt, mode, eventId, paymentId, payment.wallet, payment.amountMinor,
          DeriveIdempotencyKey(mode, paymentId, eventId, payment.wallet))
  }

  function Put(b: Bank, i: nat, a: Attempt): Bank
    requires i < |b.attempts|
  {
    b.(attempts := b.attempts[i := a])
  }

  /** The financial transaction of attempt `i` under the mode it read; the attempt's row is not part of it. */
  function Credit(reg: Registry, b: Bank, i: nat): Bank
    requires i < |b.attempts|
  {
    var a := b.attempts[i];
    if a.transaction != NotRun || a.mode.None? || a.eventId !in reg.events then b
    else
      var entry := EntryFor(reg, i, a.mode.value, a.eventId);
      if entry.wallet !in b.wallets then Put(b, i, a.(transaction := RolledBack))
      else if KeyTaken(b.ledger, entry.key) then Put(b, i, a.(transaction := KeyWasTaken))
      else
        Put(b, i, a.(transaction := Credited)).(ledger := b.ledger + [entry],
                                               wallets := b.wallets[entry.wallet := b.wallets[entry.wallet] + entry.amountMinor])
  }

  /** The later update of the attempt's row after the transaction returned. */
  function Finalized(a: Attempt): Attempt {
    if a.outcome != Pending then a
    else if a.transaction == Credited then a.(outcome := Applied)
    else if a.transaction == KeyWasTaken then a.(outcome := IdempotentDuplicate)
    else a
  }

  /**
   * Overlapping deliveries, one committed statement or transaction an event; a process that dies
   * simply has no further events. `Fail` is the catch handler, which runs whenever the call returned
   * an error: before the transaction, after its rollback, or although its commit took effect, and a
   * commit may even take effect after it.
   */
  datatype Event =
    | SwitchMode(mode: Mode)
    | Deliver(id: string, payload: Payload, rejected: bool)
    | StartAttempt(id: string)
    | ReadMode(i: nat)
    | Commit(i: nat)
    | Abort(i: nat)
    | Finalize(i: nat)
    | Fail(i: nat)

  function Apply(reg: Registry, b: Bank, e: Event): Bank {
    match e
    case SwitchMode(mode) => b.(mode := mode)
    case Deliver(id, payload, rejected) =>
      var r := RecordDelivery(reg, b, id, payload, rejected);
      if r.Ok? then r.value else b
    case StartAttempt(id) =>
      if id in b.deliveries && !HasAttempt(b, id) then
        b.(attempts := b.attempts + [Attempt(id, b.deliveries[id], None, NotRun, Pending)])
      else b
    case ReadMode(i) =>
      if i < |b.attempts| && b.attempts[i].mode.None? && b.attempts[i].outcome == Pending then
        Put(b, i, b.attempts[i].(mode := Some(b.mode)))
      else b
    case Commit(i) => if i < |b.attempts| then Credit(reg, b, i) else b
    case Abort(i) =>
      if i < |b.attempts| && b.attempts[i].transaction == NotRun && b.attempts[i].mode.Some? then
        Put(b, i, b.attempts[i].(transaction := RolledBack))
      else b
    case Finalize(i) => if i < |b.attempts| then Put(b, i, Finalized(b.attempts[i])) else b
    case Fail(i) => if i < |b.attempts| && b.attempts[i].outcome == Pending then Put(b, i, b.attempts[i].(outcome := Failed)) else b
  }

  function Exec(reg: Registry, b: Bank, es: seq<Event>): Bank {
    if es == [] then b else Apply(reg, Exec(reg, b, es[..|es| - 1]), es[|es| - 1])
  }

  function Opening(mode: Mode, wallets: map<WalletId, int>): Bank { Bank(mode, map[], [], [], wallets) }

  // ------------------------------------------------------------------
  // Invariants
  // ------------------------------------------------------------------

  /** The transaction of attempt `a` committed a credit, or found one committed. */
  predicate Settled(a: Attempt) { a.transaction == Credited || a.transaction == KeyWasTaken }

  /** The row of attempt `a` says so too. */
  predicate Answered(a: Attempt) { a.outcome == Applied || a.outcome == IdempotentDuplicate }

  predicate Under(reg: Registry, a: Attempt, key: string) {
    a.mode.Some? && a.eventId in reg.events && EntryFor(reg, 0, a.mode.value, a.eventId).key == key
  }

  predicate SettledUnder(reg: Registry, b: Bank, key: string) {
    exists i :: 0 <= i < |b.attempts| && Settled(b.attempts[i]) && Under(reg, b.attempts[i], key)
  }

  predicate AnsweredUnder(reg: Registry, b: Bank, key: string) {
    exists i :: 0 <= i < |b.attempts| && Answered(b.attempts[i]) && Under(reg, b.attempts[i], key)
  }

  predicate EntryOk(reg: Registry, b: Bank, x: Entry) {
    && x.attempt < |b.attempts| && b.attempts[x.attempt].transaction == Credited
    && b.attempts[x.attempt].mode == Some(x.mode) && b.attempts[x.attempt].eventId == x.eventId
    && x.eventId in reg.events && x == EntryFor(reg, x.attempt, x.mode, x.eventId)
  }

  predicate DistinctKeys(ledger: seq<Entry>) {
    forall i, j :: 0 <= i < j < |ledger| ==> ledger[i].key != ledger[j].key
  }

  predicate LedgerOk(reg: Registry, b: Bank) {
    DistinctKeys(b.ledger) && forall i :: 0 <= i < |b.ledger| ==> EntryOk(reg, b, b.ledger[i])
  }

  predicate AttemptOk(reg: Registry, b: Bank, a: Attempt) {
    && (Settled(a) ==> a.mode.Some? && a.eventId in reg.events && KeyTaken(b.ledger, EntryFor(reg, 0, a.mode.value, a.eventId).key))
    && (a.outcome == Applied ==> a.transaction == Credited)
    && (a.outcome == IdempotentDuplicate ==> a.transaction == KeyWasTaken)
  }

  predicate AttemptsOk(reg: Registry, b: Bank) {
    forall i :: 0 <= i < |b.attempts| ==> AttemptOk(reg, b, b.attempts[i])
  }

  function Total(ledger: seq<Entry>, w: WalletId): int {
    if ledger == [] then 0
    else
      var x := ledger[|ledger| - 1];
      Total(ledger[..|ledger| - 1], w) + if x.wallet == w then x.amountMinor else 0
  }

  ghost predicate BalancesOk(b: Bank, opening: map<WalletId, int>) {
    b.wallets.Keys == opening.Keys && forall w :: w in opening ==> b.wallets[w] == opening[w] + Total(b.ledger, w)
  }

  ghost predicate Inv(reg: Registry, b: Bank, opening: map<WalletId, int>) {
    LedgerOk(reg, b) && AttemptsOk(reg, b) && BalancesOk(b, opening)
  }

  /** An attempt keeps its delivery and event, the mode it read and the end of its transaction. */
  lemma AttemptStays(reg: Registry, b: Bank, e: Event, i: nat)
    requires i < |b.attempts|
    ensures var c := Apply(reg, b, e);
      && i < |c.attempts|
      && c.attempts[i].eventId == b.attempts[i].eventId
      && (b.attempts[i].mode.Some? ==> c.attempts[i].mode == b.attempts[i].mode)
      && (b.attempts[i].transaction != NotRun ==> c.attempts[i].transaction == b.attempts[i].transaction)
  {
  }

  /** The ledger changes only by a commit, which appends the entry of its attempt under a free key. */
  lemma LedgerGrows(reg: Registry, b: Bank, e: Event)
    ensures var c := Apply(reg, b, e);
      || c.ledger == b.ledger
      || (exists x :: c.ledger == b.ledger + [x] && EntryOk(reg, c, x) && !KeyTaken(b.ledger, x.key))
  {
    var c := Apply(reg, b, e);
    if c.ledger != b.ledger {
      var x := EntryFor(reg, e.i, b.attempts[e.i].mode.value, b.attempts[e.i].eventId);
      assert c.ledger == b.ledger + [x] && EntryOk(reg, c, x);
    }
  }

  lemma LedgerKept(reg: Registry, b: Bank, e: Event)
    requires LedgerOk(reg, b)
    ensures LedgerOk(reg, Apply(reg, b, e))
  {
    LedgerGrows(reg, b, e);
    forall i | 0 <= i < |b.ledger|
      ensures EntryOk(reg, Apply(reg, b, e), b.ledger[i])
    {
      assert EntryOk(reg, b, b.ledger[i]);
      AttemptStays(reg, b, e, b.ledger[i].attempt);
    }
  }

  /** A transaction that settles leaves its key taken. */
  lemma CommitSettles(reg: Registry, b: Bank, i: nat)
    requires i < |b.attempts| && !Settled(b.attempts[i]) && Settled(Credit(reg, b, i).attempts[i])
    ensures var c := Credit(reg, b, i); var a := c.attempts[i];
      a.mode.Some? && a.eventId in reg.events && KeyTaken(c.ledger, EntryFor(reg, 0, a.mode.value, a.eventId).key)
  {
    var c := Credit(reg, b, i);
    assert |c.ledger| > |b.ledger| ==> KeyTaken(c.ledger, c.ledger[|b.ledger|].key);
  }

  lemma OnlyCommitsSettle(reg: Registry, b: Bank, e: Event, i: nat)
    requires i < |Apply(reg, b, e).attempts| && Settled(Apply(reg, b, e).attempts[i])
    ensures i < |b.attempts|
    ensures Settled(b.attempts[i]) || (e.Commit? && e.i == i)
  {
  }

  lemma SettledKept(reg: Registry, b: Bank, e: Event, i: nat)
    requires AttemptsOk(reg, b) && i < |Apply(reg, b, e).attempts| && Settled(Apply(reg, b, e).attempts[i])
    ensures var c := Apply(reg, b, e); var a := c.attempts[i];
      a.mode.Some? && a.eventId in reg.events && KeyTaken(c.ledger, EntryFor(reg, 0, a.mode.value, a.eventId).key)
  {
    OnlyCommitsSettle(reg, b, e, i);
    if Settled(b.attempts[i]) {
      assert AttemptOk(reg, b, b.attempts[i]);
      AttemptStays(reg, b, e, i);
      LedgerGrows(reg, b, e);
      TakenStays(b.ledger, Apply(reg, b, e).ledger);
    } else {
      CommitSettles(reg, b, i);
    }
  }

  lemma OutcomeKept(reg: Registry, b: Bank, e: Event, i: nat)
    requires AttemptsOk(reg, b) && i < |Apply(reg, b, e).attempts|
    ensures var a := Apply(reg, b, e).attempts[i];
      (a.outcome == Applied ==> a.transaction == Credited) && (a.outcome == IdempotentDuplicate ==> a.transaction == KeyWasTaken)
  {
    assert i < |b.attempts| ==> AttemptOk(reg, b, b.attempts[i]);
  }

  lemma AttemptsKept(reg: Registry, b: Bank, e: Event)
    requires AttemptsOk(reg, b)
    ensures AttemptsOk(reg, Apply(reg, b, e))
  {
    forall i | 0 <= i < |Apply(reg, b, e).attempts|
      ensures AttemptOk(reg, Apply(reg, b, e), Apply(reg, b, e).attempts[i])
    {
      OutcomeKept(reg, b, e, i);
      if Settled(Apply(reg, b, e).attempts[i]) {
        SettledKept(reg, b, e, i);
      }
    }
  }

  lemma TakenStays(ledger: seq<Entry>, longer: seq<Entry>)
    requires ledger <= longer
    ensures forall key :: KeyTaken(ledger, key) ==> KeyTaken(longer, key)
  {
    forall key | KeyTaken(ledger, key)
      ensures KeyTaken(longer, key)
    {
      var i :| 0 <= i < |ledger| && ledger[i].key == key;
      assert longer[i].key == key;
    }
  }

  lemma BalancesKept(reg: Registry, b: Bank, e: Event, opening: map<WalletId, int>)
    requires BalancesOk(b, opening)
    ensures BalancesOk(Apply(reg, b, e), opening)
  {
    var c := Apply(reg, b, e);
    if c.ledger != b.ledger {
      assert c.ledger[..|b.ledger|] == b.ledger;
    }
  }

  lemma {:induction false} Always(reg: Registry, mode: Mode, opening: map<WalletId, int>, es: seq<Event>)
    ensures Inv(reg, Exec(reg, Opening(mode, opening), es), opening)
  {
    if es != [] {
      var b := Exec(reg, Opening(mode, opening), es[..|es| - 1]);
      Always(reg, mode, opening, es[..|es| - 1]);
      LedgerKept(reg, b, es[|es| - 1]);
      AttemptsKept(reg, b, es[|es| - 1]);
      BalancesKept(reg, b, es[|es| - 1], opening);
    }
  }

  // ------------------------------------------------------------------
  // Counting
  // ------------------------------------------------------------------

  function CountKey(ledger: seq<Entry>, key: string): nat {
    if ledger == [] then 0 else CountKey(ledger[..|ledger| - 1], key) + if ledger[|ledger| - 1].key == key then 1 else 0
  }

  function CountPayment(ledger: seq<Entry>, paymentId: string): nat {
    if ledger == [] then 0
    else CountPayment(ledger[..|ledger| - 1], paymentId) + if ledger[|ledger| - 1].paymentId == paymentId then 1 else 0
  }

  function CountEvent(ledger: seq<Entry>, eventId: string): nat {
    if ledger == [] then 0
    else CountEvent(ledger[..|ledger| - 1], eventId) + if ledger[|ledger| - 1].eventId == eventId then 1 else 0
  }

  lemma {:induction false} DistinctKeysCountOnce(ledger: seq<Entry>, key: string)
    requires DistinctKeys(ledger)
    ensures CountKey(ledger, key) == if KeyTaken(ledger, key) then 1 else 0
  {
    if ledger != [] {
      var init := ledger[..|ledger| - 1];
      DistinctKeysCountOnce(init, key);
      if KeyTaken(init, key) {
        var i :| 0 <= i < |init| && init[i].key == key;
        assert ledger[i].key == key;
      }
      assert ledger[|ledger| - 1].key == key ==> KeyTaken(ledger, key);
    }
  }

  lemma TakenIffSettled(reg: Registry, b: Bank, key: string)
    requires LedgerOk(reg, b) && AttemptsOk(reg, b)
    ensures KeyTaken(b.ledger, key) <==> SettledUnder(reg, b, key)
    ensures AnsweredUnder(reg, b, key) ==> SettledUnder(reg, b, key)
  {
    if KeyTaken(b.ledger, key) {
      var i :| 0 <= i < |b.ledger| && b.ledger[i].key == key;
      assert EntryOk(reg, b, b.ledger[i]);
      assert Under(reg, b.attempts[b.ledger[i].attempt], key);
    }
    forall i | 0 <= i < |b.attempts|
      ensures AttemptOk(reg, b, b.attempts[i])
    {
    }
  }

  // ------------------------------------------------------------------
  // The schedule decides how an attempt ends
  // ------------------------------------------------------------------

  /** The rows just before event `n` of the schedule. */
  function RowsBefore(reg: Registry, start: Bank, es: seq<Event>, n: nat): Bank
    requires n <= |es|
  {
    Exec(reg, start, es[..n])
  }

  /** The transaction of attempt `i` commits a credit, or finds one, if it commits now. */
  predicate CanSettle(reg: Registry, b: Bank, i: nat) {
    && i < |b.attempts|
    && var a := b.attempts[i];
    && a.transaction == NotRun && a.mode.Some? && a.eventId in reg.events
    && EntryFor(reg, i, a.mode.value, a.eventId).wallet in b.wallets
  }

  predicate SettlesAt(reg: Registry, start: Bank, es: seq<Event>, c: nat, i: nat) {
    c < |es| && es[c] == Commit(i) && CanSettle(reg, RowsBefore(reg, start, es, c), i)
  }

  /** The catch handler, or the update of the row after the transaction settled: the first of them decides the outcome. */
  predicate Closes(b: Bank, e: Event, i: nat) {
    i < |b.attempts| && (e == Fail(i) || (e == Finalize(i) && Settled(b.attempts[i])))
  }

  predicate ClosesAt(reg: Registry, start: Bank, es: seq<Event>, n: nat, i: nat) {
    n < |es| && Closes(RowsBefore(reg, start, es, n), es[n], i)
  }

  predicate ClosesFirst(reg: Registry, start: Bank, es: seq<Event>, n: nat, i: nat) {
    ClosesAt(reg, start, es, n, i) && forall m: nat :: m < n ==> !ClosesAt(reg, start, es, m, i)
  }

  /** Some commit of attempt `i` comes when it is able to settle. */
  predicate EverSettles(reg: Registry, start: Bank, es: seq<Event>, i: nat) {
    exists c: nat :: c < |es| && SettlesAt(reg, start, es, c, i)
  }

  predicate EverCloses(reg: Registry, start: Bank, es: seq<Event>, i: nat) {
    exists n: nat :: n < |es| && ClosesAt(reg, start, es, n, i)
  }

  /** The update of its row is the first event to close attempt `i`. */
  predicate AnswerComesFirst(reg: Registry, start: Bank, es: seq<Event>, i: nat) {
    exists n: nat :: n < |es| && ClosesFirst(reg, start, es, n, i) && es[n] == Finalize(i)
  }

  /** The catch handler is. */
  predicate FailureComesFirst(reg: Registry, start: Bank, es: seq<Event>, i: nat) {
    exists n: nat :: n < |es| && ClosesFirst(reg, start, es, n, i) && es[n] == Fail(i)
  }

  predicate SettledNow(b: Bank, i: nat) { i < |b.attempts| && Settled(b.attempts[i]) }
  predicate AnsweredNow(b: Bank, i: nat) { i < |b.attempts| && Answered(b.attempts[i]) }
  predicate FailedNow(b: Bank, i: nat) { i < |b.attempts| && b.attempts[i].outcome == Failed }

  lemma ExecNext(reg: Registry, b: Bank, es: seq<Event>, e: Event)
    ensures Exec(reg, b, es + [e]) == Apply(reg, Exec(reg, b, es), e)
  {
    assert (es + [e])[..|es|] == es;
  }

  lemma ScheduleGrows(reg: Registry, start: Bank, before: seq<Event>, e: Event, i: nat)
    ensures forall n: nat :: n < |before| ==> RowsBefore(reg, start, before + [e], n) == RowsBefore(reg, start, before, n)
    ensures RowsBefore(reg, start, before + [e], |before|) == Exec(reg, start, before)
  {
    assert forall n: nat :: n <= |before| ==> (before + [e])[..n] == before[..n];
    assert before[..|before|] == before;
  }

  lemma SettlesNext(reg: Registry, start: Bank, before: seq<Event>, e: Event, i: nat)
    ensures EverSettles(reg, start, before + [e], i) <==>
      EverSettles(reg, start, before, i) || (e == Commit(i) && CanSettle(reg, Exec(reg, start, before), i))
  {
    var es := before + [e];
    ScheduleGrows(reg, start, before, e, i);
    assert forall c: nat :: c < |before| ==> (SettlesAt(reg, start, es, c, i) <==> SettlesAt(reg, start, before, c, i));
    assert SettlesAt(reg, start, es, |before|, i) <==> e == Commit(i) && CanSettle(reg, Exec(reg, start, before), i);
  }

  lemma ClosesNext(reg: Registry, start: Bank, before: seq<Event>, e: Event, i: nat)
    ensures var es := before + [e]; var now := Closes(Exec(reg, start, before), e, i) && !EverCloses(reg, start, before, i);
      && (EverCloses(reg, start, es, i) <==> EverCloses(reg, start, before, i) || now)
      && (AnswerComesFirst(reg, start, es, i) <==> AnswerComesFirst(reg, start, before, i) || (now && e == Finalize(i)))
      && (FailureComesFirst(reg, start, es, i) <==> FailureComesFirst(reg, start, before, i) || (now && e == Fail(i)))
  {
    var es := before + [e];
    ScheduleGrows(reg, start, before, e, i);
    assert forall n: nat :: n < |before| ==> (ClosesAt(reg, start, es, n, i) <==> ClosesAt(reg, start, before, n, i));
    assert ClosesAt(reg, start, es, |before|, i) <==> Closes(Exec(reg, start, before), e, i);
    assert forall n: nat :: n < |before| ==> (ClosesFirst(reg, start, es, n, i) <==> ClosesFirst(reg, start, before, n, i));
    assert ClosesFirst(reg, start, es, |before|, i) <==> Closes(Exec(reg, start, before), e, i) && !EverCloses(reg, start, before, i);
  }

  lemma SettledAfter(reg: Registry, b: Bank, e: Event, i: nat)
    ensures SettledNow(Apply(reg, b, e), i) <==> SettledNow(b, i) || (e == Commit(i) && CanSettle(reg, b, i))
  {
  }

  lemma OutcomeAfter(reg: Registry, b: Bank, e: Event, i: nat)
    ensures var c, now := Apply(reg, b, e), Closes(b, e, i) && !AnsweredNow(b, i) && !FailedNow(b, i);
      && (AnsweredNow(c, i) <==> AnsweredNow(b, i) || (now && e == Finalize(i)))
      && (FailedNow(c, i) <==> FailedNow(b, i) || (now && e == Fail(i)))
  {
  }

  /**
   * The transaction of attempt `i` has settled if and only if some commit of it came when it was
   * able to; the first event to close the attempt decides whether it is answered or FAILED.
   */
  predicate EndsAsScheduled(reg: Registry, start: Bank, es: seq<Event>, i: nat) {
    var b := Exec(reg, start, es);
    && (SettledNow(b, i) <==> EverSettles(reg, start, es, i))
    && (AnsweredNow(b, i) <==> AnswerComesFirst(reg, start, es, i))
    && (FailedNow(b, i) <==> FailureComesFirst(reg, start, es, i))
    && (AnsweredNow(b, i) || FailedNow(b, i) <==> EverCloses(reg, start, es, i))
  }

  /** The schedule decides how every attempt ends, for any schedule. */
  lemma {:induction false} ScheduleDecides(reg: Registry, start: Bank, es: seq<Event>, i: nat)
    requires start.attempts == []
    ensures EndsAsScheduled(reg, start, es, i)
  {
    if es != [] {
      var before, e := es[..|es| - 1], es[|es| - 1];
      ScheduleDecides(reg, start, before, i);
      DecidesNext(reg, start, before, e, i);
      assert es == before + [e];
    }
  }

  lemma DecidesNext(reg: Registry, start: Bank, before: seq<Event>, e: Event, i: nat)
    requires EndsAsScheduled(reg, start, before, i)
    ensures EndsAsScheduled(reg, start, before + [e], i)
  {
    SettlesNext(reg, start, before, e, i);
    ClosesNext(reg, start, before, e, i);
    SettledAfter(reg, Exec(reg, start, before), e, i);
    OutcomeAfter(reg, Exec(reg, start, before), e, i);
    ExecNext(reg, start, before, e);
  }

  /**
   * A FAILED attempt stands beside its credit if and only if its commit was able to settle, before or
   * after, and the catch handler came before any update of its row that would have answered it.
   */
  lemma FailedBesideCreditIff(reg: Registry, start: Bank, es: seq<Event>, i: nat)
    requires start.attempts == []
    ensures FailedNow(Exec(reg, start, es), i) && SettledNow(Exec(reg, start, es), i) <==>
      EverSettles(reg, start, es, i) && FailureComesFirst(reg, start, es, i)
  {
    ScheduleDecides(reg, start, es, i);
  }

  predicate UnderNow(reg: Registry, b: Bank, i: nat, key: string) { i < |b.attempts| && Under(reg, b.attempts[i], key) }

  /** Some attempt under this key had a commit that was able to settle. */
  ghost predicate KeySettles(reg: Registry, start: Bank, es: seq<Event>, key: string) {
    exists i: nat :: UnderNow(reg, Exec(reg, start, es), i, key) && EverSettles(reg, start, es, i)
  }

  /** Some attempt under this key had the update of its row before any catch handler. */
  ghost predicate KeyIsAnswered(reg: Registry, start: Bank, es: seq<Event>, key: string) {
    exists i: nat :: UnderNow(reg, Exec(reg, start, es), i, key) && AnswerComesFirst(reg, start, es, i)
  }

  lemma KeySettlesIff(reg: Registry, start: Bank, es: seq<Event>, key: string)
    requires start.attempts == []
    ensures SettledUnder(reg, Exec(reg, start, es), key) <==> KeySettles(reg, start, es, key)
  {
    var b := Exec(reg, start, es);
    if SettledUnder(reg, b, key) {
      var i: nat :| i < |b.attempts| && Settled(b.attempts[i]) && Under(reg, b.attempts[i], key);
      ScheduleDecides(reg, start, es, i);
      assert UnderNow(reg, b, i, key);
    }
    if KeySettles(reg, start, es, key) {
      var i: nat :| UnderNow(reg, b, i, key) && EverSettles(reg, start, es, i);
      ScheduleDecides(reg, start, es, i);
      assert SettledNow(b, i);
    }
  }

  lemma KeyIsAnsweredIff(reg: Registry, start: Bank, es: seq<Event>, key: string)
    requires start.attempts == []
    ensures AnsweredUnder(reg, Exec(reg, start, es), key) <==> KeyIsAnswered(reg, start, es, key)
  {
    var b := Exec(reg, start, es);
    if AnsweredUnder(reg, b, key) {
      var i: nat :| i < |b.attempts| && Answered(b.attempts[i]) && Under(reg, b.attempts[i], key);
      ScheduleDecides(reg, start, es, i);
      assert UnderNow(reg, b, i, key);
    }
    if KeyIsAnswered(reg, start, es, key) {
      var i: nat :| UnderNow(reg, b, i, key) && AnswerComesFirst(reg, start, es, i);
      ScheduleDecides(reg, start, es, i);
      assert AnsweredNow(b, i);
    }
  }

  /**
   * Over any order, duplication and overlap of deliveries, any switching of modes and processes
   * dying or failing anywhere: a balance is its opening value plus the ledger's credits; a key is
   * credited once if some attempt under it had a commit that was able to settle, and never otherwise;
   * an answered key is credited, and it is answered if and only if for some attempt under it the
   * update of its row came before the catch handler.
   */
  lemma EachKeyIsCreditedOnce(reg: Registry, mode: Mode, opening: map<WalletId, int>, es: seq<Event>, key: string)
    ensures var start := Opening(mode, opening); var b := Exec(reg, start, es);
      && (forall w :: w in opening ==> w in b.wallets && b.wallets[w] == opening[w] + Total(b.ledger, w))
      && CountKey(b.ledger, key) == (if SettledUnder(reg, b, key) then 1 else 0)
      && (AnsweredUnder(reg, b, key) ==> CountKey(b.ledger, key) == 1)
      && (CountKey(b.ledger, key) == 1 <==> KeySettles(reg, start, es, key))
      && (AnsweredUnder(reg, b, key) <==> KeyIsAnswered(reg, start, es, key))
  {
    var start := Opening(mode, opening);
    var b := Exec(reg, start, es);
    Always(reg, mode, opening, es);
    DistinctKeysCountOnce(b.ledger, key);
    TakenIffSettled(reg, b, key);
    KeySettlesIff(reg, start, es, key);
    KeyIsAnsweredIff(reg, start, es, key);
  }

  lemma AnsweredIsSettled(reg: Registry, b: Bank)
    requires AttemptsOk(reg, b)
    ensures forall i :: 0 <= i < |b.attempts| && Answered(b.attempts[i]) ==> Settled(b.attempts[i])
  {
    assert forall i :: 0 <= i < |b.attempts| ==> AttemptOk(reg, b, b.attempts[i]);
  }

  predicate StaysIn(mode: Mode, es: seq<Event>) {
    forall i :: 0 <= i < |es| && es[i].SwitchMode? ==> es[i].mode == mode
  }

  predicate OneMode(b: Bank, mode: Mode) {
    b.mode == mode && forall i :: 0 <= i < |b.attempts| && b.attempts[i].mode.Some? ==> b.attempts[i].mode == Some(mode)
  }

  lemma OneModeKept(reg: Registry, b: Bank, e: Event, mode: Mode)
    requires OneMode(b, mode) && (e.SwitchMode? ==> e.mode == mode)
    ensures OneMode(Apply(reg, b, e), mode)
  {
  }

  lemma {:induction false} OneModeOnly(reg: Registry, mode: Mode, opening: map<WalletId, int>, es: seq<Event>)
    requires StaysIn(mode, es)
    ensures OneMode(Exec(reg, Opening(mode, opening), es), mode)
  {
    if es != [] {
      OneModeOnly(reg, mode, opening, es[..|es| - 1]);
      OneModeKept(reg, Exec(reg, Opening(mode, opening), es[..|es| - 1]), es[|es| - 1], mode);
    }
  }

  predicate OfPayment(reg: Registry, a: Attempt, paymentId: string) {
    a.eventId in reg.events && reg.events[a.eventId].paymentId == paymentId
  }

  /** Some attempt about this payment had its transaction commit or find the credit. */
  predicate PaymentSettled(reg: Registry, b: Bank, paymentId: string) {
    exists i :: 0 <= i < |b.attempts| && Settled(b.attempts[i]) && OfPayment(reg, b.attempts[i], paymentId)
  }

  predicate EventSettled(b: Bank, eventId: string) {
    exists i :: 0 <= i < |b.attempts| && Settled(b.attempts[i]) && b.attempts[i].eventId == eventId
  }

  predicate PaymentAnswered(reg: Registry, b: Bank, paymentId: string) {
    exists i :: 0 <= i < |b.attempts| && Answered(b.attempts[i]) && OfPayment(reg, b.attempts[i], paymentId)
  }

  predicate EventAnswered(b: Bank, eventId: string) {
    exists i :: 0 <= i < |b.attempts| && Answered(b.attempts[i]) && b.attempts[i].eventId == eventId
  }

  /** Every attempt whose commit was able to settle had its row updated, and before any catch handler ran. */
  ghost predicate EveryCommitAnswered(reg: Registry, start: Bank, es: seq<Event>) {
    forall i: nat :: EverSettles(reg, start, es, i) ==> AnswerComesFirst(reg, start, es, i)
  }

  predicate SettledMeansAnswered(b: Bank) { forall i: nat :: i < |b.attempts| && SettledNow(b, i) ==> AnsweredNow(b, i) }

  lemma AllAnsweredIff(reg: Registry, start: Bank, es: seq<Event>)
    requires start.attempts == [] && AttemptsOk(reg, Exec(reg, start, es))
    ensures EveryCommitAnswered(reg, start, es) <==> SettledMeansAnswered(Exec(reg, start, es))
  {
    var b := Exec(reg, start, es);
    if EveryCommitAnswered(reg, start, es) {
      forall i: nat | SettledNow(b, i)
        ensures AnsweredNow(b, i)
      {
        ScheduleDecides(reg, start, es, i);
      }
    }
    if SettledMeansAnswered(b) {
      forall i: nat | EverSettles(reg, start, es, i)
        ensures AnswerComesFirst(reg, start, es, i)
      {
        ScheduleDecides(reg, start, es, i);
        assert SettledNow(b, i) && AnsweredNow(b, i);
      }
    }
  }

  lemma AnswersCount(reg: Registry, b: Bank, paymentId: string, eventId: string)
    requires AttemptsOk(reg, b) && SettledMeansAnswered(b)
    ensures PaymentSettled(reg, b, paymentId) <==> PaymentAnswered(reg, b, paymentId)
    ensures EventSettled(b, eventId) <==> EventAnswered(b, eventId)
  {
    AnsweredIsSettled(reg, b);
    assert forall i: nat :: i < |b.attempts| && Settled(b.attempts[i]) ==> SettledNow(b, i) && AnsweredNow(b, i);
  }

  /** Every entry was made in this mode from registered facts. */
  predicate MadeIn(reg: Registry, mode: Mode, ledger: seq<Entry>) {
    forall i :: 0 <= i < |ledger| ==>
      ledger[i].mode == mode && ledger[i].eventId in reg.events && ledger[i] == EntryFor(reg, ledger[i].attempt, mode, ledger[i].eventId)
  }

  lemma EntryKey(reg: Registry, x: Entry, mode: Mode, eventId: string)
    requires eventId in reg.events && x.eventId in reg.events && x == EntryFor(reg, x.attempt, mode, x.eventId)
    ensures mode == Secure ==> (x.key == EntryFor(reg, 0, mode, eventId).key <==> x.paymentId == reg.events[eventId].paymentId)
    ensures mode == Vulnerable ==> (x.key == EntryFor(reg, 0, mode, eventId).key <==> x.eventId == eventId)
  {
    var y := EntryFor(reg, 0, mode, eventId);
    if x.key == y.key {
      KeysAreInjective(mode, x.paymentId, x.eventId, x.wallet, mode, y.paymentId, y.eventId, y.wallet);
    }
  }

  lemma {:induction false} KeyCountsItsPaymentOrEvent(reg: Registry, ledger: seq<Entry>, mode: Mode, eventId: string)
    requires MadeIn(reg, mode, ledger) && eventId in reg.events
    ensures var n := CountKey(ledger, EntryFor(reg, 0, mode, eventId).key);
      n == if mode == Secure then CountPayment(ledger, reg.events[eventId].paymentId) else CountEvent(ledger, eventId)
  {
    if ledger != [] {
      KeyCountsItsPaymentOrEvent(reg, ledger[..|ledger| - 1], mode, eventId);
      EntryKey(reg, ledger[|ledger| - 1], mode, eventId);
    }
  }

  /**
   * With SECURE throughout, a payment has one credit if any attempt about it settled and none
   * otherwise, whatever events, redeliveries, overlaps and failures led there; with VULNERABLE
   * throughout the same holds of each event, so a payment is credited once per event. If every
   * commit was answered, the answers count the credits too.
   */
  lemma DeliveredOnce(reg: Registry, mode: Mode, opening: map<WalletId, int>, es: seq<Event>, eventId: string)
    requires StaysIn(mode, es) && eventId in reg.events
    ensures var b := Exec(reg, Opening(mode, opening), es);
      var p := reg.events[eventId].paymentId;
      && (mode == Secure ==> CountPayment(b.ledger, p) == if PaymentSettled(reg, b, p) then 1 else 0)
      && (mode == Vulnerable ==> CountEvent(b.ledger, eventId) == if EventSettled(b, eventId) then 1 else 0)
      && (EveryCommitAnswered(reg, Opening(mode, opening), es) ==>
            && (mode == Secure ==> CountPayment(b.ledger, p) == if PaymentAnswered(reg, b, p) then 1 else 0)
            && (mode == Vulnerable ==> CountEvent(b.ledger, eventId) == if EventAnswered(b, eventId) then 1 else 0))
  {
    var b := Exec(reg, Opening(mode, opening), es);
    var key := EntryFor(reg, 0, mode, eventId).key;
    Always(reg, mode, opening, es);
    OneModeOnly(reg, mode, opening, es);
    EachKeyIsCreditedOnce(reg, mode, opening, es, key);
    AllAnsweredIff(reg, Opening(mode, opening), es);
    if EveryCommitAnswered(reg, Opening(mode, opening), es) {
      AnswersCount(reg, b, reg.events[eventId].paymentId, eventId);
    }
    LedgerMadeIn(reg, b, mode);
    KeyCountsItsPaymentOrEvent(reg, b.ledger, mode, eventId);
    SettledInOneMode(reg, b, mode, eventId);
  }

  lemma LedgerMadeIn(reg: Registry, b: Bank, mode: Mode)
    requires LedgerOk(reg, b)
    requires OneMode(b, mode)
    ensures MadeIn(reg, mode, b.ledger)
  {
    forall i | 0 <= i < |b.ledger|
      ensures b.ledger[i].mode == mode && b.ledger[i].eventId in reg.events
      ensures b.ledger[i] == EntryFor(reg, b.ledger[i].attempt, mode, b.ledger[i].eventId)
    {
      assert EntryOk(reg, b, b.ledger[i]);
    }
  }

  lemma SettledInOneMode(reg: Registry, b: Bank, mode: Mode, eventId: string)
    requires AttemptsOk(reg, b) && eventId in reg.events
    requires OneMode(b, mode)
    ensures mode == Secure ==>
      (SettledUnder(reg, b, EntryFor(reg, 0, mode, eventId).key) <==> PaymentSettled(reg, b, reg.events[eventId].paymentId))
    ensures mode == Vulnerable ==> (SettledUnder(reg, b, EntryFor(reg, 0, mode, eventId).key) <==> EventSettled(b, eventId))
  {
    forall i | 0 <= i < |b.attempts| && Settled(b.attempts[i])
      ensures Under(reg, b.attempts[i], EntryFor(reg, 0, mode, eventId).key) <==>
        if mode == Secure then OfPayment(reg, b.attempts[i], reg.events[eventId].paymentId) else b.attempts[i].eventId == eventId
    {
      assert AttemptOk(reg, b, b.attempts[i]);
      EntryKey(reg, EntryFor(reg, 0, mode, b.attempts[i].eventId), mode, eventId);
    }
  }

  // ------------------------------------------------------------------
  // Credited and not answered
  // ------------------------------------------------------------------

  function UpToCommit(id: string, payload: Payload): seq<Event> {
    [Deliver(id, payload, false)] + [StartAttempt(id)] + [ReadMode(0)] + [Commit(0)]
  }

  lemma CommitsFirst(reg: Registry, mode: Mode, opening: map<WalletId, int>, id: string, payload: Payload)
    requires Screen(reg, payload).None? && EntryFor(reg, 0, mode, payload.eventId).wallet in opening
    ensures var b := Exec(reg, Opening(mode, opening), UpToCommit(id, payload));
      b.attempts == [Attempt(id, payload.eventId, Some(mode), Credited, Pending)] && b.ledger == [EntryFor(reg, 0, mode, payload.eventId)]
  {
    var start := Opening(mode, opening);
    var es := [Deliver(id, payload, false)];
    assert [] + es == es;
    ExecNext(reg, start, [], es[0]);
    ExecNext(reg, start, es, StartAttempt(id));
    ExecNext(reg, start, es + [StartAttempt(id)], ReadMode(0));
    ExecNext(reg, start, es + [StartAttempt(id)] + [ReadMode(0)], Commit(0));
  }

  /**
   * Any delivery that would be credited can stop right after its commit: the key is credited while no
   * attempt is answered. If the call reported an error nevertheless, the catch handler leaves a FAILED
   * attempt beside the credit.
   */
  lemma CreditWithoutAnswerIsReachable(reg: Registry, mode: Mode, opening: map<WalletId, int>, id: string, payload: Payload)
    requires Screen(reg, payload).None? && EntryFor(reg, 0, mode, payload.eventId).wallet in opening
    ensures var key := EntryFor(reg, 0, mode, payload.eventId).key;
      var stopped := Exec(reg, Opening(mode, opening), UpToCommit(id, payload));
      var failed := Exec(reg, Opening(mode, opening), UpToCommit(id, payload) + [Fail(0)]);
      && CountKey(stopped.ledger, key) == 1 && !AnsweredUnder(reg, stopped, key)
      && CountKey(failed.ledger, key) == 1 && !AnsweredUnder(reg, failed, key)
      && failed.attempts == [Attempt(id, payload.eventId, Some(mode), Credited, Failed)]
  {
    var entry := EntryFor(reg, 0, mode, payload.eventId);
    CommitsFirst(reg, mode, opening, id, payload);
    ExecNext(reg, Opening(mode, opening), UpToCommit(id, payload), Fail(0));
    assert [entry][..0] == [];
    var stopped := Exec(reg, Opening(mode, opening), UpToCommit(id, payload));
    var failed := Exec(reg, Opening(mode, opening), UpToCommit(id, payload) + [Fail(0)]);
    assert Under(reg, stopped.attempts[0], entry.key) && Under(reg, failed.attempts[0], entry.key);
  }

  // ------------------------------------------------------------------
  // Order does not matter
  // ------------------------------------------------------------------

  /** Two entries under one key credit the same wallet with the same amount. */
  lemma KeyFixesTheCredit(reg: Registry, x: Entry, y: Entry)
    requires x.key == y.key && x.eventId in reg.events && y.eventId in reg.events
    requires x == EntryFor(reg, x.attempt, x.mode, x.eventId) && y == EntryFor(reg, y.attempt, y.mode, y.eventId)
    ensures x.wallet == y.wallet && x.amountMinor == y.amountMinor
  {
    KeysAreInjective(x.mode, x.paymentId, x.eventId, x.wallet, y.mode, y.paymentId, y.eventId, y.wallet);
  }

  function Without(ledger: seq<Entry>, i: nat): seq<Entry>
    requires i < |ledger|
  {
    ledger[..i] + ledger[i + 1..]
  }

  lemma WithoutBeforeLast(ledger: seq<Entry>, i: nat)
    requires i < |ledger| - 1
    ensures Without(ledger, i) == Without(ledger[..|ledger| - 1], i) + [ledger[|ledger| - 1]]
  {
  }

  lemma TotalOfAppend(ledger: seq<Entry>, x: Entry, w: WalletId)
    ensures Total(ledger + [x], w) == Total(ledger, w) + if x.wallet == w then x.amountMinor else 0
  {
    assert (ledger + [x])[..|ledger|] == ledger;
  }

  lemma {:induction false} TotalWithout(ledger: seq<Entry>, i: nat, w: WalletId)
    requires i < |ledger|
    ensures Total(ledger, w) == Total(Without(ledger, i), w) + if ledger[i].wallet == w then ledger[i].amountMinor else 0
  {
    var last := |ledger| - 1;
    if i == last {
      assert Without(ledger, i) == ledger[..last];
    } else {
      TotalWithout(ledger[..last], i, w);
      WithoutBeforeLast(ledger, i);
      TotalOfAppend(Without(ledger[..last], i), ledger[last], w);
    }
  }

  /** Removing one entry of a ledger with distinct keys removes its key and nothing else. */
  lemma KeysWithout(ledger: seq<Entry>, i: nat)
    requires i < |ledger| && DistinctKeys(ledger)
    ensures DistinctKeys(Without(ledger, i))
    ensures forall x :: x in Without(ledger, i) ==> x in ledger
    ensures forall key :: KeyTaken(Without(ledger, i), key) <==> KeyTaken(ledger, key) && key != ledger[i].key
  {
    var rest := Without(ledger, i);
    assert forall m :: 0 <= m < |rest| ==> rest[m] == ledger[if m < i then m else m + 1];
    forall key | KeyTaken(ledger, key) && key != ledger[i].key
      ensures KeyTaken(rest, key)
    {
      var m :| 0 <= m < |ledger| && ledger[m].key == key;
      assert rest[if m < i then m else m - 1] == ledger[m];
    }
  }

  ghost predicate SameKeys(a: seq<Entry>, b: seq<Entry>) { forall key :: KeyTaken(a, key) <==> KeyTaken(b, key) }

  predicate Agree(a: seq<Entry>, b: seq<Entry>) {
    forall x, y :: x in a && y in b && x.key == y.key ==> x.wallet == y.wallet && x.amountMinor == y.amountMinor
  }

  lemma {:induction false} SameCreditsSameTotal(a: seq<Entry>, b: seq<Entry>, w: WalletId)
    requires DistinctKeys(a) && DistinctKeys(b) && SameKeys(a, b) && Agree(a, b)
    ensures Total(a, w) == Total(b, w)
    decreases |a|
  {
    if a == [] {
      assert b != [] ==> KeyTaken(b, b[0].key);
    } else {
      var i := |a| - 1;
      assert KeyTaken(a, a[i].key);
      assert KeyTaken(b, a[i].key);
      var j :| 0 <= j < |b| && b[j].key == a[i].key;
      assert a[i] in a && b[j] in b;
      KeysWithout(a, i);
      KeysWithout(b, j);
      TotalWithout(a, i, w);
      TotalWithout(b, j, w);
      SameCreditsSameTotal(Without(a, i), Without(b, j), w);
    }
  }

  lemma LedgersAgree(reg: Registry, b: Bank, c: Bank)
    requires LedgerOk(reg, b) && LedgerOk(reg, c)
    ensures Agree(b.ledger, c.ledger)
  {
    forall x, y | x in b.ledger && y in c.ledger && x.key == y.key
      ensures x.wallet == y.wallet && x.amountMinor == y.amountMinor
    {
      assert EntryOk(reg, b, x) && EntryOk(reg, c, y);
      KeyFixesTheCredit(reg, x, y);
    }
  }

  /**
   * Two runs over the same registry that settled the same keys end with the same balances: the order
   * of deliveries, how often each was repeated, how they overlapped and what was answered leave no trace.
   */
  lemma BalancesDependOnKeysOnly(reg: Registry, opening: map<WalletId, int>, m: Mode, es: seq<Event>, n: Mode, fs: seq<Event>)
    requires forall key ::
      SettledUnder(reg, Exec(reg, Opening(m, opening), es), key) <==> SettledUnder(reg, Exec(reg, Opening(n, opening), fs), key)
    ensures Exec(reg, Opening(m, opening), es).wallets == Exec(reg, Opening(n, opening), fs).wallets
  {
    var b, c := Exec(reg, Opening(m, opening), es), Exec(reg, Opening(n, opening), fs);
    Always(reg, m, opening, es);
    Always(reg, n, opening, fs);
    LedgersAgree(reg, b, c);
    forall key
      ensures KeyTaken(b.ledger, key) <==> KeyTaken(c.ledger, key)
    {
      TakenIffSettled(reg, b, key);
      TakenIffSettled(reg, c, key);
    }
    forall w | w in opening
      ensures b.wallets[w] == c.wallets[w]
    {
      SameCreditsSameTotal(b.ledger, c.ledger, w);
    }
  }

  // ------------------------------------------------------------------
  // What a delivery must do
  // ------------------------------------------------------------------

  /** The payload names a registered event and repeats its payment, type, amount and currency exactly. */
  predicate RepeatsRegisteredFacts(reg: Registry, p: Payload) {
    && p.eventId in reg.events
    && p.paymentId == reg.events[p.eventId].paymentId
    && p.eventType == reg.events[p.eventId].eventType
    && p.amountMinor == reg.payments[reg.events[p.eventId].paymentId].amountMinor
    && p.currency == reg.payments[reg.events[p.eventId].paymentId].currency
  }

  /** A delivery is recorded exactly if its payload rewrites nothing, no fault is armed and its identity is new. */
  lemma DeliveryIsRecordedIff(reg: Registry, b: Bank, id: string, p: Payload, rejected: bool)
    ensures var c := Apply(reg, b, Deliver(id, p, rejected));
      if RepeatsRegisteredFacts(reg, p) && !rejected && id !in b.deliveries
      then c == b.(deliveries := b.deliveries[id := p.eventId])
      else c == b
  {
  }

  /** Why a delivery is refused: an unknown event, a rewritten fact, an armed fault, a used identity, in this order. */
  lemma RefusalsAreExact(reg: Registry, b: Bank, id: string, p: Payload, rejected: bool)
    ensures RecordDelivery(reg, b, id, p, rejected) ==
      if p.eventId !in reg.events then Err(NotFound)
      else if !RepeatsRegisteredFacts(reg, p) then Err(BusinessMismatch)
      else if rejected then Err(ControlledFaultRejection)
      else if id in b.deliveries then Err(DuplicateDeliveryIdentity)
      else Ok(b.(deliveries := b.deliveries[id := p.eventId]))
  {
  }

  predicate FreshDelivery(reg: Registry, b: Bank, id: string, p: Payload) {
    && RepeatsRegisteredFacts(reg, p) && id !in b.deliveries && !HasAttempt(b, id)
    && reg.payments[p.paymentId].wallet in b.wallets
  }

  function CreditKey(reg: Registry, mode: Mode, p: Payload): string
    requires RepeatsRegisteredFacts(reg, p)
  {
    DeriveIdempotencyKey(mode, p.paymentId, p.eventId, reg.payments[p.paymentId].wallet)
  }

  lemma StartsAttempt(reg: Registry, b: Bank, id: string, p: Payload)
    requires FreshDelivery(reg, b, id, p)
    ensures Apply(reg, Apply(reg, Apply(reg, b, Deliver(id, p, false)), StartAttempt(id)), ReadMode(|b.attempts|)) ==
      b.(deliveries := b.deliveries[id := p.eventId], attempts := b.attempts + [Attempt(id, p.eventId, Some(b.mode), NotRun, Pending)])
  {
    DeliveryIsRecordedIff(reg, b, id, p, false);
    var started := Apply(reg, Apply(reg, b, Deliver(id, p, false)), StartAttempt(id));
    assert started.attempts == b.attempts + [Attempt(id, p.eventId, None, NotRun, Pending)];
  }

  /**
   * A well-formed delivery that runs to its end credits the payment's wallet with the payment's amount
   * if its key is free, and otherwise answers that it is a duplicate and moves no money.
   */
  lemma DeliveryCredits(reg: Registry, b: Bank, id: string, p: Payload)
    requires FreshDelivery(reg, b, id, p)
    ensures var i, wallet := |b.attempts|, reg.payments[p.paymentId].wallet;
      var c := Exec(reg, b, Lifecycle(id, p, i));
      && |c.attempts| == i + 1
      && if KeyTaken(b.ledger, CreditKey(reg, b.mode, p))
         then c.attempts[i].outcome == IdempotentDuplicate && c.wallets == b.wallets && c.ledger == b.ledger
         else c.attempts[i].outcome == Applied && c.wallets == b.wallets[wallet := b.wallets[wallet] + p.amountMinor] && |c.ledger| == |b.ledger| + 1
  {
    var i := |b.attempts|;
    LifecycleRuns(reg, b, id, p, i);
    StartsAttempt(reg, b, id, p);
    AttemptCredits(reg, b.(deliveries := b.deliveries[id := p.eventId], attempts := b.attempts + [Attempt(id, p.eventId, Some(b.mode), NotRun, Pending)]), i, p);
  }

  lemma AttemptCredits(reg: Registry, b: Bank, i: nat, p: Payload)
    requires RepeatsRegisteredFacts(reg, p) && reg.payments[p.paymentId].wallet in b.wallets
    requires i < |b.attempts| && b.attempts[i].eventId == p.eventId && b.attempts[i].mode == Some(b.mode)
    requires b.attempts[i].transaction == NotRun && b.attempts[i].outcome == Pending
    ensures var wallet := reg.payments[p.paymentId].wallet;
      var c := Apply(reg, Apply(reg, Apply(reg, b, Commit(i)), Finalize(i)), Fail(i));
      && |c.attempts| == |b.attempts|
      && if KeyTaken(b.ledger, CreditKey(reg, b.mode, p))
         then c.attempts[i].outcome == IdempotentDuplicate && c.wallets == b.wallets && c.ledger == b.ledger
         else c.attempts[i].outcome == Applied && c.wallets == b.wallets[wallet := b.wallets[wallet] + p.amountMinor] && |c.ledger| == |b.ledger| + 1
  {
    AnswerOrFail(reg, Apply(reg, b, Commit(i)), i);
  }

  /** Every credit in the ledger is its payment's own: its wallet, its amount, and the event that caused it. */
  lemma CreditsAreThePaymentsOwn(reg: Registry, mode: Mode, opening: map<WalletId, int>, es: seq<Event>, k: nat)
    requires k < |Exec(reg, Opening(mode, opening), es).ledger|
    ensures var b := Exec(reg, Opening(mode, opening), es); var x := b.ledger[k];
      && x.eventId in reg.events && x.paymentId == reg.events[x.eventId].paymentId
      && x.wallet == reg.payments[x.paymentId].wallet && x.amountMinor == reg.payments[x.paymentId].amountMinor
      && x.attempt < |b.attempts| && b.attempts[x.attempt].eventId == x.eventId
  {
    Always(reg, mode, opening, es);
    assert EntryOk(reg, Exec(reg, Opening(mode, opening), es), Exec(reg, Opening(mode, opening), es).ledger[k]);
  }

  // ------------------------------------------------------------------
  // The target, updated in place
  // ------------------------------------------------------------------

  function AnswerTo(t: Transaction): Outcome {
    if t == Credited then Applied else if t == KeyWasTaken then IdempotentDuplicate else Failed
  }

  /** Run one after the other, the update of the row and the catch handler leave exactly one answer. */
  lemma AnswerOrFail(reg: Registry, b: Bank, i: nat)
    requires i < |b.attempts| && b.attempts[i].outcome == Pending
    ensures Apply(reg, Apply(reg, b, Finalize(i)), Fail(i)) == Put(b, i, b.attempts[i].(outcome := AnswerTo(b.attempts[i].transaction)))
  {
  }

  class DemoTarget {
    const reg: Registry
    var mode: Mode
    var deliveries: map<string, string>
    var attempts: seq<Attempt>
    var ledger: seq<Entry>
    var wallets: map<WalletId, int>

    constructor (reg: Registry, mode: Mode, wallets: map<WalletId, int>)
      ensures this.reg == reg && Rows() == Opening(mode, wallets)
    {
      this.reg, this.mode, this.wallets := reg, mode, wallets;
      deliveries, attempts, ledger := map[], [], [];
    }

    ghost function Rows(): Bank
      reads this
    {
      Bank(mode, deliveries, attempts, ledger, wallets)
    }

    /** An attempt belongs to a recorded delivery. */
    ghost predicate Valid()
      reads this
    {
      forall i :: 0 <= i < |attempts| ==> attempts[i].deliveryId in deliveries
    }

    /** Entry first, then the balance; a taken key, or a wallet that is not there, rolls both back. */
    method ApplyWalletCreditFinancialEffect(i: nat, processingMode: Mode, eventId: string) returns (ended: Transaction)
      requires i < |attempts| && attempts[i].transaction == NotRun
      requires attempts[i].eventId == eventId && attempts[i].mode == Some(processingMode) && eventId in reg.events
      modifies this`ledger, this`wallets
      ensures Put(Rows(), i, attempts[i].(transaction := ended)) == Credit(reg, old(Rows()), i)
    {
      var entry := EntryFor(reg, i, processingMode, eventId);
      var taken := false;
      for k := 0 to |ledger|
        invariant taken <==> exists j :: 0 <= j < k && ledger[j].key == entry.key
      {
        if ledger[k].key == entry.key { taken := true; }
      }
      var rollback := ledger;
      ledger := ledger + [entry];
      if entry.wallet !in wallets {
        ledger := rollback;
        return RolledBack;
      }
      if taken {
        ledger := rollback;
        return KeyWasTaken;
      }
      wallets := wallets[entry.wallet := wallets[entry.wallet] + entry.amountMinor];
      return Credited;
    }

    /** From the mode to the answer of a started attempt. */
    method RunAttempt(i: nat) returns (outcome: Outcome)
      requires i < |attempts| && attempts[i].mode.None? && attempts[i].transaction == NotRun && attempts[i].outcome == Pending
      requires attempts[i].eventId in reg.events
      modifies this`attempts, this`ledger, this`wallets
      ensures Rows() == Apply(reg, Apply(reg, Apply(reg, Apply(reg, old(Rows()), ReadMode(i)), Commit(i)), Finalize(i)), Fail(i))
      ensures |attempts| == |old(attempts)| && outcome == attempts[i].outcome
      ensures forall j :: 0 <= j < |attempts| ==> attempts[j].deliveryId == old(attempts)[j].deliveryId
    {
      ghost var before := Rows();
      attempts := attempts[i := attempts[i].(mode := Some(mode))];
      ghost var modeRead := Rows();
      assert Apply(reg, before, ReadMode(i)) == modeRead;
      var ended := ApplyWalletCreditFinancialEffect(i, mode, attempts[i].eventId);
      attempts := attempts[i := attempts[i].(transaction := ended)];
      assert Apply(reg, modeRead, Commit(i)) == Rows();
      AnswerOrFail(reg, Rows(), i);
      outcome := AnswerTo(ended);
      attempts := attempts[i := attempts[i].(outcome := outcome)];
    }

    /** One delivery with nothing overlapping and nothing lost: recorded, started, mode read, credited, answered. */
    method ProcessDelivery(id: string, payload: Payload, rejected: bool) returns (result: Result<Outcome, DeliveryError>)
      requires Valid()
      modifies this
      ensures Valid()
      ensures RecordDelivery(reg, old(Rows()), id, payload, rejected).Err? ==>
        Rows() == old(Rows()) && result == Err(RecordDelivery(reg, old(Rows()), id, payload, rejected).error)
      ensures RecordDelivery(reg, old(Rows()), id, payload, rejected).Ok? ==>
        var i := |old(attempts)|;
        && Rows() == Exec(reg, old(Rows()), Lifecycle(id, payload, i))
        && |attempts| == i + 1
        && result == if attempts[i].outcome == Failed then Err(ProcessingFailed) else Ok(attempts[i].outcome)
    {
      if payload.eventId !in reg.events { return Err(NotFound); }
      var event := reg.events[payload.eventId];
      var payment := reg.payments[event.paymentId];
      if payload.paymentId != event.paymentId { return Err(BusinessMismatch); }
      if payload.eventType != event.eventType { return Err(BusinessMismatch); }
      if payload.amountMinor != payment.amountMinor || payload.currency != payment.currency { return Err(BusinessMismatch); }
      if rejected { return Err(ControlledFaultRejection); }
      if id in deliveries { return Err(DuplicateDeliveryIdentity); }
      ghost var before := Rows();
      var i := |attempts|;
      deliveries := deliveries[id := payload.eventId];
      ghost var recorded := Rows();
      attempts := attempts + [Attempt(id, payload.eventId, None, NotRun, Pending)];
      ghost var started := Rows();
      var outcome := RunAttempt(i);
      LifecycleRuns(reg, before, id, payload, i);
      assert Apply(reg, before, Deliver(id, payload, false)) == recorded;
      assert Apply(reg, recorded, StartAttempt(id)) == started;
      return if outcome == Failed then Err(ProcessingFailed) else Ok(outcome);
    }
  }

  /** The events of one delivery in order; the last two write the answer, each only where it applies. */
  function Lifecycle(id: string, payload: Payload, i: nat): seq<Event> {
    [Deliver(id, payload, false)] + [StartAttempt(id)] + [ReadMode(i)] + [Commit(i)] + [Finalize(i)] + [Fail(i)]
  }

  lemma LifecycleRuns(reg: Registry, b: Bank, id: string, payload: Payload, i: nat)
    ensures Exec(reg, b, Lifecycle(id, payload, i)) ==
      Apply(reg, Apply(reg, Apply(reg, Apply(reg, Apply(reg, Apply(reg, b, Deliver(id, payload, false)), StartAttempt(id)),
        ReadMode(i)), Commit(i)), Finalize(i)), Fail(i))
  {
    var es := [Deliver(id, payload, false)];
    assert [] + es == es;
    ExecNext(reg, b, [], es[0]);
    ExecNext(reg, b, es, StartAttempt(id));
    ExecNext(reg, b, es + [StartAttempt(id)], ReadMode(i));
    ExecNext(reg, b, es + [StartAttempt(id)] + [ReadMode(i)], Commit(i));
    ExecNext(reg, b, es + [StartAttempt(id)] + [ReadMode(i)] + [Commit(i)], Finalize(i));
    ExecNext(reg, b, es + [StartAttempt(id)] + [ReadMode(i)] + [Commit(i)] + [Finalize(i)], Fail(i));
  }
}
