/**
 * What the lock-level machine of CheckoutLocks adds up to: exact counts when every mode is SECURE,
 * how far below zero the stock can go otherwise, and runs that get there.
 */
module CheckoutCounting {
  import opened Wrappers
  import opened Checkout
  import opened CheckoutLocks

  /**
   * The intents some submission has been decided for: its reserve transaction, or its failed check, has
   * ended. The processing attempt's own row is updated after that.
   */
  function DecidedIntents(w: World): set<IntentId> {
    set t | t in w.subs && w.subs[t].phase.Finished? :: w.subs[t].intent
  }

  /** The intents submitted under a request identity nobody used before. */
  function FreshIntents(w: World): set<IntentId> {
    set t | t in w.subs && !w.subs[t].phase.Started? && !w.subs[t].phase.Refused? :: w.subs[t].intent
  }

  predicate Quiescent(w: World) {
    forall t :: t in w.subs ==> w.subs[t].phase.Finished? || w.subs[t].phase.Refused?
  }

  function Min(a: int, b: int): int { if a <= b then a else b }

  // ------------------------------------------------------------------
  // Answers stay true
  // ------------------------------------------------------------------

  predicate AnswersOk(w: World) {
    forall t :: t in w.subs && w.subs[t].phase.Finished? ==> AnswerOk(w.subs[t], w.books)
  }

  predicate AnswerOk(s: Sub, b: Books)
    requires s.phase.Finished?
  {
    && (s.mode == Secure && s.phase.outcome != StockUnavailable ==> s.intent in b.settled)
    && (s.mode == Vulnerable ==> s.phase.outcome != IntentAlreadyAccepted)
    && (s.phase.outcome == StockUnavailable ==> b.remaining <= 0)
  }

  lemma AnswersKept(w: World, e: Event)
    requires LocksOk(w) && HoldersOk(w) && AnswersOk(w)
    ensures AnswersOk(Apply(w, e))
  {
    forall t | t in Apply(w, e).subs && Apply(w, e).subs[t].phase.Finished?
      ensures AnswerOk(Apply(w, e).subs[t], Apply(w, e).books)
    {
      assert t in w.subs;
    }
  }

  lemma {:induction false} AnswersStayTrue(units: nat, mode: Mode, es: seq<Event>)
    ensures Inv(Exec(Start(units, mode), es), units) && AnswersOk(Exec(Start(units, mode), es))
  {
    EveryInterleavingIsSerial(units, mode, es);
    if es != [] {
      AnswersStayTrue(units, mode, es[..|es| - 1]);
      AnswersKept(Exec(Start(units, mode), es[..|es| - 1]), es[|es| - 1]);
    }
  }

  lemma {:induction false} SettledGrows(w: World, es: seq<Event>, x: IntentId)
    requires x in w.books.settled
    ensures x in Exec(w, es).books.settled
  {
    if es != [] {
      SettledGrows(w, es[..|es| - 1], x);
    }
  }

  /**
   * Under arbitrary mode switching an intent has one SECURE order if it is SETTLED and none
   * otherwise; whoever is told INTENT_ALREADY_ACCEPTED is told so after that order was committed,
   * and nothing undoes it later.
   */
  lemma SecureOrderIffSettled(units: nat, mode: Mode, before: seq<Event>, e: Event, after: seq<Event>, x: IntentId)
    ensures var w := Exec(Start(units, mode), before);
      && (x in w.books.settled <==> OrdersOf(w.books.orders, x, Secure) == 1)
      && (x !in w.books.settled <==> OrdersOf(w.books.orders, x, Secure) == 0)
    ensures
      var w := Exec(Start(units, mode), before);
      var v := Apply(w, e);
      |v.log| > |w.log| && v.log[|w.log|].outcome == IntentAlreadyAccepted && v.log[|w.log|].intent == x ==>
        && OrdersOf(w.books.orders, x, Secure) == 1
        && OrdersOf(Exec(Start(units, mode), before + [e] + after).books.orders, x, Secure) == 1
  {
    EveryInterleavingIsSerial(units, mode, before);
    var w := Exec(Start(units, mode), before);
    var v := Apply(w, e);
    EventIsAtomicOrSilent(w, e);
    if |v.log| > |w.log| && v.log[|w.log|].outcome == IntentAlreadyAccepted && v.log[|w.log|].intent == x {
      AlreadyMeansSettled(w, e);
      assert (before + [e])[..|before + [e]| - 1] == before;
      ExecAppend(Start(units, mode), before + [e], after);
      SettledGrows(v, after, x);
      EveryInterleavingIsSerial(units, mode, before + [e] + after);
    }
  }

  lemma AlreadyMeansSettled(w: World, e: Event)
    requires |Apply(w, e).log| > |w.log| && Apply(w, e).log[|w.log|].outcome == IntentAlreadyAccepted
    ensures Apply(w, e).log[|w.log|].intent in w.books.settled && Apply(w, e).books == w.books
  {
  }

  // ------------------------------------------------------------------
  // SECURE only
  // ------------------------------------------------------------------

  predicate StaysSecure(es: seq<Event>) {
    forall i :: 0 <= i < |es| ==> es[i] != SwitchMode(Vulnerable)
  }

  predicate AllSecure(w: World) {
    w.mode == Secure && forall t :: t in w.subs ==> w.subs[t].mode == Secure
  }

  predicate SecureBooks(w: World) {
    |w.books.orders| == |w.books.settled| && w.books.remaining >= 0 && w.books.settled <= DecidedIntents(w)
  }

  lemma DecidedGrows(w: World, e: Event)
    ensures DecidedIntents(w) <= DecidedIntents(Apply(w, e))
  {
    var v := Apply(w, e);
    forall x | x in DecidedIntents(w)
      ensures x in DecidedIntents(v)
    {
      var t :| t in w.subs && w.subs[t].phase.Finished? && w.subs[t].intent == x;
      assert t in v.subs && v.subs[t] == w.subs[t];
    }
  }

  lemma AllSecureKept(w: World, e: Event)
    requires AllSecure(w) && e != SwitchMode(Vulnerable)
    ensures AllSecure(Apply(w, e))
  {
  }

  lemma SecureCommit(w: World, e: Event)
    requires LocksOk(w) && HoldersOk(w) && AllSecure(w) && Apply(w, e).books != w.books
    ensures var x := w.subs[e.t].intent;
      && x !in w.books.settled && w.books.remaining > 0
      && Apply(w, e).books == Accept(w.books, x, e.t, Secure).(settled := w.books.settled + {x})
      && x in DecidedIntents(Apply(w, e))
  {
    assert HolderOk(w, e.t);
    assert Apply(w, e).subs[e.t].phase.Finished?;
  }

  lemma SecureBooksKept(w: World, e: Event)
    requires LocksOk(w) && HoldersOk(w) && AllSecure(w) && SecureBooks(w)
    ensures SecureBooks(Apply(w, e))
  {
    DecidedGrows(w, e);
    if Apply(w, e).books != w.books {
      SecureCommit(w, e);
    }
  }

  lemma {:induction false} SecureAlways(units: nat, es: seq<Event>)
    requires StaysSecure(es)
    ensures AllSecure(Exec(Start(units, Secure), es)) && SecureBooks(Exec(Start(units, Secure), es))
  {
    if es != [] {
      var before := es[..|es| - 1];
      SecureAlways(units, before);
      EveryInterleavingIsSerial(units, Secure, before);
      AllSecureKept(Exec(Start(units, Secure), before), es[|es| - 1]);
      SecureBooksKept(Exec(Start(units, Secure), before), es[|es| - 1]);
    }
  }

  lemma {:induction false} UnitsReserved(b: Books, n: nat)
    requires n <= |b.reservations| && forall k: nat :: k < |b.reservations| ==> b.reservations[k].units == 1
    ensures Reserved(b.reservations[..n]) == n
  {
    if n > 0 {
      UnitsReserved(b, n - 1);
      assert b.reservations[..n][..n - 1] == b.reservations[..n - 1];
    }
  }

  /** Whatever the modes, stock still there and stock handed out add up to the opening stock. */
  lemma {:induction false} UnitsAreConserved(units: nat, mode: Mode, es: seq<Event>)
    ensures var b := Exec(Start(units, mode), es).books;
      b.remaining + |b.orders| == units && b.remaining + Reserved(b.reservations) == units
  {
    EveryInterleavingIsSerial(units, mode, es);
    var b := Exec(Start(units, mode), es).books;
    UnitsReserved(b, |b.reservations|);
    assert b.reservations[..|b.reservations|] == b.reservations;
  }

  /**
   * With every mode SECURE there are, in every state of every interleaving and whatever crashed,
   * exactly min(opening units, intents decided) orders, each for its own intent, and the stock is
   * never negative.
   */
  lemma SecureCountIsExact(units: nat, es: seq<Event>)
    requires StaysSecure(es)
    ensures var w := Exec(Start(units, Secure), es);
      && |w.books.orders| == Min(units, |DecidedIntents(w)|)
      && w.books.remaining == units - |w.books.orders| >= 0
      && (Quiescent(w) ==> |w.books.orders| == Min(units, |FreshIntents(w)|))
  {
    var w := Exec(Start(units, Secure), es);
    SecureAlways(units, es);
    AnswersStayTrue(units, Secure, es);
    UnitsAreConserved(units, Secure, es);
    var decided := DecidedIntents(w);
    SubsetSize(w.books.settled, decided);
    if w.books.remaining > 0 {
      assert decided <= w.books.settled;
      assert decided == w.books.settled;
    }
    if Quiescent(w) {
      assert FreshIntents(w) == decided;
    }
  }

  lemma {:induction false} SubsetSize(a: set<IntentId>, b: set<IntentId>)
    requires a <= b
    ensures |a| <= |b|
  {
    if a != {} {
      var x :| x in a;
      SubsetSize(a - {x}, b - {x});
    }
  }

  // ------------------------------------------------------------------
  // No deadlock
  // ------------------------------------------------------------------

  /** The next event of submission `t`. */
  function Next(w: World, t: AttemptId): Event
    requires t in w.subs
  {
    match w.subs[t].phase
    case Started => Register(t)
    case Registered => if w.subs[t].mode == Vulnerable then Check(t) else LockIntent(t)
    case Passed => WriteNaive(t)
    case Writing => CommitNaive(t)
    case HoldsIntent => TakeUnit(t)
    case HoldsBoth => CommitSecure(t)
    case _ => Crash(t)
  }

  predicate CanMove(w: World, t: AttemptId)
    requires t in w.subs
  {
    Unfinished(w.subs[t].phase) && Apply(w, Next(w, t)).subs != w.subs
  }

  /** As long as a submission is undecided, it can move or the one it waits for, at most two locks away, can. */
  lemma SomeoneCanMove(units: nat, mode: Mode, es: seq<Event>, t: AttemptId)
    requires t in Exec(Start(units, mode), es).subs && Unfinished(Exec(Start(units, mode), es).subs[t].phase)
    ensures exists u :: u in Exec(Start(units, mode), es).subs && CanMove(Exec(Start(units, mode), es), u)
  {
    EveryInterleavingIsSerial(units, mode, es);
    var w := Exec(Start(units, mode), es);
    HolderCanMove(w, t);
  }

  lemma PhaseChanges(w: World, t: AttemptId)
    requires t in w.subs && Apply(w, Next(w, t)).subs[t].phase != w.subs[t].phase
    ensures Apply(w, Next(w, t)).subs != w.subs
  {
  }

  lemma StockHolderCanMove(w: World, t: AttemptId)
    requires LocksOk(w) && t in w.subs && HoldsStock(w.subs[t].phase)
    ensures CanMove(w, t)
  {
    PhaseChanges(w, t);
  }

  lemma IntentHolderCanMove(w: World, t: AttemptId)
    requires LocksOk(w) && HoldersOk(w) && t in w.subs && HoldsAnIntent(w.subs[t].phase)
    ensures CanMove(w, t) || (w.stockLock.Some? && w.stockLock.value in w.subs && CanMove(w, w.stockLock.value))
  {
    if w.stockLock.Some? {
      StockHolderCanMove(w, w.stockLock.value);
    } else {
      PhaseChanges(w, t);
    }
  }

  lemma HolderCanMove(w: World, t: AttemptId)
    requires LocksOk(w) && HoldersOk(w) && t in w.subs && Unfinished(w.subs[t].phase)
    ensures exists u :: u in w.subs && CanMove(w, u)
  {
    var x := w.subs[t].intent;
    if w.subs[t].phase == Registered && w.subs[t].mode == Secure && x in w.intentLocks {
      IntentHolderCanMove(w, w.intentLocks[x]);
    } else if HoldsAnIntent(w.subs[t].phase) {
      IntentHolderCanMove(w, t);
    } else if w.stockLock.Some? && w.subs[t].phase != Started && w.subs[t].phase != Registered {
      StockHolderCanMove(w, w.stockLock.value);
    } else {
      PhaseChanges(w, t);
      assert CanMove(w, t);
    }
  }

  // ------------------------------------------------------------------
  // Below zero
  // ------------------------------------------------------------------

  /** The VULNERABLE submissions between their check and their commit. */
  function Gap(w: World): set<AttemptId> {
    set t | t in w.subs && InGap(w.subs[t].phase)
  }

  predicate GapWithin(w: World, es: seq<Event>, k: nat) {
    forall i :: 0 <= i <= |es| ==> |Gap(Exec(w, es[..i]))| <= k
  }

  predicate StaysVulnerable(es: seq<Event>) {
    forall i :: 0 <= i < |es| ==> es[i] != SwitchMode(Secure)
  }

  predicate OnlyVulnerable(w: World) {
    w.mode == Vulnerable && forall t :: t in w.subs ==> w.subs[t].mode == Vulnerable
  }

  /** Stock net of the submissions that will still take a unit unchecked. */
  function Net(w: World): int { w.books.remaining - |Gap(w)| }

  lemma OneMember(a: set<AttemptId>, b: set<AttemptId>, t: AttemptId)
    requires forall u :: u != t ==> (u in b <==> u in a)
    ensures t in b && t !in a ==> |b| == |a| + 1
    ensures t !in b && t in a ==> |b| == |a| - 1
    ensures (t in b <==> t in a) ==> b == a
  {
    if t in b && t !in a {
      assert b == a + {t};
    } else if t !in b && t in a {
      assert a == b + {t};
    }
  }

  lemma OthersKept(w: World, e: Event)
    requires !e.SwitchMode?
    ensures forall u :: u != e.t ==> (u in Gap(Apply(w, e)) <==> u in Gap(w))
  {
  }

  /** An event that leaves the books alone grows the gap only behind a check that saw a unit. */
  lemma NetAfterQuietEvent(w: World, e: Event)
    requires Apply(w, e).books == w.books
    ensures Net(Apply(w, e)) >= Net(w) || w.books.remaining >= 1
  {
    var v := Apply(w, e);
    if v.subs == w.subs {
      assert Gap(v) == Gap(w);
    } else {
      OthersKept(w, e);
      OneMember(Gap(w), Gap(v), e.t);
    }
  }

  lemma NetAfterCommit(w: World, e: Event)
    requires HoldersOk(w) && Apply(w, e).books != w.books
    ensures Apply(w, e).books.remaining == w.books.remaining - 1
    ensures if e.CommitSecure? then At(w, e.t, HoldsBoth) && w.books.remaining > 0 else Net(Apply(w, e)) == Net(w)
  {
    OthersKept(w, e);
    OneMember(Gap(w), Gap(Apply(w, e)), e.t);
  }

  /** The floor under `Net`: a unit lower when SECURE commits may slip between a check and its act. */
  lemma NetStaysAbove(w: World, e: Event, k: nat, floor: int)
    requires HoldersOk(w) && |Gap(Apply(w, e))| <= k && Net(w) >= floor
    requires floor <= 0 - k || (floor <= 1 - k && OnlyVulnerable(w))
    ensures Net(Apply(w, e)) >= floor
  {
    if Apply(w, e).books == w.books {
      NetAfterQuietEvent(w, e);
    } else {
      NetAfterCommit(w, e);
    }
  }

  lemma {:induction false} OnlyVulnerableAlways(units: nat, es: seq<Event>)
    requires StaysVulnerable(es)
    ensures OnlyVulnerable(Exec(Start(units, Vulnerable), es))
  {
    if es != [] {
      OnlyVulnerableAlways(units, es[..|es| - 1]);
    }
  }

  lemma {:induction false} NetAlways(units: nat, mode: Mode, es: seq<Event>, k: nat, floor: int)
    requires GapWithin(Start(units, mode), es, k) && floor <= 0
    requires floor <= 0 - k || (floor <= 1 - k && mode == Vulnerable && StaysVulnerable(es))
    ensures Net(Exec(Start(units, mode), es)) >= floor
  {
    if es != [] {
      var before := es[..|es| - 1];
      forall i | 0 <= i <= |before|
        ensures |Gap(Exec(Start(units, mode), before[..i]))| <= k
      {
        assert before[..i] == es[..i];
      }
      NetAlways(units, mode, before, k, floor);
      EveryInterleavingIsSerial(units, mode, before);
      if floor > 0 - k {
        OnlyVulnerableAlways(units, before);
      }
      assert es[..|es|] == es;
      NetStaysAbove(Exec(Start(units, mode), before), es[|es| - 1], k, floor);
    }
  }

  /**
   * With at most `k` submissions between check and act at any moment the stock never drops below
   * 1 - k in VULNERABLE mode, and never below -k when the modes may be mixed.
   */
  lemma StockFloor(units: nat, mode: Mode, es: seq<Event>, k: nat)
    requires GapWithin(Start(units, mode), es, k)
    ensures Exec(Start(units, mode), es).books.remaining >= 0 - k
    ensures mode == Vulnerable && StaysVulnerable(es) && k >= 1 ==> Exec(Start(units, mode), es).books.remaining >= 1 - k
  {
    NetAlways(units, mode, es, k, 0 - k);
    if mode == Vulnerable && StaysVulnerable(es) && k >= 1 {
      NetAlways(units, mode, es, k, 1 - k);
    }
  }

  /** A SECURE commit takes the last unit while `k` submissions that saw one are still to commit. */
  predicate Squeezes(w: World, e: Event, k: nat) {
    e.CommitSecure? && At(w, e.t, HoldsBoth) && w.books.remaining == 1 && |Gap(w)| == k
  }

  predicate EverSqueezed(w: World, es: seq<Event>, k: nat) {
    es != [] && (EverSqueezed(w, es[..|es| - 1], k) || Squeezes(Exec(w, es[..|es| - 1]), es[|es| - 1], k))
  }

  lemma NetUnlessSqueezed(w: World, e: Event, k: nat)
    requires HoldersOk(w) && |Gap(w)| <= k && |Gap(Apply(w, e))| <= k && Net(w) >= 1 - k && !Squeezes(w, e, k)
    ensures Net(Apply(w, e)) >= 1 - k
  {
    if Apply(w, e).books == w.books {
      NetAfterQuietEvent(w, e);
    } else {
      OthersKept(w, e);
      OneMember(Gap(w), Gap(Apply(w, e)), e.t);
      NetAfterCommit(w, e);
    }
  }

  lemma GapWithinPrefix(w: World, es: seq<Event>, k: nat)
    requires es != [] && GapWithin(w, es, k)
    ensures GapWithin(w, es[..|es| - 1], k) && |Gap(Exec(w, es[..|es| - 1]))| <= k && |Gap(Exec(w, es))| <= k
  {
    var before := es[..|es| - 1];
    assert forall i :: 0 <= i <= |before| ==> before[..i] == es[..i];
    assert es[..|es|] == es;
  }

  /** Under any mixture of modes the stock stays at 1 - k unless a SECURE commit squeezes `k` waiting submissions. */
  lemma {:induction false} FloorUnlessSqueezed(units: nat, mode: Mode, es: seq<Event>, k: nat)
    requires k >= 1 && GapWithin(Start(units, mode), es, k) && !EverSqueezed(Start(units, mode), es, k)
    ensures Net(Exec(Start(units, mode), es)) >= 1 - k
    ensures Exec(Start(units, mode), es).books.remaining >= 1 - k
  {
    if es != [] {
      var before := es[..|es| - 1];
      GapWithinPrefix(Start(units, mode), es, k);
      FloorUnlessSqueezed(units, mode, before, k);
      EveryInterleavingIsSerial(units, mode, before);
      NetUnlessSqueezed(Exec(Start(units, mode), before), es[|es| - 1], k);
    }
  }

  predicate NoChecks(es: seq<Event>) { forall i :: 0 <= i < |es| ==> !es[i].Check? }

  lemma GapOnlyShrinks(w: World, e: Event)
    requires !e.Check?
    ensures |Gap(Apply(w, e))| <= |Gap(w)|
  {
    if e.SwitchMode? {
      assert Gap(Apply(w, e)) == Gap(w);
    } else {
      OthersKept(w, e);
      OneMember(Gap(w), Gap(Apply(w, e)), e.t);
    }
  }

  lemma {:induction false} GapStaysWithin(w: World, a: seq<Event>, b: seq<Event>, k: nat)
    requires GapWithin(w, a, k) && NoChecks(b)
    ensures GapWithin(w, a + b, k)
  {
    if b == [] {
      assert a + b == a;
    } else {
      var init, e := b[..|b| - 1], b[|b| - 1];
      GapStaysWithin(w, a, init, k);
      assert a + b == (a + init) + [e];
      OneMoreWithin(w, a + init, e, k);
    }
  }

  lemma OneMoreWithin(w: World, es: seq<Event>, e: Event, k: nat)
    requires GapWithin(w, es, k) && !e.Check?
    ensures GapWithin(w, es + [e], k)
  {
    var more := es + [e];
    assert more[..|es|] == es && es[..|es|] == es && more[..|more|] == more;
    GapOnlyShrinks(Exec(w, es), e);
    forall i | 0 <= i <= |more|
      ensures |Gap(Exec(w, more[..i]))| <= k
    {
      assert i <= |es| ==> more[..i] == es[..i];
    }
  }

  /** All submissions in the gap have only their write and commit left: they can all go through. */
  lemma {:induction false} GapCanDrain(w: World, gap: set<AttemptId>)
    requires w.stockLock == None && forall t :: t in gap ==> At(w, t, Passed)
    ensures exists es :: NoChecks(es) && Exec(w, es).books.remaining == w.books.remaining - |gap|
    decreases |gap|
  {
    if gap == {} {
      assert Exec(w, []) == w && NoChecks([]);
    } else {
      var t :| t in gap;
      var v := Apply(Apply(w, WriteNaive(t)), CommitNaive(t));
      DrainOne(w, t);
      GapCanDrain(v, gap - {t});
      var es :| NoChecks(es) && Exec(v, es).books.remaining == v.books.remaining - |gap - {t}|;
      Exec2(w, WriteNaive(t), CommitNaive(t));
      ExecAppend(w, [WriteNaive(t), CommitNaive(t)], es);
      assert NoChecks([WriteNaive(t), CommitNaive(t)] + es);
    }
  }

  lemma SqueezeLeavesWaiting(w: World, e: Event, k: nat)
    requires HoldersOk(w) && LocksOk(w) && Squeezes(w, e, k)
    ensures var v := Apply(w, e);
      && v.stockLock == None && v.books.remaining == 0 && |Gap(v)| == k
      && forall t :: t in Gap(v) ==> At(v, t, Passed)
  {
    OthersKept(w, e);
    OneMember(Gap(w), Gap(Apply(w, e)), e.t);
  }

  /**
   * Exactly then is one unit more lost: a run that squeezes `k` submissions can go on, without another
   * check, to -k.
   */
  lemma SqueezeReachesTheFloor(units: nat, mode: Mode, es: seq<Event>, e: Event, k: nat)
    requires GapWithin(Start(units, mode), es, k) && Squeezes(Exec(Start(units, mode), es), e, k)
    ensures exists after ::
      && GapWithin(Start(units, mode), (es + [e]) + after, k)
      && Exec(Start(units, mode), (es + [e]) + after).books.remaining == 0 - k
  {
    var start := Start(units, mode);
    var w := Exec(start, es);
    EveryInterleavingIsSerial(units, mode, es);
    SqueezeLeavesWaiting(w, e, k);
    assert (es + [e])[..|es|] == es;
    GapCanDrain(Apply(w, e), Gap(Apply(w, e)));
    var after :| NoChecks(after) && Exec(Apply(w, e), after).books.remaining == 0 - k;
    OneMoreWithin(start, es, e, k);
    GapStaysWithin(start, es + [e], after, k);
    ExecAppend(start, es + [e], after);
  }

  // ------------------------------------------------------------------
  // The floors are reached
  // ------------------------------------------------------------------

  /** Submissions 0..k-1, each with its own request and intent, all checked while one unit is there. */
  function Rush(k: nat): seq<Event> {
    if k == 0 then [] else Rush(k - 1) + [Begin(k - 1, k - 1, k - 1), Register(k - 1), Check(k - 1)]
  }

  function Drain(k: nat): seq<Event> {
    if k == 0 then [] else Drain(k - 1) + [WriteNaive(k - 1), CommitNaive(k - 1)]
  }

  /** One SECURE submission takes the unit the others have seen. */
  function Overtake(k: nat): seq<Event> {
    [SwitchMode(Secure), Begin(k, k, k), Register(k), LockIntent(k), TakeUnit(k), CommitSecure(k)]
  }

  ghost predicate Rushed(w: World, k: nat) {
    && w.mode == Vulnerable && w.stockLock == None && w.intentLocks == map[]
    && w.books == Opening(1)
    && (forall t: nat :: t in w.subs <==> t < k)
    && (forall t :: t in w.subs ==> w.subs[t] == Sub(t, t, Vulnerable, Passed))
    && (forall r :: r in w.requests ==> r < k)
  }

  lemma Exec3(w: World, a: Event, b: Event, c: Event)
    ensures Exec(w, [a, b, c]) == Apply(Apply(Apply(w, a), b), c)
  {
    assert [a, b, c][..2] == [a, b] && [a, b][..1] == [a] && [a][..0] == [];
    assert Exec(w, [a]) == Apply(w, a);
    assert Exec(w, [a, b]) == Apply(Apply(w, a), b);
  }

  lemma Exec2(w: World, a: Event, b: Event)
    ensures Exec(w, [a, b]) == Apply(Apply(w, a), b)
  {
    assert [a, b][..1] == [a] && [a][..0] == [];
    assert Exec(w, [a]) == Apply(w, a);
  }

  lemma RushOne(w: World, k: nat)
    requires Rushed(w, k)
    ensures Rushed(Apply(Apply(Apply(w, Begin(k, k, k)), Register(k)), Check(k)), k + 1)
  {
    var started := Apply(w, Begin(k, k, k));
    var registered := Apply(started, Register(k));
    assert started == w.(subs := w.subs[k := Sub(k, k, Vulnerable, Started)]);
    assert registered == w.(subs := w.subs[k := Sub(k, k, Vulnerable, Registered)], requests := w.requests + {k});
  }

  lemma RushNext(w: World, es: seq<Event>, k: nat)
    requires Rushed(Exec(w, es), k)
    ensures Rushed(Exec(w, es + [Begin(k, k, k), Register(k), Check(k)]), k + 1)
  {
    ExecAppend(w, es, [Begin(k, k, k), Register(k), Check(k)]);
    Exec3(Exec(w, es), Begin(k, k, k), Register(k), Check(k));
    RushOne(Exec(w, es), k);
  }

  lemma RushStarts()
    ensures Rushed(Exec(Start(1, Vulnerable), []), 0)
  {
  }

  lemma {:induction false} RushLoads(k: nat)
    ensures Rushed(Exec(Start(1, Vulnerable), Rush(k)), k)
  {
    if k == 0 {
      RushStarts();
    } else {
      RushLoads(k - 1);
      RushNext(Start(1, Vulnerable), Rush(k - 1), k - 1);
    }
  }

  /** `j` of the `k` waiting submissions have committed. */
  predicate Drained(w: World, from: World, j: nat, k: nat) {
    && w.stockLock == None
    && w.books.remaining == from.books.remaining - j
    && |w.books.orders| == |from.books.orders| + j
    && (forall t :: j <= t < k ==> At(w, t, Passed))
  }

  lemma DrainOne(w: World, t: AttemptId)
    requires w.stockLock == None && At(w, t, Passed)
    ensures var v := Apply(Apply(w, WriteNaive(t)), CommitNaive(t));
      && v.stockLock == None
      && v.books == Accept(w.books, w.subs[t].intent, t, Vulnerable)
      && (forall u :: u != t && At(w, u, Passed) ==> At(v, u, Passed))
  {
  }

  lemma DrainNext(w: World, es: seq<Event>, j: nat, k: nat)
    requires j < k && Drained(Exec(w, es), w, j, k)
    ensures Drained(Exec(w, es + [WriteNaive(j), CommitNaive(j)]), w, j + 1, k)
  {
    ExecAppend(w, es, [WriteNaive(j), CommitNaive(j)]);
    Exec2(Exec(w, es), WriteNaive(j), CommitNaive(j));
    DrainOne(Exec(w, es), j);
  }

  lemma {:induction false} DrainEmpties(w: World, j: nat, k: nat)
    requires j <= k && w.stockLock == None && forall t :: 0 <= t < k ==> At(w, t, Passed)
    ensures Drained(Exec(w, Drain(j)), w, j, k)
  {
    if j > 0 {
      DrainEmpties(w, j - 1, k);
      DrainNext(w, Drain(j - 1), j - 1, k);
    }
  }

  predicate ChecksBelow(es: seq<Event>, k: nat) {
    forall i :: 0 <= i < |es| && es[i].Check? ==> es[i].t < k
  }

  /** Only submissions numbered below `k` are in the gap. */
  predicate GapBelow(w: World, k: nat) {
    forall t :: t in w.subs && t >= k ==> !InGap(w.subs[t].phase)
  }

  lemma GapBelowKept(w: World, e: Event, k: nat)
    requires GapBelow(w, k) && (e.Check? ==> e.t < k)
    ensures GapBelow(Apply(w, e), k)
  {
  }

  lemma {:induction false} BelowAlways(w: World, es: seq<Event>, k: nat)
    requires ChecksBelow(es, k) && GapBelow(w, k)
    ensures GapWithin(w, es, k) && GapBelow(Exec(w, es), k)
  {
    if es != [] {
      var before := es[..|es| - 1];
      BelowAlways(w, before, k);
      GapBelowKept(Exec(w, before), es[|es| - 1], k);
      assert forall i :: 0 <= i < |es| ==> es[..i] == before[..i];
    }
    FewBelow(Gap(Exec(w, es)), k);
    assert es[..|es|] == es;
  }

  lemma {:induction false} FewBelow(s: set<AttemptId>, k: nat)
    requires forall t :: t in s ==> t < k
    ensures |s| <= k
  {
    if k == 0 {
      assert s == {};
    } else {
      FewBelow(s - {k - 1}, k - 1);
      assert s == s - {k - 1} || s == (s - {k - 1}) + {k - 1};
    }
  }

  lemma {:induction false} ScriptsAreBelow(k: nat, n: nat)
    requires k <= n
    ensures ChecksBelow(Rush(k), n) && ChecksBelow(Drain(k), n)
    ensures StaysVulnerable(Rush(k)) && StaysVulnerable(Drain(k))
  {
    if k > 0 {
      ScriptsAreBelow(k - 1, n);
    }
  }

  /** With one unit and `k` submissions in the gap, some VULNERABLE run makes `k` orders and ends at 1 - k. */
  lemma VulnerableFloorIsReached(k: nat)
    requires k >= 1
    ensures exists es ::
      && StaysVulnerable(es) && GapWithin(Start(1, Vulnerable), es, k)
      && Exec(Start(1, Vulnerable), es).books.remaining == 1 - k
      && |Exec(Start(1, Vulnerable), es).books.orders| == k
  {
    var start := Start(1, Vulnerable);
    var es := Rush(k) + Drain(k);
    ScriptsAreBelow(k, k);
    BelowAlways(start, es, k);
    RushLoads(k);
    DrainEmpties(Exec(start, Rush(k)), k, k);
    ExecAppend(start, Rush(k), Drain(k));
    assert StaysVulnerable(es);
  }

  lemma OvertakeRegisters(w: World, k: nat)
    requires Rushed(w, k)
    ensures Apply(Apply(Apply(w, SwitchMode(Secure)), Begin(k, k, k)), Register(k))
         == w.(mode := Secure, subs := w.subs[k := Sub(k, k, Secure, Registered)], requests := w.requests + {k})
  {
    var s := w.(mode := Secure);
    assert Apply(s, Begin(k, k, k)) == s.(subs := w.subs[k := Sub(k, k, Secure, Started)]);
    assert s.subs[k := Sub(k, k, Secure, Started)][k := Sub(k, k, Secure, Registered)] == s.subs[k := Sub(k, k, Secure, Registered)];
  }

  lemma OvertakeReserves(w: World, k: AttemptId)
    requires At(w, k, Registered) && w.subs[k].mode == Secure && w.subs[k].intent !in w.books.settled && w.books.remaining == 1
    requires w.stockLock == None && w.intentLocks == map[]
    ensures var v := Apply(Apply(Apply(w, LockIntent(k)), TakeUnit(k)), CommitSecure(k));
      && v.stockLock == None && v.books.remaining == 0
      && (forall t :: t != k && At(w, t, Passed) ==> At(v, t, Passed))
  {
  }

  lemma OvertakeTakesTheUnit(w: World, k: nat)
    requires Rushed(w, k)
    ensures var v := Exec(w, Overtake(k));
      && v.stockLock == None && v.books.remaining == 0
      && (forall t :: 0 <= t < k ==> At(v, t, Passed))
  {
    var first, second := [SwitchMode(Secure), Begin(k, k, k), Register(k)], [LockIntent(k), TakeUnit(k), CommitSecure(k)];
    assert Overtake(k) == first + second;
    ExecAppend(w, first, second);
    Exec3(w, SwitchMode(Secure), Begin(k, k, k), Register(k));
    OvertakeRegisters(w, k);
    Exec3(Exec(w, first), LockIntent(k), TakeUnit(k), CommitSecure(k));
    OvertakeReserves(Exec(w, first), k);
    assert forall t :: 0 <= t < k ==> At(Exec(w, first), t, Passed);
  }

  /** With mixed modes one unit more can be lost: some run ends at -k. */
  lemma MixedFloorIsReached(k: nat)
    ensures exists es :: GapWithin(Start(1, Vulnerable), es, k) && Exec(Start(1, Vulnerable), es).books.remaining == 0 - k
  {
    var start := Start(1, Vulnerable);
    var es := Rush(k) + Overtake(k) + Drain(k);
    ScriptsAreBelow(k, k);
    BelowAlways(start, es, k);
    RushLoads(k);
    OvertakeTakesTheUnit(Exec(start, Rush(k)), k);
    ExecAppend(start, Rush(k), Overtake(k));
    DrainEmpties(Exec(start, Rush(k) + Overtake(k)), k, k);
    ExecAppend(start, Rush(k) + Overtake(k), Drain(k));
  }
}
