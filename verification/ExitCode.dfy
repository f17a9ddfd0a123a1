/**
 * The exit decision (packages/cli/src/exit-code.ts) and the two projections that feed it
 * (packages/cli/src/orchestrator.ts): a reduction over sets of bound verdicts.
 */
module ExitCode {
  import opened Wrappers
  import opened Text
  import opened Json

  datatype ExitClass = Pass | InvariantFail | NotEvaluable | ExecutionFailure | UsageError

  function ExitCodeFor(c: ExitClass): nat {
    match c
    case Pass => 0
    case InvariantFail => 1
    case NotEvaluable => 2
    case ExecutionFailure => 3
    case UsageError => 4
  }

  const EXIT_CODES := [Pass, InvariantFail, NotEvaluable, ExecutionFailure, UsageError]

  /** The class of a code, if any has it. */
  method ExitClassFor(code: int) returns (c: Option<ExitClass>)
    ensures c.Some? ==> ExitCodeFor(c.value) == code
    ensures c.None? ==> forall x: ExitClass :: ExitCodeFor(x) != code
  {
    for k := 0 to |EXIT_CODES|
      invariant forall j :: 0 <= j < k ==> ExitCodeFor(EXIT_CODES[j]) != code
    {
      if ExitCodeFor(EXIT_CODES[k]) == code { return Some(EXIT_CODES[k]); }
    }
    assert forall x: ExitClass :: EXIT_CODES[ExitCodeFor(x)] == x;
    return None;
  }

  const STRICT := Ascii("strict-coverage/v1")

  // ------------------------------------------------------------------
  // Inputs
  // ------------------------------------------------------------------

  datatype Verdict = VerdictPass | VerdictFail | VerdictNotEvaluable
  datatype SubjectVerdict = SubjectVerdict(key: Text, subject: Text, verdict: Verdict)

  /** `mode` is None when the bound key has no authoritative proof row. */
  datatype Domain = Domain(key: Text, mode: Option<Text>, declared: seq<Text>, eligible: seq<Text>, missing: seq<Text>,
                           unexpectedCount: nat, gapCount: nat)

  datatype Anomaly = Anomaly(kind: Text, key: Option<Text>, subject: Option<Text>, detail: Text)
  datatype TerminalState = Completed | Failed | Cancelled

  datatype Input = Input(terminal: Option<TerminalState>, failureReason: Option<Text>, verified: Option<bool>,
                         verdicts: seq<SubjectVerdict>, domains: seq<Domain>, anomalies: seq<Anomaly>, authorizationFailure: Option<Text>)

  datatype Message =
    | Given(text: Text)
    | NeverTerminal
    | TerminalStateIs(state: TerminalState)
    | Unverified
    | Failing(labels: Text)
    | Because(reasons: Text)
    | NoInvariants
    | EverythingPasses(bound: nat)

  /** `MessageText(reason)` is the reason as it is printed. */
  datatype Classification = Classification(exitClass: ExitClass, exitCode: nat, reason: Message, rule: nat)

  function Classified(c: ExitClass, reason: Message, rule: nat): Classification { Classification(c, ExitCodeFor(c), reason, rule) }

  // ------------------------------------------------------------------
  // Lists built element by element
  // ------------------------------------------------------------------

  function Flatten<T, U>(f: T -> seq<U>, s: seq<T>): seq<U> {
    if s == [] then [] else Flatten(f, s[..|s| - 1]) + f(s[|s| - 1])
  }

  lemma {:induction false} FlattenElements<T, U>(f: T -> seq<U>, s: seq<T>)
    ensures forall x :: x in Flatten(f, s) <==> exists e :: e in s && x in f(e)
    ensures Flatten(f, s) == [] <==> forall e :: e in s ==> f(e) == []
  {
    if s != [] {
      var last := |s| - 1;
      FlattenElements(f, s[..last]);
      assert s == s[..last] + [s[last]];
    }
  }

  lemma WithoutLast<T>(s: seq<T>, i: nat)
    requires i < |s| - 1
    ensures var rest, last := s[..i] + s[i + 1..], |s| - 1;
      rest != [] && rest[..|rest| - 1] == s[..last][..i] + s[..last][i + 1..] && rest[|rest| - 1] == s[last] && s[..last][i] == s[i]
  {
  }

  lemma {:induction false} FlattenWithout<T, U>(f: T -> seq<U>, s: seq<T>, i: nat)
    requires i < |s|
    ensures multiset(Flatten(f, s)) == multiset(Flatten(f, s[..i] + s[i + 1..])) + multiset(f(s[i]))
  {
    var last := |s| - 1;
    if i == last {
      assert s[..i] + s[i + 1..] == s[..last];
    } else {
      FlattenWithout(f, s[..last], i);
      WithoutLast(s, i);
    }
  }

  lemma {:induction false} FlattenForgetsOrder<T, U>(f: T -> seq<U>, a: seq<T>, b: seq<T>)
    requires multiset(a) == multiset(b)
    ensures multiset(Flatten(f, a)) == multiset(Flatten(f, b))
    decreases |a|
  {
    assert |multiset(a)| == |a| && |multiset(b)| == |b|;
    if a != [] {
      var last := |a| - 1;
      assert a[last] in multiset(b);
      var j :| 0 <= j < |b| && b[j] == a[last];
      RemoveOne(a, b, j);
      FlattenForgetsOrder(f, a[..last], b[..j] + b[j + 1..]);
      FlattenWithout(f, b, j);
    }
  }

  lemma RemoveOne<T>(a: seq<T>, b: seq<T>, j: nat)
    requires a != [] && multiset(a) == multiset(b) && j < |b| && b[j] == a[|a| - 1]
    ensures multiset(a[..|a| - 1]) == multiset(b[..j] + b[j + 1..])
  {
    assert a == a[..|a| - 1] + [a[|a| - 1]];
    assert b == b[..j] + [b[j]] + b[j + 1..];
    assert multiset(a[..|a| - 1]) == multiset(a) - multiset{a[|a| - 1]};
    assert multiset(b[..j] + b[j + 1..]) == multiset(b) - multiset{b[j]};
  }

  // ------------------------------------------------------------------
  // Reasons
  // ------------------------------------------------------------------

  datatype Reason =
    | NoProof(key: Text)
    | NoSubject(key: Text)
    | MissingSubject(key: Text, subject: Text)
    | Unexpected(key: Text, count: nat)
    | Gaps(key: Text, count: nat)
    | Uncovered(key: Text, subject: Text)
    | NoVerdict(key: Text)
    | NotEvaluableSubject(key: Text, subject: Text)
    | Unbound(key: Text)
    | Anomalous(anomaly: Anomaly)
    | NotAuthorized(failure: Text)

  function Bound(key: Text, rest: Text): Text { Ascii("bound invariant ") + key + rest }

  function Render(r: Reason): Text {
    match r
    case NoProof(key) => Bound(key, Ascii(" has no authoritative proof"))
    case NoSubject(key) => Bound(key, Ascii(" declares no subject (no covered domain exists)"))
    case MissingSubject(key, subject) => Bound(key, Ascii(" is missing declared subject ") + subject)
    case Unexpected(key, count) =>
      Bound(key, Ascii(" has ") + Digits(count) + Ascii(" undeclared same-scope subject(s) (coverage anomaly)"))
    case Gaps(key, count) => Bound(key, Ascii(" has ") + Digits(count) + Ascii(" persisted eligibility evidence gap(s)"))
    case Uncovered(key, subject) => Bound(key, Ascii(" is missing a current verdict for eligible subject ") + subject)
    case NoVerdict(key) =>
      Bound(key, Ascii(" has no persisted verdict for its subject domain (missing verdict = NOT_EVALUABLE, never a PASS)"))
    case NotEvaluableSubject(key, subject) => Bound(key, Ascii(" subject ") + subject + Ascii(" is NOT_EVALUABLE"))
    case Unbound(key) => Ascii("subject verdict names an unbound invariant ") + key
    case Anomalous(a) =>
      a.kind
      + (if a.key.None? then [] else
           Ascii(" (") + a.key.value + (if a.subject.None? then [] else Ascii("/") + a.subject.value) + Ascii(")"))
      + Ascii(": ") + a.detail
    case NotAuthorized(failure) => Ascii("publication not authorized: ") + failure
  }

  predicate Covers(vs: seq<SubjectVerdict>, key: Text, subject: Text) {
    exists i :: 0 <= i < |vs| && vs[i].key == key && vs[i].subject == subject
  }

  predicate HasVerdict(vs: seq<SubjectVerdict>, key: Text) { exists i :: 0 <= i < |vs| && vs[i].key == key }

  predicate HasDomain(ds: seq<Domain>, key: Text) { exists i :: 0 <= i < |ds| && ds[i].key == key }

  function MissingReason(key: Text): Text -> seq<Reason> { (s: Text) => [MissingSubject(key, s)] }

  function UncoveredReason(key: Text, vs: seq<SubjectVerdict>): Text -> seq<Reason> {
    (s: Text) => if Covers(vs, key, s) then [] else [Uncovered(key, s)]
  }

  function VerdictReason(key: Text): SubjectVerdict -> seq<Reason> {
    (v: SubjectVerdict) => if v.key == key && v.verdict == VerdictNotEvaluable then [NotEvaluableSubject(key, v.subject)] else []
  }

  function StrictReasons(d: Domain, vs: seq<SubjectVerdict>): seq<Reason> {
    (if d.declared == [] then [NoSubject(d.key)] else [])
    + Flatten(MissingReason(d.key), d.missing)
    + (if d.unexpectedCount > 0 then [Unexpected(d.key, d.unexpectedCount)] else [])
    + (if d.gapCount > 0 then [Gaps(d.key, d.gapCount)] else [])
    + Flatten(UncoveredReason(d.key, vs), d.eligible)
  }

  function DomainReasons(d: Domain, vs: seq<SubjectVerdict>): seq<Reason> {
    if d.mode.None? then [NoProof(d.key)]
    else
      (if d.mode.value == STRICT then StrictReasons(d, vs) else [])
      + (if HasVerdict(vs, d.key) then [] else [NoVerdict(d.key)])
      + Flatten(VerdictReason(d.key), vs)
  }

  function DomainReason(vs: seq<SubjectVerdict>): Domain -> seq<Reason> { (d: Domain) => DomainReasons(d, vs) }

  function UnboundReason(ds: seq<Domain>): SubjectVerdict -> seq<Reason> { (v: SubjectVerdict) => if HasDomain(ds, v.key) then [] else [Unbound(v.key)] }

  function AnomalyReason(): Anomaly -> seq<Reason> { (a: Anomaly) => [Anomalous(a)] }

  /** Everything that stands against a verdict, in the order it is found. */
  function Reasons(input: Input): seq<Reason> {
    Flatten(DomainReason(input.verdicts), input.domains)
    + Flatten(UnboundReason(input.domains), input.verdicts)
    + Flatten(AnomalyReason(), input.anomalies)
    + if input.authorizationFailure.Some? then [NotAuthorized(input.authorizationFailure.value)] else []
  }

  function FailLabel(): SubjectVerdict -> seq<Text> {
    (v: SubjectVerdict) => if v.verdict == VerdictFail then [v.key + Ascii("/") + v.subject] else []
  }

  function FailLabels(vs: seq<SubjectVerdict>): seq<Text> { Flatten(FailLabel(), vs) }

  function RenderOne(): Reason -> seq<Text> { (r: Reason) => [Render(r)] }

  function Cut(t: Text): Text { if |t| <= 500 then t else t[..500] }

  /** Sorted, repetitions kept. */
  function FailText(labels: seq<Text>): Text { Join(SortTexts(labels), Ascii(", ")) }

  /** Distinct texts, sorted, joined, cut. */
  function ReasonText(reasons: seq<Reason>): Text { Cut(Join(SortDistinct(Flatten(RenderOne(), reasons)), Ascii("; "))) }

  function StateName(s: TerminalState): Text {
    match s
    case Completed => Ascii("COMPLETED")
    case Failed => Ascii("FAILED")
    case Cancelled => Ascii("CANCELLED")
  }

  function MessageText(m: Message): Text {
    match m
    case Given(text) => text
    case NeverTerminal => Ascii("the run did not reach a terminal state (no trusted execution truth exists)")
    case TerminalStateIs(s) => Ascii("run terminal state is ") + StateName(s)
    case Unverified => Ascii("evidence-chain integrity verification failed or could not be performed")
    case Failing(labels) => Ascii("bound subject evaluation(s) FAIL: ") + labels
    case Because(reasons) => reasons
    case NoInvariants => Ascii("the scenario binds no invariants; no trusted verdict exists to classify")
    case EverythingPasses(bound) =>
      Ascii("run COMPLETED, evidence chain verified, and every eligible subject of all ") + Digits(bound) + Ascii(" bound invariant(s) PASS")
  }

  function OrElse(t: Option<Text>, otherwise: Message): Message { if t.Some? then Given(t.value) else otherwise }

  /** The decision by precedence: execution and integrity, then FAIL, then anything not evaluable, then PASS. */
  function Decision(input: Input): Classification {
    if input.terminal.None? then Classified(ExecutionFailure, OrElse(input.failureReason, NeverTerminal), 1)
    else if input.terminal.value != Completed then
      Classified(ExecutionFailure, OrElse(input.failureReason, TerminalStateIs(input.terminal.value)), 1)
    else if input.verified != Some(true) then Classified(ExecutionFailure, OrElse(input.failureReason, Unverified), 1)
    else if FailLabels(input.verdicts) != [] then Classified(InvariantFail, Failing(FailText(FailLabels(input.verdicts))), 2)
    else if Reasons(input) != [] then Classified(NotEvaluable, Because(ReasonText(Reasons(input))), 3)
    else if input.domains == [] then Classified(NotEvaluable, NoInvariants, 3)
    else Classified(Pass, EverythingPasses(|input.domains|), 4)
  }

  // ------------------------------------------------------------------
  // The classifier
  // ------------------------------------------------------------------

  lemma FlattenNext<T, U>(f: T -> seq<U>, s: seq<T>, k: nat)
    requires k < |s|
    ensures Flatten(f, s[..k + 1]) == Flatten(f, s[..k]) + f(s[k])
  {
    assert s[..k + 1][..k] == s[..k];
  }

  method MissingSubjects(d: Domain, found: seq<Reason>) returns (reasons: seq<Reason>)
    ensures reasons == found + Flatten(MissingReason(d.key), d.missing)
  {
    reasons := found;
    for k := 0 to |d.missing|
      invariant reasons == found + Flatten(MissingReason(d.key), d.missing[..k])
    {
      FlattenNext(MissingReason(d.key), d.missing, k);
      reasons := reasons + [MissingSubject(d.key, d.missing[k])];
    }
    assert d.missing[..|d.missing|] == d.missing;
  }

  method UncoveredSubjects(d: Domain, vs: seq<SubjectVerdict>, found: seq<Reason>) returns (reasons: seq<Reason>)
    ensures reasons == found + Flatten(UncoveredReason(d.key, vs), d.eligible)
  {
    reasons := found;
    for k := 0 to |d.eligible|
      invariant reasons == found + Flatten(UncoveredReason(d.key, vs), d.eligible[..k])
    {
      FlattenNext(UncoveredReason(d.key, vs), d.eligible, k);
      if !Covers(vs, d.key, d.eligible[k]) { reasons := reasons + [Uncovered(d.key, d.eligible[k])]; }
    }
    assert d.eligible[..|d.eligible|] == d.eligible;
  }

  method StrictDomain(d: Domain, vs: seq<SubjectVerdict>) returns (reasons: seq<Reason>)
    ensures reasons == StrictReasons(d, vs)
  {
    reasons := [];
    if d.declared == [] { reasons := reasons + [NoSubject(d.key)]; }
    reasons := MissingSubjects(d, reasons);
    if d.unexpectedCount > 0 { reasons := reasons + [Unexpected(d.key, d.unexpectedCount)]; }
    if d.gapCount > 0 { reasons := reasons + [Gaps(d.key, d.gapCount)]; }
    reasons := UncoveredSubjects(d, vs, reasons);
  }

  method NotEvaluableSubjects(key: Text, vs: seq<SubjectVerdict>, found: seq<Reason>) returns (reasons: seq<Reason>)
    ensures reasons == found + Flatten(VerdictReason(key), vs)
  {
    reasons := found;
    for k := 0 to |vs|
      invariant reasons == found + Flatten(VerdictReason(key), vs[..k])
    {
      FlattenNext(VerdictReason(key), vs, k);
      if vs[k].key == key && vs[k].verdict == VerdictNotEvaluable {
        reasons := reasons + [NotEvaluableSubject(key, vs[k].subject)];
      }
    }
    assert vs[..|vs|] == vs;
  }

  method OneDomain(d: Domain, vs: seq<SubjectVerdict>) returns (reasons: seq<Reason>)
    ensures reasons == DomainReasons(d, vs)
  {
    if d.mode.None? { return [NoProof(d.key)]; }
    reasons := [];
    if d.mode.value == STRICT { reasons := StrictDomain(d, vs); }
    if !HasVerdict(vs, d.key) { reasons := reasons + [NoVerdict(d.key)]; }
    reasons := NotEvaluableSubjects(d.key, vs, reasons);
  }

  method AllDomains(ds: seq<Domain>, vs: seq<SubjectVerdict>) returns (reasons: seq<Reason>)
    ensures reasons == Flatten(DomainReason(vs), ds)
  {
    reasons := [];
    for k := 0 to |ds|
      invariant reasons == Flatten(DomainReason(vs), ds[..k])
    {
      FlattenNext(DomainReason(vs), ds, k);
      var found := OneDomain(ds[k], vs);
      reasons := reasons + found;
    }
    assert ds[..|ds|] == ds;
  }

  method UnboundVerdicts(vs: seq<SubjectVerdict>, ds: seq<Domain>, found: seq<Reason>) returns (reasons: seq<Reason>)
    ensures reasons == found + Flatten(UnboundReason(ds), vs)
  {
    reasons := found;
    for k := 0 to |vs|
      invariant reasons == found + Flatten(UnboundReason(ds), vs[..k])
    {
      FlattenNext(UnboundReason(ds), vs, k);
      if !HasDomain(ds, vs[k].key) { reasons := reasons + [Unbound(vs[k].key)]; }
    }
    assert vs[..|vs|] == vs;
  }

  method CollectReasons(input: Input) returns (reasons: seq<Reason>)
    ensures reasons == Reasons(input)
  {
    var anomalies := input.anomalies;
    reasons := AllDomains(input.domains, input.verdicts);
    reasons := UnboundVerdicts(input.verdicts, input.domains, reasons);
    ghost var found := reasons;
    for k := 0 to |anomalies|
      invariant reasons == found + Flatten(AnomalyReason(), anomalies[..k])
    {
      FlattenNext(AnomalyReason(), anomalies, k);
      reasons := reasons + [Anomalous(anomalies[k])];
    }
    assert anomalies[..|anomalies|] == anomalies;
    if input.authorizationFailure.Some? { reasons := reasons + [NotAuthorized(input.authorizationFailure.value)]; }
  }

  method ClassifyExit(input: Input) returns (c: Classification)
    ensures c == Decision(input)
  {
    if input.terminal.None? { return Classified(ExecutionFailure, OrElse(input.failureReason, NeverTerminal), 1); }
    if input.terminal.value != Completed {
      return Classified(ExecutionFailure, OrElse(input.failureReason, TerminalStateIs(input.terminal.value)), 1);
    }
    if input.verified != Some(true) { return Classified(ExecutionFailure, OrElse(input.failureReason, Unverified), 1); }
    var fails := FailLabels(input.verdicts);
    if |fails| > 0 { return Classified(InvariantFail, Failing(FailText(fails)), 2); }
    var reasons := CollectReasons(input);
    if |reasons| > 0 { return Classified(NotEvaluable, Because(ReasonText(reasons)), 3); }
    if |input.domains| == 0 { return Classified(NotEvaluable, NoInvariants, 3); }
    return Classified(Pass, EverythingPasses(|input.domains|), 4);
  }

  // ------------------------------------------------------------------
  // The class
  // ------------------------------------------------------------------

  predicate IsNotEvaluable(v: SubjectVerdict, key: Text) { v.key == key && v.verdict == VerdictNotEvaluable }

  /** The bound domain of one key is there and fully covered. */
  predicate FullyCovered(d: Domain, vs: seq<SubjectVerdict>) {
    && d.mode.Some?
    && (d.mode.value == STRICT ==>
          && d.declared != [] && d.missing == [] && d.unexpectedCount == 0 && d.gapCount == 0
          && forall s :: s in d.eligible ==> Covers(vs, d.key, s))
    && HasVerdict(vs, d.key)
  }

  predicate Trusted(input: Input) { input.terminal == Some(Completed) && input.verified == Some(true) }

  predicate NothingInTheWay(input: Input) {
    && (forall d :: d in input.domains ==> FullyCovered(d, input.verdicts))
    && (forall v :: v in input.verdicts ==> v.verdict != VerdictNotEvaluable && HasDomain(input.domains, v.key))
    && input.anomalies == [] && input.authorizationFailure.None?
  }

  lemma StrictReasonsIff(d: Domain, vs: seq<SubjectVerdict>)
    ensures StrictReasons(d, vs) == [] <==>
      && d.declared != [] && d.missing == [] && d.unexpectedCount == 0 && d.gapCount == 0
      && forall s :: s in d.eligible ==> Covers(vs, d.key, s)
  {
    FlattenElements(MissingReason(d.key), d.missing);
    FlattenElements(UncoveredReason(d.key, vs), d.eligible);
    assert d.missing != [] ==> d.missing[0] in d.missing;
  }

  lemma DomainReasonsIff(d: Domain, vs: seq<SubjectVerdict>)
    ensures DomainReasons(d, vs) == [] <==> FullyCovered(d, vs) && forall v :: v in vs ==> !IsNotEvaluable(v, d.key)
  {
    StrictReasonsIff(d, vs);
    FlattenElements(VerdictReason(d.key), vs);
  }

  lemma NoReasonIff(input: Input)
    ensures Reasons(input) == [] <==> NothingInTheWay(input)
  {
    var ds, vs := input.domains, input.verdicts;
    FlattenElements(DomainReason(vs), ds);
    FlattenElements(UnboundReason(ds), vs);
    FlattenElements(AnomalyReason(), input.anomalies);
    assert input.anomalies != [] ==> input.anomalies[0] in input.anomalies;
    forall d | d in ds
      ensures DomainReason(vs)(d) == [] <==> FullyCovered(d, vs) && forall v :: v in vs ==> !IsNotEvaluable(v, d.key)
    {
      DomainReasonsIff(d, vs);
    }
    if Reasons(input) == [] {
      EveryVerdictIsEvaluable(ds, vs);
    }
  }

  lemma EveryVerdictIsEvaluable(ds: seq<Domain>, vs: seq<SubjectVerdict>)
    requires forall v :: v in vs ==> HasDomain(ds, v.key)
    requires forall d, v :: d in ds && v in vs ==> !IsNotEvaluable(v, d.key)
    ensures forall v :: v in vs ==> v.verdict != VerdictNotEvaluable
  {
    forall v | v in vs
      ensures v.verdict != VerdictNotEvaluable
    {
      var i :| 0 <= i < |ds| && ds[i].key == v.key;
      assert ds[i] in ds;
      assert !IsNotEvaluable(v, ds[i].key);
    }
  }

  predicate SomeFail(vs: seq<SubjectVerdict>) { exists i :: 0 <= i < |vs| && vs[i].verdict == VerdictFail }

  lemma FailLabelsIff(vs: seq<SubjectVerdict>)
    ensures FailLabels(vs) != [] <==> SomeFail(vs)
  {
    FlattenElements(FailLabel(), vs);
    if SomeFail(vs) {
      var i :| 0 <= i < |vs| && vs[i].verdict == VerdictFail;
      assert vs[i] in vs;
    }
  }

  function ClassOf(input: Input): ExitClass {
    if !Trusted(input) then ExecutionFailure
    else if FailLabels(input.verdicts) != [] then InvariantFail
    else if Reasons(input) != [] || input.domains == [] then NotEvaluable
    else Pass
  }

  lemma DecisionClass(input: Input)
    ensures Decision(input).exitClass == ClassOf(input) && Decision(input).exitCode == ExitCodeFor(ClassOf(input))
  {
  }

  /**
   * The class, from the facts alone: PASS exactly for a completed, verified run with a non-empty
   * bound domain that is fully covered and all PASS; FAIL exactly when a trusted run has a failing
   * bound verdict, whatever else is missing; an untrusted run is an execution failure whatever its
   * verdicts say.
   */
  lemma ClassIff(input: Input)
    ensures Decision(input).exitClass == ExecutionFailure <==> !Trusted(input)
    ensures Decision(input).exitClass == InvariantFail <==> Trusted(input) && SomeFail(input.verdicts)
    ensures Decision(input).exitClass == Pass <==>
      && Trusted(input) && input.domains != [] && NothingInTheWay(input)
      && forall i :: 0 <= i < |input.verdicts| ==> input.verdicts[i].verdict == VerdictPass
    ensures Decision(input).exitClass != UsageError && Decision(input).exitCode == ExitCodeFor(Decision(input).exitClass)
  {
    DecisionClass(input);
    FailLabelsIff(input.verdicts);
    NoReasonIff(input);
    assert forall i :: 0 <= i < |input.verdicts| ==> input.verdicts[i] in input.verdicts;
  }

  /** The numbers of the exit contract, and which inputs get which: 0 is never given but to a complete pass. */
  lemma ExitCodeIsExact(input: Input)
    ensures var code := Decision(input).exitCode;
      && (code == 3 <==> !Trusted(input))
      && (code == 1 <==> Trusted(input) && SomeFail(input.verdicts))
      && (code == 0 <==>
            && Trusted(input) && input.domains != [] && NothingInTheWay(input)
            && forall i :: 0 <= i < |input.verdicts| ==> input.verdicts[i].verdict == VerdictPass)
      && code in {0, 1, 2, 3}
    ensures ExitCodeFor(UsageError) == 4
    ensures Decision(input).rule == match Decision(input).exitCode case 3 => 1 case 1 => 2 case 2 => 3 case _ => 4
  {
    ClassIff(input);
  }

  function FailingOnes(vs: seq<SubjectVerdict>): set<nat> { set k: nat | k < |vs| && vs[k].verdict == VerdictFail }

  /** The labels of a FAIL are `key/subject` of the failing verdicts, one each. */
  lemma {:induction false} FailLabelsAre(vs: seq<SubjectVerdict>)
    ensures |FailLabels(vs)| == |FailingOnes(vs)|
    ensures forall t :: t in FailLabels(vs) <==> exists v :: v in vs && v.verdict == VerdictFail && t == v.key + [47] + v.subject
  {
    assert Ascii("/") == [47];
    FlattenElements(FailLabel(), vs);
    if vs != [] {
      var n := |vs| - 1;
      FailLabelsAre(vs[..n]);
      assert FailingOnes(vs) == if vs[n].verdict == VerdictFail then FailingOnes(vs[..n]) + {n} else FailingOnes(vs[..n]);
    }
  }

  /** The first 500 code units, or all. */
  predicate AtMost500(cut: Text, t: Text) { cut <= t && |cut| == if |t| < 500 then |t| else 500 }

  /** The reason beside the class: a given failure reason comes first, and each rule has its own message. */
  lemma ReasonIsExact(input: Input)
    ensures var reason := Decision(input).reason;
      if !Trusted(input) then
        reason == if input.failureReason.Some? then Given(input.failureReason.value)
                  else if input.terminal.None? then NeverTerminal
                  else if input.terminal != Some(Completed) then TerminalStateIs(input.terminal.value)
                  else Unverified
      else if SomeFail(input.verdicts) then reason == Failing(Join(SortTexts(FailLabels(input.verdicts)), Ascii(", ")))
      else if !NothingInTheWay(input) then
        reason.Because? && AtMost500(reason.reasons, Join(SortDistinct(Flatten(RenderOne(), Reasons(input))), Ascii("; ")))
      else reason == if input.domains == [] then NoInvariants else EverythingPasses(|input.domains|)
  {
    FailLabelsIff(input.verdicts);
    NoReasonIff(input);
  }

  /** What a reason says, over the input: it is found exactly if this holds. */
  predicate Holds(input: Input, x: Reason) {
    match x
    case NoProof(key) => exists d :: d in input.domains && d.key == key && d.mode.None?
    case NoSubject(key) => exists d :: d in input.domains && d.key == key && Strict(d) && d.declared == []
    case MissingSubject(key, s) => exists d :: d in input.domains && d.key == key && Strict(d) && s in d.missing
    case Unexpected(key, n) => exists d :: d in input.domains && d.key == key && Strict(d) && d.unexpectedCount == n > 0
    case Gaps(key, n) => exists d :: d in input.domains && d.key == key && Strict(d) && d.gapCount == n > 0
    case Uncovered(key, s) =>
      && !(exists v :: v in input.verdicts && v.key == key && v.subject == s)
      && exists d :: d in input.domains && d.key == key && Strict(d) && s in d.eligible
    case NoVerdict(key) =>
      && !(exists v :: v in input.verdicts && v.key == key)
      && exists d :: d in input.domains && d.key == key && d.mode.Some?
    case NotEvaluableSubject(key, s) =>
      && (exists v :: v in input.verdicts && v.key == key && v.subject == s && v.verdict == VerdictNotEvaluable)
      && exists d :: d in input.domains && d.key == key && d.mode.Some?
    case Unbound(key) =>
      && (exists v :: v in input.verdicts && v.key == key)
      && !(exists d :: d in input.domains && d.key == key)
    case Anomalous(a) => a in input.anomalies
    case NotAuthorized(failure) => input.authorizationFailure == Some(failure)
  }

  predicate Strict(d: Domain) { d.mode == Some(Ascii("strict-coverage/v1")) }

  /** What one domain contributes. */
  predicate HoldsOf(d: Domain, vs: seq<SubjectVerdict>, x: Reason) {
    match x
    case NoProof(key) => d.key == key && d.mode.None?
    case NoSubject(key) => d.key == key && Strict(d) && d.declared == []
    case MissingSubject(key, s) => d.key == key && Strict(d) && s in d.missing
    case Unexpected(key, n) => d.key == key && Strict(d) && d.unexpectedCount == n > 0
    case Gaps(key, n) => d.key == key && Strict(d) && d.gapCount == n > 0
    case Uncovered(key, s) => d.key == key && Strict(d) && s in d.eligible && !(exists v :: v in vs && v.key == key && v.subject == s)
    case NoVerdict(key) => d.key == key && d.mode.Some? && !(exists v :: v in vs && v.key == key)
    case NotEvaluableSubject(key, s) =>
      d.key == key && d.mode.Some? && exists v :: v in vs && v.key == key && v.subject == s && v.verdict == VerdictNotEvaluable
    case _ => false
  }

  lemma StrictReasonsAre(d: Domain, vs: seq<SubjectVerdict>, x: Reason)
    requires Strict(d)
    ensures x in StrictReasons(d, vs) <==> HoldsOf(d, vs, x) && !x.NoProof? && !x.NoVerdict? && !x.NotEvaluableSubject?
  {
    FlattenElements(MissingReason(d.key), d.missing);
    FlattenElements(UncoveredReason(d.key, vs), d.eligible);
    assert forall s :: Covers(vs, d.key, s) <==> exists v :: v in vs && v.key == d.key && v.subject == s;
  }

  lemma DomainReasonsAre(d: Domain, vs: seq<SubjectVerdict>, x: Reason)
    ensures x in DomainReasons(d, vs) <==> HoldsOf(d, vs, x)
  {
    NotEvaluableAre(d.key, vs, x);
    assert HasVerdict(vs, d.key) <==> exists v :: v in vs && v.key == d.key;
    if Strict(d) {
      StrictReasonsAre(d, vs, x);
    }
  }

  lemma NotEvaluableAre(key: Text, vs: seq<SubjectVerdict>, x: Reason)
    ensures x in Flatten(VerdictReason(key), vs) <==>
      x.NotEvaluableSubject? && x.key == key && exists v :: v in vs && v.key == key && v.subject == x.subject && v.verdict == VerdictNotEvaluable
  {
    FlattenElements(VerdictReason(key), vs);
  }

  /** Everything that stands against a verdict is reported, and nothing else. */
  lemma ReasonsAreExact(input: Input, x: Reason)
    ensures x in Reasons(input) <==> Holds(input, x)
  {
    FlattenElements(AnomalyReason(), input.anomalies);
    FoundInDomains(input.domains, input.verdicts, x);
    FoundUnbound(input.domains, input.verdicts, x);
    if x.NoProof? || x.NoSubject? || x.MissingSubject? || x.Unexpected? || x.Gaps? || x.Uncovered? || x.NoVerdict? || x.NotEvaluableSubject? {
      HoldsInSomeDomain(input, x);
    }
  }

  predicate OfSomeDomain(ds: seq<Domain>, vs: seq<SubjectVerdict>, x: Reason) { exists d :: d in ds && HoldsOf(d, vs, x) }

  lemma FoundInDomains(ds: seq<Domain>, vs: seq<SubjectVerdict>, x: Reason)
    ensures x in Flatten(DomainReason(vs), ds) <==> OfSomeDomain(ds, vs, x)
  {
    FlattenElements(DomainReason(vs), ds);
    forall d | d in ds
      ensures x in DomainReason(vs)(d) <==> HoldsOf(d, vs, x)
    {
      DomainReasonsAre(d, vs, x);
    }
  }

  lemma FoundUnbound(ds: seq<Domain>, vs: seq<SubjectVerdict>, x: Reason)
    ensures x in Flatten(UnboundReason(ds), vs) <==>
      x.Unbound? && (exists v :: v in vs && v.key == x.key) && !(exists d :: d in ds && d.key == x.key)
  {
    FlattenElements(UnboundReason(ds), vs);
    assert forall key :: HasDomain(ds, key) <==> exists d :: d in ds && d.key == key;
  }

  lemma HoldsInSomeDomain(input: Input, x: Reason)
    requires !x.Unbound? && !x.Anomalous? && !x.NotAuthorized?
    ensures OfSomeDomain(input.domains, input.verdicts, x) <==> Holds(input, x)
  {
  }

  // ------------------------------------------------------------------
  // Order does not matter
  // ------------------------------------------------------------------

  predicate SameElements<T(==)>(a: seq<T>, b: seq<T>) { (forall x :: x in a ==> x in b) && forall x :: x in b ==> x in a }

  /** The same domain with its subject lists in another order. */
  predicate Twin(d: Domain, e: Domain) {
    && d.key == e.key && d.mode == e.mode && d.unexpectedCount == e.unexpectedCount && d.gapCount == e.gapCount
    && SameElements(d.declared, e.declared) && SameElements(d.eligible, e.eligible) && SameElements(d.missing, e.missing)
  }

  predicate TwinsIn(ds: seq<Domain>, es: seq<Domain>) { forall d :: d in ds ==> exists e :: e in es && Twin(d, e) }

  /** One input is the other with every list in it permuted. */
  predicate Permuted(a: Input, b: Input) {
    && a.terminal == b.terminal && a.failureReason == b.failureReason && a.verified == b.verified
    && a.authorizationFailure == b.authorizationFailure
    && multiset(a.verdicts) == multiset(b.verdicts)
    && multiset(a.anomalies) == multiset(b.anomalies)
    && |a.domains| == |b.domains| && TwinsIn(a.domains, b.domains) && TwinsIn(b.domains, a.domains)
  }

  lemma SameMultisetSameElements<T>(a: seq<T>, b: seq<T>)
    requires multiset(a) == multiset(b)
    ensures SameElements(a, b)
  {
    forall x
      ensures x in a <==> x in b
    {
      assert x in a <==> x in multiset(a);
      assert x in b <==> x in multiset(b);
    }
  }

  lemma SameVerdictFacts(vs: seq<SubjectVerdict>, ws: seq<SubjectVerdict>, key: Text, subject: Text)
    requires forall v :: v in vs ==> v in ws
    ensures Covers(vs, key, subject) ==> Covers(ws, key, subject)
    ensures HasVerdict(vs, key) ==> HasVerdict(ws, key)
  {
    if i :| 0 <= i < |vs| && vs[i].key == key {
      assert vs[i] in ws;
    }
    if i :| 0 <= i < |vs| && vs[i].key == key && vs[i].subject == subject {
      assert vs[i] in ws;
    }
  }

  lemma TwinLists(d: Domain, e: Domain, vs: seq<SubjectVerdict>, ws: seq<SubjectVerdict>, x: Reason)
    requires Twin(d, e) && SameElements(vs, ws)
    ensures x in Flatten(MissingReason(d.key), d.missing) ==> x in Flatten(MissingReason(e.key), e.missing)
    ensures x in Flatten(UncoveredReason(d.key, vs), d.eligible) ==> x in Flatten(UncoveredReason(e.key, ws), e.eligible)
    ensures x in Flatten(VerdictReason(d.key), vs) ==> x in Flatten(VerdictReason(e.key), ws)
  {
    FlattenElements(MissingReason(d.key), d.missing);
    FlattenElements(MissingReason(e.key), e.missing);
    FlattenElements(VerdictReason(d.key), vs);
    FlattenElements(VerdictReason(e.key), ws);
    FlattenElements(UncoveredReason(d.key, vs), d.eligible);
    FlattenElements(UncoveredReason(e.key, ws), e.eligible);
    forall s
      ensures Covers(ws, d.key, s) ==> Covers(vs, d.key, s)
    {
      SameVerdictFacts(ws, vs, d.key, s);
    }
  }

  lemma TwinReasons(d: Domain, e: Domain, vs: seq<SubjectVerdict>, ws: seq<SubjectVerdict>, x: Reason)
    requires Twin(d, e) && SameElements(vs, ws) && x in DomainReasons(d, vs)
    ensures x in DomainReasons(e, ws)
  {
    TwinLists(d, e, vs, ws, x);
    SameVerdictFacts(ws, vs, d.key, []);
    assert e.declared != [] ==> e.declared[0] in d.declared;
  }

  lemma TwinKeys(ds: seq<Domain>, es: seq<Domain>, key: Text)
    requires TwinsIn(ds, es)
    ensures HasDomain(ds, key) ==> HasDomain(es, key)
  {
    if i :| 0 <= i < |ds| && ds[i].key == key {
      assert ds[i] in ds;
      var e :| e in es && Twin(ds[i], e);
      var j :| 0 <= j < |es| && es[j] == e;
    }
  }

  lemma PermutedDomainReasons(a: Input, b: Input, x: Reason)
    requires SameElements(a.verdicts, b.verdicts) && TwinsIn(a.domains, b.domains)
    requires x in Flatten(DomainReason(a.verdicts), a.domains)
    ensures x in Flatten(DomainReason(b.verdicts), b.domains)
  {
    FlattenElements(DomainReason(a.verdicts), a.domains);
    FlattenElements(DomainReason(b.verdicts), b.domains);
    var d :| d in a.domains && x in DomainReason(a.verdicts)(d);
    var e :| e in b.domains && Twin(d, e);
    TwinReasons(d, e, a.verdicts, b.verdicts, x);
    assert x in DomainReason(b.verdicts)(e);
  }

  lemma PermutedUnboundReasons(a: Input, b: Input, x: Reason)
    requires SameElements(a.verdicts, b.verdicts) && TwinsIn(b.domains, a.domains)
    requires x in Flatten(UnboundReason(a.domains), a.verdicts)
    ensures x in Flatten(UnboundReason(b.domains), b.verdicts)
  {
    FlattenElements(UnboundReason(a.domains), a.verdicts);
    FlattenElements(UnboundReason(b.domains), b.verdicts);
    var v :| v in a.verdicts && x in UnboundReason(a.domains)(v);
    TwinKeys(b.domains, a.domains, v.key);
    assert x in UnboundReason(b.domains)(v);
  }

  lemma PermutedReasons(a: Input, b: Input, x: Reason)
    requires Permuted(a, b) && x in Reasons(a)
    ensures x in Reasons(b)
  {
    SameMultisetSameElements(a.verdicts, b.verdicts);
    SameMultisetSameElements(a.anomalies, b.anomalies);
    FlattenElements(AnomalyReason(), a.anomalies);
    FlattenElements(AnomalyReason(), b.anomalies);
    if x in Flatten(DomainReason(a.verdicts), a.domains) {
      PermutedDomainReasons(a, b, x);
    } else if x in Flatten(UnboundReason(a.domains), a.verdicts) {
      PermutedUnboundReasons(a, b, x);
    }
  }

  lemma SameReasonsSameText(a: seq<Reason>, b: seq<Reason>)
    requires SameElements(a, b)
    ensures ReasonText(a) == ReasonText(b)
  {
    FlattenElements(RenderOne(), a);
    FlattenElements(RenderOne(), b);
    SortDistinctForgetsOrder(Flatten(RenderOne(), a), Flatten(RenderOne(), b));
  }

  lemma PermutedFails(vs: seq<SubjectVerdict>, ws: seq<SubjectVerdict>)
    requires multiset(vs) == multiset(ws)
    ensures FailText(FailLabels(vs)) == FailText(FailLabels(ws)) && (FailLabels(vs) == [] <==> FailLabels(ws) == [])
  {
    FlattenForgetsOrder(FailLabel(), vs, ws);
    SortForgetsOrder(FailLabels(vs), FailLabels(ws));
    assert |multiset(FailLabels(vs))| == |FailLabels(vs)| && |multiset(FailLabels(ws))| == |FailLabels(ws)|;
  }

  /** Permuting any list of the input, subject lists inside domains included, changes neither class nor text. */
  lemma OrderIsIrrelevant(a: Input, b: Input)
    requires Permuted(a, b)
    ensures Decision(a) == Decision(b)
    ensures MessageText(Decision(a).reason) == MessageText(Decision(b).reason)
  {
    PermutedFails(a.verdicts, b.verdicts);
    forall x
      ensures x in Reasons(a) <==> x in Reasons(b)
    {
      if x in Reasons(a) { PermutedReasons(a, b, x); }
      if x in Reasons(b) { PermutedReasons(b, a, x); }
    }
    SameReasonsSameText(Reasons(a), Reasons(b));
    assert Reasons(a) != [] ==> Reasons(a)[0] in Reasons(b);
    assert Reasons(b) != [] ==> Reasons(b)[0] in Reasons(a);
  }
}
