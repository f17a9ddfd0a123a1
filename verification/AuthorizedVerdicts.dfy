/**
 * From the authorized report state to the exit decision (packages/cli/src/orchestrator.ts): the
 * bound key domains, the bound subject verdicts, and the decision end to end.
 */
module AuthorizedVerdicts {
  import opened Wrappers
  import opened Text
  import opened ExitCode

  datatype Proof = Proof(key: Text, mode: Text, declared: seq<Text>, eligible: seq<Text>, missing: seq<Text>,
                         unexpected: seq<Text>, gaps: seq<Text>)
  datatype Pointer = Pointer(key: Text, subject: Text, verdict: Text)
  datatype State = State(keys: seq<Proof>, pointers: seq<Pointer>)

  datatype ReportInputError = UnknownVerdict

  const PASS := Ascii("PASS")
  const FAIL := Ascii("FAIL")
  const NOT_EVALUABLE := Ascii("NOT_EVALUABLE")

  function AsVerdict(value: Text): Option<Verdict> {
    if value == PASS then Some(VerdictPass)
    else if value == FAIL then Some(VerdictFail)
    else if value == NOT_EVALUABLE then Some(VerdictNotEvaluable)
    else None
  }

  /** The first proof row of a key. */
  function FindProof(keys: seq<Proof>, key: Text): Option<Proof> {
    if keys == [] then None else if keys[0].key == key then Some(keys[0]) else FindProof(keys[1..], key)
  }

  function ProofOf(state: Option<State>, key: Text): Option<Proof> {
    if state.None? then None else FindProof(state.value.keys, key)
  }

  function DomainOf(state: Option<State>, key: Text): Domain {
    match ProofOf(state, key)
    case None => Domain(key, None, [], [], [], 0, 0)
    case Some(p) => Domain(key, Some(p.mode), p.declared, p.eligible, p.missing, |p.unexpected|, |p.gaps|)
  }

  function BoundKeyDomains(state: Option<State>, boundKeys: seq<Text>): seq<Domain> {
    seq(|boundKeys|, i requires 0 <= i < |boundKeys| => DomainOf(state, boundKeys[i]))
  }

  function PointersOf(state: Option<State>): seq<Pointer> { if state.None? then [] else state.value.pointers }

  /** A bound key counts, for a strict key only inside its eligible set. */
  predicate Counts(state: Option<State>, boundKeys: seq<Text>, p: Pointer) {
    p.key in boundKeys
    && (ProofOf(state, p.key).Some? && ProofOf(state, p.key).value.mode == STRICT ==> p.subject in ProofOf(state, p.key).value.eligible)
  }

  predicate Malformed(state: Option<State>, boundKeys: seq<Text>, p: Pointer) {
    Counts(state, boundKeys, p) && AsVerdict(p.verdict).None?
  }

  function CountedVerdict(state: Option<State>, boundKeys: seq<Text>): Pointer -> seq<SubjectVerdict> {
    (p: Pointer) =>
      if Counts(state, boundKeys, p) && AsVerdict(p.verdict).Some? then [SubjectVerdict(p.key, p.subject, AsVerdict(p.verdict).value)] else []
  }

  predicate AnyMalformed(state: Option<State>, boundKeys: seq<Text>, pointers: seq<Pointer>) {
    exists i :: 0 <= i < |pointers| && Malformed(state, boundKeys, pointers[i])
  }

  function CountedVerdicts(state: Option<State>, boundKeys: seq<Text>): seq<SubjectVerdict> {
    Flatten(CountedVerdict(state, boundKeys), PointersOf(state))
  }

  method BoundSubjectVerdicts(state: Option<State>, boundKeys: seq<Text>) returns (result: Result<seq<SubjectVerdict>, ReportInputError>)
    ensures result == if AnyMalformed(state, boundKeys, PointersOf(state)) then Err(UnknownVerdict) else Ok(CountedVerdicts(state, boundKeys))
  {
    var pointers := PointersOf(state);
    var verdicts: seq<SubjectVerdict> := [];
    for k := 0 to |pointers|
      invariant verdicts == Flatten(CountedVerdict(state, boundKeys), pointers[..k])
      invariant !AnyMalformed(state, boundKeys, pointers[..k])
    {
      var p := pointers[k];
      FlattenNext(CountedVerdict(state, boundKeys), pointers, k);
      assert pointers[..k + 1] == pointers[..k] + [p];
      if p.key !in boundKeys { continue; }
      var proof := ProofOf(state, p.key);
      if proof.Some? && proof.value.mode == STRICT && p.subject !in proof.value.eligible { continue; }
      if AsVerdict(p.verdict).None? {
        assert Malformed(state, boundKeys, pointers[k]);
        return Err(UnknownVerdict);
      }
      verdicts := verdicts + [SubjectVerdict(p.key, p.subject, AsVerdict(p.verdict).value)];
    }
    assert pointers[..|pointers|] == pointers;
    return Ok(verdicts);
  }

  // ------------------------------------------------------------------
  // End to end
  // ------------------------------------------------------------------

  datatype Facts = Facts(terminal: Option<TerminalState>, failureReason: Option<Text>, verified: Option<bool>,
                         anomalies: seq<Anomaly>, authorizationFailure: Option<Text>)

  function InputFrom(f: Facts, state: Option<State>, boundKeys: seq<Text>): Input {
    Input(f.terminal, f.failureReason, f.verified, CountedVerdicts(state, boundKeys), BoundKeyDomains(state, boundKeys),
          f.anomalies, f.authorizationFailure)
  }

  /** Some counted pointer of the key names this subject, or any subject at all. */
  predicate PointedAt(state: Option<State>, boundKeys: seq<Text>, key: Text, subject: Option<Text>) {
    exists p :: p in PointersOf(state) && Counts(state, boundKeys, p) && p.key == key && (subject.Some? ==> p.subject == subject.value)
  }

  /** The key is proven, has a verdict, and if it is strict its declared domain is complete. */
  predicate Complete(state: Option<State>, boundKeys: seq<Text>, key: Text) {
    && ProofOf(state, key).Some?
    && PointedAt(state, boundKeys, key, None)
    && var p := ProofOf(state, key).value;
       p.mode == STRICT ==>
         && p.declared != [] && p.missing == [] && p.unexpected == [] && p.gaps == []
         && forall s :: s in p.eligible ==> PointedAt(state, boundKeys, key, Some(s))
  }

  predicate WellFormed(state: Option<State>, boundKeys: seq<Text>) { !AnyMalformed(state, boundKeys, PointersOf(state)) }

  lemma CountedAre(state: Option<State>, boundKeys: seq<Text>)
    requires WellFormed(state, boundKeys)
    ensures forall p :: p in PointersOf(state) && Counts(state, boundKeys, p) ==> AsVerdict(p.verdict).Some?
    ensures forall v :: v in CountedVerdicts(state, boundKeys) <==>
      exists p :: p in PointersOf(state) && Counts(state, boundKeys, p) && v == SubjectVerdict(p.key, p.subject, AsVerdict(p.verdict).value)
  {
    var f, pointers := CountedVerdict(state, boundKeys), PointersOf(state);
    FlattenElements(f, pointers);
    forall p | p in pointers && Counts(state, boundKeys, p)
      ensures AsVerdict(p.verdict).Some?
    {
      var i :| 0 <= i < |pointers| && pointers[i] == p;
      assert !Malformed(state, boundKeys, pointers[i]);
    }
    forall p | p in pointers && Counts(state, boundKeys, p)
      ensures SubjectVerdict(p.key, p.subject, AsVerdict(p.verdict).value) in CountedVerdicts(state, boundKeys)
    {
      assert SubjectVerdict(p.key, p.subject, AsVerdict(p.verdict).value) in f(p);
    }
  }

  lemma VerdictIffPointer(state: Option<State>, boundKeys: seq<Text>, key: Text, subject: Text)
    requires WellFormed(state, boundKeys)
    ensures HasVerdict(CountedVerdicts(state, boundKeys), key) <==> PointedAt(state, boundKeys, key, None)
    ensures Covers(CountedVerdicts(state, boundKeys), key, subject) <==> PointedAt(state, boundKeys, key, Some(subject))
  {
    CountedAre(state, boundKeys);
    var vs := CountedVerdicts(state, boundKeys);
    assert forall i :: 0 <= i < |vs| ==> vs[i] in vs;
    if p :| p in PointersOf(state) && Counts(state, boundKeys, p) && p.key == key {
      assert SubjectVerdict(p.key, p.subject, AsVerdict(p.verdict).value) in vs;
    }
    if p :| p in PointersOf(state) && Counts(state, boundKeys, p) && p.key == key && p.subject == subject {
      assert SubjectVerdict(p.key, p.subject, AsVerdict(p.verdict).value) in vs;
    }
  }

  lemma CoveredIffComplete(state: Option<State>, boundKeys: seq<Text>, key: Text)
    requires WellFormed(state, boundKeys)
    ensures FullyCovered(DomainOf(state, key), CountedVerdicts(state, boundKeys)) <==> Complete(state, boundKeys, key)
  {
    VerdictIffPointer(state, boundKeys, key, []);
    forall s
      ensures Covers(CountedVerdicts(state, boundKeys), key, s) <==> PointedAt(state, boundKeys, key, Some(s))
    {
      VerdictIffPointer(state, boundKeys, key, s);
    }
  }

  lemma DomainsHoldBoundKeys(state: Option<State>, boundKeys: seq<Text>, key: Text)
    ensures HasDomain(BoundKeyDomains(state, boundKeys), key) <==> key in boundKeys
    ensures forall d :: d in BoundKeyDomains(state, boundKeys) <==> exists k :: k in boundKeys && d == DomainOf(state, k)
  {
    var ds := BoundKeyDomains(state, boundKeys);
    assert forall i :: 0 <= i < |ds| ==> ds[i] == DomainOf(state, boundKeys[i]) && ds[i].key == boundKeys[i];
    forall k | k in boundKeys
      ensures DomainOf(state, k) in ds && HasDomain(ds, k)
    {
      var i :| 0 <= i < |boundKeys| && boundKeys[i] == k;
      assert ds[i] == DomainOf(state, k);
    }
  }

  predicate AllCounted(state: Option<State>, boundKeys: seq<Text>, verdict: Text) {
    forall p :: p in PointersOf(state) && Counts(state, boundKeys, p) ==> p.verdict == verdict
  }

  /**
   * PASS, end to end: the run completed and verified, at least one key is bound, every bound key is
   * complete in the authorized state, every counted pointer says PASS, and nothing else was noted.
   */
  lemma EndToEndPassIff(f: Facts, state: Option<State>, boundKeys: seq<Text>)
    requires WellFormed(state, boundKeys)
    ensures Decision(InputFrom(f, state, boundKeys)).exitClass == Pass <==>
      && f.terminal == Some(Completed) && f.verified == Some(true)
      && boundKeys != [] && (forall key :: key in boundKeys ==> Complete(state, boundKeys, key))
      && AllCounted(state, boundKeys, PASS)
      && f.anomalies == [] && f.authorizationFailure.None?
  {
    var vs := CountedVerdicts(state, boundKeys);
    ClassIff(InputFrom(f, state, boundKeys));
    VerdictsArePass(state, boundKeys);
    VerdictsAreBound(state, boundKeys);
    DomainsCoveredIff(state, boundKeys);
    assert forall i :: 0 <= i < |vs| ==> vs[i] in vs;
  }

  lemma VerdictsAreBound(state: Option<State>, boundKeys: seq<Text>)
    requires WellFormed(state, boundKeys)
    ensures forall v :: v in CountedVerdicts(state, boundKeys) ==> HasDomain(BoundKeyDomains(state, boundKeys), v.key)
  {
    CountedAre(state, boundKeys);
    forall v | v in CountedVerdicts(state, boundKeys)
      ensures HasDomain(BoundKeyDomains(state, boundKeys), v.key)
    {
      DomainsHoldBoundKeys(state, boundKeys, v.key);
    }
  }

  lemma DomainsCoveredIff(state: Option<State>, boundKeys: seq<Text>)
    requires WellFormed(state, boundKeys)
    ensures (forall d :: d in BoundKeyDomains(state, boundKeys) ==> FullyCovered(d, CountedVerdicts(state, boundKeys))) <==>
      (forall key :: key in boundKeys ==> Complete(state, boundKeys, key))
  {
    var vs, ds := CountedVerdicts(state, boundKeys), BoundKeyDomains(state, boundKeys);
    DomainsHoldBoundKeys(state, boundKeys, []);
    forall key | key in boundKeys
      ensures DomainOf(state, key) in ds && (FullyCovered(DomainOf(state, key), vs) <==> Complete(state, boundKeys, key))
    {
      CoveredIffComplete(state, boundKeys, key);
    }
  }

  lemma VerdictsArePass(state: Option<State>, boundKeys: seq<Text>)
    requires WellFormed(state, boundKeys)
    ensures AllCounted(state, boundKeys, PASS) <==> forall v :: v in CountedVerdicts(state, boundKeys) ==> v.verdict == VerdictPass
  {
    CountedAre(state, boundKeys);
    forall p | p in PointersOf(state) && Counts(state, boundKeys, p)
      ensures SubjectVerdict(p.key, p.subject, AsVerdict(p.verdict).value) in CountedVerdicts(state, boundKeys)
    {
    }
  }

  /** FAIL, end to end: a trusted run with a failing pointer that counts; a foreign or unbound FAIL never is one. */
  lemma EndToEndFailIff(f: Facts, state: Option<State>, boundKeys: seq<Text>)
    requires WellFormed(state, boundKeys)
    ensures Decision(InputFrom(f, state, boundKeys)).exitClass == InvariantFail <==>
      && f.terminal == Some(Completed) && f.verified == Some(true)
      && exists p :: p in PointersOf(state) && Counts(state, boundKeys, p) && p.verdict == FAIL
  {
    var input := InputFrom(f, state, boundKeys);
    ClassIff(input);
    CountedAre(state, boundKeys);
    if SomeFail(input.verdicts) {
      var i :| 0 <= i < |input.verdicts| && input.verdicts[i].verdict == VerdictFail;
      assert input.verdicts[i] in input.verdicts;
    }
    assert |FAIL| == 4 && |PASS| == 4 && FAIL[0] != PASS[0];
    if p :| p in PointersOf(state) && Counts(state, boundKeys, p) && p.verdict == FAIL {
      assert SubjectVerdict(p.key, p.subject, VerdictFail) in input.verdicts;
    }
  }

  // ------------------------------------------------------------------
  // Order, end to end
  // ------------------------------------------------------------------

  /** One proof row per key, as its table demands. */
  predicate UniqueProofs(keys: seq<Proof>) { forall i, j :: 0 <= i < j < |keys| ==> keys[i].key != keys[j].key }

  predicate TwinProof(p: Proof, q: Proof) {
    && p.key == q.key && p.mode == q.mode
    && multiset(p.declared) == multiset(q.declared) && multiset(p.eligible) == multiset(q.eligible)
    && multiset(p.missing) == multiset(q.missing) && |p.unexpected| == |q.unexpected| && |p.gaps| == |q.gaps|
  }

  predicate PermutedState(a: State, b: State) {
    && UniqueProofs(a.keys) && UniqueProofs(b.keys)
    && (forall p :: p in a.keys ==> exists q :: q in b.keys && TwinProof(p, q))
    && (forall q :: q in b.keys ==> exists p :: p in a.keys && TwinProof(p, q))
    && multiset(a.pointers) == multiset(b.pointers)
  }

  lemma {:induction false} FindProofFinds(keys: seq<Proof>, key: Text)
    ensures FindProof(keys, key).Some? ==> FindProof(keys, key).value in keys && FindProof(keys, key).value.key == key
    ensures FindProof(keys, key).None? ==> forall p :: p in keys ==> p.key != key
    ensures UniqueProofs(keys) ==> forall p :: p in keys && p.key == key ==> FindProof(keys, key) == Some(p)
  {
    if keys != [] {
      FindProofFinds(keys[1..], key);
      assert keys == [keys[0]] + keys[1..];
      assert UniqueProofs(keys) ==> forall p :: p in keys[1..] ==> p.key != keys[0].key;
    }
  }

  lemma SameProofs(a: State, b: State, key: Text)
    requires PermutedState(a, b)
    ensures FindProof(a.keys, key).Some? <==> FindProof(b.keys, key).Some?
    ensures FindProof(a.keys, key).Some? ==> TwinProof(FindProof(a.keys, key).value, FindProof(b.keys, key).value)
  {
    FindProofFinds(a.keys, key);
    FindProofFinds(b.keys, key);
    if FindProof(a.keys, key).Some? {
      var q :| q in b.keys && TwinProof(FindProof(a.keys, key).value, q);
    }
    if FindProof(b.keys, key).Some? {
      var p :| p in a.keys && TwinProof(p, FindProof(b.keys, key).value);
    }
  }

  lemma SameCounts(a: State, b: State, keys: seq<Text>, keys': seq<Text>, p: Pointer)
    requires PermutedState(a, b) && multiset(keys) == multiset(keys')
    ensures Counts(Some(a), keys, p) <==> Counts(Some(b), keys', p)
  {
    SameProofs(a, b, p.key);
    SameMultisetSameElements(keys, keys');
    if FindProof(a.keys, p.key).Some? {
      SameMultisetSameElements(FindProof(a.keys, p.key).value.eligible, FindProof(b.keys, p.key).value.eligible);
    }
  }

  lemma {:induction false} FlattenPointwise<T, U>(f: T -> seq<U>, g: T -> seq<U>, s: seq<T>)
    requires forall e :: e in s ==> f(e) == g(e)
    ensures Flatten(f, s) == Flatten(g, s)
  {
    if s != [] {
      FlattenPointwise(f, g, s[..|s| - 1]);
    }
  }

  lemma SameVerdicts(a: State, b: State, keys: seq<Text>, keys': seq<Text>)
    requires PermutedState(a, b) && multiset(keys) == multiset(keys')
    ensures multiset(CountedVerdicts(Some(a), keys)) == multiset(CountedVerdicts(Some(b), keys'))
  {
    forall p | p in a.pointers
      ensures CountedVerdict(Some(a), keys)(p) == CountedVerdict(Some(b), keys')(p)
    {
      SameCounts(a, b, keys, keys', p);
    }
    FlattenPointwise(CountedVerdict(Some(a), keys), CountedVerdict(Some(b), keys'), a.pointers);
    FlattenForgetsOrder(CountedVerdict(Some(b), keys'), a.pointers, b.pointers);
  }

  lemma TwinDomains(a: State, b: State, keys: seq<Text>, keys': seq<Text>)
    requires PermutedState(a, b) && multiset(keys) == multiset(keys')
    ensures TwinsIn(BoundKeyDomains(Some(a), keys), BoundKeyDomains(Some(b), keys'))
    ensures TwinsIn(BoundKeyDomains(Some(b), keys'), BoundKeyDomains(Some(a), keys))
  {
    DomainsHoldBoundKeys(Some(a), keys, []);
    DomainsHoldBoundKeys(Some(b), keys', []);
    SameMultisetSameElements(keys, keys');
    forall k
      ensures Twin(DomainOf(Some(a), k), DomainOf(Some(b), k)) && Twin(DomainOf(Some(b), k), DomainOf(Some(a), k))
    {
      TwinDomain(a, b, k);
    }
  }

  lemma TwinDomain(a: State, b: State, k: Text)
    requires PermutedState(a, b)
    ensures Twin(DomainOf(Some(a), k), DomainOf(Some(b), k)) && Twin(DomainOf(Some(b), k), DomainOf(Some(a), k))
  {
    SameProofs(a, b, k);
    if FindProof(a.keys, k).Some? {
      var p, q := FindProof(a.keys, k).value, FindProof(b.keys, k).value;
      SameMultisetSameElements(p.declared, q.declared);
      SameMultisetSameElements(p.eligible, q.eligible);
      SameMultisetSameElements(p.missing, q.missing);
    }
  }

  /** Whatever order the database returns proof rows, pointers, subjects and bound keys in, class and reason are the same. */
  lemma EndToEndOrderIsIrrelevant(f: Facts, g: Facts, a: State, b: State, keys: seq<Text>, keys': seq<Text>)
    requires PermutedState(a, b) && multiset(keys) == multiset(keys')
    requires g == f.(anomalies := g.anomalies) && multiset(f.anomalies) == multiset(g.anomalies)
    ensures Decision(InputFrom(f, Some(a), keys)) == Decision(InputFrom(g, Some(b), keys'))
    ensures WellFormed(Some(a), keys) <==> WellFormed(Some(b), keys')
  {
    SameVerdicts(a, b, keys, keys');
    TwinDomains(a, b, keys, keys');
    assert |multiset(keys)| == |keys| && |multiset(keys')| == |keys'|;
    OrderIsIrrelevant(InputFrom(f, Some(a), keys), InputFrom(g, Some(b), keys'));
    SameMultisetSameElements(a.pointers, b.pointers);
    SameMalformed(a, b, keys, keys');
  }

  lemma SameMalformed(a: State, b: State, keys: seq<Text>, keys': seq<Text>)
    requires PermutedState(a, b) && multiset(keys) == multiset(keys') && SameElements(a.pointers, b.pointers)
    ensures AnyMalformed(Some(a), keys, a.pointers) <==> AnyMalformed(Some(b), keys', b.pointers)
  {
    forall p
      ensures Malformed(Some(a), keys, p) <==> Malformed(Some(b), keys', p)
    {
      SameCounts(a, b, keys, keys', p);
    }
    if AnyMalformed(Some(a), keys, a.pointers) {
      var i :| 0 <= i < |a.pointers| && Malformed(Some(a), keys, a.pointers[i]);
      assert a.pointers[i] in b.pointers;
    }
    if AnyMalformed(Some(b), keys', b.pointers) {
      var i :| 0 <= i < |b.pointers| && Malformed(Some(b), keys', b.pointers[i]);
      assert b.pointers[i] in a.pointers;
    }
  }
}
