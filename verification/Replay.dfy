/**
 * Validating a stored snapshot for replay (packages/engine/src/replay.ts), and how it relates to
 * what was checked when the snapshot was frozen.
 */
module Replay {
  import opened Wrappers
  import opened Text
  import opened Json
  import opened CanonicalText
  import opened Credentials
  import opened Documents
  import opened Snapshot

  datatype ReplayError =
    | MissingSnapshot | CorruptDocument | TamperedContent | UnsupportedEngine | NoTargetBinding | RebindRefused
    | BindingDrift | ReplayProductionDenied | ReplayUnknownEnvironment | OriginNotRegistered
    | RefsNotRegistered | RefsNotAuthorized | MalformedBinding | UnavailableKind | UnavailableRegistryVersion

  datatype ReplayBinding = ReplayBinding(contentHash: int, targetId: Text, origin: Text, credentialRefs: seq<Text>, invariantKeys: seq<Text>)

  function BindingError(binding: Value): Option<ReplayError> {
    if !binding.Obj? || StringMember(binding, "key").None? then Some(MalformedBinding)
    else if StringMember(binding, "kind").None? || !KnownKind(StringMember(binding, "kind").value) then Some(UnavailableKind)
    else if StringMember(binding, "registryVersion") != Some(REGISTRY_VERSION) then Some(UnavailableRegistryVersion)
    else None
  }

  /** The first binding that cannot be evaluated any more. */
  function BindingsError(items: Items): Option<ReplayError> {
    match items
    case NoItems => None
    case Hole(_) => Some(MalformedBinding)
    case Item(head, tail) => if BindingError(head).Some? then BindingError(head) else BindingsError(tail)
  }

  function BindingKeys(items: Items): seq<Text> {
    match items
    case NoItems => []
    case Hole(rest) => BindingKeys(rest)
    case Item(head, tail) =>
      if StringMember(head, "key").Some? then InsertDistinct(StringMember(head, "key").value, BindingKeys(tail)) else BindingKeys(tail)
  }

  const LEGACY_KEYS: seq<Text> := [Ascii("INV-DF-1"), Ascii("INV-DF-2"), Ascii("INV-IZ-1")]

  /** The keys a run is bound to; a legacy fintech snapshot encodes its three by engine and contract. */
  function FrozenInvariantKeys(document: Value, target: Value): seq<Text> {
    var bindings := Member(target, "invariantBindings");
    if bindings.Some? && bindings.value.Arr? then BindingKeys(bindings.value.items)
    else if StringMember(document, "engineVersion") == Some(ENGINE_VERSION)
        && StringMember(target, "contractKind") == Some(DEMO_FINTECH_WEBHOOK)
        && Member(target, "manifestEvidencePolicy").None? then LEGACY_KEYS
    else []
  }

  predicate IsDocument(content: Value) {
    && content.Obj?
    && Member(content, "target").Some? && Member(content, "target").value.Obj?
    && Member(content, "steps").Some? && Member(content, "steps").value.Arr?
  }

  predicate Intact(row: Row, sha256: Text -> int) {
    && row.canonicalization == CANONICALIZATION
    && StringMember(row.content, "canonicalization") == Some(CANONICALIZATION)
    && CanonicalizeJson(row.content).Ok? && sha256(CanonicalizeJson(row.content).value) == row.contentHash
  }

  /** The verdict on a stored snapshot under the current registration and policy, checks in order. */
  function Judge(stored: Option<Row>, now: Registration, policy: Policy, sha256: Text -> int): Result<ReplayBinding, ReplayError> {
    if stored.None? then Err(MissingSnapshot)
    else
      var row := stored.value;
      if !IsDocument(row.content) then Err(CorruptDocument)
      else if !Intact(row, sha256) then Err(TamperedContent)
      else if StringMember(row.content, "engineVersion") != Some(ENGINE_VERSION) then Err(UnsupportedEngine)
      else JudgeTarget(row, Member(row.content, "target").value, now, policy)
  }

  function JudgeTarget(row: Row, target: Value, now: Registration, policy: Policy): Result<ReplayBinding, ReplayError> {
    var id, origin, environment := StringMember(target, "targetId"), StringMember(target, "origin"), StringMember(target, "environment");
    if id.None? || origin.None? then Err(NoTargetBinding)
    else if now.id != id.value then Err(RebindRefused)
    else if environment != Some(now.environment) || StringMember(target, "contractKind") != Some(now.contractKind) then Err(BindingDrift)
    else if environment.value == PRODUCTION then Err(ReplayProductionDenied)
    else if environment.value != LOCAL_DEVELOPMENT && environment.value != STAGING then Err(ReplayUnknownEnvironment)
    else if origin.value !in now.origins then Err(OriginNotRegistered)
    else
      var refs := StringsIn(ArrayMember(target, "credentialRefs"));
      if exists i :: 0 <= i < |refs| && refs[i] !in now.credentialRefs then Err(RefsNotRegistered)
      else if !AllAuthorized(policy, [origin.value], refs) then Err(RefsNotAuthorized)
      else
        var bad := BindingsError(ArrayMember(target, "invariantBindings"));
        if bad.Some? then Err(bad.value)
        else Ok(ReplayBinding(row.contentHash, now.id, origin.value, SortTexts(refs), FrozenInvariantKeys(row.content, target)))
  }

  method CheckBindings(bindings: Items) returns (bad: Option<ReplayError>)
    ensures bad == BindingsError(bindings)
  {
    var rest := bindings;
    while !rest.NoItems?
      invariant BindingsError(bindings) == BindingsError(rest)
      decreases rest
    {
      if rest.Hole? { return Some(MalformedBinding); }
      var binding := rest.head;
      if !binding.Obj? || StringMember(binding, "key").None? { return Some(MalformedBinding); }
      var kind := StringMember(binding, "kind");
      if kind.None? || !KnownKind(kind.value) { return Some(UnavailableKind); }
      if StringMember(binding, "registryVersion") != Some(REGISTRY_VERSION) { return Some(UnavailableRegistryVersion); }
      rest := rest.tail;
    }
    return None;
  }

  method CheckTarget(row: Row, frozen: Value, now: Registration, policy: Policy) returns (result: Result<ReplayBinding, ReplayError>)
    ensures result == JudgeTarget(row, frozen, now, policy)
  {
    var targetId, frozenOrigin := StringMember(frozen, "targetId"), StringMember(frozen, "origin");
    if targetId.None? || frozenOrigin.None? { return Err(NoTargetBinding); }
    if now.id != targetId.value { return Err(RebindRefused); }
    var environment := StringMember(frozen, "environment");
    if environment != Some(now.environment) || StringMember(frozen, "contractKind") != Some(now.contractKind) { return Err(BindingDrift); }
    if environment.value == PRODUCTION { return Err(ReplayProductionDenied); }
    if environment.value != LOCAL_DEVELOPMENT && environment.value != STAGING { return Err(ReplayUnknownEnvironment); }
    if frozenOrigin.value !in now.origins { return Err(OriginNotRegistered); }
    var frozenRefs := StringsIn(ArrayMember(frozen, "credentialRefs"));
    if exists i :: 0 <= i < |frozenRefs| && frozenRefs[i] !in now.credentialRefs { return Err(RefsNotRegistered); }
    var denied := AssertCredentialRefsAuthorized(policy, [frozenOrigin.value], frozenRefs);
    if denied.Some? { return Err(RefsNotAuthorized); }
    var bad := CheckBindings(ArrayMember(frozen, "invariantBindings"));
    if bad.Some? { return Err(bad.value); }
    return Ok(ReplayBinding(row.contentHash, now.id, frozenOrigin.value, SortTexts(frozenRefs), FrozenInvariantKeys(row.content, frozen)));
  }

  method ValidateReplayBinding(stored: Option<Row>, now: Registration, policy: Policy, sha256: Text -> int)
    returns (result: Result<ReplayBinding, ReplayError>)
    ensures result == Judge(stored, now, policy, sha256)
  {
    if stored.None? { return Err(MissingSnapshot); }
    var row := stored.value;
    if !IsDocument(row.content) { return Err(CorruptDocument); }
    if !Intact(row, sha256) { return Err(TamperedContent); }
    if StringMember(row.content, "engineVersion") != Some(ENGINE_VERSION) { return Err(UnsupportedEngine); }
    result := CheckTarget(row, Member(row.content, "target").value, now, policy);
  }

  // ------------------------------------------------------------------
  // Reading the stored document
  // ------------------------------------------------------------------

  lemma {:induction false} BindingsByMeaning(a: Items, b: Items)
    requires Elements(a) == Elements(b)
    ensures BindingsError(a) == BindingsError(b) && BindingKeys(a) == BindingKeys(b)
    decreases a
  {
    FirstElement(a);
    FirstElement(b);
    match a
    case NoItems =>
    case Item(head, tail) =>
      MemberByMeaning(head, b.head, "key");
      MemberByMeaning(head, b.head, "kind");
      MemberByMeaning(head, b.head, "registryVersion");
      BindingsByMeaning(tail, b.tail);
    case Hole(rest) => BindingsByMeaning(rest, b.rest);
  }

  predicate Known(i: Instance) { KnownKind(i.kind) && i.registryVersion == REGISTRY_VERSION }

  predicate AllKnown(s: seq<Instance>) { forall i :: 0 <= i < |s| ==> Known(s[i]) }

  function InstanceKeys(s: seq<Instance>): seq<Text> {
    if s == [] then [] else InsertDistinct(s[0].key, InstanceKeys(s[1..]))
  }

  lemma InstanceReads(i: Instance)
    ensures var v := Object(InstancePairs(i));
      && StringMember(v, "key") == Some(i.key)
      && StringMember(v, "kind") == Some(i.kind)
      && StringMember(v, "registryVersion") == Some(i.registryVersion)
  {
    InstanceNames(i);
    ObjectMember(InstancePairs(i), 0);
    ObjectMember(InstancePairs(i), 1);
    ObjectMember(InstancePairs(i), 2);
  }

  lemma {:induction false} FrozenBindingsAreAvailable(s: seq<Instance>)
    requires AllKnown(s)
    ensures BindingsError(InstanceItems(s)) == None && BindingKeys(InstanceItems(s)) == InstanceKeys(s)
  {
    if s != [] {
      InstanceReads(s[0]);
      FrozenBindingsAreAvailable(s[1..]);
    }
  }

  lemma {:induction false} ValidatedAreKnown(items: Items, seen: set<Text>, evidence: Value, ok: Validators)
    ensures ValidateInstances(items, seen, evidence, ok).Some? ==> AllKnown(ValidateInstances(items, seen, evidence, ok).value)
  {
    if items.Item? && ValidateInstance(items.head, evidence, ok).Some? {
      ValidatedAreKnown(items.tail, seen + {ValidateInstance(items.head, evidence, ok).value.key}, evidence, ok);
    }
  }

  lemma {:induction false} InsertKnown(x: Instance, s: seq<Instance>)
    requires Known(x) && AllKnown(s)
    ensures AllKnown(InsertInstance(x, s))
  {
    if s != [] && Less(s[0].key, x.key) {
      InsertKnown(x, s[1..]);
    }
  }

  lemma {:induction false} SortKnown(s: seq<Instance>)
    requires AllKnown(s)
    ensures AllKnown(SortInstances(s))
  {
    if s != [] {
      SortKnown(s[1..]);
      InsertKnown(s[0], SortInstances(s[1..]));
    }
  }

  lemma DerivedAreKnown(raw: Option<Value>, provenance: Provenance, ok: Validators)
    ensures DeriveBindings(raw, provenance, ok).Some? ==> AllKnown(DeriveBindings(raw, provenance, ok).value)
  {
    if !Missing(raw) && provenance.Declared? && raw.value.Arr? {
      ValidatedAreKnown(raw.value.items, {}, provenance.manifest.evidence, ok);
      var instances := ValidateInstances(raw.value.items, {}, provenance.manifest.evidence, ok);
      if instances.Some? {
        SortKnown(instances.value);
      }
    }
  }

  /** The keys a run is bound to, from what was declared rather than from what was frozen. */
  function BoundKeys(r: Revision, t: Registration, ok: Validators): seq<Text> {
    var instances := DeriveBindings(Member(r.stepsJson, "invariantBindings"), t.provenance, ok);
    if instances.Some? && instances.value != [] then InstanceKeys(instances.value)
    else if t.contractKind == DEMO_FINTECH_WEBHOOK && !t.provenance.Declared? then LEGACY_KEYS
    else []
  }

  lemma StoredTargetReads(target: Value, t: Registration, block: Option<Value>, instances: seq<Instance>, runScope: Option<Value>)
    requires t.origins != [] && MeaningOf(target) == MeaningOf(Object(TargetPairs(t, block, instances, runScope)))
    ensures StringMember(target, "targetId") == Some(t.id)
    ensures StringMember(target, "environment") == Some(t.environment)
    ensures StringMember(target, "origin") == Some(PrimaryOrigin(t.origins))
    ensures StringMember(target, "contractKind") == Some(t.contractKind)
  {
    var pairs := TargetPairs(t, block, instances, runScope);
    TargetNames(t, block, instances, runScope);
    ObjectMember(pairs, 0);
    ObjectMember(pairs, 2);
    ObjectMember(pairs, 3);
    ObjectMember(pairs, 4);
    MemberByMeaning(target, Object(pairs), "targetId");
    MemberByMeaning(target, Object(pairs), "environment");
    MemberByMeaning(target, Object(pairs), "origin");
    MemberByMeaning(target, Object(pairs), "contractKind");
  }

  lemma StoredListsRead(target: Value, t: Registration, block: Option<Value>, instances: seq<Instance>, runScope: Option<Value>)
    requires t.origins != [] && MeaningOf(target) == MeaningOf(Object(TargetPairs(t, block, instances, runScope))) && AllKnown(instances)
    ensures StringsIn(ArrayMember(target, "credentialRefs")) == SortTexts(t.credentialRefs)
    ensures BindingsError(ArrayMember(target, "invariantBindings")) == None
    ensures Member(target, "invariantBindings").Some? && Member(target, "invariantBindings").value.Arr? <==> instances != []
    ensures BindingKeys(ArrayMember(target, "invariantBindings")) == InstanceKeys(instances)
    ensures Member(target, "manifestEvidencePolicy").Some? <==> t.provenance.Declared?
  {
    var pairs := TargetPairs(t, block, instances, runScope);
    TargetNames(t, block, instances, runScope);
    ObjectMember(pairs, 5);
    ObjectMember(pairs, 7);
    ObjectMember(pairs, 8);
    ArrayByMeaning(target, Object(pairs), "credentialRefs");
    StringsByMeaning(ArrayMember(target, "credentialRefs"), ArrayMember(Object(pairs), "credentialRefs"));
    StringItemsRoundTrip(SortTexts(t.credentialRefs));
    ArrayByMeaning(target, Object(pairs), "invariantBindings");
    BindingsByMeaning(ArrayMember(target, "invariantBindings"), ArrayMember(Object(pairs), "invariantBindings"));
    FrozenBindingsAreAvailable(instances);
    MemberByMeaning(target, Object(pairs), "manifestEvidencePolicy");
  }

  lemma StoredDocumentReads(content: Value, target: Value, experiment: Value, steps: Value)
    requires MeaningOf(content) == MeaningOf(Object(DocumentPairs(target, experiment, steps)))
    ensures Member(content, "target").Some? && MeaningOf(Member(content, "target").value) == MeaningOf(target)
    ensures Member(content, "steps").Some? && MeaningOf(Member(content, "steps").value) == MeaningOf(steps)
  {
    var pairs := DocumentPairs(target, experiment, steps);
    DocumentNames(target, experiment, steps);
    ObjectMember(pairs, 2);
    ObjectMember(pairs, 4);
    MemberByMeaning(content, Object(pairs), "target");
    MemberByMeaning(content, Object(pairs), "steps");
  }

  lemma StoredHeaderReads(content: Value, target: Value, experiment: Value, steps: Value)
    requires MeaningOf(content) == MeaningOf(Object(DocumentPairs(target, experiment, steps)))
    ensures StringMember(content, "engineVersion") == Some(ENGINE_VERSION)
    ensures StringMember(content, "canonicalization") == Some(CANONICALIZATION)
  {
    var pairs := DocumentPairs(target, experiment, steps);
    DocumentNames(target, experiment, steps);
    ObjectMember(pairs, 0);
    ObjectMember(pairs, 1);
    MemberByMeaning(content, Object(pairs), "engineVersion");
    MemberByMeaning(content, Object(pairs), "canonicalization");
  }

  // ------------------------------------------------------------------
  // Main results
  // ------------------------------------------------------------------

  /** What the current registration and policy still have to say for a frozen run to be replayed. */
  predicate StillValid(t: Registration, now: Registration, current: Policy)
    requires t.origins != []
  {
    var origin := PrimaryOrigin(t.origins);
    && now.id == t.id && now.environment == t.environment && now.contractKind == t.contractKind
    && origin in now.origins
    && (forall i :: 0 <= i < |t.credentialRefs| ==> t.credentialRefs[i] in now.credentialRefs)
    && AllAuthorized(current, [origin], t.credentialRefs)
  }

  lemma SameRefs(t: Registration, now: Registration, current: Policy, origin: Text)
    ensures var refs := SortTexts(t.credentialRefs);
      && SortTexts(refs) == refs
      && (AllAuthorized(current, [origin], refs) <==> AllAuthorized(current, [origin], t.credentialRefs))
      && ((exists i :: 0 <= i < |refs| && refs[i] !in now.credentialRefs) <==>
            exists i :: 0 <= i < |t.credentialRefs| && t.credentialRefs[i] !in now.credentialRefs)
  {
    var refs := SortTexts(t.credentialRefs);
    SortKeepsElements(t.credentialRefs);
    SortAscends(t.credentialRefs);
    SortOfSorted(refs);
    assert forall ref :: ref in refs <==> ref in multiset(refs);
    assert forall ref :: ref in t.credentialRefs <==> ref in multiset(t.credentialRefs);
    SameElementsSameAuthorization(current, [origin], refs, t.credentialRefs);
    SameElementsSameAuthorization(current, [origin], t.credentialRefs, refs);
    assert forall i :: 0 <= i < |refs| ==> refs[i] in t.credentialRefs;
    assert forall i :: 0 <= i < |t.credentialRefs| ==> t.credentialRefs[i] in refs;
  }

  lemma SameElementsSameAuthorization(policy: Policy, origins: seq<Text>, a: seq<Text>, b: seq<Text>)
    requires forall ref :: ref in b ==> ref in a
    ensures AllAuthorized(policy, origins, a) ==> AllAuthorized(policy, origins, b)
  {
    assert forall i :: 0 <= i < |b| ==> b[i] in a;
  }

  /** Every check before those of the target passes on a stored frozen document. */
  lemma FrozenDocumentIsIntact(r: Revision, t: Registration, policy: Policy, ok: Validators, row: Row, sha256: Text -> int)
    requires Accepted(r, t, policy, ok) && StoresDocument(row, BuildSnapshotDocument(r, t, policy, ok).value, sha256)
    ensures IsDocument(row.content) && Intact(row, sha256)
    ensures StringMember(row.content, "engineVersion") == Some(ENGINE_VERSION)
    ensures MeaningOf(Member(row.content, "target").value) == MeaningOf(Object(FrozenTarget(r, t, policy, ok)))
  {
    var target, experiment := Object(FrozenTarget(r, t, policy, ok)), Object(ExperimentPairs(r));
    var document := Object(DocumentPairs(target, experiment, StepsOf(r)));
    assert document == BuildSnapshotDocument(r, t, policy, ok).value;
    StoredDocumentReads(row.content, target, experiment, StepsOf(r));
    StoredHeaderReads(row.content, target, experiment, StepsOf(r));
    KeyOrderIsIrrelevant(row.content, document);
  }

  function FrozenTarget(r: Revision, t: Registration, policy: Policy, ok: Validators): Pairs
    requires BuildSnapshotDocument(r, t, policy, ok).Ok?
  {
    TargetPairs(t, DeriveExecutionPolicy(t, policy).value,
                DeriveBindings(Member(r.stepsJson, "invariantBindings"), t.provenance, ok).value,
                DeriveRunScope(Member(r.stepsJson, "runScope"), t.provenance, ok).value)
  }

  /** What replay reads out of the frozen target block. */
  predicate ReadsBack(target: Value, t: Registration, instances: seq<Instance>)
    requires t.origins != []
  {
    && StringMember(target, "targetId") == Some(t.id)
    && StringMember(target, "environment") == Some(t.environment)
    && StringMember(target, "origin") == Some(PrimaryOrigin(t.origins))
    && StringMember(target, "contractKind") == Some(t.contractKind)
    && StringsIn(ArrayMember(target, "credentialRefs")) == SortTexts(t.credentialRefs)
    && BindingsError(ArrayMember(target, "invariantBindings")) == None
    && (Member(target, "invariantBindings").Some? && Member(target, "invariantBindings").value.Arr? <==> instances != [])
    && BindingKeys(ArrayMember(target, "invariantBindings")) == InstanceKeys(instances)
    && (Member(target, "manifestEvidencePolicy").Some? <==> t.provenance.Declared?)
  }

  lemma FrozenTargetReadsBack(r: Revision, t: Registration, policy: Policy, ok: Validators, target: Value)
    requires BuildSnapshotDocument(r, t, policy, ok).Ok? && MeaningOf(target) == MeaningOf(Object(FrozenTarget(r, t, policy, ok)))
    ensures ReadsBack(target, t, DeriveBindings(Member(r.stepsJson, "invariantBindings"), t.provenance, ok).value)
  {
    var instances := DeriveBindings(Member(r.stepsJson, "invariantBindings"), t.provenance, ok).value;
    var block := DeriveExecutionPolicy(t, policy).value;
    var runScope := DeriveRunScope(Member(r.stepsJson, "runScope"), t.provenance, ok).value;
    DerivedAreKnown(Member(r.stepsJson, "invariantBindings"), t.provenance, ok);
    StoredTargetReads(target, t, block, instances, runScope);
    StoredListsRead(target, t, block, instances, runScope);
  }

  lemma VerdictOnTarget(row: Row, target: Value, t: Registration, instances: seq<Instance>, now: Registration, current: Policy)
    requires t.origins != [] && ReadsBack(target, t, instances) && t.environment in [LOCAL_DEVELOPMENT, STAGING]
    requires t.environment != PRODUCTION
    ensures var verdict := JudgeTarget(row, target, now, current);
      && (verdict.Ok? <==> StillValid(t, now, current))
      && (verdict.Ok? ==> verdict.value == ReplayBinding(row.contentHash, t.id, PrimaryOrigin(t.origins), SortTexts(t.credentialRefs),
                                                         FrozenInvariantKeys(row.content, target)))
      && (verdict.Err? && now == t ==> PrimaryOrigin(t.origins) !in t.origins || verdict.error == RefsNotAuthorized)
  {
    SameRefs(t, now, current, PrimaryOrigin(t.origins));
  }

  /**
   * A run that was accepted can be replayed under whatever registration and policy hold later
   * exactly when the target, its environment and contract are the same, the frozen origin and the
   * references are still registered, and every reference is granted for that one origin. Hash,
   * document shape, engine and invariant kinds never stand in the way, and the replay is bound to
   * the origin, references and invariant keys of the original.
   */
  lemma ReplayIff(r: Revision, t: Registration, policy: Policy, ok: Validators, row: Row, now: Registration, current: Policy, sha256: Text -> int)
    requires Accepted(r, t, policy, ok) && StoresDocument(row, BuildSnapshotDocument(r, t, policy, ok).value, sha256)
    ensures var verdict := Judge(Some(row), now, current, sha256);
      && (verdict.Ok? <==> StillValid(t, now, current))
      && (verdict.Ok? ==> verdict.value == ReplayBinding(row.contentHash, t.id, PrimaryOrigin(t.origins), SortTexts(t.credentialRefs),
                                                         BoundKeys(r, t, ok)))
      && (verdict.Err? && now == t ==> PrimaryOrigin(t.origins) !in t.origins || verdict.error == RefsNotAuthorized)
  {
    FrozenDocumentIsIntact(r, t, policy, ok, row, sha256);
    var target := Member(row.content, "target").value;
    FrozenTargetReadsBack(r, t, policy, ok, target);
    VerdictOnTarget(row, target, t, DeriveBindings(Member(r.stepsJson, "invariantBindings"), t.provenance, ok).value, now, current);
  }

  lemma PrimaryOriginIsRegistered(t: Registration)
    requires t.origins != []
    ensures PrimaryOrigin(t.origins) in t.origins
    ensures forall origin :: origin in t.origins ==> !Less(origin, PrimaryOrigin(t.origins))
  {
    var sorted := SortTexts(t.origins);
    SortKeepsElements(t.origins);
    SortAscends(t.origins);
    assert sorted[0] in multiset(sorted);
    LessIsIrreflexive(sorted[0]);
    forall origin | origin in t.origins
      ensures !Less(origin, sorted[0])
    {
      assert origin in multiset(t.origins);
      assert origin in sorted;
    }
  }

  /** With nothing changed since the freeze, only missing grants for the frozen origin can refuse a replay. */
  lemma UnchangedReplayIff(r: Revision, t: Registration, policy: Policy, ok: Validators, row: Row, sha256: Text -> int)
    requires Accepted(r, t, policy, ok) && StoresDocument(row, BuildSnapshotDocument(r, t, policy, ok).value, sha256)
    ensures Judge(Some(row), t, policy, sha256).Ok? <==> AllAuthorized(policy, [PrimaryOrigin(t.origins)], t.credentialRefs)
    ensures Judge(Some(row), t, policy, sha256).Err? ==> Judge(Some(row), t, policy, sha256).error == RefsNotAuthorized
  {
    ReplayIff(r, t, policy, ok, row, t, policy, sha256);
    PrimaryOriginIsRegistered(t);
  }

  /**
   * A run accepted for a manifest target whose registered references are its manifest's always
   * replays under the same registration and policy: the intersection over all origins that the
   * freeze demanded implies the grant for the one origin it froze.
   */
  lemma AcceptedManifestRunReplays(r: Revision, t: Registration, policy: Policy, ok: Validators, row: Row, sha256: Text -> int)
    requires Accepted(r, t, policy, ok) && StoresDocument(row, BuildSnapshotDocument(r, t, policy, ok).value, sha256)
    requires t.provenance.Declared? && multiset(t.credentialRefs) == multiset(t.provenance.manifest.credentialRefs)
    ensures Judge(Some(row), t, policy, sha256).Ok?
  {
    var declared := t.provenance.manifest.credentialRefs;
    PrimaryOriginIsRegistered(t);
    AuthorizedForEachOrigin(policy, t.origins, declared, PrimaryOrigin(t.origins));
    assert forall ref :: ref in t.credentialRefs ==> ref in multiset(t.credentialRefs) && ref in multiset(declared);
    SameElementsSameAuthorization(policy, [PrimaryOrigin(t.origins)], declared, t.credentialRefs);
    UnchangedReplayIff(r, t, policy, ok, row, sha256);
  }

  /** A document that no longer means what was frozen is refused, whatever else it says. */
  lemma AlteredDocumentIsRefused(v: Value, row: Row, content: Value, now: Registration, current: Policy, sha256: Text -> int)
    requires Injective(sha256) && StoresDocument(row, v, sha256)
    requires Storable(content) && MeaningOf(content) != MeaningOf(v)
    ensures Judge(Some(row.(content := content)), now, current, sha256) in {Err(CorruptDocument), Err(TamperedContent)}
  {
    SameTextIffSameMeaning(content, v, sha256);
  }

  /** Freezing a legacy target asks nothing about its references. */
  lemma LegacyDocumentBuilds(r: Revision, t: Registration, policy: Policy, ok: Validators)
    requires t.provenance.Legacy? && t.origins != [] && t.environment == LOCAL_DEVELOPMENT
    requires Member(r.stepsJson, "invariantBindings").None? && Member(r.stepsJson, "runScope").None?
    requires StepsOf(r).Arr? && Supported(StepsOf(r))
    ensures BuildSnapshotDocument(r, t, policy, ok) == Ok(FrozenDocument(r, t, None, [], None))
  {
    var target := Object(TargetPairs(t, None, [], None));
    TargetStorable(t, None, [], None);
    ExperimentNames(r);
    ObjectStorable(ExperimentPairs(r));
    ObjectIsSupported(DocumentPairs(target, Object(ExperimentPairs(r)), StepsOf(r)));
    CanonicalIsSortedText(FrozenDocument(r, t, None, [], None));
  }

  /**
   * A target without a manifest is not asked for grants when it is frozen but is when it is
   * replayed: with any reference and no grant at all, the run is accepted and its replay refused.
   */
  lemma LegacyRunMayNotReplay(r: Revision, t: Registration, policy: Policy, ok: Validators, row: Row, sha256: Text -> int)
    requires t.provenance.Legacy? && t.origins != [] && t.environment == LOCAL_DEVELOPMENT && t.credentialRefs != []
    requires policy.originGrants == map[]
    requires Member(r.stepsJson, "invariantBindings").None? && Member(r.stepsJson, "runScope").None?
    requires StepsOf(r).Arr? && Supported(StepsOf(r))
    requires StoresDocument(row, FrozenDocument(r, t, None, [], None), sha256)
    ensures Accepted(r, t, policy, ok) && Judge(Some(row), t, policy, sha256) == Err(RefsNotAuthorized)
  {
    LegacyDocumentBuilds(r, t, policy, ok);
    assert |LOCAL_DEVELOPMENT| != |PRODUCTION|;
    UnchangedReplayIff(r, t, policy, ok, row, sha256);
    assert !Granted(policy, [PrimaryOrigin(t.origins)][0], t.credentialRefs[0]);
    assert !Authorized(policy, [PrimaryOrigin(t.origins)], t.credentialRefs[0]);
  }

  lemma {:induction false} ObjectIsSupported(pairs: Pairs)
    requires forall i :: 0 <= i < |pairs| && pairs[i].1.Some? ==> Supported(pairs[i].1.value)
    ensures SupportedFields(ObjectFields(pairs))
  {
    if pairs != [] {
      ObjectIsSupported(pairs[1..]);
    }
  }
}
