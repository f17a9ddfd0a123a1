/**
 * What a freeze writes where, and when it succeeds: the members of the frozen document by name, the
 * earliest origin, lists in code unit order, and the exact conditions under which a run is accepted
 * and a stored document may be replayed.
 */
module FrozenDocument {
  import opened Wrappers
  import opened Text
  import opened Json
  import opened CanonicalText
  import opened Credentials
  import opened Documents
  import opened Snapshot
  import opened Replay

  // ------------------------------------------------------------------
  // Order
  // ------------------------------------------------------------------

  /** The frozen origin is registered, and no other one comes before it. */
  lemma FrozenOriginIsEarliest(t: Registration)
    requires t.origins != []
    ensures PrimaryOrigin(t.origins) in t.origins
    ensures forall origin :: origin in t.origins ==> origin == PrimaryOrigin(t.origins) || ComesFirst(PrimaryOrigin(t.origins), origin)
  {
    PrimaryOriginIsRegistered(t);
    forall origin | origin in t.origins && origin != PrimaryOrigin(t.origins)
      ensures ComesFirst(PrimaryOrigin(t.origins), origin)
    {
      LessIsTotal(PrimaryOrigin(t.origins), origin);
      LessIsByIndex(PrimaryOrigin(t.origins), origin);
    }
  }

  /** A sorted list of strings holds the same strings, each equal to the one before it or behind it in code unit order. */
  lemma SortedTextsAscend(s: seq<Text>)
    ensures multiset(SortTexts(s)) == multiset(s)
    ensures forall i, j :: 0 <= i < j < |SortTexts(s)| ==> SortTexts(s)[i] == SortTexts(s)[j] || ComesFirst(SortTexts(s)[i], SortTexts(s)[j])
  {
    SortKeepsElements(s);
    SortAscends(s);
    forall i, j | 0 <= i < j < |SortTexts(s)|
      ensures SortTexts(s)[i] == SortTexts(s)[j] || ComesFirst(SortTexts(s)[i], SortTexts(s)[j])
    {
      LessIsTotal(SortTexts(s)[i], SortTexts(s)[j]);
      LessIsByIndex(SortTexts(s)[i], SortTexts(s)[j]);
    }
  }

  predicate KeysAscend(s: seq<Instance>) {
    forall i, j :: 0 <= i < j < |s| ==> s[i].key == s[j].key || ComesFirst(s[i].key, s[j].key)
  }

  lemma {:induction false} InsertInstanceKeeps(x: Instance, s: seq<Instance>)
    ensures multiset(InsertInstance(x, s)) == multiset{x} + multiset(s)
  {
    if s != [] && Less(s[0].key, x.key) {
      InsertInstanceKeeps(x, s[1..]);
      assert s == [s[0]] + s[1..];
    }
  }

  lemma InsertedOnly(x: Instance, s: seq<Instance>, y: Instance)
    requires y in InsertInstance(x, s)
    ensures y == x || y in s
  {
    InsertInstanceKeeps(x, s);
    assert y in multiset(InsertInstance(x, s));
  }

  lemma {:induction false} InsertInstanceAscends(x: Instance, s: seq<Instance>)
    requires KeysAscend(s)
    ensures KeysAscend(InsertInstance(x, s))
  {
    if s != [] && !Less(s[0].key, x.key) {
      BehindHead(x, s);
    } else if s != [] {
      InsertInstanceAscends(x, s[1..]);
      HeadStays(x, s);
    }
  }

  lemma HeadStays(x: Instance, s: seq<Instance>)
    requires s != [] && KeysAscend(s) && Less(s[0].key, x.key) && KeysAscend(InsertInstance(x, s[1..]))
    ensures KeysAscend([s[0]] + InsertInstance(x, s[1..]))
  {
    var rest := InsertInstance(x, s[1..]);
    LessIsByIndex(s[0].key, x.key);
    forall j | 0 <= j < |rest|
      ensures s[0].key == rest[j].key || ComesFirst(s[0].key, rest[j].key)
    {
      InsertedOnly(x, s[1..], rest[j]);
      if rest[j] in s[1..] {
        var k :| 0 <= k < |s[1..]| && s[1..][k] == rest[j];
        assert s[k + 1] == rest[j];
      }
    }
  }

  lemma BehindHead(x: Instance, s: seq<Instance>)
    requires s != [] && KeysAscend(s) && !Less(s[0].key, x.key)
    ensures KeysAscend([x] + s)
  {
    LessIsTotal(s[0].key, x.key);
    LessIsByIndex(x.key, s[0].key);
    forall j | 0 <= j < |s|
      ensures x.key == s[j].key || ComesFirst(x.key, s[j].key)
    {
      LessIsByIndex(s[0].key, s[j].key);
      LessIsByIndex(x.key, s[j].key);
      if Less(x.key, s[0].key) && Less(s[0].key, s[j].key) {
        LessIsTransitive(x.key, s[0].key, s[j].key);
      }
    }
  }

  /** Invariant instances are frozen in the order of their keys, none lost and none added. */
  lemma {:induction false} InstancesAreFrozenInKeyOrder(s: seq<Instance>)
    ensures KeysAscend(SortInstances(s)) && multiset(SortInstances(s)) == multiset(s)
  {
    if s != [] {
      InstancesAreFrozenInKeyOrder(s[1..]);
      InsertInstanceAscends(s[0], SortInstances(s[1..]));
      InsertInstanceKeeps(s[0], SortInstances(s[1..]));
      assert s == [s[0]] + s[1..];
    }
  }

  // ------------------------------------------------------------------
  // Members by name
  // ------------------------------------------------------------------

  /** The execution policy block: the header under its name, and under the other one the key that signs it. */
  lemma PolicyMembers(m: Manifest, binding: Option<SignatureBinding>)
    ensures var v := Object(ExecutionPolicyPairs(m, binding));
      && StringMember(v, "manifestVersion") == Some(m.version)
      && StringMember(v, "signatureHeader") == (if binding.Some? then Some(binding.value.header) else None)
      && StringMember(v, "signatureCredentialRef") == (if binding.Some? then Some(binding.value.ref) else None)
      && Member(v, "faultHook") == m.faultHook
      && Member(v, "contractMetadata").Some?
      && Member(Member(v, "contractMetadata").value, "noEffectOnRejection") == Some(Bool(m.noEffectOnRejection))
  {
    PolicyMember(m, binding, 0);
    PolicyMember(m, binding, 1);
    PolicyMember(m, binding, 2);
    PolicyMember(m, binding, 3);
    PolicyMember(m, binding, 4);
    MetadataMember(m.noEffectOnRejection);
  }

  lemma PolicyMember(m: Manifest, binding: Option<SignatureBinding>, i: nat)
    requires i < 5
    ensures Member(Object(ExecutionPolicyPairs(m, binding)), POLICY_NAMES[i]) == ExecutionPolicyPairs(m, binding)[i].1
  {
    PolicyNames(m, binding);
    ObjectMember(ExecutionPolicyPairs(m, binding), i);
    assert ExecutionPolicyPairs(m, binding)[i].0 == POLICY_NAMES[i];
  }

  lemma MetadataMember(b: bool)
    ensures Member(Object([("noEffectOnRejection", Some(Bool(b)))]), "noEffectOnRejection") == Some(Bool(b))
  {
    ObjectMember([("noEffectOnRejection", Some(Bool(b)))], 0);
  }

  /** The target block. */
  lemma TargetMembers(t: Registration, block: Option<Value>, instances: seq<Instance>, runScope: Option<Value>)
    requires t.origins != []
    ensures var v := Object(TargetPairs(t, block, instances, runScope));
      && StringMember(v, "targetId") == Some(t.id) && StringMember(v, "displayName") == Some(t.displayName)
      && StringMember(v, "environment") == Some(t.environment) && StringMember(v, "contractKind") == Some(t.contractKind)
      && StringMember(v, "origin") == Some(PrimaryOrigin(t.origins))
      && StringsIn(ArrayMember(v, "credentialRefs")) == SortTexts(t.credentialRefs)
      && Member(v, "manifestPolicy") == block && Member(v, "runScopeBinding") == runScope
      && Member(v, "manifestEvidencePolicy") == (if t.provenance.Declared? then Some(t.provenance.manifest.evidence) else None)
      && Member(v, "invariantBindings") == (if instances == [] then None else Some(Arr(InstanceItems(instances))))
  {
    var pairs := TargetPairs(t, block, instances, runScope);
    TargetNames(t, block, instances, runScope);
    forall i: nat | i < 10
      ensures Member(Object(pairs), pairs[i].0) == pairs[i].1
    {
      ObjectMember(pairs, i);
    }
    assert pairs[0].0 == "targetId" && pairs[1].0 == "displayName" && pairs[2].0 == "environment" && pairs[3].0 == "origin";
    assert pairs[4].0 == "contractKind" && pairs[5].0 == "credentialRefs" && pairs[6].0 == "manifestPolicy";
    assert pairs[7].0 == "manifestEvidencePolicy" && pairs[8].0 == "invariantBindings" && pairs[9].0 == "runScopeBinding";
    StringItemsRoundTrip(SortTexts(t.credentialRefs));
  }

  /** The document around it, and the experiment it comes from. */
  lemma DocumentMembers(r: Revision, target: Value)
    ensures var v := Object(DocumentPairs(target, Object(ExperimentPairs(r)), StepsOf(r)));
      && StringMember(v, "engineVersion") == Some(Ascii("phase3-execution-v1"))
      && StringMember(v, "canonicalization") == Some(Ascii("rg-canonical-jcs-v1"))
      && Member(v, "target") == Some(target) && Member(v, "steps") == Some(StepsOf(r)) && Member(v, "experiment").Some?
      && var e := Member(v, "experiment").value;
      && StringMember(e, "definitionId") == Some(r.definitionId) && StringMember(e, "revisionId") == Some(r.id)
      && StringMember(e, "definitionName") == Some(r.definitionName) && Member(e, "revisionNumber") == Some(Num(Int(r.number)))
  {
    var pairs := DocumentPairs(target, Object(ExperimentPairs(r)), StepsOf(r));
    DocumentNames(target, Object(ExperimentPairs(r)), StepsOf(r));
    ObjectMember(pairs, 0);
    ObjectMember(pairs, 1);
    ObjectMember(pairs, 2);
    ObjectMember(pairs, 3);
    ObjectMember(pairs, 4);
    ExperimentNames(r);
    ObjectMember(ExperimentPairs(r), 0);
    ObjectMember(ExperimentPairs(r), 1);
    ObjectMember(ExperimentPairs(r), 2);
    ObjectMember(ExperimentPairs(r), 3);
  }

  // ------------------------------------------------------------------
  // When a freeze succeeds
  // ------------------------------------------------------------------

  /** The target's credentials bear a freeze out: a manifest's references are granted, and a signature has one key. */
  predicate CredentialsOk(t: Registration, policy: Policy) {
    match t.provenance
    case Legacy => true
    case Corrupt => false
    case Declared(m) =>
      && (forall i :: 0 <= i < |m.credentialRefs| ==> Authorized(policy, t.origins, m.credentialRefs[i]))
      && (m.signatureHeader.Some? ==> OneSigns(policy, t.origins, m.credentialRefs))
  }

  predicate OneSigns(policy: Policy, origins: seq<Text>, refs: seq<Text>) {
    exists i :: 0 <= i < |refs| && SignsAlone(policy, origins, refs, i)
  }

  predicate SignsAlone(policy: Policy, origins: seq<Text>, refs: seq<Text>, i: nat)
    requires i < |refs|
  {
    CanSign(policy, origins, refs[i]) && forall j :: 0 <= j < |refs| && j != i ==> !CanSign(policy, origins, refs[j])
  }

  lemma BindingExists(policy: Policy, origins: seq<Text>, header: Text, refs: seq<Text>)
    requires forall i :: 0 <= i < |refs| ==> Authorized(policy, origins, refs[i])
    ensures ResolvedBinding(policy, origins, Some(header), refs).Some? <==> OneSigns(policy, origins, refs)
    ensures forall i: nat :: i < |refs| && SignsAlone(policy, origins, refs, i) ==>
      ResolvedBinding(policy, origins, Some(header), refs) == Some(Some(SignatureBinding(header, refs[i])))
  {
    var resolved := ResolvedBinding(policy, origins, Some(header), refs);
    if resolved.Some? {
      var ref := resolved.value.value.ref;
      assert resolved == Some(Some(SignatureBinding(header, ref)));
      BindingIffExactlyOne(policy, origins, header, refs, ref);
      var i :| 0 <= i < |refs| && refs[i] == ref && CanSign(policy, origins, ref)
               && forall j :: 0 <= j < |refs| && j != i ==> !CanSign(policy, origins, refs[j]);
      assert SignsAlone(policy, origins, refs, i);
    }
    forall i: nat | i < |refs| && SignsAlone(policy, origins, refs, i)
      ensures resolved == Some(Some(SignatureBinding(header, refs[i])))
    {
      BindingIffExactlyOne(policy, origins, header, refs, refs[i]);
    }
  }

  lemma PolicyDerivesIff(t: Registration, policy: Policy)
    ensures DeriveExecutionPolicy(t, policy).Ok? <==> CredentialsOk(t, policy)
    ensures DeriveExecutionPolicy(t, policy).Ok? ==> (DeriveExecutionPolicy(t, policy).value.Some? <==> t.provenance.Declared?)
  {
    if t.provenance.Declared? {
      var m := t.provenance.manifest;
      if m.signatureHeader.Some? && AllAuthorized(policy, t.origins, m.credentialRefs) {
        BindingExists(policy, t.origins, m.signatureHeader.value, m.credentialRefs);
      }
    }
  }

  /** The instance read from a member of the declared list, if it is one the registry knows. */
  ghost predicate Declares(raw: Value, i: Instance, evidence: Value, ok: Validators) {
    && raw.Obj?
    && (forall k :: k in Keys(raw.fields) ==> k in {Ascii("key"), Ascii("kind"), Ascii("params"), Ascii("registryVersion")})
    && StringMember(raw, "key") == Some(i.key) && 1 <= |i.key| <= 80
    && StringMember(raw, "kind") == Some(i.kind) && i.kind in {Ascii("atMostOneAcceptedEffect"), Ascii("resourceConservation")}
    && Member(raw, "params") == Some(i.params) && i.params.Obj? && ok.params(i.kind, i.params, evidence)
    && i.registryVersion == Ascii("business-invariant/v1")
    && (Member(raw, "registryVersion").None? || StringMember(raw, "registryVersion") == Some(i.registryVersion))
  }

  lemma InstanceIsDeclared(raw: Value, i: Instance, evidence: Value, ok: Validators)
    ensures ValidateInstance(raw, evidence, ok) == Some(i) <==> Declares(raw, i, evidence, ok)
  {
  }

  /** `instances` are what the elements of the list declare, one by one, under keys of their own. */
  ghost predicate DeclareAll(items: Items, instances: seq<Instance>, seen: set<Text>, evidence: Value, ok: Validators) {
    match items
    case NoItems => instances == []
    case Hole(_) => false
    case Item(head, tail) =>
      && instances != [] && Declares(head, instances[0], evidence, ok) && instances[0].key !in seen
      && DeclareAll(tail, instances[1..], seen + {instances[0].key}, evidence, ok)
  }

  lemma {:induction false} InstancesAreDeclared(items: Items, instances: seq<Instance>, seen: set<Text>, evidence: Value, ok: Validators)
    ensures ValidateInstances(items, seen, evidence, ok) == Some(instances) <==> DeclareAll(items, instances, seen, evidence, ok)
    decreases items
  {
    if items.Item? {
      var first := ValidateInstance(items.head, evidence, ok);
      if first.Some? {
        InstanceIsDeclared(items.head, first.value, evidence, ok);
        var others := ValidateInstances(items.tail, seen + {first.value.key}, evidence, ok);
        if others.Some? {
          InstancesAreDeclared(items.tail, others.value, seen + {first.value.key}, evidence, ok);
        }
        if instances != [] {
          InstanceIsDeclared(items.head, instances[0], evidence, ok);
          InstancesAreDeclared(items.tail, instances[1..], seen + {instances[0].key}, evidence, ok);
          assert ([instances[0]] + instances[1..]) == instances;
        }
      } else if instances != [] {
        InstanceIsDeclared(items.head, instances[0], evidence, ok);
      }
    }
  }

  /** The invariant bindings bear a freeze out: none at all, or a manifest target's list of known instances. */
  ghost predicate BindingsOk(raw: Option<Value>, t: Registration, ok: Validators) {
    || raw.None? || raw.value.Null?
    || (t.provenance.Declared? && raw.value.Arr? && exists s :: DeclareAll(raw.value.items, s, {}, t.provenance.manifest.evidence, ok))
  }

  predicate ScopeOk(raw: Option<Value>, t: Registration, ok: Validators) {
    raw.None? || raw.value.Null? || (t.provenance.Declared? && ok.runScope(raw.value, t.provenance.manifest.evidence))
  }

  lemma BindingsDeriveIff(raw: Option<Value>, t: Registration, ok: Validators)
    ensures DeriveBindings(raw, t.provenance, ok).Some? <==> BindingsOk(raw, t, ok)
  {
    if !Missing(raw) && t.provenance.Declared? && raw.value.Arr? {
      var evidence := t.provenance.manifest.evidence;
      var validated := ValidateInstances(raw.value.items, {}, evidence, ok);
      if validated.Some? {
        InstancesAreDeclared(raw.value.items, validated.value, {}, evidence, ok);
      }
      if s :| DeclareAll(raw.value.items, s, {}, evidence, ok) {
        InstancesAreDeclared(raw.value.items, s, {}, evidence, ok);
      }
    }
  }

  /**
   * A document can be built exactly if the target has an origin, a known environment and credentials
   * that bear it out, bindings and run scope are absent or valid for a manifest target, and nothing in
   * it is unsupported; the first check that fails is the error.
   */
  lemma FreezeSucceedsIff(r: Revision, t: Registration, policy: Policy, ok: Validators)
    ensures var built := BuildSnapshotDocument(r, t, policy, ok);
      var bindings, scope := Member(r.stepsJson, "invariantBindings"), Member(r.stepsJson, "runScope");
      if t.origins == [] then built == Err(NoOrigins)
      else if t.environment !in {Ascii("LOCAL_DEVELOPMENT"), Ascii("STAGING"), Ascii("PRODUCTION")} then built == Err(UnknownEnvironment)
      else if t.provenance.Corrupt? then built == Err(CorruptManifest)
      else if !CredentialsOk(t, policy) then built == Err(CredentialFailure)
      else if !BindingsOk(bindings, t, ok) then built == Err(InvalidBindings)
      else if !ScopeOk(scope, t, ok) then built == Err(InvalidRunScope)
      else built.Ok? || built == Err(Uncanonicalizable)
  {
    PolicyDerivesIff(t, policy);
    BindingsDeriveIff(Member(r.stepsJson, "invariantBindings"), t, ok);
  }

  /** The signature pair of a frozen manifest target: its own header, and its only reference that can sign. */
  lemma FrozenSignature(r: Revision, t: Registration, policy: Policy, ok: Validators, i: nat)
    requires BuildSnapshotDocument(r, t, policy, ok).Ok? && t.provenance.Declared?
    requires t.provenance.manifest.signatureHeader.Some?
    requires i < |t.provenance.manifest.credentialRefs| && SignsAlone(policy, t.origins, t.provenance.manifest.credentialRefs, i)
    ensures var block := Member(Object(FrozenTarget(r, t, policy, ok)), "manifestPolicy");
      && block.Some?
      && StringMember(block.value, "signatureHeader") == t.provenance.manifest.signatureHeader
      && StringMember(block.value, "signatureCredentialRef") == Some(t.provenance.manifest.credentialRefs[i])
  {
    var m := t.provenance.manifest;
    var binding := ResolvedBinding(policy, t.origins, m.signatureHeader, m.credentialRefs);
    assert binding.Some?;
    BindingExists(policy, t.origins, m.signatureHeader.value, m.credentialRefs);
    PolicyMembers(m, binding.value);
    TargetMembers(t, DeriveExecutionPolicy(t, policy).value,
                  DeriveBindings(Member(r.stepsJson, "invariantBindings"), t.provenance, ok).value,
                  DeriveRunScope(Member(r.stepsJson, "runScope"), t.provenance, ok).value);
  }

  // ------------------------------------------------------------------
  // When a stored document may be replayed
  // ------------------------------------------------------------------

  predicate BindingKnown(v: Value) {
    && v.Obj? && StringMember(v, "key").Some?
    && StringMember(v, "kind") in {Some(Ascii("atMostOneAcceptedEffect")), Some(Ascii("resourceConservation"))}
    && StringMember(v, "registryVersion") == Some(Ascii("business-invariant/v1"))
  }

  predicate BindingsKnown(items: Items) {
    match items
    case NoItems => true
    case Hole(_) => false
    case Item(head, tail) => BindingKnown(head) && BindingsKnown(tail)
  }

  lemma {:induction false} BindingsErrorIff(items: Items)
    ensures BindingsError(items).None? <==> BindingsKnown(items)
  {
    if items.Item? {
      BindingsErrorIff(items.tail);
    }
  }

  /** What a target block must say to be replayed under this registration and policy. */
  predicate TargetReplayable(target: Value, now: Registration, policy: Policy) {
    && StringMember(target, "targetId") == Some(now.id)
    && StringMember(target, "environment") == Some(now.environment) && StringMember(target, "contractKind") == Some(now.contractKind)
    && now.environment in {Ascii("LOCAL_DEVELOPMENT"), Ascii("STAGING")}
    && StringMember(target, "origin").Some? && StringMember(target, "origin").value in now.origins
    && (forall ref :: ref in StringsIn(ArrayMember(target, "credentialRefs")) ==>
          ref in now.credentialRefs && Authorized(policy, [StringMember(target, "origin").value], ref))
    && BindingsKnown(ArrayMember(target, "invariantBindings"))
  }

  lemma TargetReplayableIff(row: Row, target: Value, now: Registration, policy: Policy)
    ensures JudgeTarget(row, target, now, policy).Ok? <==> TargetReplayable(target, now, policy)
  {
    BindingsErrorIff(ArrayMember(target, "invariantBindings"));
    assert |LOCAL_DEVELOPMENT| == 17 && |STAGING| == 7 && |PRODUCTION| == 10;
    var refs := StringsIn(ArrayMember(target, "credentialRefs"));
    if StringMember(target, "origin").Some? {
      var origins := [StringMember(target, "origin").value];
      assert AllAuthorized(policy, origins, refs) <==> forall ref :: ref in refs ==> Authorized(policy, origins, ref);
    }
  }

  /**
   * Any stored row, whoever wrote it: it may be replayed exactly if it is a document of this engine
   * whose canonical text has the recorded hash and whose target block is replayable now.
   */
  lemma StoredRowReplayableIff(row: Row, now: Registration, policy: Policy, sha256: Text -> int)
    ensures Judge(Some(row), now, policy, sha256).Ok? <==>
      && row.content.Obj?
      && Member(row.content, "target").Some? && Member(row.content, "target").value.Obj?
      && Member(row.content, "steps").Some? && Member(row.content, "steps").value.Arr?
      && row.canonicalization == Ascii("rg-canonical-jcs-v1")
      && StringMember(row.content, "canonicalization") == Some(Ascii("rg-canonical-jcs-v1"))
      && StringMember(row.content, "engineVersion") == Some(Ascii("phase3-execution-v1"))
      && CanonicalizeJson(row.content).Ok? && sha256(CanonicalizeJson(row.content).value) == row.contentHash
      && TargetReplayable(Member(row.content, "target").value, now, policy)
    ensures Judge(None, now, policy, sha256) == Err(MissingSnapshot)
  {
    if IsDocument(row.content) {
      TargetReplayableIff(row, Member(row.content, "target").value, now, policy);
    }
  }
}
