/**
 * Freezing an experiment revision (packages/engine/src/snapshot.ts, run-create.ts, and the parts of
 * manifest.ts and generic-invariant-registry.ts it calls): what is checked, the document that is
 * frozen, and the content-addressed store it goes to.
 */
module Snapshot {
  import opened Wrappers
  import opened Text
  import opened Json
  import opened JsonParser
  import opened CanonicalText
  import opened Credentials
  import opened Documents

  const ENGINE_VERSION := Ascii("phase3-execution-v1")
  const CANONICALIZATION := Ascii("rg-canonical-jcs-v1")
  const REGISTRY_VERSION := Ascii("business-invariant/v1")
  const LOCAL_DEVELOPMENT := Ascii("LOCAL_DEVELOPMENT")
  const STAGING := Ascii("STAGING")
  const PRODUCTION := Ascii("PRODUCTION")
  const DEMO_FINTECH_WEBHOOK := Ascii("DEMO_FINTECH_WEBHOOK")

  predicate KnownKind(kind: Text) { kind == Ascii("atMostOneAcceptedEffect") || kind == Ascii("resourceConservation") }

  // ------------------------------------------------------------------
  // Rows
  // ------------------------------------------------------------------

  /** A validated manifest: the parts freezing looks at, and the rest of its two policies as JSON. */
  datatype Manifest = Manifest(version: Text, signatureHeader: Option<Text>, credentialRefs: seq<Text>,
                               faultHook: Option<Value>, noEffectOnRejection: bool, evidence: Value)

  datatype Provenance = Legacy | Corrupt | Declared(manifest: Manifest)

  datatype Registration = Registration(id: Text, displayName: Text, environment: Text, contractKind: Text,
                                       credentialRefs: seq<Text>, origins: seq<Text>, provenance: Provenance)

  datatype Revision = Revision(id: Text, number: SmallInt, definitionId: Text, definitionName: Text, stepsJson: Value)

  /** Validation of an instance's params and of a run scope against an evidence policy: taken as given. */
  datatype Validators = Validators(params: (Text, Value, Value) -> bool, runScope: (Value, Value) -> bool)

  datatype FreezeError =
    | NoOrigins | UnknownEnvironment | CorruptManifest | CredentialFailure
    | InvalidBindings | InvalidRunScope | Uncanonicalizable | ProductionDenied | MalformedSteps

  // ------------------------------------------------------------------
  // Invariant bindings
  // ------------------------------------------------------------------

  datatype Instance = Instance(key: Text, kind: Text, registryVersion: Text, params: Value)

  function InstancePairs(i: Instance): Pairs {
    [("key", Some(Str(i.key))), ("kind", Some(Str(i.kind))), ("registryVersion", Some(Str(i.registryVersion))), ("params", Some(i.params))]
  }

  predicate OnlyKnownKeys(fields: Fields) {
    forall k :: k in Keys(fields) ==> k in {Ascii("key"), Ascii("kind"), Ascii("params"), Ascii("registryVersion")}
  }

  function ValidateInstance(raw: Value, evidence: Value, ok: Validators): Option<Instance> {
    if !raw.Obj? || !OnlyKnownKeys(raw.fields) then None
    else
      var key, kind, params := StringMember(raw, "key"), StringMember(raw, "kind"), Member(raw, "params");
      var version := if Member(raw, "registryVersion").None? then Some(REGISTRY_VERSION) else StringMember(raw, "registryVersion");
      if key.None? || |key.value| == 0 || |key.value| > 80 then None
      else if version != Some(REGISTRY_VERSION) then None
      else if kind.None? || !KnownKind(kind.value) then None
      else if params.None? || !params.value.Obj? || !ok.params(kind.value, params.value, evidence) then None
      else Some(Instance(key.value, kind.value, version.value, params.value))
  }

  function ValidateInstances(items: Items, seen: set<Text>, evidence: Value, ok: Validators): Option<seq<Instance>> {
    match items
    case NoItems => Some([])
    case Hole(_) => None
    case Item(head, tail) =>
      var first := ValidateInstance(head, evidence, ok);
      if first.None? || first.value.key in seen then None
      else
        var others := ValidateInstances(tail, seen + {first.value.key}, evidence, ok);
        if others.None? then None else Some([first.value] + others.value)
  }

  function InsertInstance(x: Instance, s: seq<Instance>): seq<Instance> {
    if s == [] || !Less(s[0].key, x.key) then [x] + s else [s[0]] + InsertInstance(x, s[1..])
  }

  function SortInstances(s: seq<Instance>): seq<Instance> {
    if s == [] then [] else InsertInstance(s[0], SortInstances(s[1..]))
  }

  predicate Missing(v: Option<Value>) { v.None? || v.value.Null? }

  /** Without a manifest nothing may be declared; an empty list freezes no block. */
  function DeriveBindings(raw: Option<Value>, provenance: Provenance, ok: Validators): Option<seq<Instance>> {
    if Missing(raw) then Some([])
    else if !provenance.Declared? || !raw.value.Arr? then None
    else
      var instances := ValidateInstances(raw.value.items, {}, provenance.manifest.evidence, ok);
      if instances.None? then None else Some(SortInstances(instances.value))
  }

  function InstanceItems(s: seq<Instance>): Items {
    if s == [] then NoItems else Item(Object(InstancePairs(s[0])), InstanceItems(s[1..]))
  }

  // ------------------------------------------------------------------
  // The document
  // ------------------------------------------------------------------

  /** The signature header and the name of its key are written together or not at all. */
  function ExecutionPolicyPairs(m: Manifest, binding: Option<SignatureBinding>): Pairs {
    [("manifestVersion", Some(Str(m.version))),
     ("signatureHeader", if binding.Some? then Some(Str(binding.value.header)) else None),
     ("signatureCredentialRef", if binding.Some? then Some(Str(binding.value.ref)) else None),
     ("faultHook", m.faultHook),
     ("contractMetadata", Some(Object([("noEffectOnRejection", Some(Bool(m.noEffectOnRejection)))])))]
  }

  function TargetPairs(t: Registration, policyBlock: Option<Value>, instances: seq<Instance>, runScope: Option<Value>): Pairs
    requires t.origins != []
  {
    [("targetId", Some(Str(t.id))),
     ("displayName", Some(Str(t.displayName))),
     ("environment", Some(Str(t.environment))),
     ("origin", Some(Str(PrimaryOrigin(t.origins)))),
     ("contractKind", Some(Str(t.contractKind))),
     ("credentialRefs", Some(Arr(StringItems(SortTexts(t.credentialRefs))))),
     ("manifestPolicy", policyBlock),
     ("manifestEvidencePolicy", if t.provenance.Declared? then Some(t.provenance.manifest.evidence) else None),
     ("invariantBindings", if instances == [] then None else Some(Arr(InstanceItems(instances)))),
     ("runScopeBinding", runScope)]
  }

  function ExperimentPairs(r: Revision): Pairs {
    [("definitionId", Some(Str(r.definitionId))), ("revisionId", Some(Str(r.id))),
     ("definitionName", Some(Str(r.definitionName))), ("revisionNumber", Some(Num(Int(r.number))))]
  }

  function DocumentPairs(target: Value, experiment: Value, steps: Value): Pairs {
    [("engineVersion", Some(Str(ENGINE_VERSION))), ("canonicalization", Some(Str(CANONICALIZATION))),
     ("target", Some(target)), ("experiment", Some(experiment)), ("steps", Some(steps))]
  }

  /** The lexicographically first registered origin. */
  function PrimaryOrigin(origins: seq<Text>): Text
    requires origins != []
  {
    SortKeepsElements(origins);
    SortTexts(origins)[0]
  }

  /** The execution policy block of a manifest target, or that it cannot be derived. */
  function DeriveExecutionPolicy(t: Registration, policy: Policy): Result<Option<Value>, FreezeError> {
    match t.provenance
    case Legacy => Ok(None)
    case Corrupt => Err(CorruptManifest)
    case Declared(m) =>
      var binding := ResolvedBinding(policy, t.origins, m.signatureHeader, m.credentialRefs);
      if binding.None? then Err(CredentialFailure) else Ok(Some(Object(ExecutionPolicyPairs(m, binding.value))))
  }

  function DeriveRunScope(raw: Option<Value>, provenance: Provenance, ok: Validators): Option<Option<Value>> {
    if Missing(raw) then Some(None)
    else if !provenance.Declared? || !ok.runScope(raw.value, provenance.manifest.evidence) then None
    else Some(Some(raw.value))
  }

  function StepsOf(r: Revision): Value {
    var steps := Member(r.stepsJson, "steps");
    if steps.Some? then steps.value else Unsupported
  }

  function FrozenDocument(r: Revision, t: Registration, policyBlock: Option<Value>, instances: seq<Instance>, runScope: Option<Value>): Value
    requires t.origins != []
  {
    Object(DocumentPairs(Object(TargetPairs(t, policyBlock, instances, runScope)), Object(ExperimentPairs(r)), StepsOf(r)))
  }

  function BuildSnapshotDocument(r: Revision, t: Registration, policy: Policy, ok: Validators): Result<Value, FreezeError> {
    if t.origins == [] then Err(NoOrigins)
    else if t.environment !in [LOCAL_DEVELOPMENT, STAGING, PRODUCTION] then Err(UnknownEnvironment)
    else
      var execution := DeriveExecutionPolicy(t, policy);
      if execution.Err? then Err(execution.error)
      else
        var instances := DeriveBindings(Member(r.stepsJson, "invariantBindings"), t.provenance, ok);
        if instances.None? then Err(InvalidBindings)
        else
          var runScope := DeriveRunScope(Member(r.stepsJson, "runScope"), t.provenance, ok);
          if runScope.None? then Err(InvalidRunScope)
          else
            var document := FrozenDocument(r, t, execution.value, instances.value, runScope.value);
            if CanonicalizeJson(document).Err? then Err(Uncanonicalizable) else Ok(document)
  }

  /** What it takes for a run to be created. */
  predicate Accepted(r: Revision, t: Registration, policy: Policy, ok: Validators) {
    BuildSnapshotDocument(r, t, policy, ok).Ok? && t.environment != PRODUCTION && StepsOf(r).Arr?
  }

  // ------------------------------------------------------------------
  // The document can be stored
  // ------------------------------------------------------------------

  /** The JSON columns a freeze reads come out of a database: each can be stored again. */
  predicate InputsStorable(r: Revision, t: Registration) {
    && Storable(r.stepsJson)
    && (t.provenance.Declared? ==>
          Storable(t.provenance.manifest.evidence)
          && (t.provenance.manifest.faultHook.Some? ==> Storable(t.provenance.manifest.faultHook.value)))
  }

  lemma {:induction false} FieldStorable(fields: Fields, key: Text)
    requires StorableFields(fields) && key in Keys(fields)
    ensures Storable(Get(fields, key))
  {
    if !(fields.key == key && key !in Keys(fields.next)) {
      FieldStorable(fields.next, key);
    }
  }

  lemma MemberStorable(v: Value, key: string)
    requires Storable(v) && Member(v, key).Some?
    ensures Storable(Member(v, key).value)
  {
    FieldStorable(v.fields, Ascii(key));
  }

  lemma InstanceNames(i: Instance)
    ensures DistinctNames(InstancePairs(i))
  {
  }

  lemma ExperimentNames(r: Revision)
    ensures DistinctNames(ExperimentPairs(r))
  {
  }

  const POLICY_NAMES: seq<string> := ["manifestVersion", "signatureHeader", "signatureCredentialRef", "faultHook", "contractMetadata"]

  lemma PolicyNamesDiffer(i: nat, j: nat)
    requires i < j < 5
    ensures POLICY_NAMES[i] != POLICY_NAMES[j]
  {
    var lengths := [15, 15, 22, 9, 16];
    assert |POLICY_NAMES[i]| == lengths[i] && |POLICY_NAMES[j]| == lengths[j];
    assert POLICY_NAMES[0][0] != POLICY_NAMES[1][0];
  }

  lemma PolicyNamesAreAscii(i: nat)
    requires i < 5
    ensures IsAscii(POLICY_NAMES[i])
  {
    assert IsAscii("manifestVersion") && IsAscii("signatureHeader") && IsAscii("signatureCredentialRef");
    assert IsAscii("faultHook") && IsAscii("contractMetadata");
  }

  lemma PolicyNames(m: Manifest, binding: Option<SignatureBinding>)
    ensures DistinctNames(ExecutionPolicyPairs(m, binding))
  {
    var pairs := ExecutionPolicyPairs(m, binding);
    assert forall i :: 0 <= i < 5 ==> pairs[i].0 == POLICY_NAMES[i];
    forall i | 0 <= i < |pairs|
      ensures IsAscii(pairs[i].0)
    {
      PolicyNamesAreAscii(i);
    }
    forall i, j | 0 <= i < j < |pairs|
      ensures pairs[i].0 != pairs[j].0
    {
      PolicyNamesDiffer(i, j);
    }
  }

  lemma DocumentNames(target: Value, experiment: Value, steps: Value)
    ensures DistinctNames(DocumentPairs(target, experiment, steps))
  {
  }

  const TARGET_NAMES: seq<string> :=
    ["targetId", "displayName", "environment", "origin", "contractKind", "credentialRefs",
     "manifestPolicy", "manifestEvidencePolicy", "invariantBindings", "runScopeBinding"]

  lemma TargetNamesAreAscii(i: nat)
    requires i < 10
    ensures IsAscii(TARGET_NAMES[i])
  {
    assert IsAscii("targetId") && IsAscii("displayName") && IsAscii("environment") && IsAscii("origin");
    assert IsAscii("contractKind") && IsAscii("credentialRefs") && IsAscii("manifestPolicy");
    assert IsAscii("manifestEvidencePolicy") && IsAscii("invariantBindings") && IsAscii("runScopeBinding");
  }

  lemma TargetNamesDiffer(i: nat, j: nat)
    requires i < j < 10
    ensures TARGET_NAMES[i] != TARGET_NAMES[j]
  {
    var lengths := [8, 11, 11, 6, 12, 14, 14, 22, 17, 15];
    assert |TARGET_NAMES[i]| == lengths[i] && |TARGET_NAMES[j]| == lengths[j];
    assert TARGET_NAMES[1][0] != TARGET_NAMES[2][0] && TARGET_NAMES[5][0] != TARGET_NAMES[6][0];
  }

  lemma TargetNames(t: Registration, policyBlock: Option<Value>, instances: seq<Instance>, runScope: Option<Value>)
    requires t.origins != []
    ensures DistinctNames(TargetPairs(t, policyBlock, instances, runScope))
  {
    var pairs := TargetPairs(t, policyBlock, instances, runScope);
    assert forall i :: 0 <= i < 10 ==> pairs[i].0 == TARGET_NAMES[i];
    forall i | 0 <= i < |pairs|
      ensures IsAscii(pairs[i].0)
    {
      TargetNamesAreAscii(i);
    }
    forall i, j | 0 <= i < j < |pairs|
      ensures pairs[i].0 != pairs[j].0
    {
      TargetNamesDiffer(i, j);
    }
  }

  predicate InstancesStorable(s: seq<Instance>) { forall i :: 0 <= i < |s| ==> Storable(s[i].params) }

  lemma {:induction false} ValidatedAreStorable(items: Items, seen: set<Text>, evidence: Value, ok: Validators)
    requires StorableItems(items)
    ensures ValidateInstances(items, seen, evidence, ok).Some? ==> InstancesStorable(ValidateInstances(items, seen, evidence, ok).value)
  {
    if items.Item? {
      var first := ValidateInstance(items.head, evidence, ok);
      if first.Some? {
        MemberStorable(items.head, "params");
        ValidatedAreStorable(items.tail, seen + {first.value.key}, evidence, ok);
      }
    }
  }

  lemma {:induction false} InsertInstanceStorable(x: Instance, s: seq<Instance>)
    requires Storable(x.params) && InstancesStorable(s)
    ensures InstancesStorable(InsertInstance(x, s))
  {
    if s != [] && Less(s[0].key, x.key) {
      InsertInstanceStorable(x, s[1..]);
    }
  }

  lemma {:induction false} SortInstancesStorable(s: seq<Instance>)
    requires InstancesStorable(s)
    ensures InstancesStorable(SortInstances(s))
  {
    if s != [] {
      SortInstancesStorable(s[1..]);
      InsertInstanceStorable(s[0], SortInstances(s[1..]));
    }
  }

  lemma {:induction false} InstanceItemsStorable(s: seq<Instance>)
    requires InstancesStorable(s)
    ensures StorableItems(InstanceItems(s))
  {
    if s != [] {
      InstanceNames(s[0]);
      ObjectStorable(InstancePairs(s[0]));
      InstanceItemsStorable(s[1..]);
    }
  }

  lemma BindingsStorable(r: Revision, t: Registration, ok: Validators)
    requires InputsStorable(r, t)
    ensures var instances := DeriveBindings(Member(r.stepsJson, "invariantBindings"), t.provenance, ok);
      instances.Some? ==> InstancesStorable(instances.value)
  {
    var raw := Member(r.stepsJson, "invariantBindings");
    if !Missing(raw) && t.provenance.Declared? && raw.value.Arr? {
      MemberStorable(r.stepsJson, "invariantBindings");
      ValidatedAreStorable(raw.value.items, {}, t.provenance.manifest.evidence, ok);
      var instances := ValidateInstances(raw.value.items, {}, t.provenance.manifest.evidence, ok);
      if instances.Some? {
        SortInstancesStorable(instances.value);
      }
    }
  }

  lemma PolicyStorable(t: Registration, policy: Policy)
    requires t.provenance.Declared? && t.provenance.manifest.faultHook.Some? ==> Storable(t.provenance.manifest.faultHook.value)
    ensures var block := DeriveExecutionPolicy(t, policy);
      block.Ok? && block.value.Some? ==> Storable(block.value.value)
  {
    if t.provenance.Declared? {
      var m := t.provenance.manifest;
      var binding := ResolvedBinding(policy, t.origins, m.signatureHeader, m.credentialRefs);
      if binding.Some? {
        ObjectStorable([("noEffectOnRejection", Some(Bool(m.noEffectOnRejection)))]);
        PolicyNames(m, binding.value);
        ObjectStorable(ExecutionPolicyPairs(m, binding.value));
      }
    }
  }

  predicate OptionStorable(v: Option<Value>) { v.Some? ==> Storable(v.value) }

  lemma TargetStorable(t: Registration, policyBlock: Option<Value>, instances: seq<Instance>, runScope: Option<Value>)
    requires t.origins != [] && OptionStorable(policyBlock) && OptionStorable(runScope) && InstancesStorable(instances)
    requires t.provenance.Declared? ==> Storable(t.provenance.manifest.evidence)
    ensures Storable(Object(TargetPairs(t, policyBlock, instances, runScope)))
  {
    TargetNames(t, policyBlock, instances, runScope);
    StringItemsAreStorable(SortTexts(t.credentialRefs));
    InstanceItemsStorable(instances);
    ObjectStorable(TargetPairs(t, policyBlock, instances, runScope));
  }

  lemma DocumentStorable(target: Value, r: Revision)
    requires Storable(target) && Storable(r.stepsJson)
    requires var d := Object(DocumentPairs(target, Object(ExperimentPairs(r)), StepsOf(r))); CanonicalizeJson(d).Ok?
    ensures Storable(Object(DocumentPairs(target, Object(ExperimentPairs(r)), StepsOf(r))))
    ensures Member(r.stepsJson, "steps").Some?
  {
    var pairs := DocumentPairs(target, Object(ExperimentPairs(r)), StepsOf(r));
    CanonicalIsSortedText(Object(pairs));
    ObjectSupportsMembers(pairs, 4);
    assert Member(r.stepsJson, "steps").Some?;
    MemberStorable(r.stepsJson, "steps");
    ExperimentNames(r);
    ObjectStorable(ExperimentPairs(r));
    DocumentNames(target, Object(ExperimentPairs(r)), StepsOf(r));
    ObjectStorable(pairs);
  }

  lemma BuiltDocumentIsStorable(r: Revision, t: Registration, policy: Policy, ok: Validators)
    requires InputsStorable(r, t) && BuildSnapshotDocument(r, t, policy, ok).Ok?
    ensures Storable(BuildSnapshotDocument(r, t, policy, ok).value)
  {
    var instances := DeriveBindings(Member(r.stepsJson, "invariantBindings"), t.provenance, ok);
    var runScope := DeriveRunScope(Member(r.stepsJson, "runScope"), t.provenance, ok);
    var block := DeriveExecutionPolicy(t, policy);
    BindingsStorable(r, t, ok);
    PolicyStorable(t, policy);
    if runScope.value.Some? {
      MemberStorable(r.stepsJson, "runScope");
    }
    TargetStorable(t, block.value, instances.value, runScope.value);
    DocumentStorable(Object(TargetPairs(t, block.value, instances.value, runScope.value)), r);
  }

  // ------------------------------------------------------------------
  // The store
  // ------------------------------------------------------------------

  datatype Row = Row(canonicalization: Text, contentHash: int, content: Value)

  /** The row holds document `v`: its hash is that of the canonical text, and its content means the same. */
  ghost predicate StoresDocument(row: Row, v: Value, sha256: Text -> int) {
    && Storable(v) && CanonicalizeJson(v).Ok?
    && row.canonicalization == CANONICALIZATION
    && row.contentHash == sha256(CanonicalizeJson(v).value)
    && UniqueKeys(row.content) && MeaningOf(row.content) == MeaningOf(v)
  }

  ghost predicate HoldsSomething(row: Row, sha256: Text -> int) {
    exists v :: StoresDocument(row, v, sha256)
  }

  ghost predicate RowsOk(rows: seq<Row>, sha256: Text -> int) {
    && (forall i :: 0 <= i < |rows| ==> HoldsSomething(rows[i], sha256))
    && (forall i, j :: 0 <= i < j < |rows| ==> rows[i].contentHash != rows[j].contentHash)
  }

  /** A JSON column may reorder keys and nothing else. */
  ghost predicate KeepsMeaning(jsonb: Value -> Value) {
    forall v :: UniqueKeys(v) ==> UniqueKeys(jsonb(v)) && MeaningOf(jsonb(v)) == MeaningOf(v)
  }

  /** A row under the hash of `v` holds `v`, whoever wrote it. */
  lemma SameHashSameDocument(row: Row, v: Value, sha256: Text -> int)
    requires Injective(sha256) && Storable(v) && CanonicalizeJson(v).Ok?
    requires HoldsSomething(row, sha256)
    requires row.contentHash == sha256(CanonicalizeJson(v).value)
    ensures StoresDocument(row, v, sha256)
  {
    var w :| StoresDocument(row, w, sha256);
    SameTextIffSameMeaning(v, w, sha256);
  }

  lemma NewRowStores(v: Value, sha256: Text -> int, jsonb: Value -> Value)
    requires Storable(v) && CanonicalizeJson(v).Ok? && KeepsMeaning(jsonb)
    ensures Parse(CanonicalizeJson(v).value).Some?
    ensures var text := CanonicalizeJson(v).value;
      StoresDocument(Row(CANONICALIZATION, sha256(text), jsonb(Parse(text).value)), v, sha256)
  {
    CanonicalRoundTrip(v);
    SortedMeansTheSame(v);
    SortedHasUniqueKeys(v);
  }

  lemma RowsAppended(rows: seq<Row>, row: Row, v: Value, sha256: Text -> int)
    requires RowsOk(rows, sha256) && StoresDocument(row, v, sha256)
    requires forall i :: 0 <= i < |rows| ==> rows[i].contentHash != row.contentHash
    ensures RowsOk(rows + [row], sha256)
  {
    var after := rows + [row];
    forall i | 0 <= i < |after|
      ensures HoldsSomething(after[i], sha256)
    {
      assert after[i] == if i < |rows| then rows[i] else row;
    }
  }

  predicate HashTaken(rows: seq<Row>, hash: int) { exists i :: 0 <= i < |rows| && rows[i].contentHash == hash }

  /**
   * Two freezes may overlap: one whose lookup found nothing in `seen` inserts into `rows`, which others
   * have appended to. The unique hash refuses it if and only if one of them inserted the same hash in
   * between, and that row stores the very document it was refused for.
   */
  lemma LateInsertFailsIff(seen: seq<Row>, rows: seq<Row>, v: Value, sha256: Text -> int)
    requires Injective(sha256) && Storable(v) && CanonicalizeJson(v).Ok? && RowsOk(rows, sha256) && seen <= rows
    requires var hash := sha256(CanonicalizeJson(v).value); !HashTaken(seen, hash)
    ensures HashTaken(rows, sha256(CanonicalizeJson(v).value)) <==>
      exists i :: |seen| <= i < |rows| && StoresDocument(rows[i], v, sha256)
  {
    var hash := sha256(CanonicalizeJson(v).value);
    assert forall j :: 0 <= j < |seen| ==> rows[j] == seen[j];
    if HashTaken(rows, hash) {
      var i :| 0 <= i < |rows| && rows[i].contentHash == hash;
      SameHashSameDocument(rows[i], v, sha256);
    }
  }

  class SnapshotStore {
    const sha256: Text -> int
    const jsonb: Value -> Value
    var rows: seq<Row>

    constructor (sha256: Text -> int, jsonb: Value -> Value)
      ensures this.sha256 == sha256 && this.jsonb == jsonb && rows == []
    {
      this.sha256, this.jsonb, rows := sha256, jsonb, [];
    }

    method FindUnique(hash: int) returns (id: Option<nat>)
      ensures id.Some? ==> id.value < |rows| && rows[id.value].contentHash == hash
      ensures id.None? ==> forall i :: 0 <= i < |rows| ==> rows[i].contentHash != hash
    {
      var k := 0;
      while k < |rows|
        invariant 0 <= k <= |rows|
        invariant forall i :: 0 <= i < k ==> rows[i].contentHash != hash
      {
        if rows[k].contentHash == hash { return Some(k); }
        k := k + 1;
      }
      return None;
    }

    /**
     * Freezes a document: the row that already has its hash, or a new one holding the parsed
     * canonical text. Rows are only ever appended and no two share a hash.
     */
    method FreezeDocument(document: Value) returns (id: nat)
      requires Storable(document) && CanonicalizeJson(document).Ok?
      requires Injective(sha256) && KeepsMeaning(jsonb) && RowsOk(rows, sha256)
      modifies this`rows
      ensures RowsOk(rows, sha256)
      ensures id < |rows| && StoresDocument(rows[id], document, sha256)
      ensures old(rows) <= rows
      ensures rows == if id < |old(rows)| then old(rows) else old(rows) + [rows[id]]
    {
      var hash := sha256(CanonicalizeJson(document).value);
      var existing := FindUnique(hash);
      if existing.Some? {
        SameHashSameDocument(rows[existing.value], document, sha256);
        return existing.value;
      }
      var created := CreateRow(document);
      return created.value;
    }

    /** The insert by itself: the unique hash refuses a document that somebody else has stored meanwhile. */
    method CreateRow(document: Value) returns (id: Option<nat>)
      requires Storable(document) && CanonicalizeJson(document).Ok?
      requires Injective(sha256) && KeepsMeaning(jsonb) && RowsOk(rows, sha256)
      modifies this`rows
      ensures RowsOk(rows, sha256)
      ensures id.None? <==> HashTaken(old(rows), sha256(CanonicalizeJson(document).value))
      ensures id.None? ==> rows == old(rows)
      ensures id.Some? ==>
        && id.value == |old(rows)| && |rows| == id.value + 1 && rows[..id.value] == old(rows)
        && StoresDocument(rows[id.value], document, sha256)
    {
      var hash := sha256(CanonicalizeJson(document).value);
      var taken := FindUnique(hash);
      if taken.Some? { return None; }
      NewRowStores(document, sha256, jsonb);
      var row := Row(CANONICALIZATION, hash, jsonb(Parse(CanonicalizeJson(document).value).value));
      RowsAppended(rows, row, document, sha256);
      rows := rows + [row];
      return Some(|rows| - 1);
    }

    /** Freezing, then the denial of production, then a step row per frozen step; the snapshot row stays either way. */
    method CreateRun(r: Revision, t: Registration, policy: Policy, ok: Validators) returns (result: Result<nat, FreezeError>)
      requires InputsStorable(r, t)
      requires Injective(sha256) && KeepsMeaning(jsonb) && RowsOk(rows, sha256)
      modifies this`rows
      ensures RowsOk(rows, sha256) && old(rows) <= rows
      ensures result.Ok? <==> Accepted(r, t, policy, ok)
      ensures result.Ok? ==> result.value < |rows|
      ensures result.Ok? ==> StoresDocument(rows[result.value], BuildSnapshotDocument(r, t, policy, ok).value, sha256)
      ensures BuildSnapshotDocument(r, t, policy, ok).Err? ==>
        rows == old(rows) && result == Err(BuildSnapshotDocument(r, t, policy, ok).error)
    {
      var document := BuildSnapshotDocument(r, t, policy, ok);
      if document.Err? { return Err(document.error); }
      BuiltDocumentIsStorable(r, t, policy, ok);
      result := FreezeThenAdmit(document.value, t.environment, StepsOf(r));
    }

    method FreezeThenAdmit(document: Value, environment: Text, steps: Value) returns (result: Result<nat, FreezeError>)
      requires Storable(document) && CanonicalizeJson(document).Ok?
      requires Injective(sha256) && KeepsMeaning(jsonb) && RowsOk(rows, sha256)
      modifies this`rows
      ensures RowsOk(rows, sha256) && old(rows) <= rows
      ensures result.Ok? <==> environment != PRODUCTION && steps.Arr?
      ensures result.Ok? ==> result.value < |rows| && StoresDocument(rows[result.value], document, sha256)
    {
      var id := FreezeDocument(document);
      if environment == PRODUCTION { return Err(ProductionDenied); }
      if !steps.Arr? { return Err(MalformedSteps); }
      return Ok(id);
    }
  }
}
