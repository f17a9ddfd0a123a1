/**
 * Platform credential authorization (packages/engine/src/credential-authorization.ts): which
 * reference names may be sent to a target's origins, and which one backs its signature.
 */
module Credentials {
  import opened Wrappers
  import opened Text

  /** `executorRefs` is the executor's vocabulary; only a grant for an origin authorizes anything. */
  datatype Policy = Policy(executorRefs: set<Text>, signingRefs: set<Text>, originGrants: map<Text, seq<Text>>)

  predicate Granted(policy: Policy, origin: Text, ref: Text) {
    origin in policy.originGrants && ref in policy.originGrants[origin] && ref in policy.executorRefs
  }

  /** Authorized for a target: granted for every origin it has, and it has one. */
  predicate Authorized(policy: Policy, origins: seq<Text>, ref: Text) {
    origins != [] && forall i :: 0 <= i < |origins| ==> Granted(policy, origins[i], ref)
  }

  predicate AllAuthorized(policy: Policy, origins: seq<Text>, refs: seq<Text>) {
    forall i :: 0 <= i < |refs| ==> Authorized(policy, origins, refs[i])
  }

  method GrantSet(policy: Policy, origin: Text) returns (grants: set<Text>)
    ensures forall ref :: ref in grants <==> Granted(policy, origin, ref)
  {
    if origin !in policy.originGrants { return {}; }
    grants := set ref | ref in policy.originGrants[origin] && ref in policy.executorRefs;
  }

  /** The intersection over the origins, never the union; no origin, no authorization. */
  method AuthorizedRefsForTarget(policy: Policy, origins: seq<Text>) returns (authorized: set<Text>)
    ensures forall ref :: ref in authorized <==> Authorized(policy, origins, ref)
  {
    var found: Option<set<Text>> := None;
    var i := 0;
    while i < |origins|
      invariant 0 <= i <= |origins|
      invariant found.None? <==> i == 0
      invariant found.Some? ==> forall ref :: ref in found.value <==> forall j :: 0 <= j < i ==> Granted(policy, origins[j], ref)
    {
      var grants := GrantSet(policy, origins[i]);
      found := Some(if found.None? then grants else found.value * grants);
      i := i + 1;
    }
    return if found.None? then {} else found.value;
  }

  datatype AuthorizationError = Unauthorized(refs: set<Text>) | NoSigningRef | AmbiguousSigningRefs(count: nat)

  /** A target without references stays legal without any grant. */
  method AssertCredentialRefsAuthorized(policy: Policy, origins: seq<Text>, refs: seq<Text>) returns (error: Option<AuthorizationError>)
    ensures error.None? <==> AllAuthorized(policy, origins, refs)
    ensures error.Some? ==> error.value.Unauthorized?
    ensures error.Some? ==> forall ref :: ref in error.value.refs <==> ref in refs && !Authorized(policy, origins, ref)
  {
    if refs == [] { return None; }
    var authorized := AuthorizedRefsForTarget(policy, origins);
    var unauthorized := set ref | ref in refs && ref !in authorized;
    if unauthorized == {} {
      assert forall i :: 0 <= i < |refs| ==> refs[i] !in unauthorized;
      return None;
    }
    assert exists ref :: ref in unauthorized;
    return Some(Unauthorized(unauthorized));
  }

  predicate CanSign(policy: Policy, origins: seq<Text>, ref: Text) {
    Authorized(policy, origins, ref) && ref in policy.signingRefs
  }

  function AuthorizedRefs(policy: Policy, origins: seq<Text>): (r: set<Text>)
    ensures forall ref :: ref in r <==> Authorized(policy, origins, ref)
  {
    assert forall ref :: Authorized(policy, origins, ref) ==> Granted(policy, origins[0], ref);
    set ref | ref in policy.executorRefs && Authorized(policy, origins, ref)
  }

  /** The references among `kept`, in order and with repetitions. */
  function Keep(refs: seq<Text>, kept: set<Text>): (r: seq<Text>)
    ensures |r| <= |refs|
    ensures forall ref :: ref in r <==> ref in refs && ref in kept
    ensures (forall ref :: ref in refs ==> ref !in kept) ==> r == []
  {
    if refs == [] then [] else (if refs[0] in kept then [refs[0]] else []) + Keep(refs[1..], kept)
  }

  function SigningRefs(policy: Policy, origins: seq<Text>, refs: seq<Text>): seq<Text> {
    Keep(refs, AuthorizedRefs(policy, origins) * policy.signingRefs)
  }

  datatype SignatureBinding = SignatureBinding(header: Text, ref: Text)

  /** What the two stages amount to: every reference authorized, then exactly one that can sign. */
  function ResolvedBinding(policy: Policy, origins: seq<Text>, header: Option<Text>, refs: seq<Text>): Option<Option<SignatureBinding>> {
    if !AllAuthorized(policy, origins, refs) then None
    else if header.None? then Some(None)
    else
      var signing := SigningRefs(policy, origins, refs);
      if |signing| == 1 then Some(Some(SignatureBinding(header.value, signing[0]))) else None
  }

  method ResolveSignatureCredentialBinding(policy: Policy, origins: seq<Text>, header: Option<Text>, refs: seq<Text>)
    returns (result: Result<Option<SignatureBinding>, AuthorizationError>)
    ensures result.Ok? <==> ResolvedBinding(policy, origins, header, refs).Some?
    ensures result.Ok? ==> Some(result.value) == ResolvedBinding(policy, origins, header, refs)
    ensures result.Err? ==>
      match result.error
      case Unauthorized(_) => !AllAuthorized(policy, origins, refs)
      case NoSigningRef => AllAuthorized(policy, origins, refs) && SigningRefs(policy, origins, refs) == []
      case AmbiguousSigningRefs(n) => AllAuthorized(policy, origins, refs) && n == |SigningRefs(policy, origins, refs)| > 1
  {
    var error := AssertCredentialRefsAuthorized(policy, origins, refs);
    if error.Some? { return Err(error.value); }
    if header.None? { return Ok(None); }
    var authorized := AuthorizedRefsForTarget(policy, origins);
    assert authorized == AuthorizedRefs(policy, origins);
    var declared := Keep(refs, authorized * policy.signingRefs);
    if |declared| == 0 { return Err(NoSigningRef); }
    if |declared| > 1 { return Err(AmbiguousSigningRefs(|declared|)); }
    return Ok(Some(SignatureBinding(header.value, declared[0])));
  }

  // ------------------------------------------------------------------
  // Properties
  // ------------------------------------------------------------------

  /** A reference is authorized for a target exactly if the executor knows it and every origin, of which there is one, grants it. */
  lemma AuthorizedIffGrantedEverywhere(policy: Policy, origins: seq<Text>, ref: Text)
    ensures Authorized(policy, origins, ref) <==>
      && origins != [] && ref in policy.executorRefs
      && forall origin :: origin in origins ==> origin in policy.originGrants && ref in policy.originGrants[origin]
    ensures CanSign(policy, origins, ref) <==> Authorized(policy, origins, ref) && ref in policy.signingRefs
  {
    if Authorized(policy, origins, ref) {
      assert Granted(policy, origins[0], ref);
      forall origin | origin in origins
        ensures Granted(policy, origin, ref)
      {
        var i :| 0 <= i < |origins| && origins[i] == origin;
      }
    }
  }

  lemma {:induction false} KeepOne(refs: seq<Text>, kept: set<Text>, i: nat)
    requires i < |refs| && refs[i] in kept && forall j :: 0 <= j < |refs| && j != i ==> refs[j] !in kept
    ensures Keep(refs, kept) == [refs[i]]
  {
    if i == 0 {
      assert forall ref :: ref in refs[1..] ==> ref !in kept;
    } else {
      KeepOne(refs[1..], kept, i - 1);
    }
  }

  lemma {:induction false} KeepTwo(refs: seq<Text>, kept: set<Text>, i: nat, j: nat)
    requires i < j < |refs| && refs[i] in kept && refs[j] in kept
    ensures |Keep(refs, kept)| > 1
  {
    if i == 0 {
      assert refs[1..][j - 1] == refs[j];
      assert refs[j] in Keep(refs[1..], kept);
    } else {
      KeepTwo(refs[1..], kept, i - 1, j - 1);
    }
  }

  /**
   * A signature seam is bound exactly when every declared reference is authorized and exactly one
   * of them can sign, and then to that one: no order and no naming decides anything.
   */
  lemma BindingIffExactlyOne(policy: Policy, origins: seq<Text>, header: Text, refs: seq<Text>, ref: Text)
    ensures ResolvedBinding(policy, origins, Some(header), refs) == Some(Some(SignatureBinding(header, ref))) <==>
      && AllAuthorized(policy, origins, refs)
      && exists i :: 0 <= i < |refs| && refs[i] == ref && CanSign(policy, origins, ref)
           && forall j :: 0 <= j < |refs| && j != i ==> !CanSign(policy, origins, refs[j])
  {
    var signing := SigningRefs(policy, origins, refs);
    var kept := AuthorizedRefs(policy, origins) * policy.signingRefs;
    assert forall x :: x in kept <==> CanSign(policy, origins, x);
    if AllAuthorized(policy, origins, refs) && |signing| == 1 && signing[0] == ref {
      assert ref in signing;
      var i :| 0 <= i < |refs| && refs[i] == ref;
      forall j | 0 <= j < |refs| && j != i
        ensures !CanSign(policy, origins, refs[j])
      {
        if CanSign(policy, origins, refs[j]) {
          KeepTwo(refs, kept, if i < j then i else j, if i < j then j else i);
        }
      }
    }
    if i :| 0 <= i < |refs| && refs[i] == ref && CanSign(policy, origins, ref)
              && forall j :: 0 <= j < |refs| && j != i ==> !CanSign(policy, origins, refs[j]) {
      KeepOne(refs, kept, i);
    }
  }

  /** Authorized for the whole target means authorized for each of its origins alone. */
  lemma AuthorizedForEachOrigin(policy: Policy, origins: seq<Text>, refs: seq<Text>, origin: Text)
    requires AllAuthorized(policy, origins, refs) && origin in origins
    ensures AllAuthorized(policy, [origin], refs)
  {
    var k :| 0 <= k < |origins| && origins[k] == origin;
    forall i | 0 <= i < |refs|
      ensures Authorized(policy, [origin], refs[i])
    {
      assert Authorized(policy, origins, refs[i]);
      assert Granted(policy, origins[k], refs[i]);
    }
  }
}
