/**
 * Side-effect knowledge of one invocation (packages/engine/src/classify.ts), the retry
 * decision, and the aggregation order of packages/engine/src/step-processor.ts.
 */
module Classify {
  import opened Wrappers

  datatype Mutation = ReadOnly | Mutating
  datatype Contract = DemoFintechWebhook | GenericHttp
  datatype Intent = IntentSucceeded | IntentFailed | IntentCancelled
  datatype Knowledge = NotApplicable | KnownAbsent | KnownOccurred | Indeterminate
  datatype Stage = Prepared | Connecting | RequestSent | ResponseHeaders | ResponseComplete
  datatype RetryPolicy = NoRetry | SafeRetry

  function StageOrder(s: Stage): nat {
    match s
    case Prepared => 0
    case Connecting => 1
    case RequestSent => 2
    case ResponseHeaders => 3
    case ResponseComplete => 4
  }

  /** No stage at all means the invocation never started. */
  predicate Sent(stage: Option<Stage>) {
    stage.Some? && StageOrder(stage.value) >= StageOrder(RequestSent)
  }

  predicate NoEffectRejection(contract: Contract, status: Option<nat>) {
    contract == DemoFintechWebhook && status.Some? && 400 <= status.value < 500
  }

  function ClassifyInvocation(mutation: Mutation, contract: Contract, stage: Option<Stage>,
                              intent: Intent, status: Option<nat>): Knowledge
  {
    if mutation == ReadOnly then NotApplicable
    else
      match intent
      case IntentSucceeded => KnownOccurred
      case IntentCancelled => if Sent(stage) then Indeterminate else KnownAbsent
      case IntentFailed =>
        if !Sent(stage) then KnownAbsent
        else if NoEffectRejection(contract, status) then KnownAbsent
        else Indeterminate
  }

  predicate WillRetry(policy: RetryPolicy, mutation: Mutation, knowledge: Knowledge, intent: Intent,
                      attemptsSoFar: nat, maxAttempts: nat)
  {
    if attemptsSoFar >= maxAttempts then false
    else if policy == NoRetry then false
    else if mutation == Mutating && knowledge == Indeterminate then false
    else if intent == IntentFailed && knowledge == KnownAbsent then true
    else mutation == ReadOnly && intent == IntentFailed
  }

  // ------------------------------------------------------------------
  // What the network and the target are assumed to honour
  // ------------------------------------------------------------------

  /** One physical answer; `effect` is what really happened at the target. */
  datatype Reply = Reply(stage: Stage, status: Option<nat>, intent: Intent, error: Option<string>, effect: bool)

  predicate Definitive2xx(r: Reply) {
    r.stage == ResponseComplete && r.status.Some? && 200 <= r.status.value < 300
  }

  /**
   * The executor calls only a complete 2xx a success and never reports a cancellation; bytes that
   * did not leave have no effect; and a contract that promises effect-free 4xx keeps its promise.
   */
  predicate Honest(contract: Contract, r: Reply) {
    && (r.intent == IntentSucceeded ==> Definitive2xx(r))
    && r.intent != IntentCancelled
    && (r.effect ==> Sent(Some(r.stage)))
    && (r.effect ==> !NoEffectRejection(contract, r.status))
  }

  function KnowledgeOf(mutation: Mutation, contract: Contract, r: Reply): Knowledge {
    ClassifyInvocation(mutation, contract, Some(r.stage), r.intent, r.status)
  }

  // ------------------------------------------------------------------
  // The aggregation order NOT_APPLICABLE < KNOWN_ABSENT < KNOWN_OCCURRED < INDETERMINATE
  // ------------------------------------------------------------------

  function Rank(k: Knowledge): nat {
    match k
    case NotApplicable => 0
    case KnownAbsent => 1
    case KnownOccurred => 2
    case Indeterminate => 3
  }

  function WorstKnowledge(a: Knowledge, b: Knowledge): Knowledge {
    if Rank(a) >= Rank(b) then a else b
  }

  /** The aggregate over a list, starting from NOT_APPLICABLE, one element at a time. */
  function WorstOf(ks: seq<Knowledge>): Knowledge {
    if ks == [] then NotApplicable else WorstKnowledge(WorstOf(ks[..|ks| - 1]), ks[|ks| - 1])
  }

  /** The aggregate is the greatest element: it dominates every element and is one of them. */
  lemma {:induction false} WorstOfIsGreatest(ks: seq<Knowledge>)
    ensures forall k :: k in ks ==> Rank(k) <= Rank(WorstOf(ks))
    ensures WorstOf(ks) in ks || WorstOf(ks) == NotApplicable
  {
    if ks != [] {
      WorstOfIsGreatest(ks[..|ks| - 1]);
      assert ks == ks[..|ks| - 1] + [ks[|ks| - 1]];
    }
  }

  /** Which one it is: one doubtful result makes the whole doubtful, then an effect outweighs an absence. */
  lemma WorstOfByMembership(ks: seq<Knowledge>)
    ensures WorstOf(ks) == Indeterminate <==> Indeterminate in ks
    ensures WorstOf(ks) == KnownOccurred <==> KnownOccurred in ks && Indeterminate !in ks
    ensures WorstOf(ks) == KnownAbsent <==> KnownAbsent in ks && forall k :: k in ks ==> k == KnownAbsent || k == NotApplicable
    ensures WorstOf(ks) == NotApplicable <==> forall k :: k in ks ==> k == NotApplicable
  {
    WorstOfIsGreatest(ks);
  }

  /** So neither the order of completion nor the way results are grouped can change it. */
  lemma WorstOfIgnoresOrder(a: seq<Knowledge>, b: seq<Knowledge>)
    requires multiset(a) == multiset(b)
    ensures WorstOf(a) == WorstOf(b)
  {
    WorstOfIsGreatest(a);
    WorstOfIsGreatest(b);
    assert forall k :: k in a <==> k in multiset(a);
    assert forall k :: k in b <==> k in multiset(b);
    assert Rank(WorstOf(a)) == Rank(WorstOf(b));
  }

  lemma {:induction false} WorstOfAppend(a: seq<Knowledge>, b: seq<Knowledge>)
    ensures WorstOf(a + b) == WorstKnowledge(WorstOf(a), WorstOf(b))
  {
    if b == [] {
      assert a + b == a;
    } else {
      WorstOfAppend(a, b[..|b| - 1]);
      assert (a + b)[..|a + b| - 1] == a + b[..|b| - 1];
    }
  }
}
