/** Provider settlements: the policy check of a settlement and its agreement with a receipt. */
module Settlements {
  import opened Wrappers
  import opened InferenceReceipts

  datatype Policy = Policy(
    model: string, providerApi: string, providerRoute: string, receiptProvider: string,
    accountGuardrail: string, pipelinePolicy: string, cachePolicy: string, routerMetadataRequired: bool,
    routeProfile: string, prompt: string, toolSchema: string, reasoningEffort: string,
    reasoningExcluded: bool, stream: bool, store: bool, parallelToolCalls: bool, usageIncluded: bool,
    allowFallbacks: bool, requireParameters: bool, zdr: bool, weightEligible: bool,
    maxRequests: nat, maxPromptTokens: nat, maxCompletionTokens: nat, maxTotalTokens: nat,
    maxCompletionPerRequest: nat, maxCostMicros: nat, maxRequestBytes: nat, maxResponseBytes: nat,
    timeoutMilliseconds: nat, maxAttempts: nat, maxRetries: nat, costSource: string, currency: string)

  /** The declared ranges and `policy_is_fail_closed`. */
  predicate PolicyOk(p: Policy) {
    && p.routerMetadataRequired
    && p.maxRequests == 256
    && 1 <= p.maxPromptTokens <= 2_000_000 && 1 <= p.maxCompletionTokens <= 250_000
    && 1 <= p.maxTotalTokens <= 2_250_000 && 1 <= p.maxCompletionPerRequest <= 32_768
    && 1 <= p.maxCostMicros <= 100_000_000
    && 1000 <= p.timeoutMilliseconds <= 300_000
    && 1 <= p.maxAttempts <= 3 && p.maxRetries <= 100
    && p.reasoningExcluded && !p.stream && !p.store && !p.parallelToolCalls && p.usageIncluded
    && !p.allowFallbacks && p.requireParameters && p.zdr && !p.weightEligible
    && p.maxCompletionPerRequest <= p.maxCompletionTokens
    && p.maxTotalTokens == p.maxPromptTokens + p.maxCompletionTokens
    && p.maxRequestBytes == 0x40_0000 && p.maxResponseBytes == 0x80_0000
    && p.timeoutMilliseconds % 1000 == 0
    && p.maxRequests + p.maxRetries <= 1100
  }

  datatype Settlement = Settlement(
    ticketId: nat, caseId: string, profileId: string, grantSha: string, grantId: nat, generation: nat,
    requestId: nat, requestSequence: nat, attempt: nat, lockedRequest: string,
    outcome: Outcome, errorCode: Option<string>, httpStatus: nat,
    responseSha: Option<string>, digestKind: DigestKind, generationId: Option<string>,
    model: string, providerApi: string, providerRoute: string, receiptProvider: Option<string>,
    routeProfile: string, accountGuardrail: string, pipelinePolicy: string, cachePolicy: string,
    routerVerified: bool, routerProvider: string, routerSelected: bool, pipelineStages: seq<string>,
    fallbackUsed: bool, usageAvailable: bool,
    promptTokens: nat, completionTokens: nat, totalTokens: nat,
    costAvailable: bool, costMicros: nat, timedOut: bool)

  /** The declared fields (one router attempt, no pipeline stage, no fallback) and `accounting_is_coherent`. */
  predicate SettlementOk(s: Settlement) {
    && s.ticketId != 0 && s.grantId != 0 && s.requestId != 0 && 1 <= s.generation < 0x8000_0000
    && 1 <= s.requestSequence <= 256 && 1 <= s.attempt <= 3 && s.httpStatus <= 599
    && s.routerVerified && s.pipelineStages == [] && !s.fallbackUsed
    && s.promptTokens <= UINT64_MAX && s.completionTokens <= UINT64_MAX
    && s.totalTokens <= UINT64_MAX && s.costMicros <= UINT64_MAX
    && s.totalTokens == s.promptTokens + s.completionTokens
    && (!s.usageAvailable ==> s.promptTokens == 0 && s.completionTokens == 0 && s.totalTokens == 0)
    && (!s.costAvailable ==> s.costMicros == 0)
  }

  /** The digests the checks compare, as functions of what they hash. */
  datatype Digests<!T> = Digests(policy: Policy -> string, settlement: Settlement -> string, receiptSet: T -> string)

  /** The checks of `provider_settlement_digest`. */
  predicate SettlementAccepted(policyDigest: string, s: Settlement, p: Policy) {
    && s.grantSha == policyDigest
    && s.requestSequence <= p.maxRequests && s.attempt <= p.maxAttempts
    && s.model == p.model && s.providerApi == p.providerApi && s.providerRoute == p.providerRoute
    && s.routeProfile == p.routeProfile && s.accountGuardrail == p.accountGuardrail
    && s.pipelinePolicy == p.pipelinePolicy && s.cachePolicy == p.cachePolicy
    && s.routerVerified == p.routerMetadataRequired && s.routerProvider == p.receiptProvider
    && !s.fallbackUsed && s.pipelineStages == []
    && s.completionTokens <= p.maxCompletionPerRequest && s.promptTokens <= p.maxPromptTokens
    && s.totalTokens <= p.maxTotalTokens && s.costMicros <= p.maxCostMicros
    && DigestShape(s.outcome, s.responseSha, s.digestKind)
    && match s.outcome
       case ReceiptFreeRetry =>
         && s.errorCode == Some("pre_provider_unavailable") && s.httpStatus in RETRYABLE_STATUS
         && s.responseSha.None? && s.generationId.None? && s.receiptProvider.None? && !s.routerSelected
         && !s.usageAvailable && !s.costAvailable && !s.timedOut
       case Complete =>
         && s.errorCode.None? && 200 <= s.httpStatus < 300 && s.responseSha.Some? && s.generationId.Some?
         && s.receiptProvider == Some(p.receiptProvider) && s.routerSelected
         && s.usageAvailable && s.costAvailable && !s.timedOut
       case ProviderFailure =>
         && FailureShape(s.errorCode, s.routerSelected, s.httpStatus, s.responseSha, s.timedOut)
         && ((s.routerSelected && s.receiptProvider == Some(p.receiptProvider) && s.usageAvailable && s.costAvailable)
             || (!s.routerSelected && s.receiptProvider.None? && s.generationId.None?
                 && !s.usageAvailable && !s.costAvailable))
  }

  /** The field equalities of `validate_settlement_against_receipt`. */
  predicate FieldsAgree(s: Settlement, r: Receipt) {
    && s.requestId == r.requestId && s.requestSequence == r.requestSequence && s.attempt == r.attempt
    && s.lockedRequest == r.lockedRequest && s.outcome == r.outcome && s.errorCode == r.failureCode
    && s.httpStatus == r.httpStatus && s.responseSha == r.responseSha && s.digestKind == r.digestKind
    && s.generationId == r.generationId && s.routerSelected == r.providerSelected
    && s.receiptProvider == r.receiptProvider && s.fallbackUsed == r.fallbackUsed
    && s.promptTokens == r.promptTokens && s.completionTokens == r.completionTokens
    && s.totalTokens == r.totalTokens && s.costMicros == r.costMicros && s.timedOut == r.timedOut
  }

  /** `validate_settlement_against_receipt` */
  predicate SettlementMatches<T>(d: Digests<T>, s: Settlement, r: Receipt, p: Policy) {
    FieldsAgree(s, r) && SettlementAccepted(d.policy(p), s, p) && d.settlement(s) == r.settlementSha
  }

  /** What the policy bounds say about a receipt. */
  predicate WithinPolicy(r: Receipt, p: Policy) {
    && 1 <= r.requestSequence <= p.maxRequests && 1 <= r.attempt <= p.maxAttempts && r.httpStatus <= 599
    && (r.receiptProvider == None || r.receiptProvider == Some(p.receiptProvider))
    && r.promptTokens <= p.maxPromptTokens && r.completionTokens <= p.maxCompletionPerRequest
    && r.totalTokens <= p.maxTotalTokens && r.costMicros <= p.maxCostMicros
  }

  /** A settlement for a coherent receipt, as the platform would record it. */
  function SettlementFor(policyDigest: string, r: Receipt, p: Policy): Settlement {
    Settlement(
      1, "case", "profile", policyDigest, 1, 1,
      r.requestId, r.requestSequence, r.attempt, r.lockedRequest,
      r.outcome, r.failureCode, r.httpStatus, r.responseSha, r.digestKind, r.generationId,
      p.model, p.providerApi, p.providerRoute, r.receiptProvider,
      p.routeProfile, p.accountGuardrail, p.pipelinePolicy, p.cachePolicy,
      true, p.receiptProvider, r.providerSelected, [], false,
      r.providerSelected, r.promptTokens, r.completionTokens, r.totalTokens,
      r.providerSelected, r.costMicros, r.timedOut)
  }

  /** The settlement check implies the receipt check: whatever a receipt claims, if an accepted
      settlement agrees with it field by field then its outcome is coherent, an unselected
      provider is accounted zero, and it lies within the policy bounds. */
  lemma SettledReceiptCoherent(policyDigest: string, s: Settlement, r: Receipt, p: Policy)
    requires PolicyOk(p) && SettlementOk(s) && SettlementAccepted(policyDigest, s, p) && FieldsAgree(s, r)
    ensures OutcomeCoherent(r) && WithinPolicy(r, p)
    ensures !r.providerSelected ==>
              r.totalTokens == 0 && r.costMicros == 0 && r.receiptProvider.None? && r.generationId.None?
  {
  }

  /** And nothing is lost: the receipts that some accepted settlement agrees with are exactly
      the coherent receipts within the policy bounds. */
  lemma SettleableIffCoherent(policyDigest: string, r: Receipt, p: Policy)
    requires PolicyOk(p)
    ensures (exists s :: SettlementOk(s) && SettlementAccepted(policyDigest, s, p) && FieldsAgree(s, r))
       <==> OutcomeCoherent(r) && WithinPolicy(r, p)
  {
    if s :| SettlementOk(s) && SettlementAccepted(policyDigest, s, p) && FieldsAgree(s, r) {
      SettledReceiptCoherent(policyDigest, s, r, p);
    }
    if OutcomeCoherent(r) && WithinPolicy(r, p) {
      var s := SettlementFor(policyDigest, r, p);
      assert SettlementOk(s) && SettlementAccepted(policyDigest, s, p) && FieldsAgree(s, r);
    }
  }
}
