/** Model evidence: budgets over a receipt set and the accounting derived from it. */
module ModelEvidence {
  import opened Wrappers
  import opened InferenceReceipts
  import opened ReceiptShape
  import opened Settlements
  import opened Sums

  /** The lease identity and budgets; a receipt set must repeat them. */
  datatype Binding = Binding(
    ticketId: nat, caseId: string, profileId: string, grantId: nat, generation: nat, grantSha: string,
    requestBudget: nat, promptBudget: nat, completionBudget: nat)

  datatype ReceiptSet = ReceiptSet(binding: Binding, receipts: seq<Receipt>)

  predicate BindingOk(b: Binding) {
    && b.ticketId != 0 && b.grantId != 0 && 1 <= b.generation < 0x8000_0000
    && 1 <= b.requestBudget <= 1000 && 1 <= b.promptBudget <= 2_000_000 && 1 <= b.completionBudget <= 250_000
  }

  predicate ReceiptSetOk(s: ReceiptSet) {
    && BindingOk(s.binding) && 1 <= |s.receipts| <= 1100
    && (forall r | r in s.receipts :: ReceiptFieldsOk(r) && OutcomeCoherent(r))
    && OrderCoherent(s.receipts)
  }

  datatype UsageStatus = UsageComplete | NotInvoked | UsageProviderFailure

  datatype Evidence = Evidence(
    model: string, provider: string, routeProfile: string, reasoningEffort: string,
    grantSha: string, prompt: string, toolSchema: string,
    status: UsageStatus, fallbackUsed: bool, costSource: string, currency: string,
    receiptSetSha: Option<string>,
    requests: nat, promptTokens: nat, completionTokens: nat, totalTokens: nat, costMicros: nat, retryCount: nat)

  /** The declared ranges and `CodingInferenceModelEvidence.accounting_is_coherent`. */
  predicate EvidenceCoherent(e: Evidence) {
    && e.requests <= 1000 && e.retryCount <= 100
    && e.promptTokens <= UINT64_MAX && e.completionTokens <= UINT64_MAX
    && e.totalTokens <= UINT64_MAX && e.costMicros <= UINT64_MAX
    && !e.fallbackUsed && e.totalTokens == e.promptTokens + e.completionTokens
    && if e.status == NotInvoked then
         && e.requests == 0 && e.promptTokens == 0 && e.completionTokens == 0
         && e.totalTokens == 0 && e.costMicros == 0 && e.retryCount == 0 && e.receiptSetSha.None?
       else e.requests != 0 && e.receiptSetSha.Some?
  }

  /** The checks of `model_evidence_digest`. */
  predicate EvidenceWithinPolicy(e: Evidence, p: Policy, policyDigest: string) {
    && e.model == p.model && e.provider == p.providerRoute && e.routeProfile == p.routeProfile
    && e.reasoningEffort == p.reasoningEffort && e.grantSha == policyDigest
    && e.prompt == p.prompt && e.toolSchema == p.toolSchema && e.fallbackUsed == p.allowFallbacks
    && e.costSource == p.costSource && e.currency == p.currency
    && e.requests <= p.maxRequests && e.promptTokens <= p.maxPromptTokens
    && e.completionTokens <= p.maxCompletionTokens && e.totalTokens <= p.maxTotalTokens
    && e.costMicros <= p.maxCostMicros && e.retryCount <= p.maxRetries
  }

  // ---------------------------------------------------------------- sums

  function Prompt(r: Receipt): nat { r.promptTokens }
  function Completion(r: Receipt): nat { r.completionTokens }
  function Total(r: Receipt): nat { r.totalTokens }
  function Cost(r: Receipt): nat { r.costMicros }

  /** Receipt-free retries cost nothing, so the sums are sums over terminal receipts alone. */
  lemma {:induction false} SumOverTerminal(rs: seq<Receipt>, f: Receipt -> nat)
    requires forall r | r in rs && r.outcome == ReceiptFreeRetry :: f(r) == 0
    ensures Sum(rs, f) == Sum(Terminal(rs), f)
  {
    if rs != [] {
      var front, last := rs[..|rs| - 1], Last(rs);
      assert last in rs && forall r | r in front :: r in rs;
      SumOverTerminal(front, f);
      if last.outcome != ReceiptFreeRetry {
        assert Terminal(rs)[..|Terminal(rs)| - 1] == Terminal(front);
      } else {
        assert Terminal(rs) == Terminal(front);
      }
    }
  }

  lemma {:induction false} TotalsAdd(rs: seq<Receipt>)
    requires forall r | r in rs :: r.totalTokens == r.promptTokens + r.completionTokens
    ensures Sum(rs, Total) == Sum(rs, Prompt) + Sum(rs, Completion)
  {
    if rs != [] {
      assert Last(rs) in rs && forall r | r in rs[..|rs| - 1] :: r in rs;
      TotalsAdd(rs[..|rs| - 1]);
    }
  }

  // ---------------------------------------------------------------- budgets

  datatype Totals = Totals(terminal: seq<Receipt>, retries: nat, prompt: nat, completion: nat, total: nat, cost: nat)

  predicate ReceiptWithinPolicy(r: Receipt, p: Policy) {
    && r.attempt <= p.maxAttempts && r.prompt == p.prompt && r.toolSchema == p.toolSchema
    && r.model == p.model && r.providerRoute == p.providerRoute && r.routeProfile == p.routeProfile
    && r.fallbackUsed == p.allowFallbacks
    && (r.receiptProvider == None || r.receiptProvider == Some(p.receiptProvider))
    && r.completionTokens <= p.maxCompletionPerRequest
  }

  lemma {:induction false} TerminalShorter(rs: seq<Receipt>)
    ensures |Terminal(rs)| <= |rs|
  {
    if rs != [] { TerminalShorter(rs[..|rs| - 1]); }
  }

  function TotalsOf(rs: seq<Receipt>): Totals {
    TerminalShorter(rs);
    Totals(Terminal(rs), |rs| - |Terminal(rs)|, Sum(rs, Prompt), Sum(rs, Completion), Sum(rs, Total), Sum(rs, Cost))
  }

  /** The budget comparison of `_receipt_policy_aggregate`, the total-token one apart. */
  predicate OtherBudgetsMet(t: Totals, b: Binding, p: Policy) {
    && |t.terminal| <= b.requestBudget && t.prompt <= b.promptBudget && t.completion <= b.completionBudget
    && t.cost <= p.maxCostMicros && t.retries <= p.maxRetries
  }

  /** `_receipt_policy_aggregate`; None is ValueError. */
  function Aggregate(policyDigest: string, p: Policy, s: ReceiptSet): Option<Totals> {
    if s.binding.grantSha != policyDigest then None
    else if s.binding.requestBudget > p.maxRequests || s.binding.promptBudget > p.maxPromptTokens
            || s.binding.completionBudget > p.maxCompletionTokens then None
    else if |s.receipts| > p.maxRequests + p.maxRetries then None
    else if exists r | r in s.receipts :: !ReceiptWithinPolicy(r, p) then None
    else
      var t := TotalsOf(s.receipts);
      if !OtherBudgetsMet(t, s.binding, p) || t.total > p.maxTotalTokens then None else Some(t)
  }

  /** The total-token comparison can never be the one that fails. */
  lemma TotalCheckRedundant(p: Policy, s: ReceiptSet)
    requires PolicyOk(p) && ReceiptSetOk(s) && OtherBudgetsMet(TotalsOf(s.receipts), s.binding, p)
    requires s.binding.promptBudget <= p.maxPromptTokens && s.binding.completionBudget <= p.maxCompletionTokens
    ensures TotalsOf(s.receipts).total <= p.maxTotalTokens
  {
    hide Terminal;
    TotalsAdd(s.receipts);
  }

  // ---------------------------------------------------------------- derivation

  datatype Refusal = InvalidInput | BindingDisagrees | UnexpectedSettlements | SetDisagrees
                   | CoverageIncomplete | SettlementRefused | BudgetsExceeded | EvidenceIncoherent

  predicate SettlementBound(s: Settlement, b: Binding) {
    && s.ticketId == b.ticketId && s.caseId == b.caseId && s.profileId == b.profileId
    && s.grantSha == b.grantSha && s.grantId == b.grantId && s.generation == b.generation
  }

  function EvidenceFrom(p: Policy, grantSha: string, status: UsageStatus, sha: Option<string>, t: Totals): Evidence {
    Evidence(p.model, p.providerRoute, p.routeProfile, p.reasoningEffort, grantSha, p.prompt, p.toolSchema,
             status, false, p.costSource, p.currency, sha,
             |t.terminal|, t.prompt, t.completion, t.total, t.cost, t.retries)
  }

  /** `derive_model_evidence`. The re-validation of the inputs comes first, and the evidence
      record is validated when it is built. */
  function DeriveModelEvidence(d: Digests<ReceiptSet>, p: Policy, b: Binding,
                               set_: Option<ReceiptSet>, settlements: Option<seq<Settlement>>)
    : (r: Result<Evidence, Refusal>)
  {
    if !PolicyOk(p) || !BindingOk(b) || (set_.Some? && !ReceiptSetOk(set_.value)) then Err(InvalidInput)
    else if b.grantSha != d.policy(p) || b.requestBudget > p.maxRequests
            || b.promptBudget > p.maxPromptTokens || b.completionBudget > p.maxCompletionTokens
            then Err(BindingDisagrees)
    else if set_.None? then
      if settlements.Some? && settlements.value != [] then Err(UnexpectedSettlements)
      else Built(EvidenceFrom(p, d.policy(p), NotInvoked, None, Totals([], 0, 0, 0, 0, 0)))
    else
      var s := set_.value;
      if s.binding != b then Err(SetDisagrees)
      else if settlements.None? || |settlements.value| != |s.receipts| then Err(CoverageIncomplete)
      else if exists x | x in settlements.value :: !SettlementOk(x) then Err(InvalidInput)
      else if exists i | 0 <= i < |s.receipts| ::
                !SettlementBound(settlements.value[i], b)
                || !SettlementMatches(d, settlements.value[i], s.receipts[i], p)
           then Err(SettlementRefused)
      else match Aggregate(d.policy(p), p, s)
        case None => Err(BudgetsExceeded)
        case Some(t) =>
          if t.terminal == [] then Err(EvidenceIncoherent)
          else
            var status := if Last(t.terminal).outcome == ProviderFailure then UsageProviderFailure else UsageComplete;
            Built(EvidenceFrom(p, d.policy(p), status, Some(d.receiptSet(s)), t))
  }

  function Built(e: Evidence): Result<Evidence, Refusal> {
    if EvidenceCoherent(e) then Ok(e) else Err(EvidenceIncoherent)
  }

  lemma AggregateCoherent(policyDigest: string, p: Policy, s: ReceiptSet, t: Totals)
    requires PolicyOk(p) && ReceiptSetOk(s) && Aggregate(policyDigest, p, s) == Some(t)
    ensures t == TotalsOf(s.receipts) && t.total == t.prompt + t.completion
    ensures |t.terminal| == Last(s.receipts).requestSequence >= 1 && Last(t.terminal) == Last(s.receipts)
    ensures t.retries <= (p.maxAttempts - 1) * |t.terminal|
    ensures t.prompt == Sum(t.terminal, Prompt) && t.completion == Sum(t.terminal, Completion)
         && t.total == Sum(t.terminal, Total) && t.cost == Sum(t.terminal, Cost)
  {
    hide Terminal, OrderCoherent, Sum;
    var rs := s.receipts;
    TotalsAdd(rs);
    forall i | 0 <= i < |rs| ensures rs[i].attempt <= p.maxAttempts {
      assert rs[i] in rs && ReceiptWithinPolicy(rs[i], p);
    }
    AcceptedCounts(rs, p.maxAttempts);
    SumOverTerminal(rs, Prompt);
    SumOverTerminal(rs, Completion);
    SumOverTerminal(rs, Total);
    SumOverTerminal(rs, Cost);
  }

  lemma NotInvokedCoherent(p: Policy, sha: string)
    ensures EvidenceCoherent(EvidenceFrom(p, sha, NotInvoked, None, Totals([], 0, 0, 0, 0, 0)))
  {
  }

  /** The evidence record never fails its own validation, and `terminal[-1]` always exists. */
  lemma EvidenceNeverIncoherent(d: Digests<ReceiptSet>, p: Policy, b: Binding,
                                set_: Option<ReceiptSet>, settlements: Option<seq<Settlement>>)
    ensures DeriveModelEvidence(d, p, b, set_, settlements) != Err(EvidenceIncoherent)
  {
    hide OrderCoherent, Terminal, SettlementMatches, OutcomeCoherent, Aggregate;
    NotInvokedCoherent(p, d.policy(p));
    if PolicyOk(p) && set_.Some? && ReceiptSetOk(set_.value) && Aggregate(d.policy(p), p, set_.value).Some? {
      var t := Aggregate(d.policy(p), p, set_.value).value;
      AggregateCoherent(d.policy(p), p, set_.value, t);
      AggregateBounds(d.policy(p), p, set_.value, t);
    }
  }

  lemma AggregateBounds(policyDigest: string, p: Policy, s: ReceiptSet, t: Totals)
    requires Aggregate(policyDigest, p, s) == Some(t)
    ensures |t.terminal| <= s.binding.requestBudget <= p.maxRequests
    ensures t.prompt <= s.binding.promptBudget <= p.maxPromptTokens
    ensures t.completion <= s.binding.completionBudget <= p.maxCompletionTokens
    ensures t.total <= p.maxTotalTokens && t.cost <= p.maxCostMicros && t.retries <= p.maxRetries
  {
  }

  /** Whatever evidence is derived passes its own accounting check and the checks of
      `model_evidence_digest`. For an invoked model its requests number the requests of the run,
      its totals are the sums over terminal receipts alone, its retries are bounded per request,
      its status is that of the last receipt, and it names the digest of the receipt set. */
  lemma DerivedEvidence(d: Digests<ReceiptSet>, p: Policy, b: Binding,
                        set_: Option<ReceiptSet>, settlements: Option<seq<Settlement>>)
    requires DeriveModelEvidence(d, p, b, set_, settlements).Ok?
    ensures var e := DeriveModelEvidence(d, p, b, set_, settlements).value;
            && EvidenceCoherent(e) && EvidenceWithinPolicy(e, p, d.policy(p))
            && (set_.None? <==> e.status == NotInvoked)
            && e.receiptSetSha == (if set_.Some? then Some(d.receiptSet(set_.value)) else None)
    ensures set_.Some? ==>
            var e := DeriveModelEvidence(d, p, b, set_, settlements).value;
            var rs := set_.value.receipts;
            && e.requests == |Terminal(rs)| == Last(rs).requestSequence
            && e.promptTokens == Sum(Terminal(rs), Prompt) && e.completionTokens == Sum(Terminal(rs), Completion)
            && e.totalTokens == Sum(Terminal(rs), Total) && e.costMicros == Sum(Terminal(rs), Cost)
            && e.retryCount == |rs| - e.requests <= (p.maxAttempts - 1) * e.requests
            && (e.status == UsageProviderFailure <==> Last(rs).outcome == ProviderFailure)
  {
    hide OrderCoherent, Terminal, SettlementMatches, OutcomeCoherent, Aggregate, Sum;
    if set_.Some? {
      var t := Aggregate(d.policy(p), p, set_.value).value;
      AggregateCoherent(d.policy(p), p, set_.value, t);
      AggregateBounds(d.policy(p), p, set_.value, t);
    }
  }

  /** Conservation across the two records: tokens and cost of the evidence are exactly those
      that the provider settlements report. */
  lemma EvidenceConservesSettlements(d: Digests<ReceiptSet>, p: Policy, b: Binding,
                                     s: ReceiptSet, settlements: seq<Settlement>)
    requires DeriveModelEvidence(d, p, b, Some(s), Some(settlements)).Ok?
    ensures var e := DeriveModelEvidence(d, p, b, Some(s), Some(settlements)).value;
            && e.promptTokens == Sum(settlements, (x: Settlement) => x.promptTokens)
            && e.completionTokens == Sum(settlements, (x: Settlement) => x.completionTokens)
            && e.totalTokens == Sum(settlements, (x: Settlement) => x.totalTokens)
            && e.costMicros == Sum(settlements, (x: Settlement) => x.costMicros)
  {
    hide OrderCoherent, Terminal, OutcomeCoherent, Aggregate, Sum, SettlementAccepted;
    var t := Aggregate(d.policy(p), p, s).value;
    AggregateCoherent(d.policy(p), p, s, t);
    assert forall i | 0 <= i < |settlements| :: FieldsAgree(settlements[i], s.receipts[i]);
    SumsAgree(settlements, (x: Settlement) => x.promptTokens, s.receipts, Prompt);
    SumsAgree(settlements, (x: Settlement) => x.completionTokens, s.receipts, Completion);
    SumsAgree(settlements, (x: Settlement) => x.totalTokens, s.receipts, Total);
    SumsAgree(settlements, (x: Settlement) => x.costMicros, s.receipts, Cost);
  }

  // ---------------------------------------------------------------- exactly when evidence is derived

  /** A receipt backed by its settlement, with the fields that no settlement repeats. */
  predicate Backed(d: Digests<ReceiptSet>, p: Policy, b: Binding, x: Settlement, r: Receipt) {
    && SettlementOk(x) && SettlementBound(x, b) && SettlementMatches(d, x, r, p)
    && r.prompt == p.prompt && r.toolSchema == p.toolSchema
    && r.model == p.model && r.providerRoute == p.providerRoute && r.routeProfile == p.routeProfile
  }

  /** The budgets of a run, counted over its terminal receipts. */
  predicate WithinBudgets(p: Policy, b: Binding, rs: seq<Receipt>) {
    var terminal := Terminal(rs);
    && |terminal| <= b.requestBudget && Sum(terminal, Prompt) <= b.promptBudget
    && Sum(terminal, Completion) <= b.completionBudget && Sum(terminal, Cost) <= p.maxCostMicros
    && |rs| - |terminal| <= p.maxRetries
  }

  lemma BackedWithinPolicy(d: Digests<ReceiptSet>, p: Policy, b: Binding, x: Settlement, r: Receipt)
    requires PolicyOk(p) && Backed(d, p, b, x, r)
    ensures ReceiptWithinPolicy(r, p)
  {
    SettledReceiptCoherent(d.policy(p), x, r, p);
  }

  /** Sums over the receipts of a coherent set are sums over its terminal receipts. */
  lemma TotalsOverTerminal(s: ReceiptSet)
    requires ReceiptSetOk(s)
    ensures var t, terminal := TotalsOf(s.receipts), Terminal(s.receipts);
            && t.terminal == terminal && t.retries == |s.receipts| - |terminal|
            && t.prompt == Sum(terminal, Prompt) && t.completion == Sum(terminal, Completion)
            && t.cost == Sum(terminal, Cost)
  {
    hide Terminal, OrderCoherent, Sum;
    SumOverTerminal(s.receipts, Prompt);
    SumOverTerminal(s.receipts, Completion);
    SumOverTerminal(s.receipts, Cost);
  }

  lemma AggregateIff(d: Digests<ReceiptSet>, p: Policy, b: Binding, s: ReceiptSet, xs: seq<Settlement>)
    requires PolicyOk(p) && ReceiptSetOk(s) && s.binding == b && b.grantSha == d.policy(p)
    requires b.requestBudget <= p.maxRequests && b.promptBudget <= p.maxPromptTokens
    requires b.completionBudget <= p.maxCompletionTokens && |xs| == |s.receipts|
    requires forall i | 0 <= i < |xs| :: Backed(d, p, b, xs[i], s.receipts[i])
    ensures Aggregate(d.policy(p), p, s).Some? <==> WithinBudgets(p, b, s.receipts)
  {
    hide Terminal, OrderCoherent, Sum, Backed, PolicyOk, OutcomeCoherent;
    TotalsOverTerminal(s);
    forall r | r in s.receipts ensures ReceiptWithinPolicy(r, p) {
      var i :| 0 <= i < |s.receipts| && s.receipts[i] == r;
      BackedWithinPolicy(d, p, b, xs[i], r);
    }
    if OtherBudgetsMet(TotalsOf(s.receipts), b, p) {
      TotalCheckRedundant(p, s);
    }
  }

  /** Evidence of an invoked model is derived exactly when every receipt is backed by its settlement
      and the run stays within its budgets. The bounds on the number of events, on attempts, on
      fallbacks, on completion tokens per request and on total tokens are implied. */
  lemma InvokedIff(d: Digests<ReceiptSet>, p: Policy, b: Binding, s: ReceiptSet, settlements: Option<seq<Settlement>>)
    ensures DeriveModelEvidence(d, p, b, Some(s), settlements).Ok? <==>
            && PolicyOk(p) && BindingOk(b) && b.grantSha == d.policy(p) && b.requestBudget <= p.maxRequests
            && b.promptBudget <= p.maxPromptTokens && b.completionBudget <= p.maxCompletionTokens
            && ReceiptSetOk(s) && s.binding == b && settlements.Some? && |settlements.value| == |s.receipts|
            && (forall i | 0 <= i < |s.receipts| :: Backed(d, p, b, settlements.value[i], s.receipts[i]))
            && WithinBudgets(p, b, s.receipts)
  {
    hide PolicyOk, OrderCoherent, OutcomeCoherent, Terminal, Sum, SettlementAccepted, FieldsAgree, SettlementOk;
    hide EvidenceCoherent, WithinBudgets, BindingOk;
    var r := DeriveModelEvidence(d, p, b, Some(s), settlements);
    if r.Ok? {
      var xs := settlements.value;
      forall i | 0 <= i < |s.receipts| ensures Backed(d, p, b, xs[i], s.receipts[i]) {
        assert xs[i] in xs && SettlementOk(xs[i]);
        assert s.receipts[i] in s.receipts && ReceiptWithinPolicy(s.receipts[i], p);
      }
      AggregateIff(d, p, b, s, xs);
    }
    if && PolicyOk(p) && b.grantSha == d.policy(p) && b.requestBudget <= p.maxRequests
       && b.promptBudget <= p.maxPromptTokens && b.completionBudget <= p.maxCompletionTokens
       && ReceiptSetOk(s) && s.binding == b && settlements.Some? && |settlements.value| == |s.receipts|
       && (forall i | 0 <= i < |s.receipts| :: Backed(d, p, b, settlements.value[i], s.receipts[i]))
       && WithinBudgets(p, b, s.receipts)
    {
      AggregateIff(d, p, b, s, settlements.value);
      EvidenceNeverIncoherent(d, p, b, Some(s), settlements);
    }
  }

  /** A model that was not invoked has evidence exactly when the binding fits the policy and nothing
      was settled. */
  lemma NotInvokedIff(d: Digests<ReceiptSet>, p: Policy, b: Binding, settlements: Option<seq<Settlement>>)
    ensures DeriveModelEvidence(d, p, b, None, settlements).Ok? <==>
            && PolicyOk(p) && BindingOk(b) && b.grantSha == d.policy(p) && b.requestBudget <= p.maxRequests
            && b.promptBudget <= p.maxPromptTokens && b.completionBudget <= p.maxCompletionTokens
            && (settlements.None? || settlements.value == [])
  {
    NotInvokedCoherent(p, d.policy(p));
  }

  // ---------------------------------------------------------------- what evidence commits to

  lemma BackedReceiptIsDetermined(d: Digests<ReceiptSet>, p: Policy, b: Binding, x: Settlement, r: Receipt, q: Receipt)
    requires Backed(d, p, b, x, r) && Backed(d, p, b, x, q) && r.sequence == q.sequence
    ensures r == q
  {
  }

  /** The settlements leave no choice: under one policy and binding they determine the receipt set. */
  lemma {:induction false} SettlementsDetermineReceipts(d: Digests<ReceiptSet>, p: Policy, b: Binding,
                                                        s: ReceiptSet, t: ReceiptSet, xs: seq<Settlement>)
    requires DeriveModelEvidence(d, p, b, Some(s), Some(xs)).Ok?
    requires DeriveModelEvidence(d, p, b, Some(t), Some(xs)).Ok?
    ensures s == t
  {
    hide DeriveModelEvidence, Backed;
    InvokedIff(d, p, b, s, Some(xs));
    InvokedIff(d, p, b, t, Some(xs));
    forall i | 0 <= i < |xs| ensures s.receipts[i] == t.receipts[i] {
      assert Backed(d, p, b, xs[i], s.receipts[i]) && Backed(d, p, b, xs[i], t.receipts[i]);
      BackedReceiptIsDetermined(d, p, b, xs[i], s.receipts[i], t.receipts[i]);
    }
  }

  lemma BackingIsDetermined(d: Digests<ReceiptSet>, p: Policy, b: Binding, x: Settlement, y: Settlement, r: Receipt)
    requires PolicyOk(p) && Backed(d, p, b, x, r) && Backed(d, p, b, y, r)
    ensures x == y
  {
  }

  /** Nor do the receipts: one policy, binding and receipt set admits one list of settlements only,
      whatever the settlement digest is worth. */
  lemma {:induction false} ReceiptsDetermineSettlements(d: Digests<ReceiptSet>, p: Policy, b: Binding,
                                                        s: ReceiptSet, xs: seq<Settlement>, ys: seq<Settlement>)
    requires DeriveModelEvidence(d, p, b, Some(s), Some(xs)).Ok?
    requires DeriveModelEvidence(d, p, b, Some(s), Some(ys)).Ok?
    ensures xs == ys
  {
    hide DeriveModelEvidence, Backed, PolicyOk;
    InvokedIff(d, p, b, s, Some(xs));
    InvokedIff(d, p, b, s, Some(ys));
    forall i | 0 <= i < |xs| ensures xs[i] == ys[i] {
      assert Backed(d, p, b, xs[i], s.receipts[i]) && Backed(d, p, b, ys[i], s.receipts[i]);
      BackingIsDetermined(d, p, b, xs[i], ys[i], s.receipts[i]);
    }
  }

  /** Evidence commits to everything it was derived from: unless the digests of the two policies or
      of the two receipt sets collide, equal evidence means the same policy, binding, receipts and
      settlements. */
  lemma {:induction false} EvidenceCommits(d: Digests<ReceiptSet>, p: Policy, q: Policy, b: Binding, c: Binding,
                                           s: ReceiptSet, t: ReceiptSet, xs: seq<Settlement>, ys: seq<Settlement>)
    requires DeriveModelEvidence(d, p, b, Some(s), Some(xs)).Ok?
    requires DeriveModelEvidence(d, q, c, Some(t), Some(ys)) == DeriveModelEvidence(d, p, b, Some(s), Some(xs))
    requires d.policy(p) == d.policy(q) ==> p == q
    requires d.receiptSet(s) == d.receiptSet(t) ==> s == t
    ensures p == q && b == c && s == t && xs == ys
  {
    hide DeriveModelEvidence, Backed, EvidenceCoherent;
    DerivedEvidence(d, p, b, Some(s), Some(xs));
    DerivedEvidence(d, q, c, Some(t), Some(ys));
    InvokedIff(d, p, b, s, Some(xs));
    InvokedIff(d, q, c, t, Some(ys));
    ReceiptsDetermineSettlements(d, p, b, s, xs, ys);
  }
}
