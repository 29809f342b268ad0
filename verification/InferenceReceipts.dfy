/** Inference receipts: the outcome check of one receipt, the order check of a receipt set,
    and the shape of every accepted run. */
module InferenceReceipts {
  import opened Wrappers

  const UINT64_MAX := 0xFFFF_FFFF_FFFF_FFFF

  datatype Outcome = Complete | ReceiptFreeRetry | ProviderFailure
  datatype DigestKind = NoDigest | NormalizedV1 | CanonicalJsonV1

  datatype Receipt = Receipt(
    sequence: nat, requestSequence: nat, attempt: nat,
    requestId: nat, lockedRequest: string, prompt: string, toolSchema: string,
    outcome: Outcome, failureCode: Option<string>, httpStatus: nat,
    responseSha: Option<string>, digestKind: DigestKind,
    generationId: Option<string>, settlementSha: string,
    model: string, providerRoute: string, routeProfile: string,
    providerSelected: bool, receiptProvider: Option<string>, fallbackUsed: bool,
    promptTokens: nat, completionTokens: nat, totalTokens: nat, costMicros: nat,
    timedOut: bool)

  // ---------------------------------------------------------------- one receipt

  const RETRYABLE_STATUS: set<nat> := {404, 408, 429, 500, 502, 503, 504}

  /** The declared ranges of the numeric fields. */
  predicate ReceiptFieldsOk(r: Receipt) {
    && 1 <= r.sequence <= 1100 && 1 <= r.requestSequence <= 1000 && 1 <= r.attempt <= 3
    && r.httpStatus <= 599
    && r.promptTokens <= UINT64_MAX && r.completionTokens <= UINT64_MAX
    && r.totalTokens <= UINT64_MAX && r.costMicros <= UINT64_MAX
  }

  predicate DigestShape(outcome: Outcome, sha: Option<string>, kind: DigestKind) {
    if sha.None? then kind == NoDigest
    else if outcome == Complete then kind == NormalizedV1
    else kind == CanonicalJsonV1
  }

  /** The failure table: what each failure code demands of the other fields. */
  predicate FailureShape(code: Option<string>, selected: bool, status: nat, sha: Option<string>, timedOut: bool) {
    code.Some? &&
    if code.value == "pre_provider_unavailable" then !selected && status in RETRYABLE_STATUS && sha.None? && !timedOut
    else if code.value == "provider_timeout" then timedOut && status in {0, 408, 504}
    else if code.value == "provider_transport" then !timedOut && status == 0 && sha.None?
    else if code.value == "provider_http" then !timedOut && status >= 400
    else if code.value == "provider_response_invalid" then !timedOut && 200 <= status < 300 && sha.Some?
    else false
  }

  /** `CodingInferenceReceipt.outcome_is_coherent` */
  predicate OutcomeCoherent(r: Receipt) {
    var zero := r.promptTokens == 0 && r.completionTokens == 0 && r.totalTokens == 0 && r.costMicros == 0;
    && r.requestId != 0 && !r.fallbackUsed
    && r.totalTokens == r.promptTokens + r.completionTokens
    && DigestShape(r.outcome, r.responseSha, r.digestKind)
    && match r.outcome
       case Complete =>
         && r.failureCode.None? && 200 <= r.httpStatus < 300 && r.responseSha.Some?
         && r.providerSelected && r.receiptProvider.Some? && r.generationId.Some? && !r.timedOut
       case ReceiptFreeRetry =>
         && r.failureCode == Some("pre_provider_unavailable") && r.httpStatus in RETRYABLE_STATUS
         && r.responseSha.None? && !r.providerSelected && r.receiptProvider.None?
         && r.generationId.None? && zero && !r.timedOut
       case ProviderFailure =>
         && FailureShape(r.failureCode, r.providerSelected, r.httpStatus, r.responseSha, r.timedOut)
         && ((r.providerSelected && r.receiptProvider.Some?)
             || (!r.providerSelected && r.receiptProvider.None? && r.generationId.None? && zero))
  }

  // ---------------------------------------------------------------- order of a set

  predicate SameRequest(a: Receipt, b: Receipt) {
    && a.requestId == b.requestId && a.lockedRequest == b.lockedRequest
    && a.prompt == b.prompt && a.toolSchema == b.toolSchema
  }

  /** What the loop demands of two neighbours. */
  predicate Follows(previous: Receipt, r: Receipt) {
    if r.requestSequence == previous.requestSequence then
      previous.outcome == ReceiptFreeRetry && r.attempt == previous.attempt + 1 && SameRequest(r, previous)
    else
      r.requestSequence == previous.requestSequence + 1 && r.attempt == 1 && previous.outcome == Complete
  }

  predicate Numbered(rs: seq<Receipt>) {
    forall i | 0 <= i < |rs| :: rs[i].sequence == i + 1
  }

  predicate Chained(rs: seq<Receipt>) {
    && (rs != [] ==> rs[0].requestSequence == 1 && rs[0].attempt == 1)
    && forall i | 0 < i < |rs| :: Follows(rs[i - 1], rs[i])
  }

  /** A request id never serves two requests. */
  predicate IdsKeepRequest(rs: seq<Receipt>) {
    forall i, j | 0 <= i < j < |rs| && rs[i].requestId == rs[j].requestId ::
      rs[i].requestSequence == rs[j].requestSequence
  }

  predicate SettlementsDistinct(rs: seq<Receipt>) {
    forall i, j | 0 <= i < j < |rs| :: rs[i].settlementSha != rs[j].settlementSha
  }

  predicate GenerationsDistinct(rs: seq<Receipt>) {
    forall i, j | 0 <= i < j < |rs| && rs[i].generationId.Some? :: rs[i].generationId != rs[j].generationId
  }

  predicate PrefixCoherent(rs: seq<Receipt>) {
    Numbered(rs) && Chained(rs) && IdsKeepRequest(rs) && SettlementsDistinct(rs) && GenerationsDistinct(rs)
  }

  predicate OrderCoherent(rs: seq<Receipt>) {
    rs != [] && PrefixCoherent(rs) && rs[|rs| - 1].outcome != ReceiptFreeRetry
  }

  lemma PrefixGrows(rs: seq<Receipt>, i: nat)
    requires i < |rs| && PrefixCoherent(rs[..i])
    ensures PrefixCoherent(rs[..i + 1]) <==>
            && rs[i].sequence == i + 1
            && (if i == 0 then rs[0].requestSequence == 1 && rs[0].attempt == 1 else Follows(rs[i - 1], rs[i]))
            && (forall j | 0 <= j < i && rs[j].requestId == rs[i].requestId ::
                  rs[j].requestSequence == rs[i].requestSequence)
            && (forall j | 0 <= j < i :: rs[j].settlementSha != rs[i].settlementSha)
            && (forall j | 0 <= j < i && rs[i].generationId.Some? :: rs[j].generationId != rs[i].generationId)
  {
    var a, b := rs[..i], rs[..i + 1];
    assert b == a + [rs[i]];
    assert forall j | 0 <= j < i :: b[j] == a[j] == rs[j];
    assert b[i] == rs[i];
  }

  lemma PrefixShrinks(rs: seq<Receipt>, i: nat)
    requires i <= |rs| && PrefixCoherent(rs)
    ensures PrefixCoherent(rs[..i])
  {
  }

  ghost predicate Remembers(seen: map<nat, nat>, settlements: set<string>, generations: set<string>, rs: seq<Receipt>) {
    && (forall id :: id in seen <==> exists j :: 0 <= j < |rs| && rs[j].requestId == id)
    && (forall j | 0 <= j < |rs| :: rs[j].requestId in seen && seen[rs[j].requestId] == rs[j].requestSequence)
    && (forall x :: x in settlements <==> exists j :: 0 <= j < |rs| && rs[j].settlementSha == x)
    && (forall x :: x in generations <==> exists j :: 0 <= j < |rs| && rs[j].generationId == Some(x))
  }

  lemma RemembersOneMore(seen: map<nat, nat>, settlements: set<string>, generations: set<string>,
                         rs: seq<Receipt>, r: Receipt)
    requires Remembers(seen, settlements, generations, rs)
    requires r.requestId in seen ==> seen[r.requestId] == r.requestSequence
    ensures Remembers(seen[r.requestId := r.requestSequence], settlements + {r.settlementSha},
                      generations + (if r.generationId.Some? then {r.generationId.value} else {}), rs + [r])
  {
    var t := rs + [r];
    assert forall j | 0 <= j < |rs| :: t[j] == rs[j];
    assert t[|rs|] == r;
  }

  /** What the three lookups of the loop find out about the receipts so far. */
  lemma LookupsMean(seen: map<nat, nat>, settlements: set<string>, generations: set<string>, rs: seq<Receipt>, i: nat)
    requires i < |rs| && Remembers(seen, settlements, generations, rs[..i])
    ensures (rs[i].requestId in seen ==> seen[rs[i].requestId] == rs[i].requestSequence) <==>
            forall j | 0 <= j < i && rs[j].requestId == rs[i].requestId ::
              rs[j].requestSequence == rs[i].requestSequence
    ensures rs[i].settlementSha !in settlements <==> forall j | 0 <= j < i :: rs[j].settlementSha != rs[i].settlementSha
    ensures (rs[i].generationId.Some? ==> rs[i].generationId.value !in generations) <==>
            forall j | 0 <= j < i && rs[i].generationId.Some? :: rs[j].generationId != rs[i].generationId
  {
    var a := rs[..i];
    assert forall j | 0 <= j < i :: a[j] == rs[j];
    if rs[i].requestId in seen {
      var j :| 0 <= j < i && a[j].requestId == rs[i].requestId;
      assert rs[j] == a[j];
    }
    if rs[i].settlementSha in settlements {
      var j :| 0 <= j < i && a[j].settlementSha == rs[i].settlementSha;
      assert rs[j] == a[j];
    }
    if rs[i].generationId.Some? && rs[i].generationId.value in generations {
      var j :| 0 <= j < i && a[j].generationId == rs[i].generationId;
      assert rs[j] == a[j];
    }
  }

  /** `CodingInferenceReceiptSet.receipt_order_is_coherent`: the loop with its dict and two sets. */
  method ReceiptOrderIsCoherent(rs: seq<Receipt>) returns (ok: bool)
    requires rs != []
    ensures ok <==> OrderCoherent(rs)
  {
    hide PrefixCoherent, Follows, Remembers;
    var seen: map<nat, nat> := map[];
    var settlements: set<string> := {};
    var generations: set<string> := {};
    var i := 0;
    EmptyCoherent(rs);
    while i < |rs|
      invariant 0 <= i <= |rs|
      invariant PrefixCoherent(rs[..i])
      invariant Remembers(seen, settlements, generations, rs[..i])
    {
      var r := rs[i];
      PrefixGrows(rs, i);
      LookupsMean(seen, settlements, generations, rs, i);
      assert rs[..i + 1] == rs[..i] + [r];
      if PrefixCoherent(rs) { PrefixShrinks(rs, i + 1); }
      if r.sequence != i + 1 {
        return false;
      }
      if i == 0 {
        if r.requestSequence != 1 || r.attempt != 1 {
          return false;
        }
      } else if !Follows(rs[i - 1], r) {
        return false;
      }
      if r.requestId in seen && seen[r.requestId] != r.requestSequence {
        return false;
      }
      if r.settlementSha in settlements {
        return false;
      }
      if r.generationId.Some? && r.generationId.value in generations {
        return false;
      }
      RemembersOneMore(seen, settlements, generations, rs[..i], r);
      seen := seen[r.requestId := r.requestSequence];
      settlements := settlements + {r.settlementSha};
      generations := generations + (if r.generationId.Some? then {r.generationId.value} else {});
      i := i + 1;
    }
    assert rs[..i] == rs;
    return rs[|rs| - 1].outcome != ReceiptFreeRetry;
  }

  lemma EmptyCoherent(rs: seq<Receipt>)
    ensures PrefixCoherent(rs[..0]) && Remembers(map[], {}, {}, rs[..0])
  {
  }
}
