/** The shape of accepted receipt sets: one block per request, retries first. */
module ReceiptShape {
  import opened Wrappers
  import opened InferenceReceipts

  function Flatten(blocks: seq<seq<Receipt>>): seq<Receipt> {
    if blocks == [] then [] else Flatten(blocks[..|blocks| - 1]) + blocks[|blocks| - 1]
  }

  /** Attempts 1, 2, ... of request `k`, where every attempt but the last was a receipt-free retry. */
  predicate Attempts(b: seq<Receipt>, k: nat) {
    && b != []
    && forall j | 0 <= j < |b| ::
         && b[j].requestSequence == k && b[j].attempt == j + 1 && SameRequest(b[j], b[0])
         && (j < |b| - 1 ==> b[j].outcome == ReceiptFreeRetry)
  }

  function Last(b: seq<Receipt>): Receipt
    requires b != []
  {
    b[|b| - 1]
  }

  /** Blocks for requests 1, 2, ...; every request but the last completed. */
  predicate OpenRun(blocks: seq<seq<Receipt>>) {
    forall k | 0 <= k < |blocks| ::
      Attempts(blocks[k], k + 1) && (k < |blocks| - 1 ==> Last(blocks[k]).outcome == Complete)
  }

  /** A finished run: its last request completed or failed at the provider. */
  predicate FinishedRun(blocks: seq<seq<Receipt>>) {
    blocks != [] && OpenRun(blocks) && Last(blocks[|blocks| - 1]).outcome != ReceiptFreeRetry
  }

  lemma OpenPrefix(blocks: seq<seq<Receipt>>)
    requires blocks != [] && OpenRun(blocks)
    ensures OpenRun(blocks[..|blocks| - 1])
  {
  }

  // ---------------------------------------------------------------- from order to blocks

  lemma {:induction false} SplitIntoBlocks(rs: seq<Receipt>) returns (blocks: seq<seq<Receipt>>)
    requires rs != [] && Chained(rs)
    ensures blocks != [] && OpenRun(blocks) && Flatten(blocks) == rs
    ensures |blocks| == Last(rs).requestSequence && Last(blocks[|blocks| - 1]) == Last(rs)
  {
    hide SameRequest;
    var n := |rs| - 1;
    var r := rs[n];
    if n == 0 {
      blocks := [[r]];
      assert SameRequest(r, r) by { SameAsItself(r); }
      assert blocks[..0] == [];
      assert Flatten(blocks) == rs;
    } else {
      assert Chained(rs[..n]) by { assert forall i | 0 <= i < n :: rs[..n][i] == rs[i]; }
      var front := SplitIntoBlocks(rs[..n]);
      assert Follows(rs[n - 1], r);
      assert rs == rs[..n] + [r];
      var m := |front| - 1;
      if r.requestSequence == rs[n - 1].requestSequence {
        blocks := ExtendLast(front, r);
      } else {
        SameAsItself(r);
        blocks := front + [[r]];
        assert blocks[..m + 1] == front;
        assert forall k | 0 <= k <= m :: blocks[k] == front[k];
      }
    }
  }

  lemma SameAsItself(r: Receipt)
    ensures SameRequest(r, r)
  {
  }

  lemma ExtendLast(front: seq<seq<Receipt>>, r: Receipt) returns (blocks: seq<seq<Receipt>>)
    requires front != [] && OpenRun(front)
    requires var previous := Last(front[|front| - 1]);
             Follows(previous, r) && r.requestSequence == previous.requestSequence
    ensures blocks != [] && OpenRun(blocks) && Flatten(blocks) == Flatten(front) + [r]
    ensures |blocks| == |front| && Last(blocks[|blocks| - 1]) == r
  {
    var m := |front| - 1;
    blocks := front[..m] + [front[m] + [r]];
    assert blocks[..m] == front[..m];
    assert forall k | 0 <= k < m :: blocks[k] == front[k];
    assert Flatten(blocks) == Flatten(front[..m]) + (front[m] + [r]);
  }

  // ---------------------------------------------------------------- from blocks to order

  lemma BlockChained(b: seq<Receipt>, k: nat, i: nat)
    requires Attempts(b, k) && 0 < i < |b|
    ensures Follows(b[i - 1], b[i])
  {
  }

  lemma NextBlockFollows(blocks: seq<seq<Receipt>>, n: nat)
    requires OpenRun(blocks) && 0 < n < |blocks|
    ensures Follows(Last(blocks[n - 1]), blocks[n][0])
  {
    assert Attempts(blocks[n - 1], n) && Attempts(blocks[n], n + 1);
  }

  lemma ChainedAppend(a: seq<Receipt>, b: seq<Receipt>)
    requires a != [] && Chained(a) && b != [] && Follows(Last(a), b[0])
    requires forall i | 0 < i < |b| :: Follows(b[i - 1], b[i])
    ensures Chained(a + b)
  {
    hide Follows;
    var rs := a + b;
    forall i | 0 < i < |rs| ensures Follows(rs[i - 1], rs[i]) {
      if i < |a| {
        assert rs[i - 1] == a[i - 1] && rs[i] == a[i];
      } else if i > |a| {
        assert rs[i - 1] == b[i - |a| - 1] && rs[i] == b[i - |a|];
      }
    }
  }

  lemma LastBlockChained(blocks: seq<seq<Receipt>>)
    requires blocks != [] && OpenRun(blocks)
    ensures var b := blocks[|blocks| - 1];
            && b != [] && b[0].requestSequence == |blocks| && b[0].attempt == 1
            && forall i | 0 < i < |b| :: Follows(b[i - 1], b[i])
  {
    hide SameRequest, Follows;
    var n := |blocks| - 1;
    var b := blocks[n];
    assert Attempts(b, n + 1);
    forall i | 0 < i < |b| ensures Follows(b[i - 1], b[i]) { BlockChained(b, n + 1, i); }
  }

  lemma {:induction false} BlocksChained(blocks: seq<seq<Receipt>>)
    requires blocks != [] && OpenRun(blocks)
    ensures Chained(Flatten(blocks)) && Flatten(blocks) != [] && Last(Flatten(blocks)) == Last(blocks[|blocks| - 1])
  {
    hide Follows, OpenRun;
    var n := |blocks| - 1;
    var b := blocks[n];
    LastBlockChained(blocks);
    if n == 0 {
      assert Flatten(blocks) == b by { assert Flatten(blocks[..0]) == []; }
    } else {
      OpenPrefix(blocks);
      BlocksChained(blocks[..n]);
      LastBlockChained(blocks[..n]);
      NextBlockFollows(blocks, n);
      var a := Flatten(blocks[..n]);
      assert Last(a) == Last(blocks[n - 1]);
      ChainedAppend(a, b);
      assert Flatten(blocks) == a + b;
    }
  }

  /** Which request and attempt a receipt belongs to is told by its position in the blocks. */
  lemma {:induction false} BlockOf(blocks: seq<seq<Receipt>>, i: nat) returns (k: nat, j: nat)
    requires OpenRun(blocks) && i < |Flatten(blocks)|
    ensures k < |blocks| && j < |blocks[k]| && Flatten(blocks)[i] == blocks[k][j]
    ensures blocks[k][j].requestSequence == k + 1
  {
    var n := |blocks| - 1;
    var a := Flatten(blocks[..n]);
    assert Attempts(blocks[n], n + 1);
    if i < |a| {
      OpenPrefix(blocks);
      k, j := BlockOf(blocks[..n], i);
    } else {
      k, j := n, i - |a|;
    }
  }

  /** The order check accepts exactly the numbered runs that fall into blocks, one per request,
      with request ids one-to-one with requests and no settlement or generation used twice. */
  lemma AcceptedIffBlocks(rs: seq<Receipt>)
    ensures OrderCoherent(rs) <==>
            && (forall i | 0 <= i < |rs| :: rs[i].sequence == i + 1)
            && (forall i, j | 0 <= i < j < |rs| :: rs[i].settlementSha != rs[j].settlementSha)
            && (forall i, j | 0 <= i < j < |rs| && rs[i].generationId.Some? :: rs[i].generationId != rs[j].generationId)
            && (exists blocks :: FinishedRun(blocks) && Flatten(blocks) == rs)
            && (forall i, j | 0 <= i < |rs| && 0 <= j < |rs| ::
                  rs[i].requestId == rs[j].requestId <==> rs[i].requestSequence == rs[j].requestSequence)
  {
    if OrderCoherent(rs) {
      var blocks := SplitIntoBlocks(rs);
      assert FinishedRun(blocks) && Flatten(blocks) == rs;
      forall i, j | 0 <= i < |rs| && 0 <= j < |rs| && rs[i].requestSequence == rs[j].requestSequence
        ensures rs[i].requestId == rs[j].requestId
      {
        var k, a := BlockOf(blocks, i);
        var l, b := BlockOf(blocks, j);
        assert Attempts(blocks[k], k + 1);
      }
    }
    if blocks :| FinishedRun(blocks) && Flatten(blocks) == rs {
      BlocksChained(blocks);
    }
  }

  // ---------------------------------------------------------------- counting

  function Terminal(rs: seq<Receipt>): seq<Receipt> {
    if rs == [] then []
    else Terminal(rs[..|rs| - 1]) + (if Last(rs).outcome != ReceiptFreeRetry then [Last(rs)] else [])
  }

  lemma {:induction false} TerminalAppend(a: seq<Receipt>, b: seq<Receipt>)
    ensures Terminal(a + b) == Terminal(a) + Terminal(b)
  {
    if b == [] {
      assert a + b == a;
    } else {
      assert (a + b)[..|a + b| - 1] == a + b[..|b| - 1];
      TerminalAppend(a, b[..|b| - 1]);
    }
  }

  lemma {:induction false} TerminalOfRetries(b: seq<Receipt>)
    requires forall j | 0 <= j < |b| :: b[j].outcome == ReceiptFreeRetry
    ensures Terminal(b) == []
  {
    if b != [] { TerminalOfRetries(b[..|b| - 1]); }
  }

  lemma TerminalOfBlock(b: seq<Receipt>, k: nat)
    requires Attempts(b, k) && Last(b).outcome != ReceiptFreeRetry
    ensures Terminal(b) == [Last(b)]
  {
    TerminalOfRetries(b[..|b| - 1]);
  }

  /** Each request contributes exactly its last receipt, and the rest are its retries. */
  lemma {:induction false} TerminalOfRun(blocks: seq<seq<Receipt>>, maxAttempts: nat)
    requires OpenRun(blocks) && (blocks != [] ==> Last(blocks[|blocks| - 1]).outcome != ReceiptFreeRetry)
    requires forall k | 0 <= k < |blocks| :: |blocks[k]| <= maxAttempts
    ensures |Terminal(Flatten(blocks))| == |blocks|
    ensures forall k | 0 <= k < |blocks| :: Terminal(Flatten(blocks))[k] == Last(blocks[k])
    ensures |Flatten(blocks)| <= maxAttempts * |blocks|
  {
    hide Terminal, SameRequest;
    if blocks == [] {
      assert Terminal([]) == [] by { TerminalOfRetries([]); }
    } else {
      var n := |blocks| - 1;
      assert maxAttempts * |blocks| == maxAttempts * n + maxAttempts;
      OpenPrefix(blocks);
      assert Attempts(blocks[n], n + 1);
      assert n > 0 ==> Last(blocks[..n][n - 1]) == Last(blocks[n - 1]);
      TerminalOfRun(blocks[..n], maxAttempts);
      TerminalAppend(Flatten(blocks[..n]), blocks[n]);
      TerminalOfBlock(blocks[n], n + 1);
    }
  }

  /** Consequences for an accepted set: one terminal receipt per request, as many as the last
      request sequence; only the last receipt can be a provider failure; the receipts beyond
      those are bounded retries. */
  lemma AcceptedCounts(rs: seq<Receipt>, maxAttempts: nat)
    requires OrderCoherent(rs) && forall i | 0 <= i < |rs| :: rs[i].attempt <= maxAttempts
    ensures |Terminal(rs)| == Last(rs).requestSequence >= 1
    ensures Last(Terminal(rs)) == Last(rs)
    ensures forall i | 0 <= i < |rs| - 1 :: rs[i].outcome != ProviderFailure
    ensures |rs| - |Terminal(rs)| <= (maxAttempts - 1) * |Terminal(rs)|
  {
    var blocks := SplitIntoBlocks(rs);
    forall k | 0 <= k < |blocks| ensures |blocks[k]| <= maxAttempts {
      assert Attempts(blocks[k], k + 1);
      var i := PositionOf(blocks, k);
    }
    TerminalOfRun(blocks, maxAttempts);
    forall i | 0 <= i < |rs| - 1 ensures rs[i].outcome != ProviderFailure {
      assert Follows(rs[(i + 1) - 1], rs[i + 1]);
    }
    assert maxAttempts * |blocks| - |blocks| == (maxAttempts - 1) * |blocks|;
  }

  /** Where the last receipt of a block stands in the whole run. */
  lemma {:induction false} PositionOf(blocks: seq<seq<Receipt>>, k: nat) returns (i: nat)
    requires k < |blocks| && blocks[k] != []
    ensures i < |Flatten(blocks)| && Flatten(blocks)[i] == Last(blocks[k])
  {
    var n := |blocks| - 1;
    if k == n {
      i := |Flatten(blocks)| - 1;
    } else {
      i := PositionOf(blocks[..n], k);
    }
  }
}
