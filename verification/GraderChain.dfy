/** The hash chain of grader execution receipts, replayed against its plan. SHA-256 of the
    canonical JSON is the parameter `hash`; nothing is assumed of it. */
module GraderChain {
  import opened Wrappers

  const INITIAL_ROOT: string := "0000000000000000000000000000000000000000000000000000000000000000"

  datatype Command = Command(id: string, argv: seq<string>, timeoutMilliseconds: nat)

  datatype Phase = Build | Test

  datatype GroupPlan = GroupPlan(group: string, command: Command, expectedTotal: nat)

  datatype Plan = Plan(
    buildRequired: bool,
    buildCommand: Command,
    testGroups: seq<GroupPlan>,
    executionOrder: seq<string>)

  const SORTED_GROUPS: seq<string> := ["adversarial", "fail_to_pass", "hidden", "integrity", "pass_to_pass"]
  const EXECUTION_ORDER: seq<string> := ["fail_to_pass", "pass_to_pass", "hidden", "adversarial", "integrity"]

  /** `CodingGraderPlan.plan_is_canonical`: fixed group names and order, distinct command ids. */
  predicate PlanOk(plan: Plan) {
    && |plan.testGroups| == 5
    && (forall i | 0 <= i < 5 :: plan.testGroups[i].group == SORTED_GROUPS[i] && plan.testGroups[i].expectedTotal >= 1)
    && plan.executionOrder == EXECUTION_ORDER
    && (forall i | 0 <= i < 5 :: plan.testGroups[i].command.id != plan.buildCommand.id)
    && (forall i, j | 0 <= i < j < 5 :: plan.testGroups[i].command.id != plan.testGroups[j].command.id)
  }

  datatype Receipt = Receipt(
    sequence: nat, phase: Phase, group: Option<string>, commandId: string, commandSha: string,
    executor: string, returncode: int, passed: nat, total: nat, completed: bool, timedOut: bool, previous: string)

  /** `CodingGraderExecutionReceipt.phase_is_coherent` with the declared range of the sequence. */
  predicate ReceiptOk(r: Receipt) {
    && 1 <= r.sequence <= 6
    && (r.phase == Build ==> r.group.None? && r.passed == 0 && r.total == 0)
    && (r.phase == Test ==> r.group.Some? && r.total > 0 && r.passed <= r.total)
  }

  datatype Expected = Expected(phase: Phase, group: Option<string>, command: Command, total: nat)

  /** The position of a group in the sorted list of a canonical plan. */
  function GroupIndex(name: string): nat {
    if name == "adversarial" then 0 else if name == "fail_to_pass" then 1 else if name == "hidden" then 2
    else if name == "integrity" then 3 else 4
  }

  /** The executions a plan calls for: the build if required, then the groups in execution order. */
  function ExpectedOf(plan: Plan): (e: seq<Expected>)
    requires PlanOk(plan)
    ensures |e| == 5 + (if plan.buildRequired then 1 else 0)
  {
    (if plan.buildRequired then [Expected(Build, None, plan.buildCommand, 0)] else []) +
    seq(5, i requires 0 <= i < 5 =>
      var g := plan.testGroups[GroupIndex(EXECUTION_ORDER[i])];
      Expected(Test, Some(EXECUTION_ORDER[i]), g.command, g.expectedTotal))
  }

  /** A build comes first when it is required; then each group of the execution order once, with
      the command and the total of the group of that name. */
  lemma ExpectedFollowsPlan(plan: Plan, i: nat) returns (g: GroupPlan)
    requires PlanOk(plan) && i < 5
    ensures plan.buildRequired ==> ExpectedOf(plan)[0] == Expected(Build, None, plan.buildCommand, 0)
    ensures g in plan.testGroups && g.group == plan.executionOrder[i]
    ensures ExpectedOf(plan)[i + (if plan.buildRequired then 1 else 0)]
                == Expected(Test, Some(g.group), g.command, g.expectedTotal)
  {
    g := plan.testGroups[GroupIndex(EXECUTION_ORDER[i])];
  }

  type Hash = Receipt -> string
  type CommandHash = Command -> string

  /** The root before receipt `i`: the initial root or the hash of the receipt before it. */
  function RootBefore(hash: Hash, rs: seq<Receipt>, i: nat): string
    requires i <= |rs|
  {
    if i == 0 then INITIAL_ROOT else hash(rs[i - 1])
  }

  predicate Bound(ch: CommandHash, e: Expected, r: Receipt) {
    r.phase == e.phase && r.group == e.group
    && r.commandId == e.command.id && r.commandSha == ch(e.command) && r.total == e.total
  }

  /** Receipt `i` is well formed, is the execution that the plan expects there, names the
      executor of the first receipt and carries the hash of the receipt before it. */
  predicate LinkOk(hash: Hash, ch: CommandHash, plan: Plan, rs: seq<Receipt>, i: nat)
    requires PlanOk(plan) && i < |rs| && i < |ExpectedOf(plan)|
  {
    && ReceiptOk(rs[i]) && rs[i].sequence == i + 1 && rs[i].executor == rs[0].executor
    && Bound(ch, ExpectedOf(plan)[i], rs[i]) && rs[i].previous == RootBefore(hash, rs, i)
  }

  /** The receipts follow the plan in order, name one executor, and each carries the hash of
      the one before it. */
  predicate Accepted(hash: Hash, ch: CommandHash, plan: Plan, rs: seq<Receipt>) {
    PlanOk(plan) && |rs| <= |ExpectedOf(plan)| && forall i | 0 <= i < |rs| :: LinkOk(hash, ch, plan, rs, i)
  }

  /** What receipt `i` has to say, in terms of the plan: the first is the build if one is required,
      and the others are the groups in the order fail-to-pass, pass-to-pass, hidden, adversarial,
      integrity, each with the command and the total of the group of that name. */
  predicate Executed(hash: Hash, ch: CommandHash, plan: Plan, rs: seq<Receipt>, i: nat)
    requires PlanOk(plan) && i < |rs| && i < (if plan.buildRequired then 6 else 5)
  {
    var r, k := rs[i], if plan.buildRequired then i - 1 else i;
    && r.sequence == i + 1 && r.executor == rs[0].executor
    && r.previous == (if i == 0 then INITIAL_ROOT else hash(rs[i - 1]))
    && if k < 0 then
         && r.phase == Build && r.group.None? && r.passed == 0 && r.total == 0
         && r.commandId == plan.buildCommand.id && r.commandSha == ch(plan.buildCommand)
       else
         var name := ["fail_to_pass", "pass_to_pass", "hidden", "adversarial", "integrity"][k];
         && r.phase == Test && r.group == Some(name)
         && exists g | g in plan.testGroups && g.group == name ::
              && r.commandId == g.command.id && r.commandSha == ch(g.command)
              && r.passed <= r.total == g.expectedTotal
  }

  lemma LinkMeans(hash: Hash, ch: CommandHash, plan: Plan, rs: seq<Receipt>, i: nat)
    requires PlanOk(plan) && i < |rs| && i < |ExpectedOf(plan)|
    ensures LinkOk(hash, ch, plan, rs, i) <==> Executed(hash, ch, plan, rs, i)
  {
    var k := if plan.buildRequired then i - 1 else i;
    if k >= 0 {
      var g := ExpectedFollowsPlan(plan, k);
      OneGroupNamed(plan, g);
      assert g.expectedTotal >= 1;
    }
  }

  /** Group names are distinct. */
  lemma OneGroupNamed(plan: Plan, g: GroupPlan)
    requires PlanOk(plan) && g in plan.testGroups
    ensures forall h | h in plan.testGroups && h.group == g.group :: h == g
  {
    assert forall i, j | 0 <= i < j < 5 :: SORTED_GROUPS[i] != SORTED_GROUPS[j];
  }

  /** The chain is accepted exactly when it is no longer than the plan and every receipt is the
      execution the plan calls for at its place. */
  lemma AcceptedIff(hash: Hash, ch: CommandHash, plan: Plan, rs: seq<Receipt>)
    requires PlanOk(plan)
    ensures Accepted(hash, ch, plan, rs) <==>
            && |rs| <= (if plan.buildRequired then 6 else 5)
            && forall i | 0 <= i < |rs| :: Executed(hash, ch, plan, rs, i)
  {
    hide PlanOk, LinkOk, Executed, ExpectedOf;
    forall i | 0 <= i < |rs| && i < |ExpectedOf(plan)|
      ensures LinkOk(hash, ch, plan, rs, i) <==> Executed(hash, ch, plan, rs, i)
    {
      LinkMeans(hash, ch, plan, rs, i);
    }
  }

  /** No command runs twice. */
  lemma CommandsDistinct(hash: Hash, ch: CommandHash, plan: Plan, rs: seq<Receipt>, i: nat, j: nat)
    requires Accepted(hash, ch, plan, rs) && i < j < |rs|
    ensures rs[i].commandId != rs[j].commandId
  {
    assert LinkOk(hash, ch, plan, rs, i) && LinkOk(hash, ch, plan, rs, j);
  }

  /** A link depends only on the receipts up to it. */
  lemma LinkInPrefix(hash: Hash, ch: CommandHash, plan: Plan, rs: seq<Receipt>, n: nat, i: nat)
    requires PlanOk(plan) && i < n <= |rs| && i < |ExpectedOf(plan)|
    ensures LinkOk(hash, ch, plan, rs[..n], i) <==> LinkOk(hash, ch, plan, rs, i)
  {
  }

  lemma PrefixAccepted(hash: Hash, ch: CommandHash, plan: Plan, rs: seq<Receipt>, n: nat)
    requires Accepted(hash, ch, plan, rs) && n <= |rs|
    ensures Accepted(hash, ch, plan, rs[..n])
  {
    hide ExpectedOf, PlanOk, LinkOk;
    forall i | 0 <= i < n ensures LinkOk(hash, ch, plan, rs[..n], i) {
      LinkInPrefix(hash, ch, plan, rs, n, i);
    }
  }

  lemma AcceptedGrows(hash: Hash, ch: CommandHash, plan: Plan, rs: seq<Receipt>, i: nat)
    requires PlanOk(plan) && i < |rs| <= |ExpectedOf(plan)| && Accepted(hash, ch, plan, rs[..i])
    ensures Accepted(hash, ch, plan, rs[..i + 1]) <==> LinkOk(hash, ch, plan, rs, i)
  {
    hide ExpectedOf, PlanOk, LinkOk;
    var next := rs[..i + 1];
    forall j | 0 <= j < i ensures LinkOk(hash, ch, plan, next, j) {
      LinkInPrefix(hash, ch, plan, rs, i, j);
      LinkInPrefix(hash, ch, plan, rs, i + 1, j);
    }
    LinkInPrefix(hash, ch, plan, rs, i + 1, i);
  }

  /** `grader_execution_receipt_root`; None is ValueError. */
  method ReceiptRoot(hash: Hash, ch: CommandHash, plan: Plan, rs: seq<Receipt>) returns (root: Option<string>)
    ensures root == if Accepted(hash, ch, plan, rs) then Some(RootBefore(hash, rs, |rs|)) else None
  {
    if !PlanOk(plan) {
      return None;
    }
    var expected := ExpectedOf(plan);
    if |rs| > |expected| {
      return None;
    }
    hide ExpectedOf, PlanOk, ReceiptOk, Bound, Accepted;
    var previous := INITIAL_ROOT;
    var executor: Option<string> := None;
    var i := 0;
    assert Accepted(hash, ch, plan, rs[..0]) by { NothingAccepted(hash, ch, plan, rs); }
    while i < |rs|
      invariant 0 <= i <= |rs|
      invariant previous == RootBefore(hash, rs, i)
      invariant executor == if i == 0 then None else Some(rs[0].executor)
      invariant Accepted(hash, ch, plan, rs[..i])
    {
      var r := rs[i];
      AcceptedGrows(hash, ch, plan, rs, i);
      if Accepted(hash, ch, plan, rs) { PrefixAccepted(hash, ch, plan, rs, i + 1); }
      if !ReceiptOk(r) {
        return None;
      }
      if executor.None? {
        executor := Some(r.executor);
      }
      if r.sequence != i + 1 || r.previous != previous || !Bound(ch, expected[i], r) || Some(r.executor) != executor {
        return None;
      }
      previous := hash(r);
      i := i + 1;
    }
    assert rs[..i] == rs;
    return Some(previous);
  }

  lemma NothingAccepted(hash: Hash, ch: CommandHash, plan: Plan, rs: seq<Receipt>)
    requires PlanOk(plan)
    ensures Accepted(hash, ch, plan, rs[..0])
  {
  }

  // ---------------------------------------------------------------- what the root commits to

  /** Two receipts are a collision of the hash. */
  predicate Collision(hash: Hash, a: Receipt, b: Receipt) {
    a != b && hash(a) == hash(b)
  }

  /** Between them, two lists hold a receipt that hashes to the initial root or two different
      receipts with equal hashes. */
  predicate Exposed(hash: Hash, xs: seq<Receipt>, ys: seq<Receipt>) {
    || (exists r | r in xs + ys :: hash(r) == INITIAL_ROOT)
    || (exists a | a in xs :: exists b | b in ys :: Collision(hash, a, b))
  }

  lemma ExposedByRoot(hash: Hash, xs: seq<Receipt>, ys: seq<Receipt>, r: Receipt)
    requires r in xs + ys && hash(r) == INITIAL_ROOT
    ensures Exposed(hash, xs, ys)
  {
  }

  lemma ExposedByCollision(hash: Hash, xs: seq<Receipt>, ys: seq<Receipt>, a: Receipt, b: Receipt)
    requires a in xs && b in ys && Collision(hash, a, b)
    ensures Exposed(hash, xs, ys)
  {
  }

  lemma ExposedInPrefix(hash: Hash, xs: seq<Receipt>, ys: seq<Receipt>, m: nat, n: nat)
    requires m <= |xs| && n <= |ys| && Exposed(hash, xs[..m], ys[..n])
    ensures Exposed(hash, xs, ys)
  {
    assert forall r | r in xs[..m] :: r in xs;
    assert forall r | r in ys[..n] :: r in ys;
    if r :| r in xs[..m] + ys[..n] && hash(r) == INITIAL_ROOT {
      ExposedByRoot(hash, xs, ys, r);
    } else {
      var a :| a in xs[..m] && exists b | b in ys[..n] :: Collision(hash, a, b);
      var b :| b in ys[..n] && Collision(hash, a, b);
      ExposedByCollision(hash, xs, ys, a, b);
    }
  }

  lemma EmptyRoot(hash: Hash)
    ensures RootBefore(hash, [], 0) == INITIAL_ROOT
  {
  }

  lemma LastLink(hash: Hash, ch: CommandHash, plan: Plan, rs: seq<Receipt>)
    requires Accepted(hash, ch, plan, rs) && rs != []
    ensures rs[|rs| - 1].sequence == |rs| && rs[|rs| - 1].previous == RootBefore(hash, rs[..|rs| - 1], |rs| - 1)
    ensures RootBefore(hash, rs, |rs|) == hash(rs[|rs| - 1])
  {
    assert LinkOk(hash, ch, plan, rs, |rs| - 1);
  }

  /** Different accepted lists with the same root expose a broken hash. */
  lemma {:induction false} SameRootOrBrokenHash(hash: Hash, ch: CommandHash, plan: Plan,
                                                xs: seq<Receipt>, ys: seq<Receipt>)
    requires Accepted(hash, ch, plan, xs) && Accepted(hash, ch, plan, ys)
    requires RootBefore(hash, xs, |xs|) == RootBefore(hash, ys, |ys|) && xs != ys
    ensures Exposed(hash, xs, ys)
    decreases |xs| + |ys|
  {
    hide Accepted, Exposed, RootBefore;
    EmptyRoot(hash);
    if xs == [] {
      LastLink(hash, ch, plan, ys);
      ExposedByRoot(hash, xs, ys, ys[|ys| - 1]);
    } else if ys == [] {
      LastLink(hash, ch, plan, xs);
      ExposedByRoot(hash, xs, ys, xs[|xs| - 1]);
    } else {
      var m, n := |xs| - 1, |ys| - 1;
      LastLink(hash, ch, plan, xs);
      LastLink(hash, ch, plan, ys);
      if xs[m] != ys[n] {
        ExposedByCollision(hash, xs, ys, xs[m], ys[n]);
      } else {
        assert m == n;
        PrefixAccepted(hash, ch, plan, xs, m);
        PrefixAccepted(hash, ch, plan, ys, n);
        assert xs == xs[..m] + [xs[m]] && ys == ys[..n] + [ys[n]];
        SameRootOrBrokenHash(hash, ch, plan, xs[..m], ys[..n]);
        ExposedInPrefix(hash, xs, ys, m, n);
      }
    }
  }

  /** So with a collision-free hash that never yields the initial root, the root determines the
      whole list. */
  lemma RootDeterminesReceipts(hash: Hash, ch: CommandHash, plan: Plan, xs: seq<Receipt>, ys: seq<Receipt>)
    requires Accepted(hash, ch, plan, xs) && Accepted(hash, ch, plan, ys)
    requires RootBefore(hash, xs, |xs|) == RootBefore(hash, ys, |ys|)
    requires forall a, b | a in xs && b in ys :: hash(a) == hash(b) ==> a == b
    requires forall r | r in xs + ys :: hash(r) != INITIAL_ROOT
    ensures xs == ys
  {
    if xs != ys {
      SameRootOrBrokenHash(hash, ch, plan, xs, ys);
    }
  }
}
