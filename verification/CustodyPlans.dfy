/** The custody plan fence as the guard of a chain of Terraform plans. Resource addresses and
    rule bodies outside the phase, RPC and mailbox rules are folded into `scopeOk`. */
module CustodyPlans {
  import opened Wrappers

  const GAMMA := "sn118-gamma-custody"
  const ROLES: set<string> := {"registration", "transfer"}
  const PLATFORM_ACCOUNT := "ditto-platform-api@ditto-app-dev.iam.gserviceaccount.com"

  const MAILBOX_ADDRESSES: seq<string> := [
    "google_pubsub_topic.manual[\"requests\"]", "google_pubsub_topic.manual[\"reports\"]",
    "google_pubsub_subscription.manual[\"requests\"]", "google_pubsub_subscription.manual[\"reports\"]",
    "google_pubsub_topic_iam_member.manual_requests[0]",
    "google_pubsub_topic_iam_member.manual_reports[0]",
    "google_pubsub_subscription_iam_member.manual_requests[0]",
    "google_pubsub_subscription_iam_member.manual_reports[0]"]

  const MAILBOX: set<string> := set x | x in MAILBOX_ADDRESSES

  const PHASES: set<string> := {"bootstrap", "armed", "locked", "sealed"}

  function Rank(phase: string): nat
    requires phase in PHASES
  {
    if phase == "bootstrap" then 0 else if phase == "armed" then 1 else if phase == "locked" then 2 else 3
  }

  datatype Host = Host(project: string, tags: set<string>)

  /** A plan with its variables, the delegate hosts before and after it, and the RPC and mailbox
      resources it plans. None stands for a variable that is not a bool. */
  datatype Plan = Plan(
    project: string,
    complete: bool,
    scopeOk: bool,
    custodyEnabled: bool,
    phases: Option<map<string, string>>,
    mailbox: Option<bool>,
    platformAccount: string,
    plannedMailbox: seq<string>,
    rpc: Option<bool>,
    plannedRpc: nat,
    rpcRuleReviewed: bool,
    prior: map<string, Host>,
    planned: map<string, Host>)

  function Tag(role: string, phase: string): string {
    "collector-" + role + "-" + phase
  }

  predicate BothSealed(p: Plan) {
    p.phases == Some(map["registration" := "sealed", "transfer" := "sealed"])
  }

  predicate MailboxOk(p: Plan) {
    && p.mailbox.Some?
    && (p.mailbox.value ==> p.project == GAMMA && BothSealed(p) && p.platformAccount == PLATFORM_ACCOUNT)
    && |p.plannedMailbox| == (if p.mailbox.value then 8 else 0)
    && (p.mailbox.value ==> (set x | x in p.plannedMailbox) == MAILBOX)
  }

  predicate RpcOk(p: Plan) {
    && p.rpc.Some?
    && (p.rpc.value ==> p.custodyEnabled && BothSealed(p))
    && p.plannedRpc == (if p.rpc.value then 1 else 0)
    && (p.plannedRpc > 0 ==> p.rpcRuleReviewed)
  }

  /** The phases whose tag a host carries. */
  function PhasesOn(role: string, host: Host): set<string> {
    set phase | phase in PHASES && Tag(role, phase) in host.tags
  }

  predicate RoleOk(p: Plan, role: string, phase: string) {
    && phase in PHASES
    && role in p.planned && p.planned[role].project == p.project && Tag(role, phase) in p.planned[role].tags
    && if role !in p.prior then phase == "bootstrap"
       else
         && p.prior[role].project == p.project
         && |PhasesOn(role, p.prior[role])| == 1
         && exists was | was in PhasesOn(role, p.prior[role]) ::
              Rank(phase) == Rank(was) || Rank(phase) == Rank(was) + 1
  }

  predicate PhasesOk(p: Plan) {
    && p.phases.Some? && p.phases.value.Keys == ROLES
    && forall role | role in ROLES :: RoleOk(p, role, p.phases.value[role])
  }

  /** `validate`: true when it returns a count. */
  predicate Accepted(p: Plan) {
    && p.complete && MailboxOk(p) && p.scopeOk && RpcOk(p)
    && (p.project == GAMMA && p.custodyEnabled ==> PhasesOk(p))
  }

  /** Gamma plans applied one after the other, the first on a project without delegate hosts. */
  predicate GammaChain(plans: seq<Plan>) {
    && (forall i | 0 <= i < |plans| :: Accepted(plans[i]) && plans[i].project == GAMMA)
    && (plans != [] ==> plans[0].prior == map[])
    && (forall i | 0 < i < |plans| :: plans[i].prior == plans[i - 1].planned)
  }

  /** A chain that has custody enabled throughout. */
  predicate AcceptedChain(plans: seq<Plan>) {
    && GammaChain(plans)
    && forall i | 0 <= i < |plans| :: plans[i].custodyEnabled
  }

  /** RPC egress is declared or planned. */
  predicate OpensRpc(p: Plan) { p.rpc == Some(true) || p.plannedRpc > 0 }

  /** The mailbox is declared or planned. */
  predicate OpensMailbox(p: Plan) { p.mailbox == Some(true) || p.plannedMailbox != [] }

  /** The rank of a role's phase in the i-th plan of an accepted chain. */
  function RankAt(plans: seq<Plan>, i: nat, role: string): nat
    requires AcceptedChain(plans) && i < |plans| && role in ROLES
  {
    assert PhasesOk(plans[i]) && RoleOk(plans[i], role, plans[i].phases.value[role]);
    Rank(plans[i].phases.value[role])
  }

  lemma SingleMember<T>(s: set<T>, x: T, y: T)
    requires |s| == 1 && x in s && y in s
    ensures x == y
  {
    assert |s - {x}| == 0;
    assert y !in s - {x};
  }

  /** One plan moves a role by zero or one phase. */
  lemma StepByOne(plans: seq<Plan>, i: nat, role: string)
    requires AcceptedChain(plans) && i + 1 < |plans| && role in ROLES
    ensures RankAt(plans, i + 1, role) == RankAt(plans, i, role)
            || RankAt(plans, i + 1, role) == RankAt(plans, i, role) + 1
  {
    var before, after := plans[i], plans[i + 1];
    assert PhasesOk(before) && RoleOk(before, role, before.phases.value[role]);
    assert PhasesOk(after) && RoleOk(after, role, after.phases.value[role]);
    assert after.prior == plans[(i + 1) - 1].planned;
    var on := PhasesOn(role, after.prior[role]);
    var was :| was in on
               && (Rank(after.phases.value[role]) == Rank(was) || Rank(after.phases.value[role]) == Rank(was) + 1);
    SingleMember(on, was, before.phases.value[role]);
  }

  lemma StartsAtBootstrap(plans: seq<Plan>, role: string)
    requires AcceptedChain(plans) && plans != [] && role in ROLES
    ensures RankAt(plans, 0, role) == 0
  {
  }

  lemma RankBounded(plans: seq<Plan>, i: nat, role: string)
    requires AcceptedChain(plans) && i < |plans| && role in ROLES
    ensures RankAt(plans, i, role) <= 3
  {
  }

  /** Every role starts at bootstrap, never goes back and never skips: between two plans of a
      chain it advances by at most their distance. */
  lemma {:induction false} PhasesAdvance(plans: seq<Plan>, i: nat, j: nat, role: string)
    requires AcceptedChain(plans) && i <= j < |plans| && role in ROLES
    ensures RankAt(plans, 0, role) == 0
    ensures RankAt(plans, i, role) <= RankAt(plans, j, role) <= RankAt(plans, i, role) + (j - i)
    ensures RankAt(plans, i, role) == 3 ==> RankAt(plans, j, role) == 3
    decreases j
  {
    hide RankAt, AcceptedChain;
    StartsAtBootstrap(plans, role);
    RankBounded(plans, j, role);
    if i < j {
      PhasesAdvance(plans, i, j - 1, role);
      StepByOne(plans, j - 1, role);
    }
  }

  /** RPC egress and the mailbox first appear in the fourth plan
      of a chain at the earliest, and then both roles stay sealed. */
  lemma NoEarlyAuthority(plans: seq<Plan>, i: nat)
    requires AcceptedChain(plans) && i < |plans|
    requires OpensRpc(plans[i]) || OpensMailbox(plans[i])
    ensures i >= 3
    ensures forall j, role | i <= j < |plans| && role in ROLES :: RankAt(plans, j, role) == 3
  {
    assert BothSealed(plans[i]);
    forall role | role in ROLES ensures RankAt(plans, i, role) == 3 {
    }
    PhasesAdvance(plans, 0, i, "registration");
    forall j, role | i <= j < |plans| && role in ROLES ensures RankAt(plans, j, role) == 3 {
      PhasesAdvance(plans, i, j, role);
    }
  }

  predicate NoRepeat(s: seq<string>) {
    forall i, j | 0 <= i < j < |s| :: s[i] != s[j]
  }

  lemma {:induction false} SizeTellsRepeats(s: seq<string>)
    ensures |set x | x in s| <= |s|
    ensures |set x | x in s| == |s| <==> NoRepeat(s)
  {
    if s != [] {
      var n := |s| - 1;
      var front := s[..n];
      SizeTellsRepeats(front);
      assert s == front + [s[n]];
      assert (set x | x in s) == (set x | x in front) + {s[n]};
      if s[n] in front {
        var i :| 0 <= i < n && s[i] == s[n];
      }
    }
  }

  lemma MailboxHasEight()
    ensures |MAILBOX| == 8
  {
    var lengths := [38, 37, 45, 44, 49, 48, 56, 55];
    assert forall i | 0 <= i < 8 :: |MAILBOX_ADDRESSES[i]| == lengths[i];
    SizeTellsRepeats(MAILBOX_ADDRESSES);
  }

  /** Authority opens only as reviewed: the mailbox as its eight resources, each once, in the gamma
      project for the platform's account; RPC egress as one reviewed rule. Both need sealed roles. */
  lemma AuthorityIsReviewed(p: Plan)
    requires Accepted(p)
    ensures OpensMailbox(p) ==>
              && (set x | x in p.plannedMailbox) == MAILBOX && NoRepeat(p.plannedMailbox)
              && p.project == "sn118-gamma-custody"
              && p.platformAccount == "ditto-platform-api@ditto-app-dev.iam.gserviceaccount.com"
              && p.phases == Some(map["registration" := "sealed", "transfer" := "sealed"])
    ensures OpensRpc(p) ==>
              && p.plannedRpc == 1 && p.rpcRuleReviewed && p.custodyEnabled
              && p.phases == Some(map["registration" := "sealed", "transfer" := "sealed"])
  {
    hide NoRepeat, PhasesOk;
    MailboxHasEight();
    SizeTellsRepeats(p.plannedMailbox);
  }

  // ---------------------------------------------------------------- exactly when authority can open

  function PhaseAt(rank: nat): (phase: string)
    ensures phase in PHASES && Rank(phase) == if rank < 3 then rank else 3
  {
    if rank == 0 then "bootstrap" else if rank == 1 then "armed" else if rank == 2 then "locked" else "sealed"
  }

  function HostIn(role: string, phase: string): Host { Host(GAMMA, {Tag(role, phase)}) }

  /** The phases of both roles. */
  type Phases = map<string, string>

  predicate PhasesKnown(ph: Phases) { ph.Keys == ROLES && forall role | role in ROLES :: ph[role] in PHASES }

  function Both(phase: string): Phases { map["registration" := phase, "transfer" := phase] }

  function HostsIn(ph: Phases): map<string, Host> { map role | role in ph :: HostIn(role, ph[role]) }

  function PlanTo(enabled: bool, ph: Phases, prior: map<string, Host>, mailbox: bool, rpc: bool): Plan {
    Plan(GAMMA, true, true, enabled, Some(ph),
         Some(mailbox), PLATFORM_ACCOUNT, if mailbox then MAILBOX_ADDRESSES else [],
         Some(rpc), if rpc then 1 else 0, true, prior, HostsIn(ph))
  }

  /** A tag names one phase only. */
  lemma TagNamesPhase(role: string, a: string, b: string)
    requires Tag(role, a) == Tag(role, b)
    ensures a == b
  {
    var head := "collector-" + role + "-";
    assert Tag(role, a)[|head|..] == a && Tag(role, b)[|head|..] == b;
  }

  lemma PhasesOnHost(role: string, phase: string)
    requires phase in PHASES
    ensures PhasesOn(role, HostIn(role, phase)) == {phase}
  {
    forall other | other in PhasesOn(role, HostIn(role, phase)) ensures other == phase {
      TagNamesPhase(role, other, phase);
    }
  }

  lemma PlanToAccepted(enabled: bool, ph: Phases, was: Phases, prior: map<string, Host>, mailbox: bool, rpc: bool)
    requires PhasesKnown(ph) && PhasesKnown(was)
    requires (mailbox || rpc ==> ph == Both("sealed")) && (rpc ==> enabled)
    requires enabled ==>
               || (prior == map[] && ph == Both("bootstrap"))
               || (prior == HostsIn(was) && forall role | role in ROLES :: Advances(Rank(was[role]), Rank(ph[role])))
    ensures Accepted(PlanTo(enabled, ph, prior, mailbox, rpc))
  {
    var p := PlanTo(enabled, ph, prior, mailbox, rpc);
    if enabled {
      forall role | role in ROLES ensures RoleOk(p, role, p.phases.value[role]) {
        PhasesOnHost(role, was[role]);
        assert role in prior ==> prior[role] == HostIn(role, was[role]) && was[role] in PhasesOn(role, prior[role]);
      }
    }
  }

  // Every progression that the fence promises is also possible.

  predicate Advances(was: nat, now: nat) { now == was || now == was + 1 }

  /** The role starts at bootstrap and moves by zero or one phase per plan. */
  predicate Progression(ranks: seq<nat>) {
    && (ranks != [] ==> ranks[0] == 0)
    && (forall i | 0 <= i < |ranks| :: ranks[i] <= 3)
    && (forall i | 0 < i < |ranks| :: Advances(ranks[i - 1], ranks[i]))
  }

  function PhasesAt(registration: nat, transfer: nat): Phases {
    map["registration" := PhaseAt(registration), "transfer" := PhaseAt(transfer)]
  }

  function StagedPlan(registration: seq<nat>, transfer: seq<nat>, i: nat): Plan
    requires |registration| == |transfer| && i < |registration|
  {
    var prior := if i == 0 then map[] else HostsIn(PhasesAt(registration[i - 1], transfer[i - 1]));
    PlanTo(true, PhasesAt(registration[i], transfer[i]), prior, false, false)
  }

  lemma StagedPlanAccepted(registration: seq<nat>, transfer: seq<nat>, i: nat)
    requires |registration| == |transfer| && i < |registration| && Progression(registration) && Progression(transfer)
    ensures Accepted(StagedPlan(registration, transfer, i))
  {
    hide Accepted, PlanTo, HostsIn;
    var ph := PhasesAt(registration[i], transfer[i]);
    var was := if i == 0 then ph else PhasesAt(registration[i - 1], transfer[i - 1]);
    var prior := if i == 0 then map[] else HostsIn(was);
    assert i > 0 ==> Advances(registration[i - 1], registration[i]) && Advances(transfer[i - 1], transfer[i]);
    PlanToAccepted(true, ph, was, prior, false, false);
  }

  /** Together with `PhasesAdvance`: the two roles may progress in any way that starts at bootstrap
      and never goes back or skips, each at its own pace, and in no other. */
  lemma ProgressionsAccepted(registration: seq<nat>, transfer: seq<nat>) returns (plans: seq<Plan>)
    requires |registration| == |transfer| && Progression(registration) && Progression(transfer)
    ensures AcceptedChain(plans) && |plans| == |registration|
    ensures forall i | 0 <= i < |plans| ::
              RankAt(plans, i, "registration") == registration[i] && RankAt(plans, i, "transfer") == transfer[i]
  {
    hide Accepted, HostsIn;
    plans := seq(|registration|, i requires 0 <= i < |registration| => StagedPlan(registration, transfer, i));
    forall i | 0 <= i < |plans| ensures Accepted(plans[i]) {
      StagedPlanAccepted(registration, transfer, i);
    }
    assert AcceptedChain(plans);
    forall i | 0 <= i < |plans|
      ensures RankAt(plans, i, "registration") == registration[i] && RankAt(plans, i, "transfer") == transfer[i]
    {
      assert plans[i].phases == Some(PhasesAt(registration[i], transfer[i]));
    }
  }

  /** The furthest phase that the i-th plan of a chain with these custody flags can reach: one
      phase per plan, or any phase from the first plan with custody disabled on. */
  function Furthest(flags: seq<bool>, i: nat): string
    requires i < |flags|
  {
    if false in flags[..i + 1] then "sealed" else PhaseAt(i)
  }

  /** The plans that get there, the last one opening what is asked. */
  function FurthestPlan(flags: seq<bool>, i: nat, mailbox: bool, rpc: bool): Plan
    requires i < |flags|
  {
    var prior := if i == 0 then map[] else HostsIn(Both(Furthest(flags, i - 1)));
    var last := i == |flags| - 1;
    PlanTo(flags[i], Both(Furthest(flags, i)), prior, last && mailbox, last && rpc)
  }

  lemma FurthestPlanAccepted(flags: seq<bool>, i: nat, mailbox: bool, rpc: bool)
    requires i < |flags|
    requires mailbox || rpc ==> |flags| >= 4 || false in flags
    requires rpc ==> flags[|flags| - 1]
    ensures Accepted(FurthestPlan(flags, i, mailbox, rpc))
  {
    hide Accepted, PlanTo, HostsIn;
    var phase := Furthest(flags, i);
    var was := if i == 0 then phase else Furthest(flags, i - 1);
    var prior := if i == 0 then map[] else HostsIn(Both(was));
    var last := i == |flags| - 1;
    assert last ==> flags[..i + 1] == flags;
    assert flags[..i + 1] == flags[..i] + [flags[i]];
    assert flags[..i - 1 + 1] == flags[..i];
    PlanToAccepted(flags[i], Both(phase), Both(was), prior, last && mailbox, last && rpc);
  }

  function Flags(plans: seq<Plan>): seq<bool> {
    seq(|plans|, i requires 0 <= i < |plans| => plans[i].custodyEnabled)
  }

  lemma FurthestChain(flags: seq<bool>, mailbox: bool, rpc: bool) returns (plans: seq<Plan>)
    requires flags != []
    requires mailbox || rpc ==> |flags| >= 4 || false in flags
    requires rpc ==> flags[|flags| - 1]
    ensures GammaChain(plans) && Flags(plans) == flags
    ensures plans[|flags| - 1].mailbox == Some(mailbox) && plans[|flags| - 1].rpc == Some(rpc)
  {
    hide Accepted, HostsIn, Furthest;
    plans := seq(|flags|, i requires 0 <= i < |flags| => FurthestPlan(flags, i, mailbox, rpc));
    forall i | 0 <= i < |plans| ensures Accepted(plans[i]) {
      FurthestPlanAccepted(flags, i, mailbox, rpc);
    }
  }

  lemma EnabledThroughout(plans: seq<Plan>)
    requires GammaChain(plans) && false !in Flags(plans)
    ensures AcceptedChain(plans)
  {
    forall i | 0 <= i < |plans| ensures plans[i].custodyEnabled {
      assert Flags(plans)[i] in Flags(plans);
    }
  }

  /** Which custody flags allow a chain whose last plan opens the mailbox: four plans, or one
      with custody disabled, since the mailbox rule looks only at the declared phases. */
  lemma MailboxOpensIff(flags: seq<bool>)
    requires flags != []
    ensures (exists plans :: GammaChain(plans) && Flags(plans) == flags && OpensMailbox(plans[|flags| - 1]))
            <==> |flags| >= 4 || false in flags
  {
    hide GammaChain, AcceptedChain;
    if |flags| >= 4 || false in flags {
      var plans := FurthestChain(flags, true, false);
      assert OpensMailbox(plans[|flags| - 1]);
    } else {
      forall plans | GammaChain(plans) && Flags(plans) == flags ensures !OpensMailbox(plans[|flags| - 1]) {
        EnabledThroughout(plans);
        if OpensMailbox(plans[|flags| - 1]) {
          NoEarlyAuthority(plans, |flags| - 1);
        }
      }
    }
  }

  /** Which custody flags allow a chain whose last plan opens RPC egress: custody enabled in that
      plan, and four plans or an earlier one with custody disabled, whose hosts nobody checked. */
  lemma RpcOpensIff(flags: seq<bool>)
    requires flags != []
    ensures var last := |flags| - 1;
            (exists plans :: GammaChain(plans) && Flags(plans) == flags && OpensRpc(plans[last]))
            <==> flags[last] && (|flags| >= 4 || false in flags[..last])
  {
    var last := |flags| - 1;
    assert flags == flags[..last] + [flags[last]];
    if flags[last] && (|flags| >= 4 || false in flags[..last]) {
      var plans := FurthestChain(flags, false, true);
      assert OpensRpc(plans[last]);
    } else {
      forall plans | GammaChain(plans) && Flags(plans) == flags ensures !OpensRpc(plans[last]) {
        if OpensRpc(plans[last]) {
          assert RpcOk(plans[last]) && Flags(plans)[last];
          EnabledThroughout(plans);
          NoEarlyAuthority(plans, last);
        }
      }
    }
  }
}
