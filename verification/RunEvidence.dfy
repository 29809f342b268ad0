/** Coding run evidence: per-task evidence bound to a manifest, and the run aggregate
    replayed from it. Canonical-JSON digests are parameters. */
module RunEvidence {
  import opened Wrappers
  import opened Text

  const RESOLVED_SCORE: nat := 1_000_000

  type Identity = (Text, Text)

  datatype Domain =
    | Resolved | RepairFailure | ValidatorInfrastructure | TaskInvalid | CandidateIntegrity | ControlPlaneIntegrity

  datatype ManifestTask = ManifestTask(
    caseId: Text, variantId: Text, profileId: string, visibleBundle: string, baseTree: string, memoryBundle: string,
    environmentImage: string, environmentPlatform: string, resourceProfile: string, graderBundle: string,
    graderImage: string, graderPlatform: string, testManifest: string, graderPlan: string)

  datatype Manifest = Manifest(
    codingRunId: string, agentId: string, agentArtifact: string, corpusRelease: string,
    inferenceGrant: string, graderContract: string, taskSetId: string, taskSetManifest: string,
    tasks: seq<ManifestTask>)

  datatype Authoring = Authoring(inferenceGrant: string, protectedPathsIntact: bool, content: string)

  datatype Grader = Grader(
    contract: string, bundle: string, image: string, platform: string, testManifest: string, plan: string,
    resourceProfile: string, receiptRoot: string, receiptCount: nat, integrityBefore: string, integrityAfter: string,
    buildRequired: bool, buildPassed: bool, groups: seq<(nat, nat)>)

  datatype TaskEvidence = TaskEvidence(
    codingRunId: string, ticketId: string, agentId: string, agentArtifact: string, corpusRelease: string,
    taskSetId: string, taskSetManifest: string, task: ManifestTask,
    authoring: Option<Authoring>, grader: Option<Grader>,
    domain: Domain, failureCode: Option<string>, score: nat)

  datatype TaskResult = TaskResult(caseId: Text, variantId: Text, evidenceSha: string, domain: Domain, score: nat)

  datatype Run = Run(
    codingRunId: string, ticketId: string, manifestSha: string, taskSetManifest: string, tasks: seq<TaskResult>,
    resolved: nat, repairFailure: nat, infrastructure: nat, invalid: nat, candidateIntegrity: nat, controlPlane: nat,
    scoreable: nat, meanMicros: nat)

  // ---------------------------------------------------------------- identities

  function TaskId(t: ManifestTask): Identity { (t.caseId, t.variantId) }

  function EvidenceId(e: TaskEvidence): Identity { TaskId(e.task) }

  function ResultId(r: TaskResult): Identity { (r.caseId, r.variantId) }

  /** Strict order of (case_id, variant_id) pairs. */
  predicate IdLess(a: Identity, b: Identity) {
    a != b && if a.0 == b.0 then LexLe(a.1, b.1) else LexLe(a.0, b.0)
  }

  /** `ids == sorted(ids)` without repetitions */
  predicate SortedUnique(ids: seq<Identity>) {
    forall i, j | 0 <= i < j < |ids| :: IdLess(ids[i], ids[j])
  }

  function Ids<T>(xs: seq<T>, id: T -> Identity): (r: seq<Identity>)
    ensures |r| == |xs| && forall i | 0 <= i < |xs| :: r[i] == id(xs[i])
  {
    seq(|xs|, i requires 0 <= i < |xs| => id(xs[i]))
  }

  predicate ManifestOk(m: Manifest) {
    1 <= |m.tasks| <= 100 && SortedUnique(Ids(m.tasks, TaskId))
  }

  // ---------------------------------------------------------------- task evidence

  /** The declared ranges of grader evidence: the five groups, sorted by name, with (passed, total). */
  predicate GraderOk(g: Grader) {
    && |g.groups| == 5 && g.receiptCount <= 6
    && forall i | 0 <= i < 5 :: g.groups[i].0 <= g.groups[i].1 && g.groups[i].1 >= 1
  }

  /** `CodingGraderEvidence.resolved` */
  predicate GraderResolved(g: Grader) {
    && (g.buildRequired ==> g.buildPassed)
    && (forall i | 0 <= i < |g.groups| :: g.groups[i].0 == g.groups[i].1)
    && g.integrityBefore == g.integrityAfter
    && g.receiptCount == 5 + (if g.buildRequired then 1 else 0)
  }

  predicate GraderMatchesTask(g: Grader, t: ManifestTask) {
    && g.bundle == t.graderBundle && g.image == t.graderImage && g.platform == t.graderPlatform
    && g.testManifest == t.testManifest && g.plan == t.graderPlan && g.resourceProfile == t.resourceProfile
  }

  /** `CodingTaskEvidence.outcome_is_coherent` */
  predicate TaskEvidenceOk(e: TaskEvidence) {
    && (e.grader.Some? ==> GraderOk(e.grader.value) && GraderMatchesTask(e.grader.value, e.task))
    && (if e.domain == Resolved then
          && e.failureCode.None? && e.authoring.Some? && e.grader.Some?
          && e.authoring.value.protectedPathsIntact && GraderResolved(e.grader.value) && e.score == RESOLVED_SCORE
        else e.failureCode.Some? && e.score == 0)
    && ((e.domain == RepairFailure || e.domain == CandidateIntegrity) ==> e.authoring.Some?)
  }

  function Matching(tasks: seq<ManifestTask>, id: Identity): seq<ManifestTask> {
    if tasks == [] then []
    else (if TaskId(tasks[0]) == id then [tasks[0]] else []) + Matching(tasks[1..], id)
  }

  /** `validate_task_evidence_against_manifest`: true when it returns. */
  predicate TaskBound(m: Manifest, ticket: string, e: TaskEvidence) {
    var matching := Matching(m.tasks, EvidenceId(e));
    && |matching| == 1 && matching[0] == e.task
    && e.codingRunId == m.codingRunId && e.ticketId == ticket && e.agentId == m.agentId
    && e.agentArtifact == m.agentArtifact && e.corpusRelease == m.corpusRelease
    && e.taskSetId == m.taskSetId && e.taskSetManifest == m.taskSetManifest
    && (e.authoring.Some? ==> e.authoring.value.inferenceGrant == m.inferenceGrant)
    && (e.grader.Some? ==>
          e.grader.value.contract == m.graderContract && GraderMatchesTask(e.grader.value, matching[0]))
  }

  lemma {:induction false} MatchingMember(tasks: seq<ManifestTask>, id: Identity)
    ensures forall t :: t in Matching(tasks, id) <==> t in tasks && TaskId(t) == id
  {
    if tasks != [] {
      MatchingMember(tasks[1..], id);
      assert tasks == [tasks[0]] + tasks[1..];
    }
  }

  lemma BoundIsInManifest(m: Manifest, ticket: string, e: TaskEvidence)
    requires TaskBound(m, ticket, e)
    ensures e.task in m.tasks
  {
    MatchingMember(m.tasks, EvidenceId(e));
    assert Matching(m.tasks, EvidenceId(e))[0] in Matching(m.tasks, EvidenceId(e));
  }

  lemma {:induction false} AtMostOneMatches(tasks: seq<ManifestTask>, id: Identity)
    requires forall i, j | 0 <= i < j < |tasks| :: TaskId(tasks[i]) != TaskId(tasks[j])
    ensures |Matching(tasks, id)| <= 1
  {
    if tasks != [] {
      AtMostOneMatches(tasks[1..], id);
      MatchingMember(tasks[1..], id);
      if Matching(tasks[1..], id) != [] {
        var t := Matching(tasks[1..], id)[0];
        assert t in Matching(tasks[1..], id);
        var j :| 0 <= j < |tasks[1..]| && tasks[1..][j] == t;
        assert TaskId(tasks[0]) != TaskId(tasks[j + 1]);
      }
    }
  }

  lemma MatchesExactlyOne(m: Manifest, t: ManifestTask)
    requires ManifestOk(m)
    ensures Matching(m.tasks, TaskId(t)) == [t] <==> t in m.tasks
  {
    hide LexLe;
    var matching := Matching(m.tasks, TaskId(t));
    MatchingMember(m.tasks, TaskId(t));
    forall i, j | 0 <= i < j < |m.tasks| ensures TaskId(m.tasks[i]) != TaskId(m.tasks[j]) {
      assert IdLess(Ids(m.tasks, TaskId)[i], Ids(m.tasks, TaskId)[j]);
    }
    AtMostOneMatches(m.tasks, TaskId(t));
    if matching == [t] {
      assert matching[0] in matching;
    }
    if t in m.tasks {
      assert t in matching;
    }
  }

  /** Which evidence is accepted for a manifest and a ticket, field by field. In particular only a
      resolved task scores, and it needs an intact repair, a passed build if one is required, all
      tests of all five groups, an unchanged grader and a receipt for every execution. */
  lemma TaskAcceptedIff(m: Manifest, ticket: string, e: TaskEvidence)
    requires ManifestOk(m)
    ensures TaskEvidenceOk(e) && TaskBound(m, ticket, e) <==>
            && e.task in m.tasks
            && e.codingRunId == m.codingRunId && e.ticketId == ticket && e.agentId == m.agentId
            && e.agentArtifact == m.agentArtifact && e.corpusRelease == m.corpusRelease
            && e.taskSetId == m.taskSetId && e.taskSetManifest == m.taskSetManifest
            && e.score == (if e.domain == Resolved then 1_000_000 else 0)
            && (e.failureCode.None? <==> e.domain == Resolved)
            && (e.domain in {Resolved, RepairFailure, CandidateIntegrity} ==> e.authoring.Some?)
            && (e.authoring.Some? ==> e.authoring.value.inferenceGrant == m.inferenceGrant)
            && (e.grader.Some? ==>
                  var g := e.grader.value;
                  && g.contract == m.graderContract && g.bundle == e.task.graderBundle
                  && g.image == e.task.graderImage && g.platform == e.task.graderPlatform
                  && g.testManifest == e.task.testManifest && g.plan == e.task.graderPlan
                  && g.resourceProfile == e.task.resourceProfile
                  && |g.groups| == 5 && g.receiptCount <= 6
                  && forall i | 0 <= i < 5 :: g.groups[i].0 <= g.groups[i].1 && g.groups[i].1 >= 1)
            && (e.domain == Resolved ==>
                  && e.authoring.value.protectedPathsIntact && e.grader.Some?
                  && var g := e.grader.value;
                     && (g.buildRequired ==> g.buildPassed) && g.integrityBefore == g.integrityAfter
                     && g.receiptCount == (if g.buildRequired then 6 else 5)
                     && forall i | 0 <= i < 5 :: g.groups[i].0 == g.groups[i].1)
  {
    hide ManifestOk;
    MatchesExactlyOne(m, e.task);
  }

  /** Evidence bound to one manifest entry under one ticket repeats the same identity, grant and
      grading authority, whoever produced it. */
  lemma BoundEvidenceAgrees(m: Manifest, ticket: string, e: TaskEvidence, f: TaskEvidence)
    requires TaskBound(m, ticket, e) && TaskBound(m, ticket, f) && EvidenceId(e) == EvidenceId(f)
    ensures e.task == f.task && e.task in m.tasks
    ensures e.codingRunId == f.codingRunId && e.ticketId == f.ticketId == ticket && e.agentId == f.agentId
    ensures e.agentArtifact == f.agentArtifact && e.corpusRelease == f.corpusRelease
    ensures e.taskSetId == f.taskSetId && e.taskSetManifest == f.taskSetManifest
    ensures e.authoring.Some? && f.authoring.Some? ==>
              e.authoring.value.inferenceGrant == f.authoring.value.inferenceGrant
    ensures e.grader.Some? && f.grader.Some? ==>
            var g, h := e.grader.value, f.grader.value;
            && g.contract == h.contract && g.bundle == h.bundle && g.image == h.image && g.platform == h.platform
            && g.testManifest == h.testManifest && g.plan == h.plan && g.resourceProfile == h.resourceProfile
  {
    BoundIsInManifest(m, ticket, e);
  }

  // ---------------------------------------------------------------- the aggregate

  function Count(tasks: seq<TaskResult>, d: Domain): nat {
    if tasks == [] then 0 else Count(tasks[..|tasks| - 1], d) + (if tasks[|tasks| - 1].domain == d then 1 else 0)
  }

  function Scoreable(tasks: seq<TaskResult>): nat {
    Count(tasks, Resolved) + Count(tasks, RepairFailure) + Count(tasks, CandidateIntegrity)
  }

  /** The floored share of resolved tasks among the scoreable ones, in millionths. */
  function Mean(tasks: seq<TaskResult>): nat {
    if Scoreable(tasks) == 0 then 0 else RESOLVED_SCORE * Count(tasks, Resolved) / Scoreable(tasks)
  }

  predicate ScoresOk(tasks: seq<TaskResult>) {
    forall i | 0 <= i < |tasks| :: tasks[i].score == if tasks[i].domain == Resolved then RESOLVED_SCORE else 0
  }

  predicate CountsOk(r: Run) {
    && r.resolved == Count(r.tasks, Resolved) && r.repairFailure == Count(r.tasks, RepairFailure)
    && r.infrastructure == Count(r.tasks, ValidatorInfrastructure) && r.invalid == Count(r.tasks, TaskInvalid)
    && r.candidateIntegrity == Count(r.tasks, CandidateIntegrity)
    && r.controlPlane == Count(r.tasks, ControlPlaneIntegrity)
    && r.scoreable == Scoreable(r.tasks)
  }

  predicate AggregateOk(r: Run) {
    SortedUnique(Ids(r.tasks, ResultId)) && ScoresOk(r.tasks) && CountsOk(r) && r.meanMicros == Mean(r.tasks)
  }

  /** The positions of the results with a domain. */
  function Where(tasks: seq<TaskResult>, d: Domain): set<nat> {
    set i: nat | i < |tasks| && tasks[i].domain == d
  }

  lemma WhereLast(tasks: seq<TaskResult>, d: Domain)
    requires tasks != []
    ensures var n := |tasks| - 1;
            Where(tasks, d) == Where(tasks[..n], d) + (if tasks[n].domain == d then {n} else {})
            && n !in Where(tasks[..n], d)
  {
  }

  /** A count is the number of results with that domain. */
  lemma {:induction false} CountIsNumber(tasks: seq<TaskResult>, d: Domain)
    ensures Count(tasks, d) == |Where(tasks, d)|
  {
    if tasks != [] {
      CountIsNumber(tasks[..|tasks| - 1], d);
      WhereLast(tasks, d);
      hide Where;
    }
  }

  /** The six counts partition the results of a run, and the scoreable ones are those that neither
      infrastructure nor an invalid case nor the control plane spoiled. */
  lemma {:induction false} CountsPartition(tasks: seq<TaskResult>)
    ensures Scoreable(tasks) + Count(tasks, ValidatorInfrastructure) + Count(tasks, TaskInvalid)
          + Count(tasks, ControlPlaneIntegrity) == |tasks|
    ensures Count(tasks, Resolved) + Count(tasks, RepairFailure) + Count(tasks, ValidatorInfrastructure)
          + Count(tasks, TaskInvalid) + Count(tasks, CandidateIntegrity) + Count(tasks, ControlPlaneIntegrity)
          == |tasks|
  {
    if tasks != [] { CountsPartition(tasks[..|tasks| - 1]); }
  }

  lemma Floor(n: nat, d: nat)
    requires d > 0
    ensures n / d * d <= n < (n / d + 1) * d
  {
  }

  /** The mean is the share of resolved among scoreable results, rounded down to millionths; it is
      one million exactly when every scoreable result is resolved. */
  lemma MeanIsFloor(tasks: seq<TaskResult>)
    ensures Scoreable(tasks) == 0 ==> Mean(tasks) == 0
    ensures Mean(tasks) * Scoreable(tasks) <= 1_000_000 * Count(tasks, Resolved)
    ensures Scoreable(tasks) > 0 ==> 1_000_000 * Count(tasks, Resolved) < (Mean(tasks) + 1) * Scoreable(tasks)
    ensures Mean(tasks) <= 1_000_000
    ensures Scoreable(tasks) > 0 ==> (Mean(tasks) == 1_000_000 <==> Count(tasks, Resolved) == Scoreable(tasks))
  {
    var whole, part := Scoreable(tasks), Count(tasks, Resolved);
    if whole > 0 {
      Floor(RESOLVED_SCORE * part, whole);
      hide Count;
      ShareOf(part, whole, Mean(tasks));
    }
  }

  lemma ShareOf(part: nat, whole: nat, mean: nat)
    requires 0 < whole && part <= whole
    requires mean * whole <= RESOLVED_SCORE * part < (mean + 1) * whole
    ensures mean <= RESOLVED_SCORE && (mean == RESOLVED_SCORE <==> part == whole)
  {
    if mean > RESOLVED_SCORE {
      Scale(RESOLVED_SCORE + 1, mean, whole);
    } else if mean < RESOLVED_SCORE {
      Scale(mean + 1, RESOLVED_SCORE, whole);
    }
  }

  lemma Scale(a: nat, b: nat, w: nat)
    requires a <= b
    ensures a * w <= b * w
  {
  }

  lemma MeanOfSum(tasks: seq<TaskResult>, scoreSum: nat)
    requires scoreSum == RESOLVED_SCORE * Count(tasks, Resolved)
    ensures Mean(tasks) == if Scoreable(tasks) != 0 then scoreSum / Scoreable(tasks) else 0
  {
    hide Count;
  }

  lemma CountStep(tasks: seq<TaskResult>, i: nat)
    requires i < |tasks|
    ensures forall d :: Count(tasks[..i + 1], d) == Count(tasks[..i], d) + (if tasks[i].domain == d then 1 else 0)
  {
    assert tasks[..i + 1][..i] == tasks[..i];
  }

  /** The loop over `counts` and `score_sum`; None when a result has a score that its domain forbids. */
  method CountDomains(tasks: seq<TaskResult>) returns (tally: Option<(map<Domain, nat>, nat)>)
    ensures tally.Some? <==> ScoresOk(tasks)
    ensures tally.Some? ==>
              && (forall d: Domain :: d in tally.value.0 && tally.value.0[d] == Count(tasks, d))
              && tally.value.1 == RESOLVED_SCORE * Count(tasks, Resolved)
  {
    var counts: map<Domain, nat> := map[Resolved := 0, RepairFailure := 0, ValidatorInfrastructure := 0,
                                        TaskInvalid := 0, CandidateIntegrity := 0, ControlPlaneIntegrity := 0];
    var scoreSum: nat := 0;
    forall d: Domain ensures d in counts && counts[d] == Count(tasks[..0], d) {
      match d
      case Resolved =>
      case RepairFailure =>
      case ValidatorInfrastructure =>
      case TaskInvalid =>
      case CandidateIntegrity =>
      case ControlPlaneIntegrity =>
    }
    hide Count;
    var i := 0;
    while i < |tasks|
      invariant 0 <= i <= |tasks|
      invariant forall d :: d in counts && counts[d] == Count(tasks[..i], d)
      invariant ScoresOk(tasks[..i])
      invariant scoreSum == RESOLVED_SCORE * Count(tasks[..i], Resolved)
    {
      var task := tasks[i];
      CountStep(tasks, i);
      counts := counts[task.domain := counts[task.domain] + 1];
      if task.domain == Resolved {
        if task.score != RESOLVED_SCORE {
          return None;
        }
      } else if task.score != 0 {
        return None;
      }
      if task.domain !in {ValidatorInfrastructure, TaskInvalid, ControlPlaneIntegrity} {
        scoreSum := scoreSum + task.score;
      }
      i := i + 1;
    }
    assert tasks[..i] == tasks;
    return Some((counts, scoreSum));
  }

  /** `CodingRunEvidence.aggregate_is_coherent` */
  method AggregateIsCoherent(r: Run) returns (ok: bool)
    ensures ok <==> AggregateOk(r)
  {
    hide SortedUnique, Ids, Mean, Count, ScoresOk;
    if !SortedUnique(Ids(r.tasks, ResultId)) {
      return false;
    }
    var tally := CountDomains(r.tasks);
    if tally.None? {
      return false;
    }
    var (counts, scoreSum) := tally.value;
    var expected := counts[Resolved] + counts[RepairFailure] + counts[CandidateIntegrity];
    if || r.resolved != counts[Resolved] || r.repairFailure != counts[RepairFailure]
       || r.infrastructure != counts[ValidatorInfrastructure] || r.invalid != counts[TaskInvalid]
       || r.candidateIntegrity != counts[CandidateIntegrity] || r.controlPlane != counts[ControlPlaneIntegrity]
       || r.scoreable != expected
    {
      return false;
    }
    MeanOfSum(r.tasks, scoreSum);
    var mean := if expected != 0 then scoreSum / expected else 0;
    return r.meanMicros == mean;
  }

  // ---------------------------------------------------------------- replay against the manifest

  predicate DistinctIds(items: seq<TaskEvidence>) {
    forall i, j | 0 <= i < j < |items| :: EvidenceId(items[i]) != EvidenceId(items[j])
  }

  /** What the replay demands of the per-task evidence alone. */
  predicate TaskListOk(m: Manifest, ticket: string, items: seq<TaskEvidence>) {
    && |items| == |m.tasks| && DistinctIds(items)
    && forall i | 0 <= i < |items| :: TaskEvidenceOk(items[i]) && TaskBound(m, ticket, items[i])
  }

  /** The dict `by_identity` after the loop that fills it. */
  function ByIdentity(items: seq<TaskEvidence>): (d: map<Identity, TaskEvidence>)
    ensures forall id :: id in d <==> exists i :: 0 <= i < |items| && EvidenceId(items[i]) == id
  {
    if items == [] then map[]
    else ByIdentity(items[..|items| - 1])[EvidenceId(items[|items| - 1]) := items[|items| - 1]]
  }

  lemma {:induction false} ByIdentityFinds(items: seq<TaskEvidence>)
    requires DistinctIds(items)
    ensures forall i | 0 <= i < |items| :: ByIdentity(items)[EvidenceId(items[i])] == items[i]
  {
    if items != [] {
      var n := |items| - 1;
      ByIdentityFinds(items[..n]);
      forall i | 0 <= i < n ensures ByIdentity(items)[EvidenceId(items[i])] == items[i] {
        assert items[..n][i] == items[i];
      }
    }
  }

  // Pigeonhole: as many distinct identities as manifest tasks, all of them from the manifest.

  function IdSet(ids: seq<Identity>): set<Identity> { set i | 0 <= i < |ids| :: ids[i] }

  lemma IdSetLast(ids: seq<Identity>)
    requires ids != []
    ensures IdSet(ids) == IdSet(ids[..|ids| - 1]) + {ids[|ids| - 1]}
  {
    var n := |ids| - 1;
    forall x | x in IdSet(ids) ensures x in IdSet(ids[..n]) + {ids[n]} {
      var i :| 0 <= i < |ids| && ids[i] == x;
      assert i < n ==> ids[..n][i] == x;
    }
  }

  predicate Repeats(ids: seq<Identity>) {
    exists i, j | 0 <= i < j < |ids| :: ids[i] == ids[j]
  }

  lemma {:induction false} IdSetSize(ids: seq<Identity>)
    ensures |IdSet(ids)| <= |ids|
    ensures !Repeats(ids) ==> |IdSet(ids)| == |ids|
  {
    if ids != [] {
      var n := |ids| - 1;
      IdSetSize(ids[..n]);
      IdSetLast(ids);
      if !Repeats(ids) {
        assert !Repeats(ids[..n]) by { assert forall i | 0 <= i < n :: ids[..n][i] == ids[i]; }
        assert ids[n] !in IdSet(ids[..n]);
      }
    }
  }

  lemma SubsetOfSameSize(a: set<Identity>, b: set<Identity>)
    requires a <= b && |a| >= |b|
    ensures a == b
  {
    if x :| x in b && x !in a {
      SubsetSize(a, b - {x});
    }
  }

  lemma {:induction false} SubsetSize(a: set<Identity>, b: set<Identity>)
    requires a <= b
    ensures |a| <= |b|
  {
    if x :| x in a {
      SubsetSize(a - {x}, b - {x});
    }
  }

  /** Accepted task evidence covers the manifest: the lookup of a manifest task always finds
      evidence, and it is the evidence of exactly that task. */
  lemma EvidenceCoversManifest(m: Manifest, ticket: string, items: seq<TaskEvidence>)
    requires ManifestOk(m) && TaskListOk(m, ticket, items)
    ensures forall k | 0 <= k < |m.tasks| ::
              TaskId(m.tasks[k]) in ByIdentity(items)
              && ByIdentity(items)[TaskId(m.tasks[k])].task == m.tasks[k]
              && ByIdentity(items)[TaskId(m.tasks[k])] in items
  {
    hide LexLe, TaskEvidenceOk;
    var have, want := Ids(items, EvidenceId), Ids(m.tasks, TaskId);
    IdSetSize(have);
    IdSetSize(want);
    ByIdentityFinds(items);
    forall id | id in IdSet(have) ensures id in IdSet(want) {
      var i :| 0 <= i < |have| && have[i] == id;
      BoundIsInManifest(m, ticket, items[i]);
      var k :| 0 <= k < |m.tasks| && m.tasks[k] == items[i].task;
      assert want[k] == id;
    }
    SubsetOfSameSize(IdSet(have), IdSet(want));
    forall k | 0 <= k < |m.tasks|
      ensures TaskId(m.tasks[k]) in ByIdentity(items)
              && ByIdentity(items)[TaskId(m.tasks[k])].task == m.tasks[k]
              && ByIdentity(items)[TaskId(m.tasks[k])] in items
    {
      assert want[k] in IdSet(have);
      var i :| 0 <= i < |have| && have[i] == want[k];
      BoundIsInManifest(m, ticket, items[i]);
      SameIdSameTask(m, items[i].task, m.tasks[k]);
    }
  }

  lemma SameIdSameTask(m: Manifest, a: ManifestTask, b: ManifestTask)
    requires ManifestOk(m) && a in m.tasks && b in m.tasks && TaskId(a) == TaskId(b)
    ensures a == b
  {
  }

  // ---------------------------------------------------------------- the one acceptable run

  datatype Digests = Digests(manifest: Manifest -> string, task: TaskEvidence -> string)

  function ResultOf(dg: Digests, e: TaskEvidence): TaskResult {
    TaskResult(e.task.caseId, e.task.variantId, dg.task(e), e.domain, e.score)
  }

  /** Results in manifest order, looked up by identity. */
  function ResultsFor(dg: Digests, m: Manifest, items: seq<TaskEvidence>): (rs: seq<TaskResult>)
    requires forall k | 0 <= k < |m.tasks| :: TaskId(m.tasks[k]) in ByIdentity(items)
    ensures |rs| == |m.tasks|
            && forall k | 0 <= k < |rs| :: rs[k] == ResultOf(dg, ByIdentity(items)[TaskId(m.tasks[k])])
  {
    seq(|m.tasks|, k requires 0 <= k < |m.tasks| => ResultOf(dg, ByIdentity(items)[TaskId(m.tasks[k])]))
  }

  function RunOf(dg: Digests, m: Manifest, ticket: string, rs: seq<TaskResult>): Run {
    Run(m.codingRunId, ticket, dg.manifest(m), m.taskSetManifest, rs,
        Count(rs, Resolved), Count(rs, RepairFailure), Count(rs, ValidatorInfrastructure), Count(rs, TaskInvalid),
        Count(rs, CandidateIntegrity), Count(rs, ControlPlaneIntegrity), Scoreable(rs), Mean(rs))
  }

  /** The run that a manifest, a ticket and their per-task evidence determine. */
  ghost predicate IsTheRun(dg: Digests, m: Manifest, ticket: string, items: seq<TaskEvidence>, r: Run) {
    && ManifestOk(m) && TaskListOk(m, ticket, items)
    && (forall k | 0 <= k < |m.tasks| :: TaskId(m.tasks[k]) in ByIdentity(items))
    && r == RunOf(dg, m, ticket, ResultsFor(dg, m, items))
  }

  datatype Verdict = Accept | InvalidInput | IdentityDiffers | ManifestDigestDiffers | TaskSetDiffers
                   | CardinalityDiffers | TaskRefused | DuplicateIdentity | OrderDiffers
                   | MissingEvidence | ResultDiffers

  predicate HeaderOk(dg: Digests, m: Manifest, ticket: string, r: Run) {
    && r.codingRunId == m.codingRunId && r.ticketId == ticket
    && r.manifestSha == dg.manifest(m) && r.taskSetManifest == m.taskSetManifest
  }

  /** The second loop's demand on one position. */
  predicate ResultMatches(dg: Digests, m: Manifest, items: seq<TaskEvidence>, r: Run, k: nat)
    requires k < |r.tasks| && k < |m.tasks|
  {
    && ResultId(r.tasks[k]) == TaskId(m.tasks[k])
    && TaskId(m.tasks[k]) in ByIdentity(items)
    && var e := ByIdentity(items)[TaskId(m.tasks[k])];
       r.tasks[k].evidenceSha == dg.task(e) && r.tasks[k].domain == e.domain && r.tasks[k].score == e.score
  }

  /** What the replay accepts, check by check. */
  predicate Replayed(dg: Digests, m: Manifest, ticket: string, r: Run, items: seq<TaskEvidence>) {
    && ManifestOk(m) && AggregateOk(r) && HeaderOk(dg, m, ticket, r)
    && |r.tasks| == |m.tasks| && TaskListOk(m, ticket, items)
    && forall k | 0 <= k < |r.tasks| :: ResultMatches(dg, m, items, r, k)
  }

  /** The loop that binds every task evidence and fills `by_identity`. */
  method BindTasks(m: Manifest, ticket: string, items: seq<TaskEvidence>)
    returns (v: Verdict, byIdentity: map<Identity, TaskEvidence>)
    ensures v == Accept <==> DistinctIds(items) && forall i | 0 <= i < |items| :: TaskBound(m, ticket, items[i])
    ensures v == Accept ==> byIdentity == ByIdentity(items)
    ensures v in {Accept, TaskRefused, DuplicateIdentity}
  {
    hide TaskBound, ByIdentity;
    byIdentity := map[];
    var i := 0;
    assert byIdentity == ByIdentity(items[..0]) by { NothingByIdentity(items); }
    while i < |items|
      invariant 0 <= i <= |items|
      invariant byIdentity == ByIdentity(items[..i]) && DistinctIds(items[..i])
      invariant forall j | 0 <= j < i :: TaskBound(m, ticket, items[j])
    {
      ByIdentityStep(items, i);
      if !TaskBound(m, ticket, items[i]) {
        return TaskRefused, byIdentity;
      }
      if EvidenceId(items[i]) in byIdentity {
        return DuplicateIdentity, byIdentity;
      }
      byIdentity := byIdentity[EvidenceId(items[i]) := items[i]];
      i := i + 1;
    }
    assert items[..i] == items;
    return Accept, byIdentity;
  }

  /** The loop that compares results, manifest and evidence position by position. */
  method CompareResults(dg: Digests, m: Manifest, items: seq<TaskEvidence>, r: Run,
                        byIdentity: map<Identity, TaskEvidence>) returns (v: Verdict)
    requires |r.tasks| == |m.tasks| && byIdentity == ByIdentity(items)
    requires forall k | 0 <= k < |m.tasks| :: TaskId(m.tasks[k]) in byIdentity
    ensures v == Accept <==> forall k | 0 <= k < |r.tasks| :: ResultMatches(dg, m, items, r, k)
    ensures v in {Accept, OrderDiffers, ResultDiffers}
  {
    hide ByIdentity;
    var k := 0;
    while k < |r.tasks|
      invariant 0 <= k <= |r.tasks|
      invariant forall j | 0 <= j < k :: ResultMatches(dg, m, items, r, j)
    {
      var result, selected := r.tasks[k], m.tasks[k];
      if ResultId(result) != TaskId(selected) {
        assert !ResultMatches(dg, m, items, r, k);
        return OrderDiffers;
      }
      if ResultId(result) !in byIdentity {
        return MissingEvidence;
      }
      var matched := byIdentity[ResultId(result)];
      if result.evidenceSha != dg.task(matched) || result.domain != matched.domain || result.score != matched.score {
        assert !ResultMatches(dg, m, items, r, k);
        return ResultDiffers;
      }
      k := k + 1;
    }
    return Accept;
  }

  /** `validate_run_evidence_against_manifest`, with the missing-evidence branch told apart:
      it is never taken. */
  method ValidateRunEvidence(dg: Digests, m: Manifest, ticket: string, r: Run, items: seq<TaskEvidence>)
    returns (v: Verdict)
    ensures v == Accept <==> Replayed(dg, m, ticket, r, items)
    ensures v != MissingEvidence
  {
    hide ManifestOk, AggregateOk, TaskBound, TaskEvidenceOk, ByIdentity, ResultMatches;
    var aggregateOk := AggregateIsCoherent(r);
    if !ManifestOk(m) || !aggregateOk || exists i | 0 <= i < |items| :: !TaskEvidenceOk(items[i]) {
      return InvalidInput;
    }
    if r.codingRunId != m.codingRunId || r.ticketId != ticket {
      return IdentityDiffers;
    }
    if r.manifestSha != dg.manifest(m) {
      return ManifestDigestDiffers;
    }
    if r.taskSetManifest != m.taskSetManifest {
      return TaskSetDiffers;
    }
    if |r.tasks| != |m.tasks| || |items| != |m.tasks| {
      return CardinalityDiffers;
    }
    var byIdentity;
    v, byIdentity := BindTasks(m, ticket, items);
    if v != Accept {
      return;
    }
    EvidenceCoversManifest(m, ticket, items);
    v := CompareResults(dg, m, items, r, byIdentity);
  }

  lemma NothingByIdentity(items: seq<TaskEvidence>)
    ensures ByIdentity(items[..0]) == map[]
  {
  }

  lemma ByIdentityStep(items: seq<TaskEvidence>, i: nat)
    requires i < |items| && DistinctIds(items[..i])
    ensures ByIdentity(items[..i + 1]) == ByIdentity(items[..i])[EvidenceId(items[i]) := items[i]]
    ensures EvidenceId(items[i]) in ByIdentity(items[..i]) ==> !DistinctIds(items)
    ensures EvidenceId(items[i]) !in ByIdentity(items[..i]) ==> DistinctIds(items[..i + 1])
  {
    var a, b := items[..i], items[..i + 1];
    assert b[..i] == a;
    assert forall j | 0 <= j < i :: a[j] == items[j];
  }

  lemma ScoreOf(e: TaskEvidence)
    requires TaskEvidenceOk(e)
    ensures e.score == if e.domain == Resolved then RESOLVED_SCORE else 0
  {
  }

  /** Exactly one run evidence is accepted for a manifest, a ticket and their task evidence. */
  lemma AcceptedRunIsDetermined(dg: Digests, m: Manifest, ticket: string, r: Run, items: seq<TaskEvidence>)
    ensures Replayed(dg, m, ticket, r, items) <==> IsTheRun(dg, m, ticket, items, r)
  {
    hide LexLe, TaskBound, ByIdentity, TaskEvidenceOk, Count;
    if ManifestOk(m) && TaskListOk(m, ticket, items) {
      EvidenceCoversManifest(m, ticket, items);
      var rs := ResultsFor(dg, m, items);
      if Replayed(dg, m, ticket, r, items) {
        forall k | 0 <= k < |rs| ensures r.tasks[k] == rs[k] {
          assert ResultMatches(dg, m, items, r, k);
        }
        assert r.tasks == rs;
      }
      if r == RunOf(dg, m, ticket, rs) {
        assert Ids(r.tasks, ResultId) == Ids(m.tasks, TaskId);
        forall k | 0 <= k < |rs| ensures rs[k].score == if rs[k].domain == Resolved then RESOLVED_SCORE else 0 {
          var e := ByIdentity(items)[TaskId(m.tasks[k])];
          assert e in items && TaskEvidenceOk(e);
          ScoreOf(e);
        }
      }
    }
  }

  /** Every positive score of an accepted run was earned: the evidence it names shows an intact
      repair with all tests of all five groups passed. */
  lemma ScoreIsEarned(dg: Digests, m: Manifest, ticket: string, r: Run, items: seq<TaskEvidence>, k: nat)
    returns (e: TaskEvidence)
    requires Replayed(dg, m, ticket, r, items) && k < |r.tasks| && r.tasks[k].score > 0
    ensures e in items && e.task == m.tasks[k] && e.ticketId == ticket && e.agentId == m.agentId
    ensures (r.tasks[k].caseId, r.tasks[k].variantId) == (e.task.caseId, e.task.variantId)
    ensures r.tasks[k].evidenceSha == dg.task(e) && r.tasks[k].score == e.score == 1_000_000
    ensures e.authoring.Some? && e.authoring.value.protectedPathsIntact && e.grader.Some?
    ensures var g := e.grader.value;
            && (g.buildRequired ==> g.buildPassed) && g.integrityBefore == g.integrityAfter
            && g.receiptCount == (if g.buildRequired then 6 else 5)
            && |g.groups| == 5 && forall i | 0 <= i < 5 :: g.groups[i].0 == g.groups[i].1 >= 1
  {
    hide ByIdentity, TaskEvidenceOk, TaskBound, ManifestOk, AggregateOk;
    EvidenceCoversManifest(m, ticket, items);
    assert ResultMatches(dg, m, items, r, k);
    e := ByIdentity(items)[TaskId(m.tasks[k])];
    assert TaskEvidenceOk(e) && TaskBound(m, ticket, e);
    TaskAcceptedIff(m, ticket, e);
  }

  lemma AtMostOneRun(dg: Digests, m: Manifest, ticket: string, items: seq<TaskEvidence>, r: Run, s: Run)
    requires Replayed(dg, m, ticket, r, items) && Replayed(dg, m, ticket, s, items)
    ensures r == s
  {
    AcceptedRunIsDetermined(dg, m, ticket, r, items);
    AcceptedRunIsDetermined(dg, m, ticket, s, items);
  }

  /** The order in which per-task evidence is given does not matter. */
  lemma AcceptanceIgnoresOrder(dg: Digests, m: Manifest, ticket: string, r: Run,
                               items: seq<TaskEvidence>, others: seq<TaskEvidence>)
    requires multiset(items) == multiset(others) && Replayed(dg, m, ticket, r, items)
    ensures Replayed(dg, m, ticket, r, others)
  {
    hide TaskBound, TaskEvidenceOk, ManifestOk, AggregateOk, ByIdentity;
    PermutedOk(m, ticket, items, others);
    SameDict(items, others);
    forall k | 0 <= k < |r.tasks| ensures ResultMatches(dg, m, others, r, k) {
      assert ResultMatches(dg, m, items, r, k);
    }
  }

  lemma PermutedOk(m: Manifest, ticket: string, items: seq<TaskEvidence>, others: seq<TaskEvidence>)
    requires multiset(items) == multiset(others) && TaskListOk(m, ticket, items)
    ensures TaskListOk(m, ticket, others)
  {
    hide TaskBound, TaskEvidenceOk;
    assert |items| == |multiset(items)| == |multiset(others)| == |others|;
    forall i | 0 <= i < |others| ensures TaskEvidenceOk(others[i]) && TaskBound(m, ticket, others[i]) {
      assert others[i] in multiset(others);
      assert others[i] in items;
    }
    forall i, j | 0 <= i < j < |others| ensures EvidenceId(others[i]) != EvidenceId(others[j]) {
      PermutedDistinct(items, others, i, j);
    }
  }

  lemma OccursOnce(items: seq<TaskEvidence>, a: TaskEvidence)
    requires DistinctIds(items) && a in items
    ensures multiset(items)[a] == 1
  {
    var k :| 0 <= k < |items| && items[k] == a;
    assert items == items[..k] + [a] + items[k + 1..];
    assert a !in items[..k] && a !in items[k + 1..];
  }

  lemma OccursTwice(others: seq<TaskEvidence>, i: nat, j: nat)
    requires i < j < |others| && others[i] == others[j]
    ensures multiset(others)[others[i]] >= 2
  {
    var a := others[i];
    assert others == others[..j] + others[j..];
    assert a in others[..j] && a in others[j..] by { assert others[..j][i] == a && others[j..][0] == a; }
    assert multiset(others) == multiset(others[..j]) + multiset(others[j..]);
  }

  lemma PermutedDistinct(items: seq<TaskEvidence>, others: seq<TaskEvidence>, i: nat, j: nat)
    requires multiset(items) == multiset(others) && DistinctIds(items) && i < j < |others|
    ensures EvidenceId(others[i]) != EvidenceId(others[j])
  {
    var a, b := others[i], others[j];
    assert a in multiset(others) && b in multiset(others);
    assert a in items && b in items;
    OccursOnce(items, a);
    assert a != b by {
      if a == b { OccursTwice(others, i, j); }
    }
    var k :| 0 <= k < |items| && items[k] == a;
    var l :| 0 <= l < |items| && items[l] == b;
  }

  lemma DictWithin(items: seq<TaskEvidence>, others: seq<TaskEvidence>)
    requires multiset(items) == multiset(others) && DistinctIds(items) && DistinctIds(others)
    ensures forall id | id in ByIdentity(items) ::
              id in ByIdentity(others) && ByIdentity(items)[id] == ByIdentity(others)[id]
  {
    hide ByIdentity, DistinctIds;
    ByIdentityFinds(items);
    ByIdentityFinds(others);
    forall id | id in ByIdentity(items)
      ensures id in ByIdentity(others) && ByIdentity(items)[id] == ByIdentity(others)[id]
    {
      var i :| 0 <= i < |items| && EvidenceId(items[i]) == id;
      assert items[i] in multiset(items) && items[i] in others;
    }
  }

  lemma SameDict(items: seq<TaskEvidence>, others: seq<TaskEvidence>)
    requires multiset(items) == multiset(others) && DistinctIds(items) && DistinctIds(others)
    ensures ByIdentity(items) == ByIdentity(others)
  {
    hide ByIdentity, DistinctIds;
    DictWithin(items, others);
    DictWithin(others, items);
  }
}
