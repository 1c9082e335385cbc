/** The rows the promotion services read and write, and the row-level guards that
    come before any Git command. */
module Session {
  import opened Prelude
  import opened Git
  import opened Acceptance

  type Id = string

  datatype Authority = L0 | L1 | L2 | L3 | UnknownAuthority

  datatype WorkflowState =
    | ObjectiveAccepted | Planning | PlanReady | Implementing | Verifying | CheckpointReviewRequired
    | Paused | ResumeValidation | Blocked | ApprovedToContinue | CompletedPendingIntegration | Closed

  datatype Workflow = Workflow(
    state: WorkflowState, projectId: Id, taskId: Option<Id>, planId: Option<Id>, freezeId: Option<Id>,
    repositoryId: Option<Id>, worktree: Loc, authorityTier: Authority, activeTask: Option<Id>, history: seq<Reason>)

  datatype Task = Task(projectId: Id, authority: Authority, complexity: string)

  datatype Plan = Plan(
    taskId: Id, projectId: Id, contractId: Id, contractVersion: nat, requiredAuthority: Authority, risk: string)

  /** `affected` is None when the frozen payload holds no list; an item is None when it is
      not an object with a valid relative path. */
  datatype Freeze = Freeze(
    taskId: Id, planId: Id, projectId: Id, commitSha: Option<Sha>,
    affected: Option<seq<Option<Path>>>, checks: Option<seq<Check>>)

  datatype Contract = Contract(taskId: Id, version: nat, allowsCommit: bool, authority: Authority)

  datatype Repository = Repository(location: Loc, canonicalMode: bool)

  /** A persisted controlled commit; the service only ever stores status COMPLETED. */
  datatype CommitRecord = CommitRecord(
    workflowId: Id, freezeId: Id, repositoryId: Id, baseline: Sha, resulting: Sha,
    authorized: set<Path>, changed: set<Path>, hashes: Tree, message: string)

  datatype Db = Db(
    workflows: map<Id, Workflow>, tasks: map<Id, Task>, plans: map<Id, Plan>, freezes: map<Id, Freeze>,
    contracts: map<Id, Contract>, repositories: map<Id, Repository>, attachments: set<(Id, Id)>,
    records: seq<CommitRecord>)

  /** The database session shared by the services. */
  class Store {
    var db: Db

    constructor (db: Db)
      ensures this.db == db
    {
      this.db := db;
    }
  }

  function Find<T>(rows: map<Id, T>, id: Option<Id>): Option<T> {
    if id.Some? && id.value in rows then Some(rows[id.value]) else None
  }

  function Rank(a: Authority, unknown: int): int {
    match a
    case L0 => 0
    case L1 => 1
    case L2 => 2
    case L3 => 3
    case UnknownAuthority => unknown
  }

  /** The frozen write authorization: malformed lists and empty lists are refused. */
  function Authorized(raw: Option<seq<Option<Path>>>): Result<set<Path>> {
    if raw.None? || None in raw.value then Fail(InvalidFrozenAffectedFiles)
    else if raw.value == [] then Fail(EmptyFrozenAffectedFiles)
    else Ok(set k | 0 <= k < |raw.value| :: raw.value[k].value)
  }

  predicate Distinct<T(==)>(s: seq<T>) {
    forall i, j :: 0 <= i < j < |s| ==> s[i] != s[j]
  }

  /** Among the first `n` items, `p` is mentioned before any mention of `q`. */
  predicate MentionedBefore(items: seq<Option<Path>>, n: nat, p: Path, q: Path)
    requires n <= |items|
  {
    exists a :: 0 <= a < n && items[a] == Some(p) && Some(q) !in items[..a + 1]
  }

  /** The list form: each path once, in the order of its first mention. */
  method AuthorizedPaths(raw: Option<seq<Option<Path>>>) returns (r: Result<seq<Path>>)
    ensures r.Ok? <==> Authorized(raw).Ok?
    ensures r.Fail? ==> r.reason == Authorized(raw).reason
    ensures r.Ok? ==> Distinct(r.value) && (set p | p in r.value) == Authorized(raw).value
    ensures r.Ok? ==> forall i, j :: 0 <= i < j < |r.value| ==>
      MentionedBefore(raw.value, |raw.value|, r.value[i], r.value[j])
  {
    if raw.None? {
      return Fail(InvalidFrozenAffectedFiles);
    }
    var items := raw.value;
    var paths: seq<Path> := [];
    var seen: set<Path> := {};
    for k := 0 to |items|
      invariant None !in items[..k]
      invariant Distinct(paths) && seen == set p | p in paths
      invariant forall p :: p in paths <==> Some(p) in items[..k]
      invariant paths == [] <==> k == 0
      invariant forall i, j :: 0 <= i < j < |paths| ==> MentionedBefore(items, k, paths[i], paths[j])
    {
      assert items[..k + 1] == items[..k] + [items[k]];
      match items[k] {
        case None =>
          assert None in items;
          return Fail(InvalidFrozenAffectedFiles);
        case Some(path) =>
          if path !in seen {
            ghost var before := paths;
            forall i | 0 <= i < |before|
              ensures MentionedBefore(items, k + 1, before[i], path)
            {
              assert before[i] in paths;
              var a :| 0 <= a < k && items[a] == Some(before[i]);
              assert forall x :: x in items[..a + 1] ==> x in items[..k];
              assert Some(path) !in items[..a + 1];
            }
            seen := seen + {path};
            paths := paths + [path];
          }
      }
    }
    assert items[..|items|] == items;
    if paths == [] {
      return Fail(EmptyFrozenAffectedFiles);
    }
    forall p
      ensures p in paths <==> p in Authorized(raw).value
    {
      if p in paths {
        var a :| 0 <= a < |items| && items[a] == Some(p);
        assert raw.value[a].value == p;
      }
      if p in Authorized(raw).value {
        assert forall k :: 0 <= k < |items| ==> items[k] != None;
        var k :| 0 <= k < |items| && raw.value[k].value == p;
        assert items[k] == Some(p);
      }
    }
    assert (set p | p in paths) == Authorized(raw).value;
    return Ok(paths);
  }

  /** The frozen acceptance checks, usable for the frozen authorization. */
  function FrozenChecks(freeze: Freeze, authorized: set<Path>): Result<seq<Check>> {
    var checks := freeze.checks;
    :- Need(checks.Some? && checks.value != [], FrozenDeterministicAcceptanceRequired);
    :- Need(Normalized(checks.value, authorized), InvalidFrozenDeterministicAcceptanceChecks);
    Ok(checks.value)
  }

  /** The rows one promotion works with. */
  datatype Rows = Rows(workflowId: Id, workflow: Workflow, taskId: Id, task: Task, plan: Plan, freezeId: Id, freeze: Freeze)

  datatype Target = Target(repositoryId: Id, repository: Repository)

  /** The relationship checks common to both promotion steps. */
  function RelatedRows(db: Db, workflowId: Id, required: WorkflowState, notReady: Reason): Result<Rows> {
    var known := workflowId in db.workflows;
    :- Need(known, WorkflowNotFound);
    var workflow := db.workflows[workflowId];
    :- Need(workflow.state == required, notReady);
    var task, plan, freeze := Find(db.tasks, workflow.taskId), Find(db.plans, workflow.planId), Find(db.freezes, workflow.freezeId);
    :- Need(task.Some? && task.value.projectId == workflow.projectId, WorkflowTaskRelationshipInvalid);
    :- Need(plan.Some? && freeze.Some?, FrozenPlanRequired);
    :- Need(plan.value.taskId == workflow.taskId.value && freeze.value.taskId == workflow.taskId.value &&
            freeze.value.planId == workflow.planId.value, FrozenPlanRelationshipInvalid);
    :- Need(plan.value.projectId == workflow.projectId && freeze.value.projectId == workflow.projectId,
            FrozenPlanProjectMismatch);
    Ok(Rows(workflowId, workflow, workflow.taskId.value, task.value, plan.value, workflow.freezeId.value, freeze.value))
  }

  /** The repository must be registered for integration, attached to the project and be the one named. */
  function TargetRepository(db: Db, workflow: Workflow, root: Loc): Result<Target> {
    var repository := Find(db.repositories, workflow.repositoryId);
    :- Need(repository.Some?, RepositoryRequired);
    :- Need(repository.value.canonicalMode, RepositoryAccessModeNotCanonicalIntegration);
    :- Need((workflow.projectId, workflow.repositoryId.value) in db.attachments, RepositoryNotAttachedToProject);
    :- Need(root == repository.value.location, CanonicalRepositoryPathMismatch);
    Ok(Target(workflow.repositoryId.value, repository.value))
  }

  function BaselineAgreed(freeze: Freeze, expected: Sha): Guard {
    if freeze.commitSha.None? then Stop(FrozenBaselineCommitRequired)
    else Need(freeze.commitSha.value == expected, RequestBaselineDoesNotMatchFreeze)
  }

  // ----- what the guards admit, in terms of the rows alone -----

  /** The workflow, its task, plan and freeze are there, belong to one project and name each other. */
  predicate PlanInOrder(db: Db, workflowId: Id) {
    && workflowId in db.workflows
    && var workflow := db.workflows[workflowId];
       && workflow.taskId.Some? && workflow.taskId.value in db.tasks
       && workflow.planId.Some? && workflow.planId.value in db.plans
       && workflow.freezeId.Some? && workflow.freezeId.value in db.freezes
       && var plan, freeze := db.plans[workflow.planId.value], db.freezes[workflow.freezeId.value];
          && workflow.projectId == db.tasks[workflow.taskId.value].projectId == plan.projectId == freeze.projectId
          && workflow.taskId == Some(plan.taskId) && plan.taskId == freeze.taskId && workflow.planId == Some(freeze.planId)
  }

  /** The workflow's repository is there, in canonical mode, attached to the project, and located at `root`. */
  predicate PlaceInOrder(db: Db, workflow: Workflow, root: Loc) {
    && workflow.repositoryId.Some? && workflow.repositoryId.value in db.repositories
    && db.repositories[workflow.repositoryId.value] == Repository(root, true)
    && (workflow.projectId, workflow.repositoryId.value) in db.attachments
  }

  lemma RelatedRowsExactly(db: Db, workflowId: Id, required: WorkflowState, notReady: Reason)
    ensures var rows := RelatedRows(db, workflowId, required, notReady);
      && (rows.Ok? <==> PlanInOrder(db, workflowId) && db.workflows[workflowId].state == required)
      && (rows.Ok? ==>
            var workflow := db.workflows[workflowId];
            rows.value == Rows(workflowId, workflow, workflow.taskId.value, db.tasks[workflow.taskId.value],
                               db.plans[workflow.planId.value], workflow.freezeId.value, db.freezes[workflow.freezeId.value]))
  {
  }

  lemma TargetExactly(db: Db, workflow: Workflow, root: Loc)
    ensures var target := TargetRepository(db, workflow, root);
      && (target.Ok? <==> PlaceInOrder(db, workflow, root))
      && (target.Ok? ==> target.value == Target(workflow.repositoryId.value, Repository(root, true)))
  {
  }

  predicate Planned(db: Db, workflow: Workflow) {
    workflow.planId.Some? && workflow.planId.value in db.plans && workflow.freezeId.Some? && workflow.freezeId.value in db.freezes
  }

  /** What a refusal for the workflow's relations says of the rows. */
  predicate PlanRefused(db: Db, workflowId: Id, reason: Reason) {
    if workflowId !in db.workflows then reason == WorkflowNotFound
    else
      var workflow := db.workflows[workflowId];
      || (reason == WorkflowTaskRelationshipInvalid &&
          !(workflow.taskId.Some? && workflow.taskId.value in db.tasks && db.tasks[workflow.taskId.value].projectId == workflow.projectId))
      || (reason == FrozenPlanRequired && !Planned(db, workflow))
      || (reason == FrozenPlanRelationshipInvalid && Planned(db, workflow) &&
          (|| workflow.taskId != Some(db.plans[workflow.planId.value].taskId) || workflow.taskId != Some(db.freezes[workflow.freezeId.value].taskId)
           || workflow.planId != Some(db.freezes[workflow.freezeId.value].planId)))
      || (reason == FrozenPlanProjectMismatch && Planned(db, workflow) &&
          (db.plans[workflow.planId.value].projectId != workflow.projectId || db.freezes[workflow.freezeId.value].projectId != workflow.projectId))
  }

  /** What a refusal for the workflow's repository says of the rows. */
  predicate PlaceRefused(db: Db, workflow: Workflow, root: Loc, reason: Reason) {
    if !(workflow.repositoryId.Some? && workflow.repositoryId.value in db.repositories) then reason == RepositoryRequired
    else
      || (reason == RepositoryAccessModeNotCanonicalIntegration && !db.repositories[workflow.repositoryId.value].canonicalMode)
      || (reason == RepositoryNotAttachedToProject && (workflow.projectId, workflow.repositoryId.value) !in db.attachments)
      || (reason == CanonicalRepositoryPathMismatch && root != db.repositories[workflow.repositoryId.value].location)
  }

  /** What a refusal for the baseline says of the frozen plan. */
  predicate BaselineRefused(freeze: Freeze, expected: Sha, reason: Reason) {
    || (reason == FrozenBaselineCommitRequired && freeze.commitSha == None)
    || (reason == RequestBaselineDoesNotMatchFreeze && freeze.commitSha.Some? && freeze.commitSha != Some(expected))
  }

  lemma RefusalTells(db: Db, workflowId: Id, required: WorkflowState, notReady: Reason)
    ensures var rows := RelatedRows(db, workflowId, required, notReady);
      rows.Fail? ==>
        PlanRefused(db, workflowId, rows.reason) ||
        (rows.reason == notReady && workflowId in db.workflows && db.workflows[workflowId].state != required)
  {
  }

  lemma PlaceRefusalTells(db: Db, workflow: Workflow, root: Loc)
    ensures TargetRepository(db, workflow, root).Fail? ==> PlaceRefused(db, workflow, root, TargetRepository(db, workflow, root).reason)
  {
  }

  /** The frozen payload lists paths and different checks, and every file check is on a listed path. */
  predicate UsableLists(freeze: Freeze) {
    && freeze.affected.Some? && freeze.affected.value != [] && None !in freeze.affected.value
    && freeze.checks.Some? && freeze.checks.value != [] && Distinct(freeze.checks.value)
    && forall check :: check in freeze.checks.value && !check.CommandSucceeds? ==> Some(check.path) in freeze.affected.value
  }

  function Listed(raw: seq<Option<Path>>): set<Path> {
    set x | x in raw && x.Some? :: x.value
  }

  lemma CheckedExactly(checks: seq<Check>)
    ensures forall p :: p in CheckedPaths(checks) <==> exists check :: check in checks && !check.CommandSucceeds? && check.path == p
  {
    forall check | check in checks && !check.CommandSucceeds?
      ensures check.path in CheckedPaths(checks)
    {
      var k :| 0 <= k < |checks| && checks[k] == check;
      assert checks[k].path in CheckedPaths(checks);
    }
  }

  lemma AuthorizedExactly(raw: Option<seq<Option<Path>>>)
    ensures Authorized(raw).Ok? <==> raw.Some? && raw.value != [] && None !in raw.value
    ensures Authorized(raw).Ok? ==> forall p :: p in Authorized(raw).value <==> Some(p) in raw.value
  {
    if Authorized(raw).Ok? {
      forall p
        ensures p in Authorized(raw).value <==> Some(p) in raw.value
      {
        if p in Authorized(raw).value {
          var k :| 0 <= k < |raw.value| && raw.value[k].value == p;
          assert raw.value[k] != None;
        }
        if Some(p) in raw.value {
          var k :| 0 <= k < |raw.value| && raw.value[k] == Some(p);
          assert raw.value[k].value == p;
        }
      }
    }
  }

  /** Exactly which frozen payloads the services work with, and that they take the lists as they are. */
  lemma FrozenListsExactly(freeze: Freeze)
    ensures Authorized(freeze.affected).Ok? && FrozenChecks(freeze, Authorized(freeze.affected).value).Ok? <==> UsableLists(freeze)
    ensures UsableLists(freeze) ==>
      && Authorized(freeze.affected) == Ok(Listed(freeze.affected.value))
      && FrozenChecks(freeze, Listed(freeze.affected.value)) == Ok(freeze.checks.value)
  {
    AuthorizedExactly(freeze.affected);
    if Authorized(freeze.affected).Ok? {
      assert Authorized(freeze.affected).value == Listed(freeze.affected.value);
      if freeze.checks.Some? {
        CheckedExactly(freeze.checks.value);
      }
    }
  }

  /** What a refusal for the frozen lists says. */
  predicate ListsRefused(freeze: Freeze, reason: Reason) {
    || (reason == InvalidFrozenAffectedFiles && (freeze.affected.None? || None in freeze.affected.value))
    || (reason == EmptyFrozenAffectedFiles && freeze.affected == Some([]))
    || (reason == FrozenDeterministicAcceptanceRequired && (freeze.checks.None? || freeze.checks == Some([])))
    || (reason == InvalidFrozenDeterministicAcceptanceChecks && !UsableLists(freeze))
  }
}
