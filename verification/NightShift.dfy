/** The night shift supervisor: a bounded loop over runtime, L1 and L2 that continues only after a
    completed promotion or a failure it has proved contained. */
module NightShift {
  import opened Prelude
  import opened Git
  import opened Disk
  import opened Session
  import opened Promotion
  import opened History
  import opened Containment
  import Text
  import L1 = Integration
  import L2 = ControlledCommit

  datatype RuntimeStatus = RuntimeCompleted | RuntimeIdle | RuntimeWaiting | RuntimeBlocked | RuntimeEscalated | RuntimeFailed

  datatype TaskOutcome = TaskCompleted | TaskBlocked | TaskEscalated | TaskFailed

  datatype TaskRecord = TaskRecord(workflowId: Id, outcome: TaskOutcome)

  datatype RuntimeResult = RuntimeResult(
    status: RuntimeStatus, selected: nat, completed: nat, blocked: nat, escalations: nat, records: seq<TaskRecord>,
    stopped: Option<Reason>)

  /** The k-th call of the runtime service may do anything to the world. */
  type Runtime = (nat, World) -> (World, RuntimeResult)

  datatype Config = Config(
    workflowIds: set<Id>, maxTasks: int, maxCommits: int, maxSeconds: real, stopOnManual: bool,
    complexities: set<string>, risks: set<string>)
  {
    predicate Valid() {
      maxTasks >= 1 && maxCommits >= 0 && maxSeconds > 0.0
    }
  }

  datatype ContainmentSite = HeadCheck | StagedCheck | TrackedCheck | UntrackedCheck | ChangedCheck | CandidateHeadCheck | CandidateChangedCheck

  /** The faults of one cycle; `snapshots` holds the workflows whose snapshot cannot be taken. */
  datatype CycleFaults = CycleFaults(snapshots: set<Id>, containment: set<ContainmentSite>, l1: L1.Faults, l2: set<L2.Site>)

  datatype ContainmentResult = ContainmentResult(contained: bool, reason: Reason, quarantined: bool)

  /** What a cycle did; `root` is the canonical checkout its promotion worked on. */
  datatype Cycle = Cycle(workflowId: Option<Id>, root: Option<Loc>, integration: Option<L1.IntegrationStatus>,
                         commit: Option<L2.CommitStatus>, resulting: Option<Sha>, contained: bool, quarantined: bool)

  const NOTHING: Cycle := Cycle(None, None, None, None, None, false, false)

  datatype ShiftStatus = CleanTermination | HardStop

  datatype ShiftResult = ShiftResult(
    status: ShiftStatus, stopReason: Reason, tasksSelected: nat, tasksCompleted: nat, tasksBlocked: nat, tasksEscalated: nat,
    contained: nat, hardStops: nat, l1Attempted: nat, l1Succeeded: nat, l1Failed: nat,
    l2Attempted: nat, l2Succeeded: nat, l2Already: nat, l2Failed: nat, manualReconciliation: bool, cycles: seq<Cycle>)

  /** A run ends with a result, or an exception of the L1 service escapes from it. */
  datatype ShiftOutcome = Finished(result: ShiftResult) | Raised

  datatype CycleEnd = GoOn(result: ShiftResult) | Ended(result: ShiftResult) | Escape

  datatype PromotionContext = PromotionContext(canonical: Loc, candidate: Loc, baseline: Sha, commitAuthorized: bool)

  /** One cycle that is still open counts as neither contained nor committed. */
  predicate Balanced(r: ShiftResult, open: nat) {
    && r.l1Attempted == r.l1Succeeded + r.l1Failed
    && r.l2Attempted == r.l2Succeeded + r.l2Already + r.l2Failed
    && r.l2Attempted <= r.l1Succeeded <= r.l2Attempted + open
    && |r.cycles| == r.contained + r.l2Succeeded + r.l2Already + open
    && r.l1Failed + r.l2Failed <= open
    && r.l2Succeeded == CountCommitted(r.cycles)
    && r.hardStops == (if r.status == HardStop then 1 else 0)
  }

  predicate Committed(c: Cycle) {
    c.commit == Some(L2.Completed) && c.root.Some? && c.resulting.Some?
  }

  function CountCommitted(cycles: seq<Cycle>): nat {
    if |cycles| == 0 then 0
    else CountCommitted(cycles[..|cycles| - 1]) + (if Committed(cycles[|cycles| - 1]) then 1 else 0)
  }

  /** The commits the cycles made at `loc`, in order. */
  function LineOf(cycles: seq<Cycle>, loc: Loc): seq<Sha> {
    if |cycles| == 0 then []
    else
      var last := cycles[|cycles| - 1];
      LineOf(cycles[..|cycles| - 1], loc) + (if Committed(last) && last.root.value == loc then [last.resulting.value] else [])
  }

  /** What the loop relies on: a call with `max_tasks = 1` selects at most one task, and exactly one
      whenever it returns a task record; Git state stays well formed and commits are never rewritten. */
  ghost predicate Sound(runtime: Runtime) {
    forall k: nat, w: World :: w.disk.Valid() ==> SoundCall(w, runtime(k, w).0, runtime(k, w).1)
  }

  predicate SoundCall(w: World, w': World, r: RuntimeResult) {
    && w'.disk.Valid() && Grows(w.disk, w'.disk)
    && r.selected <= 1 && (r.records != [] ==> r.selected == 1)
  }

  /** Work stays in candidates: no canonical checkout is touched, except possibly the failing
      workflow's own when its task does not complete; frozen plans and records are left alone. */
  ghost predicate Confined(runtime: Runtime) {
    forall k: nat, w: World :: w.disk.Valid() ==> ConfinedCall(w, runtime(k, w).0, runtime(k, w).1)
  }

  predicate ConfinedCall(w: World, w': World, r: RuntimeResult) {
    && PlansKept(w.db, w'.db) && w'.db.records == w.db.records && w'.db.repositories == w.db.repositories
    && forall loc :: loc in Canonical(w.db) && loc in w.disk.checkouts && loc in w'.disk.checkouts ==>
         w'.disk.checkouts[loc] == w.disk.checkouts[loc] || FailingCheckout(w.db, r, loc)
  }

  /** Where the registered canonical checkouts are. */
  function Canonical(db: Db): set<Loc> {
    set id | id in db.repositories :: db.repositories[id].location
  }

  /** `loc` is the canonical checkout of the workflow whose task did not complete. */
  predicate FailingCheckout(db: Db, r: RuntimeResult, loc: Loc) {
    && r.records != []
    && var last := r.records[|r.records| - 1];
       last.outcome != TaskCompleted && Snapshotable(db, last.workflowId) && CanonicalOf(db, last.workflowId) == loc
  }

  function CommitAuthorized(db: Db, taskId: Id, task: Task, plan: Plan): bool {
    var contract := Find(db.contracts, Some(plan.contractId));
    && contract.Some? && contract.value.taskId == taskId && contract.value.version == plan.contractVersion
    && contract.value.allowsCommit
    && Rank(task.authority, -1) >= 2 && Rank(contract.value.authority, -1) >= 2
  }

  /** The supervisor's own guards before L1. */
  function PromotionFor(db: Db, workflowId: Id, config: Config): Result<PromotionContext> {
    var known := workflowId in db.workflows;
    :- Need(known, WorkflowNotFound);
    var workflow := db.workflows[workflowId];
    :- Need(workflow.state == CompletedPendingIntegration, WorkflowNotCompletedPendingIntegration);
    var task, plan, freeze := Find(db.tasks, workflow.taskId), Find(db.plans, workflow.planId), Find(db.freezes, workflow.freezeId);
    var repository := Find(db.repositories, workflow.repositoryId);
    :- Need(task.Some? && plan.Some? && freeze.Some? && repository.Some?, PromotionStateIncomplete);
    :- Need(task.value.projectId == workflow.projectId && plan.value.projectId == workflow.projectId &&
            freeze.value.projectId == workflow.projectId, PromotionProjectRelationshipInvalid);
    :- Need(freeze.value.taskId == workflow.taskId.value && freeze.value.planId == workflow.planId.value &&
            plan.value.taskId == workflow.taskId.value, PromotionPlanFreezeRelationshipInvalid);
    :- Need(freeze.value.commitSha.Some?, FrozenBaselineCommitRequired);
    :- Need(task.value.complexity in config.complexities, TaskComplexityOutsideNightShiftBounds);
    :- Need(Text.Upper(plan.value.risk) in config.risks, PlanRiskOutsideNightShiftBounds);
    :- Need(workflow.worktree != "", CandidateWorktreeRequired);
    Ok(PromotionContext(repository.value.location, workflow.worktree, freeze.value.commitSha.value,
                        CommitAuthorized(db, workflow.taskId.value, task.value, plan.value)))
  }

  /** The rows the night shift promotes, field by field. */
  predicate PromotionInOrder(db: Db, workflowId: Id, config: Config) {
    && PlanInOrder(db, workflowId)
    && var workflow := db.workflows[workflowId];
       && workflow.state == CompletedPendingIntegration && workflow.worktree != ""
       && workflow.repositoryId.Some? && workflow.repositoryId.value in db.repositories
       && db.freezes[workflow.freezeId.value].commitSha.Some?
       && db.tasks[workflow.taskId.value].complexity in config.complexities
       && exists risk :: risk in config.risks && Text.Capitalizes(db.plans[workflow.planId.value].risk, risk)
  }

  /** The supervisor promotes exactly these, from the workflow's own worktree to its repository. */
  lemma PromotionAdmitsExactly(db: Db, workflowId: Id, config: Config)
    ensures PromotionFor(db, workflowId, config).Ok? <==> PromotionInOrder(db, workflowId, config)
    ensures PromotionInOrder(db, workflowId, config) ==>
      var workflow := db.workflows[workflowId];
      PromotionFor(db, workflowId, config).value ==
        PromotionContext(db.repositories[workflow.repositoryId.value].location, workflow.worktree,
                         db.freezes[workflow.freezeId.value].commitSha.value,
                         L2.CommitAllowed(db, db.plans[workflow.planId.value], db.tasks[workflow.taskId.value]))
  {
    if PlanInOrder(db, workflowId) {
      var risk := db.plans[db.workflows[workflowId].planId.value].risk;
      Text.UpperExactly(risk, Text.Upper(risk));
      forall to | to in config.risks && Text.Capitalizes(risk, to)
        ensures to == Text.Upper(risk)
      {
        Text.UpperExactly(risk, to);
      }
    }
  }

  /** What a refusal to promote says of the rows. */
  predicate PromotionRefused(db: Db, workflowId: Id, config: Config, reason: Reason) {
    if workflowId !in db.workflows then reason == WorkflowNotFound
    else
      var workflow := db.workflows[workflowId];
      var tasked := workflow.taskId.Some? && workflow.taskId.value in db.tasks;
      || (reason == WorkflowNotCompletedPendingIntegration && workflow.state != CompletedPendingIntegration)
      || (reason == CandidateWorktreeRequired && workflow.worktree == "")
      || (reason == PromotionStateIncomplete &&
          !(tasked && Planned(db, workflow) && workflow.repositoryId.Some? && workflow.repositoryId.value in db.repositories))
      || (tasked && Planned(db, workflow) &&
          RowsRefused(workflow, db.tasks[workflow.taskId.value], db.plans[workflow.planId.value], db.freezes[workflow.freezeId.value],
                      config, reason))
  }

  predicate RowsRefused(workflow: Workflow, task: Task, plan: Plan, freeze: Freeze, config: Config, reason: Reason) {
    || (reason == PromotionProjectRelationshipInvalid &&
        !(task.projectId == plan.projectId == freeze.projectId == workflow.projectId))
    || (reason == PromotionPlanFreezeRelationshipInvalid &&
        !(workflow.taskId == Some(plan.taskId) && plan.taskId == freeze.taskId && workflow.planId == Some(freeze.planId)))
    || (reason == FrozenBaselineCommitRequired && freeze.commitSha == None)
    || (reason == TaskComplexityOutsideNightShiftBounds && task.complexity !in config.complexities)
    || (reason == PlanRiskOutsideNightShiftBounds && forall risk :: risk in config.risks ==> !Text.Capitalizes(plan.risk, risk))
  }

  lemma PromotionRefusalTells(db: Db, workflowId: Id, config: Config)
    ensures PromotionFor(db, workflowId, config).Fail? ==> PromotionRefused(db, workflowId, config, PromotionFor(db, workflowId, config).reason)
  {
    if workflowId in db.workflows && Planned(db, db.workflows[workflowId]) {
      var risk := db.plans[db.workflows[workflowId].planId.value].risk;
      forall to | to in config.risks && Text.Capitalizes(risk, to)
        ensures to == Text.Upper(risk)
      {
        Text.UpperExactly(risk, to);
      }
    }
  }

  /** What a failure that is not contained says of the snapshot, or of the state after the call. */
  predicate ContainmentRefused(ignored: IgnoreRule, d: DiskState, snapshot: Option<Snapshot>, faults: set<ContainmentSite>, reason: Reason)
    requires d.Valid()
  {
    if snapshot.None? then reason == ContainmentSnapshotMissing
    else
      var s := snapshot.value;
      || (reason == FrozenBaselineCommitRequired && s.baseline == None)
      || (reason == CanonicalHeadUnsafeBeforeFailure && s.baseline.Some? && s.head != s.baseline.value)
      || (reason == CanonicalDirtyBeforeFailure && (s.tracked != {} || s.staged != {}))
      || (reason == CandidateUnsafeBeforeFailure && s.baseline.Some? && (s.candidateHead != s.baseline.value || s.candidateChanged != {}))
      || CallRefused(ignored, d, s, faults, reason)
  }

  predicate CallRefused(ignored: IgnoreRule, d: DiskState, s: Snapshot, faults: set<ContainmentSite>, reason: Reason)
    requires d.Valid()
  {
    || (reason == ContainmentGitCheckFailed &&
        (|| faults != {} || s.canonical !in d.checkouts || s.candidate !in d.checkouts
         || !UntrackedIntact(ignored, d.checkouts[s.canonical], s.protectedFiles)))
    || (s.canonical in d.checkouts &&
        (|| (reason == FailedTaskAdvancedCanonicalHead && d.checkouts[s.canonical].head != s.head)
         || (reason == FailedTaskLeftCanonicalStagedChanges && StagedPaths(d, s.canonical) != {})
         || (reason == FailedTaskLeftCanonicalTrackedChanges && TrackedChanges(d.checkouts[s.canonical]) != {})
         || (reason == FailedTaskLeftUnauthorizedCanonicalChanges && !(ChangedPaths(ignored, d, s.canonical) <= s.protectedFiles.Keys))))
  }

  function Quarantine(db: Db, workflowId: Id, event: Reason): Db {
    if workflowId !in db.workflows then db
    else
      var workflow := db.workflows[workflowId];
      db.(workflows := db.workflows[workflowId := workflow.(state := Blocked, activeTask := None, history := workflow.history + [event])])
  }

  function Stopped(r: ShiftResult, reason: Reason, cycle: Cycle): ShiftResult {
    r.(status := HardStop, stopReason := reason, hardStops := r.hardStops + 1, cycles := r.cycles + [cycle])
  }

  function Finish(r: ShiftResult, reason: Reason): ShiftResult {
    r.(status := CleanTermination, stopReason := reason)
  }

  /** The counters a runtime call adds. */
  function Counted(r: ShiftResult, x: RuntimeResult): ShiftResult {
    r.(tasksSelected := r.tasksSelected + x.selected, tasksCompleted := r.tasksCompleted + x.completed,
       tasksBlocked := r.tasksBlocked + x.blocked, tasksEscalated := r.tasksEscalated + x.escalations)
  }

  lemma EveryContainmentSite(faults: set<ContainmentSite>)
    ensures faults == {} <==> faults !! {HeadCheck, StagedCheck, TrackedCheck, UntrackedCheck, ChangedCheck} &&
                              faults !! {CandidateHeadCheck, CandidateChangedCheck}
  {
    forall site | site in faults
      ensures site in {HeadCheck, StagedCheck, TrackedCheck, UntrackedCheck, ChangedCheck, CandidateHeadCheck, CandidateChangedCheck}
    {
      match site
      case HeadCheck | StagedCheck | TrackedCheck | UntrackedCheck | ChangedCheck | CandidateHeadCheck | CandidateChangedCheck =>
    }
  }
}
