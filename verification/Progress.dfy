/** When a night goes on: exactly which cycles are followed by another one, said of the world before the
    cycle, the world the runtime call left, and what that call reported. */
module Progress {
  import opened Prelude
  import opened Git
  import opened Acceptance
  import opened Disk
  import opened Session
  import opened Completion
  import opened Containment
  import opened NightShift
  import opened CleanShift
  import opened History
  import L1 = Integration
  import L2 = ControlledCommit

  /** No fault in the services; the containment reads may still fault. */
  predicate FaultFree(faults: CycleFaults) {
    faults.l1 == L1.Faults({}, {}, {}) && faults.l2 == {}
  }

  /** The workflow's snapshot is taken: it is in scope, an empty scope meaning every workflow, has its
      freeze, its repository and a worktree, and both checkouts are there and can be read. */
  predicate SnapshotDue(w: World, scope: set<Id>, unreadable: set<Id>, id: Id) {
    && id in w.db.workflows && (scope == {} || id in scope) && id !in unreadable
    && var workflow := w.db.workflows[id];
       && workflow.freezeId.Some? && workflow.freezeId.value in w.db.freezes
       && workflow.repositoryId.Some? && workflow.repositoryId.value in w.db.repositories
       && w.db.repositories[workflow.repositoryId.value].location in w.disk.checkouts
       && workflow.worktree != "" && workflow.worktree in w.disk.checkouts
  }

  /** Both checkouts were clean on the frozen baseline before the call, and after it the canonical one
      shows what it showed. */
  predicate LeftClean(ignored: IgnoreRule, w0: World, w1: World, id: Id) {
    && w0.disk.Valid() && SnapshotDue(w0, {}, {}, id)
    && var workflow := w0.db.workflows[id];
       var loc := w0.db.repositories[workflow.repositoryId.value].location;
       && CleanBefore(ignored, w0.disk, loc, workflow.worktree, w0.db.freezes[workflow.freezeId.value].commitSha)
       && loc in w1.disk.checkouts && ViewOf(ignored, w1.disk.checkouts[loc]) == ViewOf(ignored, w0.disk.checkouts[loc])
  }

  /** A failure is passed over: there is a snapshot, every read succeeds, and everything was left clean. */
  predicate PassesOver(ignored: IgnoreRule, w0: World, w1: World, scope: set<Id>, faults: CycleFaults, id: Id) {
    SnapshotDue(w0, scope, faults.snapshots, id) && faults.containment == {} && LeftClean(ignored, w0, w1, id)
  }

  lemma LeftCleanExactly(ignored: IgnoreRule, w0: World, w1: World, id: Id, s: Snapshot)
    requires Taken(ignored, w0, id, s) && w1.disk.Valid() && Grows(w0.disk, w1.disk)
    ensures SafeSnapshot(s) && CanonicalContained(ignored, w1.disk, s) && s.candidate in w1.disk.checkouts <==>
            LeftClean(ignored, w0, w1, id)
  {
    ContainedExactly(ignored, w0.disk, w0.db, id, w1.disk);
  }

  lemma TakenIsDue(ignored: IgnoreRule, w: World, scope: set<Id>, unreadable: set<Id>, id: Id)
    requires w.disk.Valid()
    ensures SnapshotDue(w, scope, unreadable, id) <==>
      && (scope == {} || id in scope) && id !in unreadable && Snapshotable(w.db, id)
      && CanonicalOf(w.db, id) in w.disk.checkouts && w.db.workflows[id].worktree in w.disk.checkouts
  {
  }

  // ----- promotions -----

  predicate OnRecord(db: Db, id: Id) {
    id in db.workflows && exists record :: record in db.records && record.workflowId == id && Some(record.freezeId) == db.workflows[id].freezeId
  }

  /** The world after a completed integration: the candidate's changed files are in the canonical
      worktree, and the workflow is closed. */
  function AfterIntegration(ignored: IgnoreRule, w: World, id: Id, root: Loc, candidate: Loc): (w': World)
    requires w.disk.Valid() && root in w.disk.checkouts && candidate in w.disk.checkouts && id in w.db.workflows
    requires Readable(w.disk.checkouts[candidate].worktree, ChangedPaths(ignored, w.disk, candidate))
    ensures w'.disk.Valid()
  {
    var files := Captured(w.disk.checkouts[candidate].worktree, ChangedPaths(ignored, w.disk, candidate));
    World(L1.WithWorktree(w.disk, root, w.disk.checkouts[root].worktree + files), L1.CloseWorkflow(w.db, id))
  }

  /** Both steps go through from `root` and `candidate`; a plan that is on record already needs no commit. */
  predicate PromotesFrom(ignored: IgnoreRule, commands: CommandOracle, w: World, id: Id, root: Loc, candidate: Loc, baseline: Sha) {
    && w.disk.Valid()
    && Integrates(ignored, commands, w.disk, w.db, L1.IntegrationRequest(id, root, candidate, baseline, true, Authority.L1))
    && var w2 := AfterIntegration(ignored, w, id, root, candidate);
       var request := L2.CommitRequest(id, root, baseline, Authority.L2, None, UntrackedFiles(ignored, w.disk.checkouts[root]));
       && L2.CommitInOrder(w2.db, request)
       && (OnRecord(w.db, id) || Commits(ignored, commands, w2.disk, w2.db, request))
  }

  /** A completed task is promoted: its rows are within the night's bounds, commits are allowed, and both
      steps go through between the workflow's own worktree and its repository. */
  predicate Promotes(ignored: IgnoreRule, commands: CommandOracle, w: World, config: Config, id: Id) {
    && PromotionInOrder(w.db, id, config)
    && var workflow := w.db.workflows[id];
       && L2.CommitAllowed(w.db, w.db.plans[workflow.planId.value], w.db.tasks[workflow.taskId.value])
       && PromotesFrom(ignored, commands, w, id, w.db.repositories[workflow.repositoryId.value].location, workflow.worktree,
                       w.db.freezes[workflow.freezeId.value].commitSha.value)
  }

  lemma IntegrationLeads(ignored: IgnoreRule, commands: CommandOracle, request: L1.IntegrationRequest,
                         w: World, r: L1.IntegrationResult, w1: World)
    requires w.disk.Valid() && w1.disk.Valid() && r.status == L1.Completed
    requires L1.IntegrateStep(ignored, commands, request, L1.Faults({}, {}, {}), w.disk, w.db, r, w1.disk, w1.db)
    ensures Integrates(ignored, commands, w.disk, w.db, request)
    ensures w1 == AfterIntegration(ignored, w, request.workflowId, request.root, request.candidate)
    ensures r.protectedFiles == UntrackedFiles(ignored, w.disk.checkouts[request.root])
  {
    IntegrationCompletesExactly(ignored, commands, request, w.disk, w.db, r, w1.disk, w1.db);
  }

  lemma FailedIntegrationStops(ignored: IgnoreRule, commands: CommandOracle, id: Id, context: PromotionContext,
                               w: World, r: L1.IntegrationResult, w1: World)
    requires w.disk.Valid() && r.status != L1.Completed
    requires L1.IntegrateStep(ignored, commands, IntegrationFor(id, context), L1.Faults({}, {}, {}), w.disk, w.db, r, w1.disk, w1.db)
    ensures !PromotesFrom(ignored, commands, w, id, context.canonical, context.candidate, context.baseline)
  {
    IntegrationCompletesExactly(ignored, commands, IntegrationFor(id, context), w.disk, w.db, r, w1.disk, w1.db);
  }

  lemma CommitEndsExactly(ignored: IgnoreRule, commands: CommandOracle, request: L2.CommitRequest,
                          w: World, r: L2.CommitResult, w': World)
    requires w.disk.Valid() && w'.disk.Valid()
    requires L2.CommitStep(ignored, commands, request, {}, w.disk, w.db, r, w'.disk, w'.db)
    ensures r.status == L2.AlreadyCommitted <==> L2.CommitInOrder(w.db, request) && OnRecord(w.db, request.workflowId)
    ensures r.status == L2.Completed <==> Commits(ignored, commands, w.disk, w.db, request)
  {
    CommitCompletesExactly(ignored, commands, request, w.disk, w.db, r, w'.disk, w'.db);
    L2.CommitAdmitsExactly(w.db, request);
    if L2.CommitInOrder(w.db, request) {
      RecordExactly(w.db, request.workflowId, w.db.workflows[request.workflowId].freezeId.value);
    }
  }

  /** After a completed integration the commit either completes or is found on record exactly when the
      promotion goes through. */
  lemma PromotionEndsExactly(ignored: IgnoreRule, commands: CommandOracle, id: Id, context: PromotionContext,
                             w: World, r1: L1.IntegrationResult, w1: World, r2: L2.CommitResult, w2: World)
    requires w.disk.Valid() && w1.disk.Valid() && w2.disk.Valid() && r1.status == L1.Completed
    requires L1.IntegrateStep(ignored, commands, IntegrationFor(id, context), L1.Faults({}, {}, {}), w.disk, w.db, r1, w1.disk, w1.db)
    requires L2.CommitStep(ignored, commands, CommitFor(id, context, r1.protectedFiles), {}, w1.disk, w1.db, r2, w2.disk, w2.db)
    ensures r2.status == L2.Completed || r2.status == L2.AlreadyCommitted <==>
            PromotesFrom(ignored, commands, w, id, context.canonical, context.candidate, context.baseline)
    ensures r2.status == L2.AlreadyCommitted ==> OnRecord(w.db, id)
  {
    IntegrationLeads(ignored, commands, IntegrationFor(id, context), w, r1, w1);
    CommitEndsExactly(ignored, commands, CommitFor(id, context, r1.protectedFiles), w1, r2, w2);
    assert OnRecord(w1.db, id) <==> OnRecord(w.db, id);
  }

  // ----- cycles -----

  /** The call reported a task and gave no reason to stop. */
  predicate Reported(x: RuntimeResult) {
    x.records != [] && x.escalations == 0 && x.status != RuntimeEscalated && (x.status != RuntimeIdle || x.selected != 0)
  }

  /** What makes the supervisor go on after a reported task. */
  predicate TaskGoesOn(ignored: IgnoreRule, commands: CommandOracle, config: Config, faults: CycleFaults, w0: World, w1: World,
                       record: TaskRecord)
  {
    if record.outcome == TaskCompleted then Promotes(ignored, commands, w1, config, record.workflowId)
    else PassesOver(ignored, w0, w1, config.workflowIds, faults, record.workflowId)
  }

  /** The cycle is followed by another: its task failed and is passed over, or completed and is promoted. */
  predicate GoesOn(ignored: IgnoreRule, commands: CommandOracle, config: Config, faults: CycleFaults, w0: World, w1: World, x: RuntimeResult) {
    Reported(x) && TaskGoesOn(ignored, commands, config, faults, w0, w1, x.records[|x.records| - 1])
  }

  /** The cycle goes on exactly when it should, and then counts one more contained failure or one more
      promotion; a promotion counts as committed before only if its plan is on record. */
  predicate Advances(r: ShiftResult, end: CycleEnd, should: bool, failed: bool, onRecord: bool) {
    && (end.GoOn? <==> should)
    && (end.GoOn? ==>
          && end.result.contained == r.contained + (if failed then 1 else 0)
          && end.result.l2Succeeded + end.result.l2Already == r.l2Succeeded + r.l2Already + (if failed then 0 else 1)
          && (failed || !onRecord ==> end.result.l2Already == r.l2Already))
  }

  predicate TaskAdvances(ignored: IgnoreRule, commands: CommandOracle, config: Config, faults: CycleFaults, w0: World, w1: World,
                         record: TaskRecord, r: ShiftResult, end: CycleEnd)
  {
    Advances(r, end, TaskGoesOn(ignored, commands, config, faults, w0, w1, record), record.outcome != TaskCompleted,
             OnRecord(w1.db, record.workflowId))
  }

  predicate CycleAdvances(ignored: IgnoreRule, commands: CommandOracle, config: Config, faults: CycleFaults, w0: World, w1: World,
                          x: RuntimeResult, r: ShiftResult, end: CycleEnd)
  {
    if Reported(x) then TaskAdvances(ignored, commands, config, faults, w0, w1, x.records[|x.records| - 1], r, end) else !end.GoOn?
  }

  /** The counters a runtime call adds are not the ones that say how the cycle went on. */
  lemma CountingKeeps(ignored: IgnoreRule, commands: CommandOracle, config: Config, faults: CycleFaults, w0: World, w1: World,
                      x: RuntimeResult, r: ShiftResult, end: CycleEnd)
    requires Reported(x) && TaskAdvances(ignored, commands, config, faults, w0, w1, x.records[|x.records| - 1], Counted(r, x), end)
    ensures CycleAdvances(ignored, commands, config, faults, w0, w1, x, r, end)
  {
  }

  // ----- nights -----

  /** Says of the k-th cycle, beginning in a given world, whether it is followed by another. */
  type Rule = (nat, World) -> bool

  function GoingOn(ignored: IgnoreRule, commands: CommandOracle, runtime: Runtime, config: Config, faults: nat -> CycleFaults): Rule {
    (k: nat, w: World) => GoesOn(ignored, commands, config, faults(k), w, runtime(k, w).0, runtime(k, w).1)
  }

  ghost predicate WentOn(rule: Rule, worlds: seq<World>, n: nat) {
    n < |worlds| && forall k :: 0 <= k < n ==> rule(k, worlds[k])
  }

  /** The n-th cycle is the first that is not followed by another. */
  ghost predicate StopsAt(rule: Rule, worlds: seq<World>, n: nat) {
    WentOn(rule, worlds, n) && !rule(n, worlds[n])
  }

  /** A night ends at its first cycle that should not be followed by another, and otherwise only at a limit. */
  ghost predicate NightProgress(rule: Rule, worlds: seq<World>, outcome: ShiftOutcome) {
    worlds != [] &&
    match outcome
    case Finished(r) =>
      if r.status == HardStop || r.stopReason == Idle then r.cycles != [] && StopsAt(rule, worlds, |r.cycles| - 1)
      else WentOn(rule, worlds, |r.cycles|)
    case Raised => StopsAt(rule, worlds, |worlds| - 1)
  }

  ghost predicate FaultFreeNight(faults: nat -> CycleFaults) {
    forall k :: FaultFree(faults(k))
  }

  lemma ProgressStep(rule: Rule, worlds: seq<World>, n: nat, w': World, goesOn: bool)
    requires |worlds| == n + 1 && WentOn(rule, worlds, n) && (goesOn <==> rule(n, worlds[n]))
    ensures if goesOn then WentOn(rule, worlds + [w'], n + 1) else StopsAt(rule, worlds, n) && StopsAt(rule, worlds + [w'], n)
  {
    forall k | 0 <= k < n + 1
      ensures goesOn || k < n ==> rule(k, (worlds + [w'])[k])
    {
      assert (worlds + [w'])[k] == worlds[k];
    }
  }
}
