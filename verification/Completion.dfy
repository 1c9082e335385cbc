/** Exactly when the two promotion steps complete, said of the rows, the request and the disk alone. */
module Completion {
  import opened Prelude
  import opened Git
  import opened Acceptance
  import opened Disk
  import opened Session
  import L1 = Integration
  import L2 = ControlledCommit

  // ----- L1 -----

  /** The world in which an integration goes through: the rows and the request are in order, the frozen
      lists are usable, both checkouts are ready, and the captured files, once written, pass. */
  predicate Integrates(ignored: IgnoreRule, commands: CommandOracle, d: DiskState, db: Db, request: L1.IntegrationRequest)
    requires d.Valid()
  {
    && L1.IntegrationInOrder(db, request)
    && var freeze := db.freezes[db.workflows[request.workflowId].freezeId.value];
       && UsableLists(freeze)
       && var authorized, checks := Listed(freeze.affected.value), freeze.checks.value;
          && L1.CanonicalReady(ignored, d, request, authorized)
          && L1.CandidateReady(ignored, commands, d, request, authorized, checks)
          && AppliesWell(ignored, commands, d, request, authorized, checks)
  }

  /** The candidate's changed files, written into the canonical worktree, pass every check there. */
  predicate AppliesWell(ignored: IgnoreRule, commands: CommandOracle, d: DiskState, request: L1.IntegrationRequest,
                        authorized: set<Path>, checks: seq<Check>)
    requires d.Valid() && request.root in d.checkouts && request.candidate in d.checkouts
    requires Readable(d.checkouts[request.candidate].worktree, ChangedPaths(ignored, d, request.candidate))
  {
    var changed := ChangedPaths(ignored, d, request.candidate);
    var files := Captured(d.checkouts[request.candidate].worktree, changed);
    L1.AppliedWell(ignored, commands, L1.WithWorktree(d, request.root, d.checkouts[request.root].worktree + files), request.root,
                   L1.IntegrationContext(authorized, checks, changed, files, UntrackedFiles(ignored, d.checkouts[request.root])))
  }

  /** The same, seen from the preflight: it passes, and what it captured passes once written. */
  predicate Applicable(ignored: IgnoreRule, commands: CommandOracle, d: DiskState, db: Db, request: L1.IntegrationRequest)
    requires d.Valid()
  {
    && L1.CanIntegrate(ignored, commands, d, db, request)
    && var context := L1.ContextOf(ignored, d, request, L1.IntegrationRows(db, request).value);
       L1.AppliedWell(ignored, commands, L1.WithWorktree(d, request.root, d.checkouts[request.root].worktree + context.files),
                      request.root, context)
  }

  lemma IntegratesExactly(ignored: IgnoreRule, commands: CommandOracle, d: DiskState, db: Db, request: L1.IntegrationRequest)
    requires d.Valid()
    ensures Integrates(ignored, commands, d, db, request) <==> Applicable(ignored, commands, d, db, request)
  {
    L1.IntegrationAdmitsExactly(db, request);
    if L1.IntegrationInOrder(db, request) {
      FrozenListsExactly(db.freezes[db.workflows[request.workflowId].freezeId.value]);
    }
  }

  /** Without faults an integration completes exactly in such a world. */
  lemma IntegrationCompletesExactly(ignored: IgnoreRule, commands: CommandOracle, request: L1.IntegrationRequest,
                                    d: DiskState, db: Db, r: L1.IntegrationResult, d': DiskState, db': Db)
    requires d.Valid() && L1.IntegrateStep(ignored, commands, request, L1.Faults({}, {}, {}), d, db, r, d', db')
    ensures r.status == L1.Completed <==> Integrates(ignored, commands, d, db, request)
  {
    IntegratesExactly(ignored, commands, d, db, request);
    if L1.CanIntegrate(ignored, commands, d, db, request) {
      FaultFreeApplication(ignored, commands, request, L1.ContextOf(ignored, d, request, L1.IntegrationRows(db, request).value),
                           d, db, r, d', db');
    }
  }

  lemma FaultFreeApplication(ignored: IgnoreRule, commands: CommandOracle, request: L1.IntegrationRequest, context: L1.IntegrationContext,
                             d: DiskState, db: Db, r: L1.IntegrationResult, d': DiskState, db': Db)
    requires d.Valid() && request.root in d.checkouts && request.workflowId in db.workflows
    requires L1.AppliedStep(ignored, commands, request, context, L1.Faults({}, {}, {}), d, db, r, d', db')
    ensures r.status == L1.Completed <==>
      L1.AppliedWell(ignored, commands, L1.WithWorktree(d, request.root, d.checkouts[request.root].worktree + context.files),
                     request.root, context)
  {
  }

  // ----- L2 -----

  /** The checks say the same at the preflight, before the commit and after it. */
  predicate Steady(commands: CommandOracle, worktree: Tree, checks: seq<Check>) {
    && RunChecks(commands, CommitPreflight, worktree, checks) == RunChecks(commands, PreCommit, worktree, checks)
    && RunChecks(commands, CommitPreflight, worktree, checks) == RunChecks(commands, PostCommit, worktree, checks)
  }

  /** The world in which a commit goes through: the rows, the request and the frozen lists are in order, no
      commit of this plan is on record, the canonical checkout holds exactly covered changes, the message
      is one line, and the checks stay as they are. */
  predicate Commits(ignored: IgnoreRule, commands: CommandOracle, d: DiskState, db: Db, request: L2.CommitRequest)
    requires d.Valid()
  {
    && L2.CommitInOrder(db, request)
    && var workflow := db.workflows[request.workflowId];
       var freeze := db.freezes[workflow.freezeId.value];
       && (forall record :: record in db.records && record.workflowId == request.workflowId ==> record.freezeId != workflow.freezeId.value)
       && UsableLists(freeze)
       && var authorized, checks := Listed(freeze.affected.value), freeze.checks.value;
          && L2.AtBaseline(ignored, d, request, authorized)
          && L2.Committable(ignored, commands, d, request, authorized, checks)
          && L2.Named(request.message, workflow.taskId.value)
          && Steady(commands, d.checkouts[request.root].worktree, checks)
  }

  lemma RecordExactly(db: Db, workflowId: Id, freezeId: Id)
    ensures L2.HasRecord(db, workflowId, freezeId) <==>
            !forall record :: record in db.records && record.workflowId == workflowId ==> record.freezeId != freezeId
  {
    if record :| record in db.records && record.workflowId == workflowId && record.freezeId == freezeId {
      var k :| 0 <= k < |db.records| && db.records[k] == record;
    }
  }

  lemma MessageExactly(message: Option<string>, taskId: Id)
    ensures L2.CommitMessage(message, taskId).Ok? <==> L2.Named(message, taskId)
  {
    match message
    case None => L2.DefaultMessageExactly(taskId);
    case Some(text) => L2.GivenMessageExactly(text, taskId);
  }

  lemma GoesThroughExactly(ignored: IgnoreRule, commands: CommandOracle, d: DiskState, db: Db, request: L2.CommitRequest)
    requires d.Valid()
    ensures Commits(ignored, commands, d, db, request) <==>
            L2.ReachesCommit(ignored, commands, d, db, request, {}) && L2.Verifies(commands, d, db, request, {})
  {
    L2.CommitAdmitsExactly(db, request);
    if L2.CommitInOrder(db, request) {
      var workflow := db.workflows[request.workflowId];
      FrozenListsExactly(db.freezes[workflow.freezeId.value]);
      RecordExactly(db, request.workflowId, workflow.freezeId.value);
      MessageExactly(request.message, workflow.taskId.value);
    }
  }

  /** Without faults a commit completes exactly in such a world. */
  lemma CommitCompletesExactly(ignored: IgnoreRule, commands: CommandOracle, request: L2.CommitRequest,
                               d: DiskState, db: Db, r: L2.CommitResult, d': DiskState, db': Db)
    requires d.Valid() && L2.CommitStep(ignored, commands, request, {}, d, db, r, d', db')
    ensures r.status == L2.Completed <==> Commits(ignored, commands, d, db, request)
  {
    GoesThroughExactly(ignored, commands, d, db, request);
  }

  /** What a completed call adds to the records: its request, the plan's own freeze and repository, the listed
      paths, the changes it found with their contents, and the message it was given, or else the task's name
      after a fixed prefix. */
  lemma StoredRecordExactly(ignored: IgnoreRule, commands: CommandOracle, request: L2.CommitRequest, faults: set<L2.Site>,
                            d: DiskState, db: Db, r: L2.CommitResult, d': DiskState, db': Db)
    requires d.Valid() && L2.CommitStep(ignored, commands, request, faults, d, db, r, d', db') && r.status == L2.Completed
    ensures L2.CommitInOrder(db, request) && request.root in d.checkouts && request.root in d'.checkouts
    ensures var workflow, taken := db.workflows[request.workflowId], L2.CommitPaths(ignored, d, request);
            var affected := db.freezes[workflow.freezeId.value].affected;
      && affected.Some?
      && db' == db.(records := db.records + [CommitRecord(
           request.workflowId, workflow.freezeId.value, workflow.repositoryId.value, request.baseline, d'.checkouts[request.root].head,
           Listed(affected.value), taken, map p | p in taken && p in d.checkouts[request.root].worktree :: d.checkouts[request.root].worktree[p],
           if request.message.Some? then request.message.value else "lucius: complete " + workflow.taskId.value)])
  {
    L2.CommitAdmitsExactly(db, request);
    var workflow := db.workflows[request.workflowId];
    FrozenListsExactly(db.freezes[workflow.freezeId.value]);
    match request.message
    case None => L2.DefaultMessageExactly(workflow.taskId.value);
    case Some(text) => L2.GivenMessageExactly(text, workflow.taskId.value);
  }
}
