/** Concrete situations: one in which a promotion goes through, and ones in which a promise one might
    expect of the promotion services fails.  The names are left open: any identifier, any two paths, any two locations will do. */
module Witnesses {
  import opened Prelude
  import opened Git
  import opened Acceptance
  import opened Disk
  import opened Session
  import opened Promotion
  import Completion
  import L1 = Integration
  import L2 = ControlledCommit

  /** One project with one task, plan, freeze, contract and repository; `a` and `b` are authorized. */
  function Rows(id: Id, state: WorkflowState, a: Path, b: Path, canonical: Loc, candidate: Loc): Db {
    Db(map[id := Workflow(state, id, Some(id), Some(id), Some(id), Some(id), candidate, Authority.L1, None, [])],
       map[id := Task(id, Authority.L2, id)],
       map[id := Plan(id, id, id, 1, Authority.L1, id)],
       map[id := Freeze(id, id, id, Some(1), Some([Some(a), Some(b)]), Some([FileExists(a)]))],
       map[id := Contract(id, 1, true, Authority.L2)],
       map[id := Repository(canonical, true)],
       {(id, id)},
       [])
  }

  /** Both checkouts sit on commit 1; the candidate changed `a`, and the canonical checkout also has `b`. */
  function Start(a: Path, b: Path, canonical: Loc, candidate: Loc, before: string, after: string): (d: DiskState)
  {
    var tree := map[a := Text(before)];
    DiskState(map[1 := Commit([], tree)],
              map[canonical := Checkout(1, tree, tree[b := Text(after)]), candidate := Checkout(1, tree, map[a := Text(after)])])
  }

  /** `b` is ignored. */
  function Ignoring(b: Path): IgnoreRule {
    (worktree, path) => path == b
  }

  /** A request for exactly that plan. */
  function Asking(id: Id, canonical: Loc, candidate: Loc): L1.IntegrationRequest {
    L1.IntegrationRequest(id, canonical, candidate, 1, true, Authority.L1)
  }

  /** The rule hides `b` as things stand in the canonical checkout. */
  predicate Hides(ignored: IgnoreRule, a: Path, b: Path, before: string, after: string) {
    ignored(map[a := Text(before)][b := Text(after)], b)
  }

  lemma StartFacts(ignored: IgnoreRule, a: Path, b: Path, canonical: Loc, candidate: Loc, before: string, after: string)
    requires a != b && canonical != candidate && before != after && Hides(ignored, a, b, before, after)
    ensures var d := Start(a, b, canonical, candidate, before, after);
      && d.Valid() && StagedPaths(d, canonical) == {} == StagedPaths(d, candidate)
      && TrackedChanges(d.checkouts[canonical]) == {} && UntrackedPaths(ignored, d.checkouts[canonical]) == {}
      && ChangedPaths(ignored, d, candidate) == {a}
  {
    var d := Start(a, b, canonical, candidate, before, after);
    assert forall p :: p in d.checkouts[canonical].worktree && p !in d.checkouts[canonical].index ==> p == b;
    assert At(d.checkouts[candidate].index, a) != At(d.checkouts[candidate].worktree, a);
    assert a in ChangedPaths(ignored, d, candidate);
    assert forall p :: p in ChangedPaths(ignored, d, candidate) ==> p == a;
  }

  lemma FrozenRows(id: Id, state: WorkflowState, a: Path, b: Path, canonical: Loc, candidate: Loc)
    ensures var freeze := Rows(id, state, a, b, canonical, candidate).freezes[id];
      Authorized(freeze.affected) == Ok({a, b}) && FrozenChecks(freeze, {a, b}).Ok? && freeze.checks == Some([FileExists(a)])
  {
    var freeze := Rows(id, state, a, b, canonical, candidate).freezes[id];
    var raw := freeze.affected.value;
    assert raw[0] == Some(a) && raw[1] == Some(b) && |raw| == 2;
    assert (set k | 0 <= k < |raw| :: raw[k].value) == {a, b};
  }

  /** The L1 preflight accepts the situation. */
  lemma CanIntegrateStart(ignored: IgnoreRule, commands: CommandOracle, id: Id, a: Path, b: Path, canonical: Loc, candidate: Loc,
                          before: string, after: string)
    requires a != b && canonical != candidate && before != after && Hides(ignored, a, b, before, after)
    ensures var d, db := Start(a, b, canonical, candidate, before, after), Rows(id, CompletedPendingIntegration, a, b, canonical, candidate);
            var request := Asking(id, canonical, candidate);
      && L1.CanIntegrate(ignored, commands, d, db, request)
      && L1.ContextOf(ignored, d, request, L1.IntegrationRows(db, request).value) ==
           L1.IntegrationContext({a, b}, [FileExists(a)], {a}, map[a := Text(Newlines(after))], map[])
  {
    var d := Start(a, b, canonical, candidate, before, after);
    StartFacts(ignored, a, b, canonical, candidate, before, after);
    FrozenRows(id, CompletedPendingIntegration, a, b, canonical, candidate);
    RowsAccepted(id, a, b, canonical, candidate);
    CandidateAccepted(commands, d.checkouts[candidate].worktree, a, after);
    assert UntrackedFiles(ignored, d.checkouts[canonical]) == map[];
  }

  lemma CandidateAccepted(commands: CommandOracle, worktree: Tree, a: Path, after: string)
    requires At(worktree, a) == Some(Text(after))
    ensures L1.CaptureAccepted(commands, worktree, {a}, [FileExists(a)])
    ensures Readable(worktree, {a}) && Captured(worktree, {a}) == map[a := Text(Newlines(after))]
  {
    assert AsWritten(worktree[a]) == Some(Text(Newlines(after)));
    CheckPasses(commands, Candidate, worktree, a);
  }

  lemma RowsAccepted(id: Id, a: Path, b: Path, canonical: Loc, candidate: Loc)
    requires canonical != candidate
    ensures var db := Rows(id, CompletedPendingIntegration, a, b, canonical, candidate);
            var rows := L1.IntegrationRows(db, Asking(id, canonical, candidate));
            rows.Ok? && rows.value.freeze == db.freezes[id]
  {
    var db := Rows(id, CompletedPendingIntegration, a, b, canonical, candidate);
    var related := RelatedRows(db, id, CompletedPendingIntegration, WorkflowNotCompletedPendingIntegration);
    assert Find(db.tasks, Some(id)).Some? && Find(db.plans, Some(id)).Some? && Find(db.freezes, Some(id)).Some?;
    assert related.Ok? && related.value.freeze == db.freezes[id];
    assert TargetRepository(db, related.value.workflow, canonical).Ok?;
  }

  lemma CheckPasses(commands: CommandOracle, point: CheckPoint, worktree: Tree, a: Path)
    requires a in worktree
    ensures RunChecks(commands, point, worktree, [FileExists(a)]) == Some([FilePassed(FileExists(a), 0)])
    ensures CheckedPaths([FileExists(a)]) == {a}
  {
    var checks := [FileExists(a)];
    assert checks[1..] == [] && checks[0].path == a;
    assert RunChecks(commands, point, worktree, checks[1..]) == Some([]);
    assert [FilePassed(FileExists(a), 0)] + [] == [FilePassed(FileExists(a), 0)];
    assert forall p :: p in CheckedPaths(checks) <==> p == a;
  }

  /** A rollback that reports success can still have deleted a file: an ignored one at an authorized path. */
  lemma RollbackLosesIgnoredFile(commands: CommandOracle, id: Id, a: Path, b: Path, canonical: Loc, candidate: Loc,
                                 before: string, after: string, r: L1.IntegrationResult, d': DiskState, db': Db)
    requires a != b && canonical != candidate && before != after
    requires var d, db := Start(a, b, canonical, candidate, before, after), Rows(id, CompletedPendingIntegration, a, b, canonical, candidate);
      L1.IntegrateStep(Ignoring(b), commands, Asking(id, canonical, candidate), L1.Faults({L1.AppliedChanged}, {}, {}), d, db, r, d', db')
    ensures r.status == L1.Failed && r.rollbackSucceeded
    ensures b in Start(a, b, canonical, candidate, before, after).checkouts[canonical].worktree
    ensures canonical in d'.checkouts && b !in d'.checkouts[canonical].worktree
  {
    StartPrepared(commands, id, a, b, canonical, candidate, before, after);
    OnlyAppliedChanged();
    FaultedApplication(Ignoring(b), commands, Asking(id, canonical, candidate), Capture(a, b, after), L1.Faults({L1.AppliedChanged}, {}, {}),
                       Start(a, b, canonical, candidate, before, after), Rows(id, CompletedPendingIntegration, a, b, canonical, candidate), r, d', db');
    AfterStart(a, b, canonical, candidate, before, after);
  }

  /** The one fault is in reading the changed paths back after the files were written. */
  predicate FailsAfterWriting(faults: L1.Faults) {
    && faults.sites !! L1.PREFLIGHT_SITES && L1.AppliedChanged in faults.sites && faults.writes == {} == faults.restores
    && L1.Validation !in faults.sites && L1.Restoring !in faults.sites && L1.RestoredProtected !in faults.sites
    && L1.RestoredChanged !in faults.sites && L1.HeadAfterFailure !in faults.sites
  }

  lemma OnlyAppliedChanged()
    ensures FailsAfterWriting(L1.Faults({L1.AppliedChanged}, {}, {}))
  {
  }

  /** The preflight passes and hands on the context. */
  ghost predicate Prepared(ignored: IgnoreRule, commands: CommandOracle, request: L1.IntegrationRequest, context: L1.IntegrationContext,
                           d: DiskState, db: Db)
  {
    && d.Valid() && L1.CanIntegrate(ignored, commands, d, db, request)
    && L1.ContextOf(ignored, d, request, L1.IntegrationRows(db, request).value) == context
  }

  lemma StartPrepared(commands: CommandOracle, id: Id, a: Path, b: Path, canonical: Loc, candidate: Loc, before: string, after: string)
    requires a != b && canonical != candidate && before != after
    ensures Prepared(Ignoring(b), commands, Asking(id, canonical, candidate), Capture(a, b, after),
                     Start(a, b, canonical, candidate, before, after), Rows(id, CompletedPendingIntegration, a, b, canonical, candidate))
  {
    CanIntegrateStart(Ignoring(b), commands, id, a, b, canonical, candidate, before, after);
  }

  lemma FaultedApplication(ignored: IgnoreRule, commands: CommandOracle, request: L1.IntegrationRequest, context: L1.IntegrationContext,
                           faults: L1.Faults, d: DiskState, db: Db, r: L1.IntegrationResult, d': DiskState, db': Db)
    requires Prepared(ignored, commands, request, context, d, db) && context.protectedFiles == map[] && FailsAfterWriting(faults)
    requires L1.IntegrateStep(ignored, commands, request, faults, d, db, r, d', db')
    ensures r.status == L1.Failed && r.rollbackSucceeded && d' == L1.RolledBack(d, request.root, context.authorized)
  {
    assert L1.AppliedChanged in L1.APPLY_SITES;
  }

  /** Right after writing, the canonical checkout shows exactly the change to `a`. */
  lemma AppliedStart(commands: CommandOracle, a: Path, b: Path, canonical: Loc, candidate: Loc, before: string, after: string)
    requires a != b && canonical != candidate && before != after && before != Newlines(after)
    ensures var d := Start(a, b, canonical, candidate, before, after);
            var d1 := L1.WithWorktree(d, canonical, d.checkouts[canonical].worktree + map[a := Text(Newlines(after))]);
      && L1.ActualPaths(Ignoring(b), d1, canonical, map[]) == {a}
      && L1.AppliedWell(Ignoring(b), commands, d1, canonical,
                        L1.IntegrationContext({a, b}, [FileExists(a)], {a}, map[a := Text(Newlines(after))], map[]))
  {
    StartFacts(Ignoring(b), a, b, canonical, candidate, before, after);
    var d := Start(a, b, canonical, candidate, before, after);
    var d1 := L1.WithWorktree(d, canonical, d.checkouts[canonical].worktree + map[a := Text(Newlines(after))]);
    var c1 := d1.checkouts[canonical];
    assert At(c1.worktree, a) == Some(Text(Newlines(after))) && At(c1.index, a) == Some(Text(before));
    assert a in ChangedPaths(Ignoring(b), d1, canonical);
    assert forall p :: p in ChangedPaths(Ignoring(b), d1, canonical) ==> p == a;
    CheckPasses(commands, PostApply, c1.worktree, a);
  }

  function Capture(a: Path, b: Path, after: string): L1.IntegrationContext {
    L1.IntegrationContext({a, b}, [FileExists(a)], {a}, map[a := Text(Newlines(after))], map[])
  }

  /** The call gets as far as closing the workflow. */
  ghost predicate Applies(ignored: IgnoreRule, commands: CommandOracle, request: L1.IntegrationRequest, context: L1.IntegrationContext,
                          d: DiskState, db: Db)
  {
    && Prepared(ignored, commands, request, context, d, db)
    && L1.AppliedWell(ignored, commands, L1.WithWorktree(d, request.root, d.checkouts[request.root].worktree + context.files),
                      request.root, context)
  }

  lemma StartApplies(commands: CommandOracle, id: Id, a: Path, b: Path, canonical: Loc, candidate: Loc, before: string, after: string)
    requires a != b && canonical != candidate && before != after && before != Newlines(after)
    ensures Applies(Ignoring(b), commands, Asking(id, canonical, candidate), Capture(a, b, after),
                    Start(a, b, canonical, candidate, before, after), Rows(id, CompletedPendingIntegration, a, b, canonical, candidate))
  {
    CanIntegrateStart(Ignoring(b), commands, id, a, b, canonical, candidate, before, after);
    AppliedStart(commands, a, b, canonical, candidate, before, after);
  }

  lemma AfterStart(a: Path, b: Path, canonical: Loc, candidate: Loc, before: string, after: string)
    requires a != b && canonical != candidate && before != after
    ensures var d := Start(a, b, canonical, candidate, before, after);
            var back, applied := L1.RolledBack(d, canonical, {a, b}), L1.WithWorktree(d, canonical, d.checkouts[canonical].worktree + Capture(a, b, after).files);
      && back.checkouts.Keys == {canonical, candidate} == applied.checkouts.Keys
      && At(back.checkouts[canonical].worktree, a) == Some(Text(before)) && At(back.checkouts[canonical].worktree, b) == None
      && At(applied.checkouts[canonical].worktree, a) == Some(Text(Newlines(after)))
      && At(applied.checkouts[candidate].worktree, a) == Some(Text(after))
  {
    var d := Start(a, b, canonical, candidate, before, after);
    var back := L1.RolledBack(d, canonical, {a, b});
    assert At(back.checkouts[canonical].worktree, a) == At(d.HeadTree(canonical), a);
    assert At(back.checkouts[canonical].worktree, b) == At(d.HeadTree(canonical), b);
  }

  /** A fault in the last head read comes after the workflow was closed: the files are rolled back and
      the call reports a successful rollback, but the workflow stays closed. */
  lemma RolledBackButClosed(commands: CommandOracle, id: Id, a: Path, b: Path, canonical: Loc, candidate: Loc,
                            before: string, after: string, r: L1.IntegrationResult, d': DiskState, db': Db)
    requires a != b && canonical != candidate && before != after && before != Newlines(after)
    requires var d, db := Start(a, b, canonical, candidate, before, after), Rows(id, CompletedPendingIntegration, a, b, canonical, candidate);
      L1.IntegrateStep(Ignoring(b), commands, Asking(id, canonical, candidate), L1.Faults({L1.HeadAtReturn}, {}, {}), d, db, r, d', db')
    ensures r.status == L1.Failed && r.rollbackSucceeded
    ensures d'.checkouts.Keys == {canonical, candidate} && At(d'.checkouts[canonical].worktree, a) == Some(Text(before))
    ensures id in db'.workflows && db'.workflows[id].state == Closed
  {
    StartApplies(commands, id, a, b, canonical, candidate, before, after);
    AfterStart(a, b, canonical, candidate, before, after);
    OnlyHeadAtReturn();
    ClosedApplication(Ignoring(b), commands, Asking(id, canonical, candidate), Capture(a, b, after), L1.Faults({L1.HeadAtReturn}, {}, {}),
                      Start(a, b, canonical, candidate, before, after), Rows(id, CompletedPendingIntegration, a, b, canonical, candidate), r, d', db');
  }

  predicate FailsAtReturn(faults: L1.Faults) {
    && faults.sites !! L1.PREFLIGHT_SITES && faults.sites !! L1.APPLY_SITES && L1.HeadAtReturn in faults.sites
    && faults.writes == {} == faults.restores
    && L1.Validation !in faults.sites && L1.Restoring !in faults.sites && L1.RestoredProtected !in faults.sites
    && L1.RestoredChanged !in faults.sites && L1.HeadAfterFailure !in faults.sites
  }

  lemma OnlyHeadAtReturn()
    ensures FailsAtReturn(L1.Faults({L1.HeadAtReturn}, {}, {}))
  {
  }

  lemma ClosedApplication(ignored: IgnoreRule, commands: CommandOracle, request: L1.IntegrationRequest, context: L1.IntegrationContext,
                          faults: L1.Faults, d: DiskState, db: Db, r: L1.IntegrationResult, d': DiskState, db': Db)
    requires Applies(ignored, commands, request, context, d, db) && FailsAtReturn(faults) && context.protectedFiles == map[]
    requires L1.IntegrateStep(ignored, commands, request, faults, d, db, r, d', db')
    ensures r.status == L1.Failed && r.rollbackSucceeded && d' == L1.RolledBack(d, request.root, context.authorized)
    ensures request.workflowId in db.workflows && db' == L1.CloseWorkflow(db, request.workflowId)
  {
  }

  /** A candidate file with a carriage return is not promoted as it is. */
  lemma CarriageReturnIsLost(commands: CommandOracle, id: Id, a: Path, b: Path, canonical: Loc, candidate: Loc,
                             before: string, after: string, r: L1.IntegrationResult, d': DiskState, db': Db)
    requires a != b && canonical != candidate && before != after && before != Newlines(after) && '\r' in after
    requires var d, db := Start(a, b, canonical, candidate, before, after), Rows(id, CompletedPendingIntegration, a, b, canonical, candidate);
      L1.IntegrateStep(Ignoring(b), commands, Asking(id, canonical, candidate), L1.Faults({}, {}, {}), d, db, r, d', db')
    ensures r.status == L1.Completed
    ensures d'.checkouts.Keys == {canonical, candidate}
    ensures At(d'.checkouts[canonical].worktree, a) != At(d'.checkouts[candidate].worktree, a)
  {
    StartApplies(commands, id, a, b, canonical, candidate, before, after);
    AfterStart(a, b, canonical, candidate, before, after);
    NewlinesFixed(after);
    FaultFreeApplication(Ignoring(b), commands, Asking(id, canonical, candidate), Capture(a, b, after),
                         Start(a, b, canonical, candidate, before, after), Rows(id, CompletedPendingIntegration, a, b, canonical, candidate), r, d', db');
  }

  lemma FaultFreeApplication(ignored: IgnoreRule, commands: CommandOracle, request: L1.IntegrationRequest, context: L1.IntegrationContext,
                             d: DiskState, db: Db, r: L1.IntegrationResult, d': DiskState, db': Db)
    requires Applies(ignored, commands, request, context, d, db)
    requires L1.IntegrateStep(ignored, commands, request, L1.Faults({}, {}, {}), d, db, r, d', db')
    ensures r.status == L1.Completed && d' == L1.WithWorktree(d, request.root, d.checkouts[request.root].worktree + context.files)
    ensures request.workflowId in db.workflows && db' == L1.CloseWorkflow(db, request.workflowId)
    ensures r.candidateChanged == context.changed
  {
  }

  /** What that call leaves behind: the integration is in the canonical worktree, waiting for its commit. */
  function Integrated(a: Path, b: Path, canonical: Loc, candidate: Loc, before: string, after: string): DiskState {
    var d := Start(a, b, canonical, candidate, before, after);
    L1.WithWorktree(d, canonical, d.checkouts[canonical].worktree + Capture(a, b, after).files)
  }

  lemma ClosedRows(id: Id, a: Path, b: Path, canonical: Loc, candidate: Loc)
    ensures L1.CloseWorkflow(Rows(id, CompletedPendingIntegration, a, b, canonical, candidate), id) == Rows(id, Closed, a, b, canonical, candidate)
  {
  }

  function Committing(id: Id, canonical: Loc, message: Option<string>): L2.CommitRequest {
    L2.CommitRequest(id, canonical, 1, Authority.L2, message, map[])
  }

  /** A call that reports FAILED, with no commit named, can have created one: the head could not be read back. */
  lemma FailedCallCommitted(commands: CommandOracle, id: Id, a: Path, b: Path, canonical: Loc, candidate: Loc, message: Option<string>,
                            before: string, after: string, r: L2.CommitResult, d': DiskState, db': Db)
    requires a != b && canonical != candidate && before != Newlines(after) && L2.Named(message, id)
    requires L2.CommitStep(Ignoring(b), commands, Committing(id, canonical, message), {L2.HeadAfterCommit},
                           Integrated(a, b, canonical, candidate, before, after), Rows(id, Closed, a, b, canonical, candidate), r, d', db')
    ensures r.status == L2.Failed
    ensures canonical in d'.checkouts && d'.checkouts[canonical].head != 1 && db'.records == []
  {
    CanCommitIntegrated(commands, id, a, b, canonical, candidate, message, before, after);
    HeadLost(Ignoring(b), commands, Committing(id, canonical, message), Integrated(a, b, canonical, candidate, before, after),
             Rows(id, Closed, a, b, canonical, candidate), r, d', db');
  }

  /** Ready to commit, with checks that say the same every time. */
  predicate Steady(ignored: IgnoreRule, commands: CommandOracle, request: L2.CommitRequest, d: DiskState, db: Db) {
    && d.Valid() && L2.CanCommit(ignored, commands, d, db, request)
    && L2.SameEvidence(commands, d, db, request, CommitPreflight, PreCommit)
    && L2.SameEvidence(commands, d, db, request, CommitPreflight, PostCommit)
  }

  lemma OnlyHeadAfterCommit(faults: set<L2.Site>)
    requires faults == {L2.HeadAfterCommit} || faults == {}
    ensures L2.NoFault(faults, L2.InPreflight) && L2.NoFault(faults, L2.InRecheck) && L2.NoFault(faults, L2.InStaging) && L2.NoFault(faults, L2.InCreation)
    ensures L2.NoFault(faults, L2.InVerification)
  {
  }

  lemma Reaches(ignored: IgnoreRule, commands: CommandOracle, request: L2.CommitRequest, faults: set<L2.Site>, d: DiskState, db: Db)
    requires Steady(ignored, commands, request, d, db) && (faults == {L2.HeadAfterCommit} || faults == {})
    ensures L2.ReachesCommit(ignored, commands, d, db, request, faults) && L2.Verifies(commands, d, db, request, faults)
  {
    OnlyHeadAfterCommit(faults);
  }

  lemma HeadLost(ignored: IgnoreRule, commands: CommandOracle, request: L2.CommitRequest, d: DiskState, db: Db,
                 r: L2.CommitResult, d': DiskState, db': Db)
    requires Steady(ignored, commands, request, d, db) && request.root in d.checkouts
    requires L2.CommitStep(ignored, commands, request, {L2.HeadAfterCommit}, d, db, r, d', db')
    ensures r.status == L2.Failed && L2.CommitsExactly(d, request.root, L2.CommitPaths(ignored, d, request), d') && db' == db
  {
    Reaches(ignored, commands, request, {L2.HeadAfterCommit}, d, db);
  }

  lemma FaultFreeCommit(ignored: IgnoreRule, commands: CommandOracle, request: L2.CommitRequest, d: DiskState, db: Db,
                        r: L2.CommitResult, d': DiskState, db': Db)
    requires Steady(ignored, commands, request, d, db) && request.root in d.checkouts
    requires L2.CommitStep(ignored, commands, request, {}, d, db, r, d', db')
    ensures r.status == L2.Completed
  {
    Reaches(ignored, commands, request, {}, d, db);
  }

  /** Without faults the promotion goes through: both steps complete, with any one-line message, or without
      one, and then the record names the task. */
  lemma PromotionGoesThrough(commands: CommandOracle, id: Id, a: Path, b: Path, canonical: Loc, candidate: Loc, message: Option<string>,
                             before: string, after: string, r1: L1.IntegrationResult, d1: DiskState, db1: Db,
                             r2: L2.CommitResult, d2: DiskState, db2: Db)
    requires a != b && canonical != candidate && before != after && before != Newlines(after) && L2.Named(message, id)
    requires L1.IntegrateStep(Ignoring(b), commands, Asking(id, canonical, candidate), L1.Faults({}, {}, {}),
                              Start(a, b, canonical, candidate, before, after),
                              Rows(id, CompletedPendingIntegration, a, b, canonical, candidate), r1, d1, db1)
    requires d1.Valid() && L2.CommitStep(Ignoring(b), commands, Committing(id, canonical, message), {}, d1, db1, r2, d2, db2)
    ensures r1.status == L1.Completed && r2.status == L2.Completed
    ensures |db2.records| == 1 && db2.records[0].message == if message.Some? then message.value else "lucius: complete " + id
  {
    StartApplies(commands, id, a, b, canonical, candidate, before, after);
    FaultFreeApplication(Ignoring(b), commands, Asking(id, canonical, candidate), Capture(a, b, after),
                         Start(a, b, canonical, candidate, before, after), Rows(id, CompletedPendingIntegration, a, b, canonical, candidate), r1, d1, db1);
    ClosedRows(id, a, b, canonical, candidate);
    CanCommitIntegrated(commands, id, a, b, canonical, candidate, message, before, after);
    FaultFreeCommit(Ignoring(b), commands, Committing(id, canonical, message), d1, db1, r2, d2, db2);
    Completion.StoredRecordExactly(Ignoring(b), commands, Committing(id, canonical, message), {}, d1, db1, r2, d2, db2);
  }

  lemma CanCommitIntegrated(commands: CommandOracle, id: Id, a: Path, b: Path, canonical: Loc, candidate: Loc, message: Option<string>,
                            before: string, after: string)
    requires a != b && canonical != candidate && before != Newlines(after) && L2.Named(message, id)
    ensures Steady(Ignoring(b), commands, Committing(id, canonical, message), Integrated(a, b, canonical, candidate, before, after),
                   Rows(id, Closed, a, b, canonical, candidate))
    ensures canonical in Integrated(a, b, canonical, candidate, before, after).checkouts
  {
    CommitRowsAccepted(id, a, b, canonical, candidate, message);
    Completion.MessageExactly(message, id);
    FrozenRows(id, Closed, a, b, canonical, candidate);
    ChangesReady(commands, id, a, b, canonical, candidate, message, before, after);
    ReadyIsSteady(Ignoring(b), commands, Committing(id, canonical, message), Integrated(a, b, canonical, candidate, before, after),
                  Rows(id, Closed, a, b, canonical, candidate), {a, b}, [FileExists(a)]);
  }

  lemma ReadyIsSteady(ignored: IgnoreRule, commands: CommandOracle, request: L2.CommitRequest, d: DiskState, db: Db,
                      authorized: set<Path>, checks: seq<Check>)
    requires L2.CommitRows(db, request).Ok? && db.records == [] && d.Valid() && request.root in d.checkouts
    requires var rows := L2.CommitRows(db, request).value.0;
      && Authorized(rows.freeze.affected) == Ok(authorized) && FrozenChecks(rows.freeze, authorized).Ok?
      && rows.freeze.checks == Some(checks) && L2.CommitMessage(request.message, rows.taskId).Ok?
    requires L2.AtBaseline(ignored, d, request, authorized) && L2.Committable(ignored, commands, d, request, authorized, checks)
    requires forall point :: RunChecks(commands, CommitPreflight, d.checkouts[request.root].worktree, checks) ==
                             RunChecks(commands, point, d.checkouts[request.root].worktree, checks)
    ensures Steady(ignored, commands, request, d, db)
  {
  }

  lemma ChangesReady(commands: CommandOracle, id: Id, a: Path, b: Path, canonical: Loc, candidate: Loc, message: Option<string>,
                     before: string, after: string)
    requires a != b && canonical != candidate && before != Newlines(after)
    ensures var d, request, checks := Integrated(a, b, canonical, candidate, before, after), Committing(id, canonical, message), [FileExists(a)];
      && d.Valid() && L2.AtBaseline(Ignoring(b), d, request, {a, b})
      && L2.Committable(Ignoring(b), commands, d, request, {a, b}, checks)
      && forall point :: RunChecks(commands, CommitPreflight, d.checkouts[canonical].worktree, checks) ==
                         RunChecks(commands, point, d.checkouts[canonical].worktree, checks)
  {
    var d, request := Integrated(a, b, canonical, candidate, before, after), Committing(id, canonical, message);
    var c := d.checkouts[canonical];
    assert At(c.worktree, a) == Some(Text(Newlines(after))) && At(c.index, a) == Some(Text(before));
    assert a in L2.CommitPaths(Ignoring(b), d, request);
    assert forall p :: p in L2.CommitPaths(Ignoring(b), d, request) ==> p == a;
    forall point
      ensures RunChecks(commands, point, c.worktree, [FileExists(a)]) == Some([FilePassed(FileExists(a), 0)])
    {
      CheckPasses(commands, point, c.worktree, a);
    }
    CheckPasses(commands, CommitPreflight, c.worktree, a);
  }

  lemma CommitRowsAccepted(id: Id, a: Path, b: Path, canonical: Loc, candidate: Loc, message: Option<string>)
    ensures var db := Rows(id, Closed, a, b, canonical, candidate);
            var rows := L2.CommitRows(db, Committing(id, canonical, message));
            rows.Ok? && rows.value.0.freeze == db.freezes[id] && rows.value.0.taskId == id
  {
    var db := Rows(id, Closed, a, b, canonical, candidate);
    var related := RelatedRows(db, id, Closed, WorkflowNotClosed);
    assert Find(db.tasks, Some(id)).Some? && Find(db.plans, Some(id)).Some? && Find(db.freezes, Some(id)).Some?;
    assert related.Ok? && related.value.freeze == db.freezes[id];
    assert Find(db.contracts, Some(id)) == Some(Contract(id, 1, true, Authority.L2));
    assert TargetRepository(db, related.value.workflow, canonical).Ok?;
  }

  // ----- a file that the writes un-ignore -----

  /** `a` is the file that says `b` is ignored, as long as it is what it was. */
  function IgnoringUntil(a: Path, b: Path, before: string): IgnoreRule {
    (worktree, path) => path == b && At(worktree, a) == Some(Text(before))
  }

  lemma UnignoredApplies(commands: CommandOracle, id: Id, a: Path, b: Path, canonical: Loc, candidate: Loc, before: string, after: string)
    requires a != b && canonical != candidate && before != after && before != Newlines(after)
    ensures Applies(IgnoringUntil(a, b, before), commands, Asking(id, canonical, candidate), Capture(a, b, after),
                    Start(a, b, canonical, candidate, before, after), Rows(id, CompletedPendingIntegration, a, b, canonical, candidate))
    ensures b in Unhidden(IgnoringUntil(a, b, before), Start(a, b, canonical, candidate, before, after).checkouts[canonical],
                          Integrated(a, b, canonical, candidate, before, after).checkouts[canonical].worktree)
  {
    CanIntegrateStart(IgnoringUntil(a, b, before), commands, id, a, b, canonical, candidate, before, after);
    UnignoredShows(commands, a, b, canonical, candidate, before, after);
  }

  lemma UnignoredShows(commands: CommandOracle, a: Path, b: Path, canonical: Loc, candidate: Loc, before: string, after: string)
    requires a != b && canonical != candidate && before != after && before != Newlines(after)
    ensures var d1, ignored := Integrated(a, b, canonical, candidate, before, after), IgnoringUntil(a, b, before);
      && L1.ActualPaths(ignored, d1, canonical, map[]) == {a, b}
      && L1.AppliedWell(ignored, commands, d1, canonical, Capture(a, b, after))
      && b in Unhidden(ignored, Start(a, b, canonical, candidate, before, after).checkouts[canonical], d1.checkouts[canonical].worktree)
  {
    var d1, ignored := Integrated(a, b, canonical, candidate, before, after), IgnoringUntil(a, b, before);
    var c1 := d1.checkouts[canonical];
    assert At(c1.worktree, a) == Some(Text(Newlines(after))) && At(c1.index, a) == Some(Text(before));
    assert a in ChangedPaths(ignored, d1, canonical) && b in UntrackedPaths(ignored, c1);
    assert forall p :: p in ChangedPaths(ignored, d1, canonical) ==> p == a || p == b;
    CheckPasses(commands, PostApply, c1.worktree, a);
  }

  lemma RefusedCommit(ignored: IgnoreRule, commands: CommandOracle, request: L2.CommitRequest, faults: set<L2.Site>,
                      d: DiskState, db: Db, r: L2.CommitResult, d': DiskState, db': Db)
    requires d.Valid() && !L2.CanCommit(ignored, commands, d, db, request) && db.records == []
    requires L2.CommitStep(ignored, commands, request, faults, d, db, r, d', db')
    ensures r.status == L2.Failed && d'.commits == d.commits && db' == db
  {
  }

  /** L1 completes and closes the workflow although its writes un-ignored another authorized file; every
      L2 call for that plan then fails, so the integration is never committed. */
  lemma UnignoredFileBlocksCommit(commands: CommandOracle, id: Id, a: Path, b: Path, canonical: Loc, candidate: Loc,
                                  before: string, after: string, r1: L1.IntegrationResult, d1: DiskState, db1: Db,
                                  request2: L2.CommitRequest, faults2: set<L2.Site>, r2: L2.CommitResult, d2: DiskState, db2: Db)
    requires a != b && canonical != candidate && before != after && before != Newlines(after)
    requires L1.IntegrateStep(IgnoringUntil(a, b, before), commands, Asking(id, canonical, candidate), L1.Faults({}, {}, {}),
                              Start(a, b, canonical, candidate, before, after),
                              Rows(id, CompletedPendingIntegration, a, b, canonical, candidate), r1, d1, db1)
    requires d1.Valid() && request2.workflowId == id
    requires L2.CommitStep(IgnoringUntil(a, b, before), commands, request2, faults2, d1, db1, r2, d2, db2)
    ensures r1.status == L1.Completed && db1 == Rows(id, Closed, a, b, canonical, candidate)
    ensures r2.status == L2.Failed && d2.commits == d1.commits && db2 == db1
  {
    var ignored, d, db := IgnoringUntil(a, b, before), Start(a, b, canonical, candidate, before, after),
                          Rows(id, CompletedPendingIntegration, a, b, canonical, candidate);
    UnignoredApplies(commands, id, a, b, canonical, candidate, before, after);
    FaultFreeApplication(ignored, commands, Asking(id, canonical, candidate), Capture(a, b, after), d, db, r1, d1, db1);
    ClosedRows(id, a, b, canonical, candidate);
    UnhiddenBlocksCommit(ignored, commands, Asking(id, canonical, candidate), L1.Faults({}, {}, {}), r1, request2, d, db, d1, db1);
    RefusedCommit(ignored, commands, request2, faults2, d1, db1, r2, d2, db2);
  }
}
