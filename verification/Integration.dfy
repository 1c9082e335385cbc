/** The L1 step: a frozen plan's candidate worktree is copied into the canonical
    worktree, with rollback on failure. */
module Integration {
  import opened Prelude
  import opened Git
  import opened Acceptance
  import opened Disk
  import opened Session

  datatype IntegrationRequest = IntegrationRequest(
    workflowId: Id, root: Loc, candidate: Loc, baseline: Sha, canonicalAccess: bool, authority: Authority)

  /** Escaped: an exception left the call, so there is no result object at all. */
  datatype IntegrationStatus = Completed | Failed | RollbackFailed | Escaped

  datatype IntegrationResult = IntegrationResult(
    status: IntegrationStatus, reason: Reason, candidateChanged: set<Path>, applied: set<Path>, actual: set<Path>,
    protectedFiles: Tree, rollbackAttempted: bool, rollbackSucceeded: bool)

  datatype Site =
    | HeadRead | StagedRead | TrackedRead | UntrackedRead
    | CandidateHead | CandidateChanged | CandidateAcceptance | CandidateText
    | Validation | AppliedChanged | AppliedProtected | AppliedAcceptance | HeadAtReturn
    | Restoring | RestoredProtected | RestoredChanged | HeadAfterFailure

  /** Faulting sites, the paths whose write raises, and the paths whose restore fails. */
  datatype Faults = Faults(sites: set<Site>, writes: set<Path>, restores: set<Path>)

  const PREFLIGHT_SITES: set<Site> :=
    {HeadRead, StagedRead, TrackedRead, UntrackedRead, CandidateHead, CandidateChanged, CandidateAcceptance, CandidateText}

  lemma PreflightSites(sites: set<Site>)
    ensures sites !! PREFLIGHT_SITES <==>
            && HeadRead !in sites && StagedRead !in sites && TrackedRead !in sites && UntrackedRead !in sites
            && CandidateHead !in sites && CandidateChanged !in sites && CandidateAcceptance !in sites && CandidateText !in sites
  {
  }

  const APPLY_SITES: set<Site> := {AppliedChanged, AppliedProtected, AppliedAcceptance}

  datatype IntegrationContext = IntegrationContext(
    authorized: set<Path>, checks: seq<Check>, changed: set<Path>, files: Tree, protectedFiles: Tree)

  /** Access mode, authority, workflow, plan, repository, workspace and baseline guards, in order. */
  function IntegrationRows(db: Db, request: IntegrationRequest): Result<Rows> {
    var authority := request.authority;
    :- Need(request.canonicalAccess, CanonicalIntegrationAccessModeRequired);
    :- Need(authority == L1, L1AuthorityRequired);
    var rows :- RelatedRows(db, request.workflowId, CompletedPendingIntegration, WorkflowNotCompletedPendingIntegration);
    IntegrationGuards(db, request, rows)
  }

  function IntegrationGuards(db: Db, request: IntegrationRequest, rows: Rows): Result<Rows> {
    var workflow := rows.workflow;
    :- Need(Rank(rows.plan.requiredAuthority, 99) <= 1, PlanAuthorityExceedsL1);
    :- Need(workflow.authorityTier == L1, WorkflowL1AuthorityRequired);
    var _ :- TargetRepository(db, workflow, request.root);
    :- Need(request.candidate == workflow.worktree, CandidateWorkspaceMismatch);
    :- Need(request.candidate != request.root, CandidateWorkspaceMustBeIsolated);
    :- BaselineAgreed(rows.freeze, request.baseline);
    Ok(rows)
  }

  /** The rows and the request an integration may work with, field by field. */
  predicate IntegrationInOrder(db: Db, request: IntegrationRequest) {
    && request.canonicalAccess && request.authority == L1
    && PlanInOrder(db, request.workflowId)
    && var workflow := db.workflows[request.workflowId];
       && workflow.state == CompletedPendingIntegration && workflow.authorityTier == L1
       && (db.plans[workflow.planId.value].requiredAuthority == L0 || db.plans[workflow.planId.value].requiredAuthority == L1)
       && PlaceInOrder(db, workflow, request.root)
       && request.candidate == workflow.worktree && request.candidate != request.root
       && db.freezes[workflow.freezeId.value].commitSha == Some(request.baseline)
  }

  /** The guards admit exactly the requests that are in order, and pass on the workflow's own frozen plan. */
  lemma IntegrationAdmitsExactly(db: Db, request: IntegrationRequest)
    ensures IntegrationRows(db, request).Ok? <==> IntegrationInOrder(db, request)
    ensures IntegrationInOrder(db, request) ==>
      IntegrationRows(db, request).value.freeze == db.freezes[db.workflows[request.workflowId].freezeId.value]
  {
    RelatedRowsExactly(db, request.workflowId, CompletedPendingIntegration, WorkflowNotCompletedPendingIntegration);
    if request.workflowId in db.workflows {
      TargetExactly(db, db.workflows[request.workflowId], request.root);
    }
  }

  /** What a refusal by the guards says of the rows and the request. */
  predicate IntegrationRefused(db: Db, request: IntegrationRequest, reason: Reason) {
    || (reason == CanonicalIntegrationAccessModeRequired && !request.canonicalAccess)
    || (reason == L1AuthorityRequired && request.authority != L1)
    || PlanRefused(db, request.workflowId, reason)
    || (request.workflowId in db.workflows && WorkflowRefused(db, db.workflows[request.workflowId], request, reason))
  }

  predicate WorkflowRefused(db: Db, workflow: Workflow, request: IntegrationRequest, reason: Reason) {
    || (reason == WorkflowNotCompletedPendingIntegration && workflow.state != CompletedPendingIntegration)
    || (reason == WorkflowL1AuthorityRequired && workflow.authorityTier != L1)
    || (reason == CandidateWorkspaceMismatch && request.candidate != workflow.worktree)
    || (reason == CandidateWorkspaceMustBeIsolated && request.candidate == request.root)
    || PlaceRefused(db, workflow, request.root, reason)
    || (Planned(db, workflow) &&
        (|| BaselineRefused(db.freezes[workflow.freezeId.value], request.baseline, reason)
         || (reason == PlanAuthorityExceedsL1 && db.plans[workflow.planId.value].requiredAuthority != L0 &&
             db.plans[workflow.planId.value].requiredAuthority != L1)))
  }

  lemma IntegrationRefusalTells(db: Db, request: IntegrationRequest)
    ensures IntegrationRows(db, request).Fail? ==> IntegrationRefused(db, request, IntegrationRows(db, request).reason)
  {
    RefusalTells(db, request.workflowId, CompletedPendingIntegration, WorkflowNotCompletedPendingIntegration);
    RelatedRowsExactly(db, request.workflowId, CompletedPendingIntegration, WorkflowNotCompletedPendingIntegration);
    var related := RelatedRows(db, request.workflowId, CompletedPendingIntegration, WorkflowNotCompletedPendingIntegration);
    if related.Ok? {
      GuardRefusalTells(db, request, related.value);
    }
  }

  lemma GuardRefusalTells(db: Db, request: IntegrationRequest, rows: Rows)
    requires Planned(db, rows.workflow)
    requires rows.plan == db.plans[rows.workflow.planId.value] && rows.freeze == db.freezes[rows.workflow.freezeId.value]
    ensures IntegrationGuards(db, request, rows).Fail? ==>
      WorkflowRefused(db, rows.workflow, request, IntegrationGuards(db, request, rows).reason)
  {
    PlaceRefusalTells(db, rows.workflow, request.root);
  }

  /** The canonical checkout sits clean on the baseline, and its untracked files are out of reach. */
  predicate CanonicalReady(ignored: IgnoreRule, d: DiskState, request: IntegrationRequest, authorized: set<Path>)
    requires d.Valid()
  {
    && request.root in d.checkouts
    && d.checkouts[request.root].head == request.baseline
    && StagedPaths(d, request.root) == {}
    && TrackedChanges(d.checkouts[request.root]) == {}
    && UntrackedPaths(ignored, d.checkouts[request.root]) !! authorized
  }

  /** Every file check passes on the captured contents; a check on a file that was not captured fails. */
  predicate ContentAccepted(files: Tree, checks: seq<Check>) {
    forall k :: 0 <= k < |checks| && !checks[k].CommandSucceeds? ==> RunFileCheck(files, checks[k]).Some?
  }

  /** The candidate sits on the baseline and changes only authorized, checked, accepted text files. */
  predicate CandidateReady(ignored: IgnoreRule, commands: CommandOracle, d: DiskState, request: IntegrationRequest,
                           authorized: set<Path>, checks: seq<Check>)
    requires d.Valid()
  {
    && request.candidate in d.checkouts
    && d.checkouts[request.candidate].head == request.baseline
    && var worktree, changed := d.checkouts[request.candidate].worktree, ChangedPaths(ignored, d, request.candidate);
       && changed != {} && changed <= authorized
       && CaptureAccepted(commands, worktree, changed, checks)
  }

  /** The changed files are checked, accepted, readable text, and accepted again as captured. */
  predicate CaptureAccepted(commands: CommandOracle, worktree: Tree, changed: set<Path>, checks: seq<Check>) {
    && RunChecks(commands, Candidate, worktree, checks).Some?
    && changed <= CheckedPaths(checks)
    && Readable(worktree, changed)
    && ContentAccepted(Captured(worktree, changed), checks)
  }

  predicate CanIntegrate(ignored: IgnoreRule, commands: CommandOracle, d: DiskState, db: Db, request: IntegrationRequest)
    requires d.Valid()
  {
    && IntegrationRows(db, request).Ok?
    && Integrable(ignored, commands, d, request, IntegrationRows(db, request).value)
  }

  predicate Integrable(ignored: IgnoreRule, commands: CommandOracle, d: DiskState, request: IntegrationRequest, rows: Rows)
    requires d.Valid()
  {
    var authorized := Authorized(rows.freeze.affected);
    && authorized.Ok? && FrozenChecks(rows.freeze, authorized.value).Ok?
    && CanonicalReady(ignored, d, request, authorized.value)
    && CandidateReady(ignored, commands, d, request, authorized.value, rows.freeze.checks.value)
  }

  /** The context a passed preflight hands on. */
  function ContextOf(ignored: IgnoreRule, d: DiskState, request: IntegrationRequest, rows: Rows): IntegrationContext
    requires d.Valid() && request.root in d.checkouts && request.candidate in d.checkouts
    requires Authorized(rows.freeze.affected).Ok? && rows.freeze.checks.Some?
    requires Readable(d.checkouts[request.candidate].worktree, ChangedPaths(ignored, d, request.candidate))
  {
    var changed := ChangedPaths(ignored, d, request.candidate);
    IntegrationContext(Authorized(rows.freeze.affected).value, rows.freeze.checks.value, changed,
                       Captured(d.checkouts[request.candidate].worktree, changed), UntrackedFiles(ignored, d.checkouts[request.root]))
  }

  /** What a refusal after the guards says of the canonical checkout. */
  predicate CanonicalRefused(d: DiskState, request: IntegrationRequest, sites: set<Site>, reason: Reason)
    requires d.Valid()
  {
    || (reason == GitCommandFailed && (HeadRead in sites || request.root !in d.checkouts))
    || (reason == GitStatusFailed && (StagedRead in sites || TrackedRead in sites || UntrackedRead in sites))
    || (request.root in d.checkouts &&
        (|| (reason == CanonicalHeadDrift && d.checkouts[request.root].head != request.baseline)
         || (reason == PreexistingStagedChanges && d.checkouts[request.root].index != d.HeadTree(request.root))
         || (reason == PreexistingTrackedChanges && TrackedChanges(d.checkouts[request.root]) != {})))
  }

  /** What it says of the candidate and what it changed. */
  predicate CandidateRefused(ignored: IgnoreRule, commands: CommandOracle, d: DiskState, candidate: Loc, baseline: Sha,
                             authorized: set<Path>, checks: seq<Check>, sites: set<Site>, reason: Reason)
    requires d.Valid()
  {
    || (reason == GitCommandFailed && (CandidateHead in sites || candidate !in d.checkouts))
    || (reason == GitStatusFailed && CandidateChanged in sites)
    || (candidate in d.checkouts &&
        (|| (reason == CandidateHeadBaselineMismatch && d.checkouts[candidate].head != baseline)
         || (reason == CandidateHasUnauthorizedChanges && !(ChangedPaths(ignored, d, candidate) <= authorized))
         || (reason == CandidateHasNoGitChanges && ChangedPaths(ignored, d, candidate) == {})
         || CaptureRefused(commands, d, candidate, ChangedPaths(ignored, d, candidate), checks, sites, reason)))
  }

  predicate CaptureRefused(commands: CommandOracle, d: DiskState, candidate: Loc, changed: set<Path>, checks: seq<Check>,
                           sites: set<Site>, reason: Reason)
    requires candidate in d.checkouts
  {
    var worktree := d.checkouts[candidate].worktree;
    || (reason == DeterministicAcceptanceReadFailed && CandidateAcceptance in sites)
    || (reason == DeterministicAcceptanceFailed && RunChecks(commands, Candidate, worktree, checks).None?)
    || (reason == CandidateChangeMissingDeterministicAcceptanceCheck && !(changed <= CheckedPaths(checks)))
    || Unreadable(d, candidate, changed, CandidateText in sites, reason)
    || (reason == CandidateCapturedContentMismatch && Readable(worktree, changed) && !ContentAccepted(Captured(worktree, changed), checks))
  }

  /** What a refusal of a request that is in order says. */
  predicate PreflightRefused(ignored: IgnoreRule, commands: CommandOracle, d: DiskState, request: IntegrationRequest, freeze: Freeze,
                             sites: set<Site>, reason: Reason)
    requires d.Valid()
  {
    || CanonicalRefused(d, request, sites, reason) || ListsRefused(freeze, reason)
    || (reason == ProtectedUntrackedPathAuthorizedForMutation && request.root in d.checkouts && freeze.affected.Some? &&
        exists p :: p in UntrackedPaths(ignored, d.checkouts[request.root]) && Some(p) in freeze.affected.value)
    || (UsableLists(freeze) &&
        CandidateRefused(ignored, commands, d, request.candidate, request.baseline, Listed(freeze.affected.value), freeze.checks.value,
                         sites, reason))
  }

  function WithWorktree(d: DiskState, root: Loc, worktree: Tree): DiskState
    requires root in d.checkouts
  {
    d.(checkouts := d.checkouts[root := d.checkouts[root].(worktree := worktree)])
  }

  /** What changed in the canonical checkout besides the protected files. */
  function ActualPaths(ignored: IgnoreRule, d: DiskState, root: Loc, protectedFiles: Tree): set<Path>
    requires d.Valid() && root in d.checkouts
  {
    ChangedPaths(ignored, d, root) - protectedFiles.Keys
  }

  /** After the files are written: protected files intact, nothing unauthorized changed, every
      intended write visible, and the frozen checks pass. */
  predicate AppliedWell(ignored: IgnoreRule, commands: CommandOracle, d: DiskState, root: Loc, context: IntegrationContext)
    requires d.Valid() && root in d.checkouts
  {
    var actual := ActualPaths(ignored, d, root, context.protectedFiles);
    && UntrackedIntact(ignored, d.checkouts[root], context.protectedFiles)
    && actual <= context.authorized && context.files.Keys <= actual
    && RunChecks(commands, PostApply, d.checkouts[root].worktree, context.checks).Some?
  }

  /** What a failure after the files were written says. */
  predicate AppliedRefused(ignored: IgnoreRule, commands: CommandOracle, d: DiskState, root: Loc, context: IntegrationContext,
                           sites: set<Site>, reason: Reason)
    requires d.Valid() && root in d.checkouts
  {
    var actual := ActualPaths(ignored, d, root, context.protectedFiles);
    || (reason == GitStatusFailed && (AppliedChanged in sites || AppliedProtected in sites))
    || (reason == ProtectedUntrackedStateDrift && !UntrackedIntact(ignored, d.checkouts[root], context.protectedFiles))
    || (reason == CanonicalUnauthorizedChangedPaths && !(actual <= context.authorized))
    || (reason == CanonicalIntendedWritesNotObserved && !(context.files.Keys <= actual))
    || (reason == DeterministicAcceptanceReadFailed && AppliedAcceptance in sites)
    || (reason == DeterministicAcceptanceFailed && RunChecks(commands, PostApply, d.checkouts[root].worktree, context.checks).None?)
  }

  function CloseWorkflow(db: Db, workflowId: Id): Db
    requires workflowId in db.workflows
  {
    db.(workflows := db.workflows[workflowId := db.workflows[workflowId].(state := Closed)])
  }

  /** Nothing but authorized working files of the canonical checkout differs. */
  ghost predicate OnlyAuthorizedFiles(d: DiskState, root: Loc, authorized: set<Path>, d': DiskState)
    requires root in d.checkouts
  {
    && root in d'.checkouts && d' == WithWorktree(d, root, d'.checkouts[root].worktree)
    && forall p :: p !in authorized ==> At(d'.checkouts[root].worktree, p) == At(d.checkouts[root].worktree, p)
  }

  /** The worktree a finished rollback leaves: baseline content at every authorized path. */
  function RolledBack(d: DiskState, root: Loc, authorized: set<Path>): DiskState
    requires d.Valid() && root in d.checkouts
  {
    WithWorktree(d, root, Copy(d.HeadTree(root), d.checkouts[root].worktree, authorized))
  }

  predicate Restorable(faults: Faults, authorized: set<Path>) {
    Restoring !in faults.sites && faults.restores !! authorized
  }

  /** How a failed application ends once mutation has started. */
  ghost predicate RollbackStep(ignored: IgnoreRule, request: IntegrationRequest, context: IntegrationContext, faults: Faults,
                         d: DiskState, r: IntegrationResult, d': DiskState)
    requires d.Valid() && request.root in d.checkouts
  {
    var restored := Restorable(faults, context.authorized);
    RollbackEnds(restored, restored && RestoredWell(ignored, request, context, faults, d), HeadAfterFailure in faults.sites,
                 request.root, context.authorized, d, r, d')
  }

  /** The protected files survive the rollback and both reads after it succeed. */
  predicate RestoredWell(ignored: IgnoreRule, request: IntegrationRequest, context: IntegrationContext, faults: Faults, d: DiskState)
    requires d.Valid() && request.root in d.checkouts
  {
    && RestoredProtected !in faults.sites && RestoredChanged !in faults.sites
    && UntrackedIntact(ignored, RolledBack(d, request.root, context.authorized).checkouts[request.root], context.protectedFiles)
  }

  ghost predicate RollbackEnds(restored: bool, verified: bool, headLost: bool, root: Loc, authorized: set<Path>,
                               d: DiskState, r: IntegrationResult, d': DiskState)
    requires d.Valid() && root in d.checkouts
  {
    && (if restored then d' == RolledBack(d, root, authorized) else OnlyAuthorizedFiles(d, root, authorized, d'))
    && r.status == (if headLost then Escaped else if verified then Failed else RollbackFailed)
    && r.rollbackAttempted && (r.rollbackSucceeded <==> verified)
  }

  /** Everything a call does after a passed preflight, when nobody else writes. */
  ghost predicate AppliedStep(ignored: IgnoreRule, commands: CommandOracle, request: IntegrationRequest, context: IntegrationContext,
                        faults: Faults, d: DiskState, db: Db, r: IntegrationResult, d': DiskState, db': Db)
    requires d.Valid() && request.root in d.checkouts && request.workflowId in db.workflows
  {
    if Validation in faults.sites then
      d' == d && db' == db && !r.rollbackAttempted && !r.rollbackSucceeded && r.status == (if HeadAfterFailure in faults.sites then Escaped else Failed)
    else if !(faults.writes !! context.files.Keys) then
      OnlyAuthorizedFiles(d, request.root, context.authorized, d') && db' == db && r.status == Escaped
    else
      var d1 := WithWorktree(d, request.root, d.checkouts[request.root].worktree + context.files);
      var well := faults.sites !! APPLY_SITES && AppliedWell(ignored, commands, d1, request.root, context);
      && db' == (if well then CloseWorkflow(db, request.workflowId) else db)
      && if well && HeadAtReturn !in faults.sites then
           && d' == d1 && r.status == Completed
           && r.candidateChanged == context.changed && r.applied == context.files.Keys
           && r.actual == ActualPaths(ignored, d1, request.root, context.protectedFiles)
           && r.protectedFiles == context.protectedFiles
         else RollbackStep(ignored, request, context, faults, d, r, d')
  }

  /** Everything one call does when nobody else writes. */
  ghost predicate IntegrateStep(ignored: IgnoreRule, commands: CommandOracle, request: IntegrationRequest, faults: Faults,
                          d: DiskState, db: Db, r: IntegrationResult, d': DiskState, db': Db)
    requires d.Valid()
  {
    if CanIntegrate(ignored, commands, d, db, request) && faults.sites !! PREFLIGHT_SITES then
      AppliedStep(ignored, commands, request, ContextOf(ignored, d, request, IntegrationRows(db, request).value), faults, d, db, r, d', db')
    else d' == d && db' == db && r.status == Failed && !r.rollbackAttempted && !r.rollbackSucceeded
  }

  /** Writing authorized files and then restoring every authorized path gives the rolled-back state;
      the index was never touched. */
  lemma RestoringUndoesWriting(ignored: IgnoreRule, d0: DiskState, request: IntegrationRequest, context: IntegrationContext, d: DiskState)
    requires d0.Valid() && CanonicalReady(ignored, d0, request, context.authorized) && context.files.Keys <= context.authorized
    requires request.root in d.checkouts
    ensures var c0, c, tree := d0.checkouts[request.root], d.checkouts[request.root], d0.HeadTree(request.root);
            var written := c0.worktree + context.files;
            && (c.worktree == Copy(tree, written, context.authorized) ==>
                  c.worktree == Copy(tree, c0.worktree, context.authorized))
            && ((forall p :: At(c.index, p) == At(c0.index, p) || At(c.index, p) == At(tree, p)) ==> c.index == c0.index)
            && ((forall p :: p !in context.authorized ==> At(c.worktree, p) == At(written, p)) ==>
                  forall p :: p !in context.authorized ==> At(c.worktree, p) == At(c0.worktree, p))
  {
    var c0, c, tree := d0.checkouts[request.root], d.checkouts[request.root], d0.HeadTree(request.root);
    NoDiffMeansSame(c0.index, tree);
    SameTree(Copy(tree, c0.worktree + context.files, context.authorized), Copy(tree, c0.worktree, context.authorized));
    SameTree(c.index, c0.index);
  }

  function FailedResult(status: IntegrationStatus, reason: Reason, attempted: bool, succeeded: bool): IntegrationResult {
    IntegrationResult(status, reason, {}, {}, {}, map[], attempted, succeeded)
  }

  class CanonicalIntegrationService {
    const disk: Machine
    const store: Store

    constructor (disk: Machine, store: Store)
      ensures this.disk == disk && this.store == store
    {
      this.disk, this.store := disk, store;
    }

    method Integrate(request: IntegrationRequest, faults: Faults) returns (r: IntegrationResult)
      requires disk.Valid()
      modifies disk, store
      ensures disk.Valid() && Grows(old(disk.state), disk.state)
      ensures disk.quiet ==>
        IntegrateStep(disk.ignored, disk.commands, request, faults, old(disk.state), old(store.db), r, disk.state, store.db)
      ensures store.db == old(store.db) ||
        (request.workflowId in old(store.db).workflows && store.db == CloseWorkflow(old(store.db), request.workflowId))
      ensures r.status == Completed ==> IntegrationInOrder(old(store.db), request)
      ensures !IntegrationInOrder(old(store.db), request) ==>
        r.status == Failed && IntegrationRefused(old(store.db), request, r.reason) && disk.state == old(disk.state) && store.db == old(store.db)
      ensures disk.quiet && IntegrationInOrder(old(store.db), request) && r.status == Failed && !r.rollbackAttempted ==>
        || Validation in faults.sites
        || PreflightRefused(disk.ignored, disk.commands, old(disk.state), request,
                            old(store.db).freezes[old(store.db).workflows[request.workflowId].freezeId.value], faults.sites, r.reason)
    {
      var guards := IntegrationRows(store.db, request);
      IntegrationAdmitsExactly(store.db, request);
      IntegrationRefusalTells(store.db, request);
      if guards.Fail? {
        return FailedResult(Failed, guards.reason, false, false);
      }
      var prepared := RunPreflight(request, guards.value, faults.sites);
      match prepared {
        case Fail(reason) =>
          return FailedResult(Failed, reason, false, false);
        case Ok(context) =>
          r := Apply(request, context, faults);
      }
    }

    /** The Git half of the preflight: canonical side, then candidate side. */
    method RunPreflight(request: IntegrationRequest, rows: Rows, sites: set<Site>) returns (r: Result<IntegrationContext>)
      requires disk.Valid()
      modifies disk
      ensures disk.OnlyOthersWrote()
      ensures disk.quiet ==>
        (r.Ok? <==> sites !! PREFLIGHT_SITES && Integrable(disk.ignored, disk.commands, disk.state, request, rows))
      ensures disk.quiet && r.Ok? ==> r.value == ContextOf(disk.ignored, disk.state, request, rows)
      ensures r.Ok? ==> r.value.files.Keys <= r.value.authorized
      ensures disk.quiet && r.Fail? ==> PreflightRefused(disk.ignored, disk.commands, disk.state, request, rows.freeze, sites, r.reason)
    {
      FrozenListsExactly(rows.freeze);
      AuthorizedExactly(rows.freeze.affected);
      PreflightSites(sites);
      var protectedFiles :- InspectCanonical(request, sites);
      var paths :- AuthorizedPaths(rows.freeze.affected);
      var authorized := set p | p in paths;
      :- Need(protectedFiles.Keys !! authorized, ProtectedUntrackedPathAuthorizedForMutation);
      var checks :- FrozenChecks(rows.freeze, authorized);
      var captured :- InspectCandidate(request, authorized, checks, sites);
      return Ok(IntegrationContext(authorized, checks, captured.0, captured.1, protectedFiles));
    }

    method InspectCanonical(request: IntegrationRequest, sites: set<Site>) returns (r: Result<Tree>)
      requires disk.Valid()
      modifies disk
      ensures disk.OnlyOthersWrote()
      ensures disk.quiet ==>
        (r.Ok? <==> && CanonicalReady(disk.ignored, disk.state, request, {})
                    && HeadRead !in sites && StagedRead !in sites && TrackedRead !in sites && UntrackedRead !in sites)
      ensures disk.quiet && r.Ok? ==> r.value == UntrackedFiles(disk.ignored, disk.state.checkouts[request.root])
      ensures disk.quiet && r.Fail? ==> CanonicalRefused(disk.state, request, sites, r.reason)
    {
      if disk.quiet && request.root in disk.state.checkouts {
        NoDiffMeansSame(disk.state.checkouts[request.root].index, disk.state.HeadTree(request.root));
      }
      var head :- disk.CurrentHead(request.root, HeadRead in sites);
      :- Need(head == request.baseline, CanonicalHeadDrift);
      var staged :- disk.Staged(request.root, StagedRead in sites);
      :- Need(staged == {}, PreexistingStagedChanges);
      var tracked :- disk.Tracked(request.root, TrackedRead in sites);
      :- Need(tracked == {}, PreexistingTrackedChanges);
      r := disk.CaptureUntracked(request.root, UntrackedRead in sites);
    }

    method InspectCandidate(request: IntegrationRequest, authorized: set<Path>, checks: seq<Check>, sites: set<Site>)
      returns (r: Result<(set<Path>, Tree)>)
      requires disk.Valid()
      modifies disk
      ensures disk.OnlyOthersWrote()
      ensures disk.quiet ==>
        (r.Ok? <==> && CandidateReady(disk.ignored, disk.commands, disk.state, request, authorized, checks)
                    && CandidateHead !in sites && CandidateChanged !in sites && CandidateAcceptance !in sites && CandidateText !in sites)
      ensures disk.quiet && r.Ok? ==>
        && r.value.0 == ChangedPaths(disk.ignored, disk.state, request.candidate)
        && r.value.1 == Captured(disk.state.checkouts[request.candidate].worktree, r.value.0)
      ensures r.Ok? ==> r.value.1.Keys == r.value.0 <= authorized
      ensures disk.quiet && r.Fail? ==>
        CandidateRefused(disk.ignored, disk.commands, disk.state, request.candidate, request.baseline, authorized, checks, sites, r.reason)
    {
      var head :- disk.CurrentHead(request.candidate, CandidateHead in sites);
      :- Need(head == request.baseline, CandidateHeadBaselineMismatch);
      var changed :- disk.Changed(request.candidate, CandidateChanged in sites);
      :- Need(changed <= authorized, CandidateHasUnauthorizedChanges);
      :- Need(changed != {}, CandidateHasNoGitChanges);
      var files :- CaptureCandidate(request, changed, checks, sites);
      return Ok((changed, files));
    }

    /** Accept the candidate, then capture its text and accept what was captured. */
    method CaptureCandidate(request: IntegrationRequest, changed: set<Path>, checks: seq<Check>, sites: set<Site>)
      returns (r: Result<Tree>)
      requires disk.Valid()
      modifies disk
      ensures disk.OnlyOthersWrote()
      ensures disk.quiet && request.candidate in disk.state.checkouts ==>
        (r.Ok? <==> && CaptureAccepted(disk.commands, disk.state.checkouts[request.candidate].worktree, changed, checks)
                    && CandidateAcceptance !in sites && CandidateText !in sites)
      ensures disk.quiet && r.Ok? && request.candidate in disk.state.checkouts ==>
        r.value == Captured(disk.state.checkouts[request.candidate].worktree, changed)
      ensures r.Ok? ==> r.value.Keys == changed
      ensures disk.quiet && r.Fail? && request.candidate in disk.state.checkouts ==>
        CaptureRefused(disk.commands, disk.state, request.candidate, changed, checks, sites, r.reason)
    {
      var evidence :- disk.VerifyAcceptance(request.candidate, Candidate, checks, CandidateAcceptance in sites);
      :- Need(changed <= CheckedPaths(checks), CandidateChangeMissingDeterministicAcceptanceCheck);
      var files :- disk.CaptureText(request.candidate, changed, CandidateText in sites);
      var accepted := VerifyContent(files, checks);
      :- Need(accepted, CandidateCapturedContentMismatch);
      return Ok(files);
    }

    method VerifyContent(files: Tree, checks: seq<Check>) returns (accepted: bool)
      ensures accepted <==> ContentAccepted(files, checks)
    {
      for k := 0 to |checks|
        invariant forall j :: 0 <= j < k && !checks[j].CommandSucceeds? ==> RunFileCheck(files, checks[j]).Some?
      {
        if !checks[k].CommandSucceeds? && RunFileCheck(files, checks[k]).None? {
          return false;
        }
      }
      return true;
    }

    /** Write, verify, close; or roll back. */
    method Apply(request: IntegrationRequest, context: IntegrationContext, faults: Faults) returns (r: IntegrationResult)
      requires disk.Valid()
      requires request.workflowId in store.db.workflows
      requires context.files.Keys <= context.authorized
      requires disk.quiet ==> CanonicalReady(disk.ignored, disk.state, request, context.authorized)
      modifies disk, store
      ensures disk.Valid() && Grows(old(disk.state), disk.state)
      ensures disk.quiet ==>
        AppliedStep(disk.ignored, disk.commands, request, context, faults, old(disk.state), old(store.db), r, disk.state, store.db)
      ensures store.db == old(store.db) || store.db == CloseWorkflow(old(store.db), request.workflowId)
      ensures disk.quiet && r.rollbackAttempted ==>
        || (r.reason == GitCommandFailed && HeadAtReturn in faults.sites)
        || AppliedRefused(disk.ignored, disk.commands, WithWorktree(old(disk.state), request.root,
                            old(disk.state).checkouts[request.root].worktree + context.files), request.root, context, faults.sites, r.reason)
      ensures !r.rollbackAttempted && r.status == Failed ==> Validation in faults.sites
    {
      if Validation in faults.sites {
        var head := disk.CurrentHead(request.root, HeadAfterFailure in faults.sites);
        return FailedResult(if head.Ok? then Failed else Escaped, GitCommandFailed, false, false);
      }
      ghost var d0 := disk.state;
      var written := disk.WriteFiles(request.root, context.files, faults.writes);
      if written.Stop? {
        return FailedResult(Escaped, written.reason, false, false);
      }
      var applied := VerifyApplied(request, context, faults.sites);
      var reason := GitCommandFailed;
      if applied.Fail? {
        reason := applied.reason;
      } else {
        store.db := CloseWorkflow(store.db, request.workflowId);
        var head := disk.CurrentHead(request.root, HeadAtReturn in faults.sites);
        if head.Ok? {
          return IntegrationResult(Completed, NoReason, context.changed, context.files.Keys, applied.value, context.protectedFiles, false, false);
        }
      }
      r := RollBack(request, context, faults, reason, d0);
    }

    /** The changed paths, read before anything else, then every post-apply check. */
    method VerifyApplied(request: IntegrationRequest, context: IntegrationContext, sites: set<Site>) returns (r: Result<set<Path>>)
      requires disk.Valid()
      modifies disk
      ensures disk.OnlyOthersWrote()
      ensures disk.quiet && request.root in disk.state.checkouts ==>
        (r.Ok? <==> sites !! APPLY_SITES && AppliedWell(disk.ignored, disk.commands, disk.state, request.root, context))
      ensures disk.quiet && request.root in disk.state.checkouts && r.Ok? ==>
        r.value == ActualPaths(disk.ignored, disk.state, request.root, context.protectedFiles)
      ensures disk.quiet && request.root in disk.state.checkouts && r.Fail? ==>
        AppliedRefused(disk.ignored, disk.commands, disk.state, request.root, context, sites, r.reason)
    {
      var observed :- disk.Changed(request.root, AppliedChanged in sites);
      var intact := disk.VerifyUntracked(request.root, context.protectedFiles, AppliedProtected in sites);
      :- intact;
      var actual := observed - context.protectedFiles.Keys;
      :- Need(actual <= context.authorized, CanonicalUnauthorizedChangedPaths);
      :- Need(context.files.Keys <= actual, CanonicalIntendedWritesNotObserved);
      var evidence :- disk.VerifyAcceptance(request.root, PostApply, context.checks, AppliedAcceptance in sites);
      return Ok(actual);
    }

    method RestoreCanonical(request: IntegrationRequest, context: IntegrationContext, faults: Faults, ghost d0: DiskState) returns (g: Guard)
      requires disk.Valid() && d0.Valid()
      requires context.files.Keys <= context.authorized
      requires disk.quiet ==> CanonicalReady(disk.ignored, d0, request, context.authorized)
      requires disk.quiet ==> disk.state == WithWorktree(d0, request.root, d0.checkouts[request.root].worktree + context.files)
      modifies disk
      ensures disk.Valid() && Grows(old(disk.state), disk.state)
      ensures disk.quiet ==> (g.Pass? <==> Restorable(faults, context.authorized))
      ensures disk.quiet && g.Pass? ==> disk.state == RolledBack(d0, request.root, context.authorized)
      ensures disk.quiet && g.Stop? ==> OnlyAuthorizedFiles(d0, request.root, context.authorized, disk.state)
    {
      g := disk.RestoreToBaseline(request.root, request.baseline, context.authorized, faults.restores, Restoring in faults.sites);
      if disk.quiet {
        RestoringUndoesWriting(disk.ignored, d0, request, context, disk.state);
      }
    }

    method VerifyRestored(request: IntegrationRequest, context: IntegrationContext, faults: Faults) returns (g: Guard)
      requires disk.Valid()
      modifies disk
      ensures disk.OnlyOthersWrote()
      ensures disk.quiet && request.root in disk.state.checkouts ==>
        (g.Pass? <==> RestoredProtected !in faults.sites && RestoredChanged !in faults.sites &&
                      UntrackedIntact(disk.ignored, disk.state.checkouts[request.root], context.protectedFiles))
    {
      g := disk.VerifyUntracked(request.root, context.protectedFiles, RestoredProtected in faults.sites);
      if g.Pass? {
        var seen := disk.Changed(request.root, RestoredChanged in faults.sites);
        if seen.Fail? {
          return Stop(seen.reason);
        }
      }
    }

    method Undo(request: IntegrationRequest, context: IntegrationContext, faults: Faults, ghost d0: DiskState) returns (g: Guard)
      requires disk.Valid() && d0.Valid()
      requires context.files.Keys <= context.authorized
      requires disk.quiet ==> CanonicalReady(disk.ignored, d0, request, context.authorized)
      requires disk.quiet ==> disk.state == WithWorktree(d0, request.root, d0.checkouts[request.root].worktree + context.files)
      modifies disk
      ensures disk.Valid() && Grows(old(disk.state), disk.state)
      ensures disk.quiet ==>
        var restored := Restorable(faults, context.authorized);
        && request.root in disk.state.checkouts
        && (g.Pass? <==> restored && RestoredWell(disk.ignored, request, context, faults, d0))
        && (if restored then disk.state == RolledBack(d0, request.root, context.authorized)
            else OnlyAuthorizedFiles(d0, request.root, context.authorized, disk.state))
    {
      g := RestoreCanonical(request, context, faults, d0);
      if g.Pass? {
        g := VerifyRestored(request, context, faults);
      }
    }

    method RollBack(request: IntegrationRequest, context: IntegrationContext, faults: Faults, reason: Reason, ghost d0: DiskState)
      returns (r: IntegrationResult)
      requires disk.Valid() && d0.Valid()
      requires context.files.Keys <= context.authorized
      requires disk.quiet ==> CanonicalReady(disk.ignored, d0, request, context.authorized)
      requires disk.quiet ==> disk.state == WithWorktree(d0, request.root, d0.checkouts[request.root].worktree + context.files)
      modifies disk
      ensures disk.Valid() && Grows(old(disk.state), disk.state)
      ensures disk.quiet ==> RollbackStep(disk.ignored, request, context, faults, d0, r, disk.state)
      ensures r.rollbackAttempted && r.reason == reason
    {
      var undone := Undo(request, context, faults, d0);
      r := Conclude(request.root, undone, reason, HeadAfterFailure in faults.sites);
    }

    /** The result of a rollback also reports the head, and a fault in reading it escapes. */
    method Conclude(root: Loc, undone: Guard, reason: Reason, headFault: bool) returns (r: IntegrationResult)
      requires disk.Valid()
      modifies disk
      ensures disk.OnlyOthersWrote()
      ensures disk.quiet && root in disk.state.checkouts ==>
        r.status == (if headFault then Escaped else if undone.Pass? then Failed else RollbackFailed)
      ensures r.rollbackAttempted && (r.rollbackSucceeded <==> undone.Pass?) && r.reason == reason
    {
      var head := disk.CurrentHead(root, headFault);
      var status := if head.Fail? then Escaped else if undone.Pass? then Failed else RollbackFailed;
      return FailedResult(status, reason, true, undone.Pass?);
    }
  }
}
