/** The L2 step: one verified local commit from a closed, verified integration. */
module ControlledCommit {
  import opened Prelude
  import opened Git
  import opened Acceptance
  import opened Disk
  import opened Session
  import Text

  datatype CommitRequest = CommitRequest(
    workflowId: Id, root: Loc, baseline: Sha, authority: Authority, message: Option<string>, protectedFiles: Tree)

  datatype CommitStatus = Completed | AlreadyCommitted | Failed | PostCommitVerificationFailed

  datatype CommitResult = CommitResult(
    status: CommitStatus, reason: Reason, resulting: Option<Sha>, authorized: set<Path>, committed: set<Path>,
    unstaged: set<Path>, manualReconciliation: bool)

  /** The places at which a Git command, a file read or the final row flush can fault. */
  datatype Site =
    | HeadRead | StagedRead | ProtectedRead | ChangedRead | AcceptanceRead | HashRead
    | ReconcileParents | ReconcilePaths
    | PreHead | PreStaged | PreProtected | PreChanged | PreAcceptance | PreHash
    | Staging | StagedProtected | StagedStatus | StagedHash | Creation | Cleanup
    | HeadAfterCommit
    | PostHead | PostParents | PostPaths | PostHash | PostAcceptance | PostProtected | PostChanged | PostHeadAgain | Flush

  datatype Phase = InPreflight | InRecheck | InStaging | InCreation | AtHeadRead | InVerification | OnFailure

  /** The stretch of a call in which a site is passed. */
  function PhaseOf(site: Site): Phase {
    match site
    case HeadRead | StagedRead | ProtectedRead | ChangedRead | AcceptanceRead | HashRead => InPreflight
    case PreHead | PreStaged | PreProtected | PreChanged | PreAcceptance | PreHash => InRecheck
    case Staging | StagedProtected | StagedStatus | StagedHash => InStaging
    case Creation => InCreation
    case HeadAfterCommit => AtHeadRead
    case ReconcileParents | ReconcilePaths | Cleanup => OnFailure
    case _ => InVerification
  }

  predicate NoFault(faults: set<Site>, phase: Phase) {
    forall site :: site in faults ==> PhaseOf(site) != phase
  }

  lemma PreflightSites(faults: set<Site>)
    ensures NoFault(faults, InPreflight) <==>
            && HeadRead !in faults && StagedRead !in faults && ProtectedRead !in faults
            && ChangedRead !in faults && AcceptanceRead !in faults && HashRead !in faults
  {
  }

  lemma RecheckSites(faults: set<Site>)
    ensures NoFault(faults, InRecheck) <==>
            && PreHead !in faults && PreStaged !in faults && PreProtected !in faults
            && PreChanged !in faults && PreAcceptance !in faults && PreHash !in faults
  {
  }

  lemma StagingSites(faults: set<Site>)
    ensures NoFault(faults, InStaging) <==>
            Staging !in faults && StagedProtected !in faults && StagedStatus !in faults && StagedHash !in faults
  {
  }

  lemma VerificationSites(faults: set<Site>)
    ensures NoFault(faults, InVerification) <==> faults !! VERIFICATION_SITES && Flush !in faults
  {
  }

  lemma CreationSite(faults: set<Site>)
    ensures NoFault(faults, InCreation) <==> Creation !in faults
  {
  }

  const VERIFICATION_SITES: set<Site> :=
    {PostHead, PostParents, PostPaths, PostHash, PostAcceptance, PostProtected, PostChanged, PostHeadAgain}

  datatype CommitContext = CommitContext(
    workflowId: Id, freezeId: Id, repositoryId: Id, root: Loc, baseline: Sha, authorized: set<Path>, checks: seq<Check>,
    evidence: seq<Evidence>, protectedFiles: Tree, message: string, changed: set<Path>, hashes: Tree)

  datatype Preflight = Ready(context: CommitContext) | Done(record: CommitRecord) | Refused(reason: Reason)

  predicate HasControl(text: string) {
    exists k :: 0 <= k < |text| && (text[k] < ' ' || text[k] == 127 as char)
  }

  function CommitMessage(message: Option<string>, taskId: Id): Result<string> {
    var value := if message.Some? then message.value else "lucius: complete " + taskId;
    if value == "" || Text.Blank(value[0]) || Text.Blank(value[|value| - 1]) then Fail(InvalidCommitMessage)
    else if |value| > 120 || HasControl(value) then Fail(InvalidCommitMessage)
    else Ok(value)
  }

  /** Authority, workflow, plan, contract, repository and baseline guards, in order. */
  function CommitRows(db: Db, request: CommitRequest): Result<(Rows, Target)> {
    var authority := request.authority;
    :- Need(authority == L2, L2AuthorityRequired);
    var rows :- RelatedRows(db, request.workflowId, Closed, WorkflowNotClosed);
    CommitGuards(db, request, rows)
  }

  function CommitGuards(db: Db, request: CommitRequest, rows: Rows): Result<(Rows, Target)> {
    var contract := Find(db.contracts, Some(rows.plan.contractId));
    :- Need(contract.Some? && contract.value.taskId == rows.taskId && contract.value.version == rows.plan.contractVersion,
            TaskContractRequired);
    :- Need(contract.value.allowsCommit, CreateCommitNotAuthorized);
    :- Need(Rank(rows.task.authority, -1) >= 2, TaskL2AuthorityRequired);
    :- Need(Rank(contract.value.authority, -1) >= 2, ContractL2AuthorityRequired);
    var target :- TargetRepository(db, rows.workflow, request.root);
    :- BaselineAgreed(rows.freeze, request.baseline);
    Ok((rows, target))
  }

  /** The rows and the request a commit may work with, field by field. */
  predicate CommitInOrder(db: Db, request: CommitRequest) {
    && request.authority == L2
    && PlanInOrder(db, request.workflowId)
    && var workflow := db.workflows[request.workflowId];
       && workflow.state == Closed
       && PlaceInOrder(db, workflow, request.root)
       && CommitAllowed(db, db.plans[workflow.planId.value], db.tasks[workflow.taskId.value])
       && db.freezes[workflow.freezeId.value].commitSha == Some(request.baseline)
  }

  /** The plan's own contract, in the plan's version, allows commits, and task and contract have the authority. */
  predicate CommitAllowed(db: Db, plan: Plan, task: Task) {
    && plan.contractId in db.contracts
    && var contract := db.contracts[plan.contractId];
       && contract.taskId == plan.taskId && contract.version == plan.contractVersion && contract.allowsCommit
       && (task.authority == L2 || task.authority == L3) && (contract.authority == L2 || contract.authority == L3)
  }

  /** The guards admit exactly the requests that are in order, and pass on the workflow's own rows. */
  lemma CommitAdmitsExactly(db: Db, request: CommitRequest)
    ensures CommitRows(db, request).Ok? <==> CommitInOrder(db, request)
    ensures CommitInOrder(db, request) ==>
      var workflow, (rows, target) := db.workflows[request.workflowId], CommitRows(db, request).value;
      && rows.taskId == workflow.taskId.value && rows.freezeId == workflow.freezeId.value
      && rows.freeze == db.freezes[workflow.freezeId.value] && target.repositoryId == workflow.repositoryId.value
  {
    RelatedRowsExactly(db, request.workflowId, Closed, WorkflowNotClosed);
    if request.workflowId in db.workflows {
      TargetExactly(db, db.workflows[request.workflowId], request.root);
    }
  }

  /** What a refusal by the guards says of the rows and the request. */
  predicate CommitRefused(db: Db, request: CommitRequest, reason: Reason) {
    || (reason == L2AuthorityRequired && request.authority != L2)
    || PlanRefused(db, request.workflowId, reason)
    || (request.workflowId in db.workflows && WorkflowRefused(db, db.workflows[request.workflowId], request, reason))
  }

  predicate WorkflowRefused(db: Db, workflow: Workflow, request: CommitRequest, reason: Reason) {
    || (reason == WorkflowNotClosed && workflow.state != Closed)
    || PlaceRefused(db, workflow, request.root, reason)
    || (Planned(db, workflow) && workflow.taskId.Some? && workflow.taskId.value in db.tasks &&
        (|| BaselineRefused(db.freezes[workflow.freezeId.value], request.baseline, reason)
         || ContractRefuses(db, db.plans[workflow.planId.value], db.tasks[workflow.taskId.value], reason)))
  }

  predicate ContractRefuses(db: Db, plan: Plan, task: Task, reason: Reason) {
    || (reason == TaskL2AuthorityRequired && task.authority != L2 && task.authority != L3)
    || (reason == TaskContractRequired &&
        !(plan.contractId in db.contracts && db.contracts[plan.contractId].taskId == plan.taskId &&
          db.contracts[plan.contractId].version == plan.contractVersion))
    || (plan.contractId in db.contracts &&
        (|| (reason == CreateCommitNotAuthorized && !db.contracts[plan.contractId].allowsCommit)
         || (reason == ContractL2AuthorityRequired && db.contracts[plan.contractId].authority != L2 &&
             db.contracts[plan.contractId].authority != L3)))
  }

  lemma CommitRefusalTells(db: Db, request: CommitRequest)
    ensures CommitRows(db, request).Fail? ==> CommitRefused(db, request, CommitRows(db, request).reason)
  {
    RefusalTells(db, request.workflowId, Closed, WorkflowNotClosed);
    RelatedRowsExactly(db, request.workflowId, Closed, WorkflowNotClosed);
    var related := RelatedRows(db, request.workflowId, Closed, WorkflowNotClosed);
    if related.Ok? {
      GuardRefusalTells(db, request, related.value);
    }
  }

  lemma GuardRefusalTells(db: Db, request: CommitRequest, rows: Rows)
    requires Planned(db, rows.workflow) && rows.workflow.taskId == Some(rows.taskId) && rows.taskId in db.tasks
    requires rows.plan == db.plans[rows.workflow.planId.value] && rows.task == db.tasks[rows.taskId]
    requires rows.freeze == db.freezes[rows.workflow.freezeId.value] && rows.plan.taskId == rows.taskId
    ensures CommitGuards(db, request, rows).Fail? ==> WorkflowRefused(db, rows.workflow, request, CommitGuards(db, request, rows).reason)
  {
    PlaceRefusalTells(db, rows.workflow, request.root);
  }

  predicate Printable(text: string) {
    forall c :: c in text ==> 32 <= c as int && c as int != 127
  }

  /** A message Git is given as it is: one line of 1 to 120 printable characters, with no blank at either end. */
  predicate OneLine(text: string) {
    1 <= |text| <= 120 && text[0] != ' ' && text[|text| - 1] != ' ' && Printable(text)
  }

  lemma ControlExactly(text: string)
    ensures HasControl(text) <==> !Printable(text)
  {
    if !HasControl(text) {
      forall c | c in text
        ensures 32 <= c as int && c as int != 127
      {
        var k :| 0 <= k < |text| && text[k] == c;
      }
    } else {
      var k :| 0 <= k < |text| && (text[k] < ' ' || text[k] == 127 as char);
      assert text[k] in text;
    }
  }

  /** A given message is used as it is exactly when it is one line. */
  lemma GivenMessageExactly(message: string, taskId: Id)
    ensures CommitMessage(Some(message), taskId) == if OneLine(message) then Ok(message) else Fail(InvalidCommitMessage)
  {
    ControlExactly(message);
    if message != "" {
      assert message[0] in message && message[|message| - 1] in message;
    }
  }

  /** A task id with which the default message is one line. */
  predicate Nameable(taskId: Id) {
    taskId != "" && taskId[|taskId| - 1] != ' ' && |taskId| <= 103 && Printable(taskId)
  }

  /** A call without a message names the task; it is refused for its message only for a task id that is empty,
      ends in a blank, is longer than 103 characters or holds an unprintable character. */
  lemma DefaultMessageExactly(taskId: Id)
    ensures CommitMessage(None, taskId) == if Nameable(taskId) then Ok("lucius: complete " + taskId) else Fail(InvalidCommitMessage)
  {
    var prefix := "lucius: complete ";
    PrefixIsPrintable(prefix);
    PrefixedLine(prefix, taskId);
    GivenMessageExactly(prefix + taskId, taskId);
    assert CommitMessage(None, taskId) == CommitMessage(Some(prefix + taskId), taskId);
  }

  /** The message the call would store is one line. */
  predicate Named(message: Option<string>, taskId: Id) {
    if message.Some? then OneLine(message.value) else Nameable(taskId)
  }

  lemma MessageRefusal(message: Option<string>, taskId: Id)
    ensures CommitMessage(message, taskId).Fail? ==>
      && CommitMessage(message, taskId).reason == InvalidCommitMessage
      && !Named(message, taskId)
  {
    match message
    case None => DefaultMessageExactly(taskId);
    case Some(text) => GivenMessageExactly(text, taskId);
  }

  lemma PrefixIsPrintable(prefix: string)
    requires prefix == "lucius: complete "
    ensures |prefix| == 17 && Printable(prefix) && prefix[0] != ' ' && prefix[16] == ' '
  {
    forall c | c in prefix
      ensures 32 <= c as int && c as int != 127
    {
      assert c in {'l', 'u', 'c', 'i', 's', ':', ' ', 'o', 'm', 'p', 'e', 't'};
    }
  }

  lemma PrefixedLine(prefix: string, taskId: Id)
    requires |prefix| == 17 && Printable(prefix) && prefix[0] != ' ' && prefix[16] == ' '
    ensures OneLine(prefix + taskId) <==> Nameable(taskId)
  {
    var text := prefix + taskId;
    assert forall c :: c in text <==> c in prefix || c in taskId;
    assert text[|text| - 1] == if taskId == "" then prefix[16] else taskId[|taskId| - 1];
  }

  predicate HasRecord(db: Db, workflowId: Id, freezeId: Id) {
    exists k :: 0 <= k < |db.records| && db.records[k].workflowId == workflowId && db.records[k].freezeId == freezeId
  }

  /** The rows are in order, and no commit of this plan is on record. */
  predicate NewPlan(db: Db, request: CommitRequest) {
    var rows := CommitRows(db, request);
    rows.Ok? && !HasRecord(db, request.workflowId, rows.value.0.freezeId)
  }

  /** The changes a commit would take: everything changed except the protected untracked files. */
  function CommitPaths(ignored: IgnoreRule, d: DiskState, request: CommitRequest): set<Path>
    requires d.Valid() && request.root in d.checkouts
  {
    ChangedPaths(ignored, d, request.root) - request.protectedFiles.Keys
  }

  /** The canonical checkout sits on the frozen baseline, nothing is staged, and the protected
      untracked files are intact and outside the authorized paths. */
  predicate AtBaseline(ignored: IgnoreRule, d: DiskState, request: CommitRequest, authorized: set<Path>)
    requires d.Valid()
  {
    && request.root in d.checkouts
    && d.checkouts[request.root].head == request.baseline
    && StagedPaths(d, request.root) == {}
    && request.protectedFiles.Keys !! authorized
    && UntrackedIntact(ignored, d.checkouts[request.root], request.protectedFiles)
  }

  /** There are changes to take, all of them authorized, checked and accepted regular files. */
  predicate Committable(ignored: IgnoreRule, commands: CommandOracle, d: DiskState, request: CommitRequest,
                        authorized: set<Path>, checks: seq<Check>)
    requires d.Valid() && request.root in d.checkouts
  {
    var worktree, changed := d.checkouts[request.root].worktree, CommitPaths(ignored, d, request);
    && changed != {} && changed <= authorized
    && RunChecks(commands, CommitPreflight, worktree, checks).Some?
    && changed <= CheckedPaths(checks)
    && changed <= worktree.Keys
  }

  /** The state in which a fault-free preflight passes. */
  predicate CanCommit(ignored: IgnoreRule, commands: CommandOracle, d: DiskState, db: Db, request: CommitRequest)
    requires d.Valid()
  {
    && CommitRows(db, request).Ok?
    && var rows := CommitRows(db, request).value.0;
       && !HasRecord(db, request.workflowId, rows.freezeId)
       && Promotable(ignored, commands, d, request, rows)
  }

  /** The frozen plan is usable and the canonical checkout holds exactly changes it covers. */
  predicate Promotable(ignored: IgnoreRule, commands: CommandOracle, d: DiskState, request: CommitRequest, rows: Rows)
    requires d.Valid()
  {
    var authorized := Authorized(rows.freeze.affected);
    && authorized.Ok? && FrozenChecks(rows.freeze, authorized.value).Ok?
    && AtBaseline(ignored, d, request, authorized.value)
    && Committable(ignored, commands, d, request, authorized.value, rows.freeze.checks.value)
    && CommitMessage(request.message, rows.taskId).Ok?
  }

  /** What a refusal says of the state of the canonical checkout. */
  predicate BaselineLost(ignored: IgnoreRule, d: DiskState, request: CommitRequest, authorized: set<Path>, faults: set<Site>, reason: Reason)
    requires d.Valid()
  {
    || (reason == GitCommandFailed && (HeadRead in faults || request.root !in d.checkouts))
    || (reason == GitStatusFailed && (StagedRead in faults || ProtectedRead in faults))
    || (reason == ProtectedUntrackedPathAuthorizedForMutation && !(request.protectedFiles.Keys !! authorized))
    || (request.root in d.checkouts &&
        (|| ((reason == CanonicalHeadDrift || reason == ControlledCommitReconciliationRequired) && d.checkouts[request.root].head != request.baseline)
         || (reason == PreexistingStagedChanges && StagedPaths(d, request.root) != {})
         || (reason == ProtectedUntrackedStateDrift && !UntrackedIntact(ignored, d.checkouts[request.root], request.protectedFiles))))
  }

  /** What a refusal says of the changes to commit, or of the message. */
  predicate ChangesRefused(ignored: IgnoreRule, commands: CommandOracle, d: DiskState, request: CommitRequest, taskId: Id,
                           authorized: set<Path>, checks: seq<Check>, faults: set<Site>, reason: Reason)
    requires d.Valid() && request.root in d.checkouts
  {
    var changed, worktree := CommitPaths(ignored, d, request), d.checkouts[request.root].worktree;
    || (reason == GitStatusFailed && ChangedRead in faults)
    || (reason == CanonicalHasNoChanges && changed == {})
    || (reason == CanonicalHasUnauthorizedChanges && !(changed <= authorized))
    || (reason == DeterministicAcceptanceReadFailed && AcceptanceRead in faults)
    || (reason == DeterministicAcceptanceFailed && RunChecks(commands, CommitPreflight, worktree, checks).None?)
    || (reason == CanonicalChangeMissingDeterministicAcceptanceCheck && !(changed <= CheckedPaths(checks)))
    || (reason == InvalidCommitMessage && !Named(request.message, taskId))
    || (reason == WorktreeFileNotRegular && (HashRead in faults || !(changed <= worktree.Keys)))
  }

  /** What a refusal of a request that is in order says. */
  predicate PreflightRefused(ignored: IgnoreRule, commands: CommandOracle, d: DiskState, request: CommitRequest, taskId: Id, freeze: Freeze,
                             faults: set<Site>, reason: Reason)
    requires d.Valid()
  {
    || ListsRefused(freeze, reason)
    || (UsableLists(freeze) &&
        (|| BaselineLost(ignored, d, request, Listed(freeze.affected.value), faults, reason)
         || (request.root in d.checkouts &&
             ChangesRefused(ignored, commands, d, request, taskId, Listed(freeze.affected.value), freeze.checks.value, faults, reason))))
  }

  /** The checks, and in particular the test commands, report the same evidence at both points. */
  predicate SameEvidence(commands: CommandOracle, d: DiskState, db: Db, request: CommitRequest, a: CheckPoint, b: CheckPoint)
    requires CommitRows(db, request).Ok? && CommitRows(db, request).value.0.freeze.checks.Some? && request.root in d.checkouts
  {
    var checks := CommitRows(db, request).value.0.freeze.checks.value;
    RunChecks(commands, a, d.checkouts[request.root].worktree, checks) ==
    RunChecks(commands, b, d.checkouts[request.root].worktree, checks)
  }

  /** Exactly when a call creates a commit object. */
  predicate ReachesCommit(ignored: IgnoreRule, commands: CommandOracle, d: DiskState, db: Db, request: CommitRequest, faults: set<Site>)
    requires d.Valid()
  {
    && CanCommit(ignored, commands, d, db, request)
    && SameEvidence(commands, d, db, request, CommitPreflight, PreCommit)
    && NoFault(faults, InPreflight) && NoFault(faults, InRecheck) && NoFault(faults, InStaging) && NoFault(faults, InCreation)
  }

  /** Exactly when a created commit is also verified and recorded. */
  predicate Verifies(commands: CommandOracle, d: DiskState, db: Db, request: CommitRequest, faults: set<Site>)
    requires CommitRows(db, request).Ok? && CommitRows(db, request).value.0.freeze.checks.Some? && request.root in d.checkouts
  {
    && SameEvidence(commands, d, db, request, CommitPreflight, PostCommit)
    && NoFault(faults, InVerification)
  }

  /** `after` is `before` with one new commit at `root`: its only parent is the old head, and its
      tree is the old head's tree overwritten at exactly `paths` with the working files. */
  predicate CommitsExactly(before: DiskState, root: Loc, paths: set<Path>, after: DiskState)
    requires before.Valid() && root in before.checkouts
  {
    && root in after.checkouts
    && var c, s := before.checkouts[root], after.checkouts[root].head;
       var tree := Copy(c.worktree, before.HeadTree(root), paths);
       && s !in before.commits
       && after.commits == before.commits[s := Commit([c.head], tree)]
       && after.checkouts == before.checkouts[root := c.(head := s, index := tree)]
  }

  /** The only trace a refused call can leave: the changes staged, when un-staging faulted too. */
  predicate LeftStaged(before: DiskState, root: Loc, paths: set<Path>, after: DiskState)
    requires root in before.checkouts
  {
    var c := before.checkouts[root];
    after == before.(checkouts := before.checkouts[root := c.(index := Copy(c.worktree, c.index, paths))])
  }

  /** Every change a commit would take really differs from the head tree. */
  lemma TakenChangesDiffer(ignored: IgnoreRule, d: DiskState, request: CommitRequest, authorized: set<Path>)
    requires d.Valid() && AtBaseline(ignored, d, request, authorized)
    ensures d.checkouts[request.root].index == d.HeadTree(request.root)
    ensures forall p :: p in CommitPaths(ignored, d, request) ==>
      At(d.checkouts[request.root].worktree, p) != At(d.HeadTree(request.root), p)
  {
    NoDiffMeansSame(d.checkouts[request.root].index, d.HeadTree(request.root));
  }

  /** After staging the manifest, the index differs from the head exactly at the manifest and
      holds the hashed contents there; the protected files are still intact. */
  lemma StagingIsExact(ignored: IgnoreRule, commands: CommandOracle, d: DiskState, request: CommitRequest, context: CommitContext)
    requires d.Valid() && AtBaseline(ignored, d, request, context.authorized)
    requires ContextFresh(ignored, commands, d, request, context)
    ensures var c := d.checkouts[request.root];
            var staged := c.(index := Copy(c.worktree, c.index, context.changed));
            var d1 := d.(checkouts := d.checkouts[request.root := staged]);
            && Stageable(ignored, c, context.changed)
            && d1.Valid() && StagedPaths(d1, request.root) == context.changed
            && context.changed <= staged.index.Keys && Pick(staged.index, context.changed) == context.hashes
            && UntrackedIntact(ignored, staged, request.protectedFiles)
  {
    TakenChangesDiffer(ignored, d, request, context.authorized);
    var c := d.checkouts[request.root];
    var staged := c.(index := Copy(c.worktree, c.index, context.changed));
    forall p | p in context.changed
      ensures p in staged.index && staged.index[p] == c.worktree[p]
    {
      assert At(staged.index, p) == At(c.worktree, p);
    }
    forall p | p in request.protectedFiles
      ensures p in UntrackedPaths(ignored, staged)
    {
      assert At(staged.index, p) == At(c.index, p);
    }
    var d1 := d.(checkouts := d.checkouts[request.root := staged]);
    assert forall p :: p in StagedPaths(d1, request.root) <==> p in context.changed;
  }

  lemma UnstagingUndoes(before: DiskState, root: Loc, paths: set<Path>, now: DiskState)
    requires before.Valid() && now.Valid() && root in before.checkouts
    requires before.checkouts[root].index == before.HeadTree(root)
    requires now == before || LeftStaged(before, root, paths, now)
    ensures root in now.checkouts && now.HeadTree(root) == before.HeadTree(root)
    ensures Copy(now.HeadTree(root), now.checkouts[root].index, paths) == before.checkouts[root].index
    ensures now.checkouts[root := now.checkouts[root].(index := before.checkouts[root].index)] == before.checkouts
    ensures paths <= before.checkouts[root].worktree.Keys && now != before ==> paths <= now.checkouts[root].index.Keys
  {
    var c := before.checkouts[root];
    SameTree(Copy(now.HeadTree(root), now.checkouts[root].index, paths), c.index);
    if now != before {
      forall p | p in paths && p in c.worktree
        ensures p in now.checkouts[root].index
      {
        assert At(now.checkouts[root].index, p) == At(c.worktree, p);
      }
    }
  }

  /** Committing the staged manifest creates exactly the planned commit. */
  lemma IndexCommitIsExact(ignored: IgnoreRule, commands: CommandOracle, d0: DiskState, request: CommitRequest, context: CommitContext,
                           staged: DiskState, after: DiskState)
    requires d0.Valid() && AtBaseline(ignored, d0, request, context.authorized) && ContextFresh(ignored, commands, d0, request, context)
    requires LeftStaged(d0, request.root, context.changed, staged) && IsCommitOfIndex(staged, request.root, after)
    ensures CommitsExactly(d0, request.root, context.changed, after)
    ensures after.Valid() ==> after.checkouts[request.root].index == after.HeadTree(request.root)
  {
    NoDiffMeansSame(d0.checkouts[request.root].index, d0.HeadTree(request.root));
  }

  /** The commit object is the planned one. */
  predicate ObjectAsPlanned(d: DiskState, context: CommitContext, s: Sha)
    requires d.Valid()
  {
    && s in d.commits && d.commits[s].parents == [context.baseline]
    && CommitChangedPaths(d.commits, s) == context.changed && context.changed <= context.authorized
    && context.changed <= d.commits[s].tree.Keys && Pick(d.commits[s].tree, context.changed) == context.hashes
  }

  /** The planned commit passes every post-commit verification of its object and its worktree. */
  lemma CommitIsExact(ignored: IgnoreRule, commands: CommandOracle, d0: DiskState, request: CommitRequest, context: CommitContext, d: DiskState)
    requires d0.Valid() && d.Valid() && AtBaseline(ignored, d0, request, context.authorized)
    requires ContextFresh(ignored, commands, d0, request, context)
    requires CommitsExactly(d0, request.root, context.changed, d)
    requires context.baseline == request.baseline && context.changed <= context.authorized
    ensures ObjectAsPlanned(d, context, d.checkouts[request.root].head)
    ensures d.checkouts[request.root].head != request.baseline
    ensures d.checkouts[request.root].worktree == d0.checkouts[request.root].worktree
    ensures UntrackedIntact(ignored, d.checkouts[request.root], request.protectedFiles)
    ensures CommitPaths(ignored, d, request) == {}
  {
    TakenChangesDiffer(ignored, d0, request, context.authorized);
    var c0, c, s := d0.checkouts[request.root], d.checkouts[request.root], d.checkouts[request.root].head;
    assert d.commits[s].tree == c.index == Copy(c0.worktree, c0.index, context.changed);
    forall p | p in context.changed
      ensures p in c.index && c.index[p] == c0.worktree[p]
    {
      assert At(c.index, p) == At(c0.worktree, p);
    }
    assert forall p :: p in DiffPaths(c.index, c0.index) <==> p in context.changed;
    forall p | p in request.protectedFiles
      ensures p in UntrackedPaths(ignored, c)
    {
      assert At(c.index, p) == At(c0.index, p);
    }
    forall p | p in ChangedPaths(ignored, d, request.root)
      ensures p in request.protectedFiles
    {
      assert At(c.index, p) == if p in context.changed then At(c0.worktree, p) else At(c0.index, p);
      assert p in ChangedPaths(ignored, d0, request.root);
    }
  }

  predicate CleanlyCommitted(ignored: IgnoreRule, request: CommitRequest, committed: set<Path>, d: DiskState, d': DiskState)
    requires d.Valid() && d'.Valid()
  {
    && request.root in d.checkouts && committed == CommitPaths(ignored, d, request)
    && CommitsExactly(d, request.root, committed, d') && d.checkouts[request.root].head == request.baseline
    && UntrackedIntact(ignored, d'.checkouts[request.root], request.protectedFiles)
    && CommitPaths(ignored, d', request) == {}
  }

  /** A completed call commits exactly the changes it found, and leaves a clean checkout in which
      the protected files are intact. */
  lemma CommittedCleanly(ignored: IgnoreRule, commands: CommandOracle, request: CommitRequest, faults: set<Site>,
                         d: DiskState, db: Db, r: CommitResult, d': DiskState, db': Db)
    requires d.Valid() && d'.Valid() && CommitStep(ignored, commands, request, faults, d, db, r, d', db') && r.status == Completed
    ensures CanCommit(ignored, commands, d, db, request)
    ensures CleanlyCommitted(ignored, request, r.committed, d, d')
  {
    var rows := CommitRows(db, request).value.0;
    var worktree, changed := d.checkouts[request.root].worktree, CommitPaths(ignored, d, request);
    var context := CommitContext("", "", "", request.root, request.baseline, Authorized(rows.freeze.affected).value, rows.freeze.checks.value,
                                 RunChecks(commands, CommitPreflight, worktree, rows.freeze.checks.value).value,
                                 request.protectedFiles, "", changed, Pick(worktree, changed));
    CommitIsExact(ignored, commands, d, request, context, d');
  }

  lemma CertificateLasts(before: DiskState, after: DiskState, record: CommitRecord)
    requires before.Valid() && after.Valid() && Grows(before, after) && Certified(before, record)
    ensures Certified(after, record)
  {
    Kept(before, after, record.resulting);
    Kept(before, after, record.baseline);
  }

  /** Everything after a passed preflight, when nobody else writes. */
  predicate PreparedStep(commands: CommandOracle, request: CommitRequest, context: CommitContext, faults: set<Site>,
                         d0: DiskState, db: Db, r: CommitResult, d': DiskState, db': Db)
    requires d0.Valid() && request.root in d0.checkouts
  {
    var reached := Reached(commands, request, context, faults, d0);
    StepFrom(reached, reached && Verified(commands, request, context, faults, d0), request.root, context.changed, faults,
             RecordFor(context, 0), d0, db, r, d', db')
  }

  predicate Reached(commands: CommandOracle, request: CommitRequest, context: CommitContext, faults: set<Site>, d0: DiskState)
    requires request.root in d0.checkouts
  {
    && NoFault(faults, InRecheck) && NoFault(faults, InStaging) && NoFault(faults, InCreation)
    && RunChecks(commands, PreCommit, d0.checkouts[request.root].worktree, context.checks) == Some(context.evidence)
  }

  predicate Verified(commands: CommandOracle, request: CommitRequest, context: CommitContext, faults: set<Site>, d0: DiskState)
    requires request.root in d0.checkouts
  {
    && NoFault(faults, InVerification)
    && RunChecks(commands, PostCommit, d0.checkouts[request.root].worktree, context.checks) == Some(context.evidence)
  }

  function RecordFor(context: CommitContext, s: Sha): CommitRecord {
    CommitRecord(context.workflowId, context.freezeId, context.repositoryId, context.baseline, s, context.authorized,
                 context.changed, context.hashes, context.message)
  }

  /** A completed call appended exactly the record of the commit it returns, and that record is certified. */
  predicate Recorded(context: CommitContext, r: CommitResult, db: Db, d': DiskState, db': Db)
    requires d'.Valid()
  {
    && r.resulting.Some?
    && var record := RecordFor(context, r.resulting.value);
       db' == db.(records := db.records + [record]) && Certified(d', record)
  }

  /** A refused or failed call that made no commit: at most the staging is left behind. */
  predicate NothingCommitted(root: Loc, paths: set<Path>, faults: set<Site>, d: DiskState, db: Db, r: CommitResult, d': DiskState, db': Db)
    requires root in d.checkouts
  {
    && r.status == Failed && db' == db
    && (d' == d || (Cleanup in faults && r.unstaged == {} && LeftStaged(d, root, paths, d')))
  }

  /** A call that made its commit: reported as failed if the head could not be read back, as needing
      manual reconciliation if it could not be verified and recorded, and completed otherwise. */
  predicate CommitMade(root: Loc, paths: set<Path>, faults: set<Site>, verifies: bool, record: CommitRecord,
                       d: DiskState, db: Db, r: CommitResult, d': DiskState, db': Db)
    requires d.Valid() && root in d.checkouts
  {
    && CommitsExactly(d, root, paths, d')
    && var s := d'.checkouts[root].head;
       if HeadAfterCommit in faults then r.status == Failed && db' == db
       else if verifies then
         && r.status == Completed && r.resulting == Some(s) && r.committed == paths
         && db' == db.(records := db.records + [record.(resulting := s)])
       else r.status == PostCommitVerificationFailed && r.manualReconciliation && r.resulting == Some(s) && db' == db
  }

  predicate StepFrom(reached: bool, verifies: bool, root: Loc, paths: set<Path>, faults: set<Site>, record: CommitRecord,
                     d: DiskState, db: Db, r: CommitResult, d': DiskState, db': Db)
    requires d.Valid() && root in d.checkouts
  {
    if reached then CommitMade(root, paths, faults, verifies, record, d, db, r, d', db')
    else NothingCommitted(root, paths, faults, d, db, r, d', db')
  }

  /** The record a completed call stores, but for the new commit's name. */
  function RecordOf(ignored: IgnoreRule, d: DiskState, db: Db, request: CommitRequest): CommitRecord
    requires d.Valid() && request.root in d.checkouts && CommitRows(db, request).Ok?
  {
    var (rows, target) := CommitRows(db, request).value;
    var paths, worktree := CommitPaths(ignored, d, request), d.checkouts[request.root].worktree;
    var authorized, message := Authorized(rows.freeze.affected), CommitMessage(request.message, rows.taskId);
    CommitRecord(request.workflowId, rows.freezeId, target.repositoryId, request.baseline, 0,
                 if authorized.Ok? then authorized.value else {}, paths, Pick(worktree, paths),
                 if message.Ok? then message.value else "")
  }

  /** Everything one call does when nobody else writes. */
  predicate CommitStep(ignored: IgnoreRule, commands: CommandOracle, request: CommitRequest, faults: set<Site>,
                       d: DiskState, db: Db, r: CommitResult, d': DiskState, db': Db)
    requires d.Valid()
  {
    var rows := CommitRows(db, request);
    if rows.Fail? then r.status == Failed && d' == d && db' == db
    else if HasRecord(db, request.workflowId, rows.value.0.freezeId) then
      r.status == AlreadyCommitted && d' == d && db' == db &&
      exists k :: 0 <= k < |db.records| && db.records[k].workflowId == request.workflowId &&
        db.records[k].freezeId == rows.value.0.freezeId && r.resulting == Some(db.records[k].resulting)
    else if request.root !in d.checkouts then r.status == Failed && d' == d && db' == db
    else
      var reached := ReachesCommit(ignored, commands, d, db, request, faults);
      StepFrom(reached, reached && Verifies(commands, d, db, request, faults), request.root, CommitPaths(ignored, d, request), faults,
               RecordOf(ignored, d, db, request), d, db, r, d', db')
  }

  /** What a record of a completed commit certifies, whoever else was writing: the recorded
      commit is a child of exactly the frozen baseline, changes exactly the recorded paths, all
      of them authorized, and holds at each the recorded content. */
  predicate Certified(d: DiskState, record: CommitRecord)
    requires d.Valid()
  {
    && record.baseline in d.commits && record.resulting in d.commits && record.resulting != record.baseline
    && d.commits[record.resulting].parents == [record.baseline]
    && record.changed == DiffPaths(d.commits[record.resulting].tree, d.commits[record.baseline].tree)
    && record.changed <= record.authorized
    && record.hashes.Keys == record.changed
    && (forall p :: p in record.changed ==> At(d.commits[record.resulting].tree, p) == Some(record.hashes[p]))
  }

  predicate LostRecord(d: DiskState, head: Sha, baseline: Sha, authorized: set<Path>)
    requires d.Valid()
  {
    && head in d.commits && d.commits[head].parents == [baseline]
    && CommitChangedPaths(d.commits, head) != {} && CommitChangedPaths(d.commits, head) <= authorized
  }

  /** A usable frozen plan whose baseline is not where the canonical head is. */
  predicate Drifted(d: DiskState, request: CommitRequest, rows: Rows, faults: set<Site>) {
    var authorized := Authorized(rows.freeze.affected);
    && authorized.Ok? && FrozenChecks(rows.freeze, authorized.value).Ok?
    && request.root in d.checkouts && d.checkouts[request.root].head != request.baseline
    && HeadRead !in faults && ReconcileParents !in faults && ReconcilePaths !in faults
  }

  /** A head off the baseline is reported for reconciliation exactly when it looks like an unrecorded commit. */
  function DriftReason(d: DiskState, request: CommitRequest, rows: Rows): Reason
    requires d.Valid() && request.root in d.checkouts && Authorized(rows.freeze.affected).Ok?
  {
    if LostRecord(d, d.checkouts[request.root].head, request.baseline, Authorized(rows.freeze.affected).value)
    then ControlledCommitReconciliationRequired else CanonicalHeadDrift
  }

  class ControlledCommitService {
    const disk: Machine
    const store: Store

    constructor (disk: Machine, store: Store)
      ensures this.disk == disk && this.store == store
    {
      this.disk, this.store := disk, store;
    }

    method Commit(request: CommitRequest, faults: set<Site>) returns (r: CommitResult)
      requires disk.Valid()
      modifies disk, store
      ensures disk.Valid() && Grows(old(disk.state), disk.state)
      ensures disk.quiet ==>
        CommitStep(disk.ignored, disk.commands, request, faults, old(disk.state), old(store.db), r, disk.state, store.db)
      ensures disk.quiet && NewPlan(old(store.db), request) && Drifted(old(disk.state), request, CommitRows(old(store.db), request).value.0, faults) ==>
        r.status == Failed && r.reason == DriftReason(old(disk.state), request, CommitRows(old(store.db), request).value.0)
      ensures disk.quiet && NewPlan(old(store.db), request) && !CanCommit(disk.ignored, disk.commands, old(disk.state), old(store.db), request) ==>
        var rows := CommitRows(old(store.db), request).value.0;
        r.status == Failed &&
        PreflightRefused(disk.ignored, disk.commands, old(disk.state), request, rows.taskId, rows.freeze, faults, r.reason)
      ensures r.status != Completed ==> store.db == old(store.db)
      ensures r.status == Completed ==> CommitInOrder(old(store.db), request)
      ensures !CommitInOrder(old(store.db), request) ==>
        r.status == Failed && CommitRefused(old(store.db), request, r.reason) && (disk.quiet ==> disk.state == old(disk.state))
      ensures r.status == Completed ==>
        && CommitRows(old(store.db), request).Ok?
        && exists context :: ContextMatches(old(store.db), request, context) && Recorded(context, r, old(store.db), disk.state, store.db)
    {
      ghost var d0, db0 := disk.state, store.db;
      CommitAdmitsExactly(store.db, request);
      CommitRefusalTells(store.db, request);
      var preflight := RunPreflight(request, faults);
      match preflight {
        case Refused(reason) =>
          return CommitResult(Failed, reason, None, {}, {}, {}, false);
        case Done(record) =>
          return CommitResult(AlreadyCommitted, NoReason, Some(record.resulting), {}, record.changed, {}, false);
        case Ready(context) =>
          r := CommitPrepared(request, context, faults);
          if disk.quiet {
            PreparedIsStep(disk.ignored, disk.commands, request, context, faults, d0, db0, r, disk.state, store.db);
          }
      }
    }

    method RunPreflight(request: CommitRequest, faults: set<Site>) returns (r: Preflight)
      requires disk.Valid()
      modifies disk
      ensures disk.OnlyOthersWrote()
      ensures r.Done? <==> CommitRows(store.db, request).Ok? && HasRecord(store.db, request.workflowId, CommitRows(store.db, request).value.0.freezeId)
      ensures r.Done? ==> r.record in store.db.records
      ensures r.Done? ==> r.record.workflowId == request.workflowId && r.record.freezeId == CommitRows(store.db, request).value.0.freezeId
      ensures r.Ready? ==> CommitRows(store.db, request).Ok? && ContextMatches(store.db, request, r.context)
      ensures CommitRows(store.db, request).Fail? ==> r == Refused(CommitRows(store.db, request).reason)
      ensures disk.quiet ==>
        (r.Ready? <==> NoFault(faults, InPreflight) && CanCommit(disk.ignored, disk.commands, disk.state, store.db, request))
      ensures disk.quiet && r.Ready? ==> ContextFresh(disk.ignored, disk.commands, disk.state, request, r.context)
      ensures disk.quiet && NewPlan(store.db, request) && Drifted(disk.state, request, CommitRows(store.db, request).value.0, faults) ==>
        r == Refused(DriftReason(disk.state, request, CommitRows(store.db, request).value.0))
      ensures disk.quiet && r.Refused? && CommitRows(store.db, request).Ok? ==>
        var rows := CommitRows(store.db, request).value.0;
        PreflightRefused(disk.ignored, disk.commands, disk.state, request, rows.taskId, rows.freeze, faults, r.reason)
    {
      var guards := CommitRows(store.db, request);
      if guards.Fail? {
        return Refused(guards.reason);
      }
      var (rows, target) := guards.value;
      var k := 0;
      while k < |store.db.records|
        invariant 0 <= k <= |store.db.records|
        invariant forall j :: 0 <= j < k ==> !(store.db.records[j].workflowId == request.workflowId && store.db.records[j].freezeId == rows.freezeId)
      {
        if store.db.records[k].workflowId == request.workflowId && store.db.records[k].freezeId == rows.freezeId {
          return Done(store.db.records[k]);
        }
        k := k + 1;
      }
      var prepared := PrepareContext(request, rows, target, faults);
      match prepared {
        case Fail(reason) => return Refused(reason);
        case Ok(context) => return Ready(context);
      }
    }

    /** The Git half of the preflight. */
    method PrepareContext(request: CommitRequest, rows: Rows, target: Target, faults: set<Site>) returns (r: Result<CommitContext>)
      requires disk.Valid()
      modifies disk
      ensures disk.OnlyOthersWrote()
      ensures r.Ok? ==> Described(request, rows, target, r.value)
      ensures disk.quiet ==>
        (r.Ok? <==> NoFault(faults, InPreflight) && Promotable(disk.ignored, disk.commands, disk.state, request, rows))
      ensures disk.quiet && r.Ok? ==> ContextFresh(disk.ignored, disk.commands, disk.state, request, r.value)
      ensures disk.quiet && Drifted(disk.state, request, rows, faults) ==> r == Fail(DriftReason(disk.state, request, rows))
      ensures disk.quiet && r.Fail? ==>
        PreflightRefused(disk.ignored, disk.commands, disk.state, request, rows.taskId, rows.freeze, faults, r.reason)
    {
      FrozenListsExactly(rows.freeze);
      AuthorizedExactly(rows.freeze.affected);
      PreflightSites(faults);
      var paths :- AuthorizedPaths(rows.freeze.affected);
      var authorized := set p | p in paths;
      var checks :- FrozenChecks(rows.freeze, authorized);
      var based := VerifyAtBaseline(request, authorized, faults);
      :- based;
      r := CaptureChanges(request, rows, target, authorized, checks, faults);
    }

    method VerifyAtBaseline(request: CommitRequest, authorized: set<Path>, faults: set<Site>) returns (g: Guard)
      requires disk.Valid()
      modifies disk
      ensures disk.OnlyOthersWrote()
      ensures disk.quiet ==>
        (g.Pass? <==> AtBaseline(disk.ignored, disk.state, request, authorized) &&
                      HeadRead !in faults && StagedRead !in faults && ProtectedRead !in faults)
      ensures disk.quiet && g.Stop? ==> BaselineLost(disk.ignored, disk.state, request, authorized, faults, g.reason)
      ensures disk.quiet && request.root in disk.state.checkouts && disk.state.checkouts[request.root].head != request.baseline &&
              HeadRead !in faults && ReconcileParents !in faults && ReconcilePaths !in faults ==>
        g == Stop(if LostRecord(disk.state, disk.state.checkouts[request.root].head, request.baseline, authorized)
                  then ControlledCommitReconciliationRequired else CanonicalHeadDrift)
    {
      var head := disk.CurrentHead(request.root, HeadRead in faults);
      if head.Fail? {
        return Stop(head.reason);
      }
      if head.value != request.baseline {
        var lost := LooksLikeMissingRecord(head.value, request.baseline, authorized, faults);
        return Stop(if lost then ControlledCommitReconciliationRequired else CanonicalHeadDrift);
      }
      var staged := disk.Staged(request.root, StagedRead in faults);
      if staged.Fail? {
        return Stop(staged.reason);
      }
      if staged.value != {} {
        return Stop(PreexistingStagedChanges);
      }
      if !(request.protectedFiles.Keys !! authorized) {
        return Stop(ProtectedUntrackedPathAuthorizedForMutation);
      }
      g := disk.VerifyUntracked(request.root, request.protectedFiles, ProtectedRead in faults);
    }

    method CaptureChanges(request: CommitRequest, rows: Rows, target: Target, authorized: set<Path>, checks: seq<Check>, faults: set<Site>)
      returns (r: Result<CommitContext>)
      requires disk.Valid()
      modifies disk
      ensures disk.OnlyOthersWrote()
      ensures r.Ok? ==> && CommitMessage(request.message, rows.taskId) == Ok(r.value.message)
                        && r.value.changed != {} && r.value.changed <= authorized && r.value.hashes.Keys == r.value.changed
                        && r.value == CommitContext(request.workflowId, rows.freezeId, target.repositoryId, request.root, request.baseline,
                             authorized, checks, r.value.evidence, request.protectedFiles, r.value.message, r.value.changed, r.value.hashes)
      ensures disk.quiet ==>
        (r.Ok? <==> && request.root in disk.state.checkouts
                    && Committable(disk.ignored, disk.commands, disk.state, request, authorized, checks)
                    && CommitMessage(request.message, rows.taskId).Ok?
                    && ChangedRead !in faults && AcceptanceRead !in faults && HashRead !in faults)
      ensures disk.quiet && r.Ok? ==> ContextFresh(disk.ignored, disk.commands, disk.state, request, r.value)
      ensures disk.quiet && r.Fail? && request.root in disk.state.checkouts ==>
        ChangesRefused(disk.ignored, disk.commands, disk.state, request, rows.taskId, authorized, checks, faults, r.reason)
    {
      var observed :- disk.Changed(request.root, ChangedRead in faults);
      var changed := observed - request.protectedFiles.Keys;
      :- Need(changed != {}, CanonicalHasNoChanges);
      :- Need(changed <= authorized, CanonicalHasUnauthorizedChanges);
      var evidence :- disk.VerifyAcceptance(request.root, CommitPreflight, checks, AcceptanceRead in faults);
      :- Need(changed <= CheckedPaths(checks), CanonicalChangeMissingDeterministicAcceptanceCheck);
      var message := CommitMessage(request.message, rows.taskId);
      if message.Fail? {
        MessageRefusal(request.message, rows.taskId);
        return Fail(message.reason);
      }
      var hashes :- disk.HashFiles(request.root, changed, HashRead in faults);
      return Ok(CommitContext(request.workflowId, rows.freezeId, target.repositoryId, request.root, request.baseline, authorized,
                              checks, evidence, request.protectedFiles, message.value, changed, hashes));
    }

    /** A head that is a child of the baseline and changes only authorized paths looks like a
        commit whose record was lost. */
    method LooksLikeMissingRecord(head: Sha, baseline: Sha, authorized: set<Path>, faults: set<Site>) returns (lost: bool)
      requires disk.Valid()
      modifies disk
      ensures disk.OnlyOthersWrote()
      ensures lost ==> LostRecord(disk.state, head, baseline, authorized)
      ensures disk.quiet && ReconcileParents !in faults && ReconcilePaths !in faults ==>
        (lost <==> LostRecord(disk.state, head, baseline, authorized))
    {
      var parents := disk.ParentsOf(head, ReconcileParents in faults);
      if parents.Fail? {
        return false;
      }
      ghost var seen := disk.state;
      var paths := disk.PathsOf(head, ReconcilePaths in faults);
      if paths.Fail? {
        return false;
      }
      Kept(seen, disk.state, head);
      return parents.value == [baseline] && paths.value != {} && paths.value <= authorized;
    }

    /** Re-verify, stage, verify the index, then commit. */
    method CommitPrepared(request: CommitRequest, context: CommitContext, faults: set<Site>) returns (r: CommitResult)
      requires disk.Valid()
      requires context.baseline == request.baseline && context.changed <= context.authorized && context.hashes.Keys == context.changed
      requires disk.quiet ==> Fresh(disk.state, request, context)
      modifies disk, store
      ensures disk.Valid() && Grows(old(disk.state), disk.state)
      ensures disk.quiet ==> PreparedStep(disk.commands, request, context, faults, old(disk.state), old(store.db), r, disk.state, store.db)
      ensures r.status != Completed ==> store.db == old(store.db)
      ensures r.status == Completed ==> Recorded(context, r, old(store.db), disk.state, store.db)
    {
      ghost var d0, db0 := disk.state, store.db;
      ghost var reached := disk.quiet && Reached(disk.commands, request, context, faults, d0);
      var rechecked := VerifyPreCommitState(request, context, faults);
      if rechecked.Stop? {
        assert !reached;
        return Stopped(context, rechecked.reason, {});
      }
      if disk.quiet {
        TakenChangesDiffer(disk.ignored, d0, request, context.authorized);
      }
      var staged := StageManifest(request, context, faults);
      if staged.Stop? {
        assert !reached;
        var unstaged := CleanupStaging(request, context, faults, d0);
        r := Stopped(context, staged.reason, unstaged);
        assert disk.quiet ==> NothingCommitted(request.root, context.changed, faults, d0, db0, r, disk.state, store.db);
        return;
      }
      CreationSite(faults);
      assert disk.quiet ==> (reached <==> Creation !in faults);
      r := CreateAndRecord(request, context, faults, d0);
    }

    /** From the staged manifest on: create the commit, verify it, record it. */
    method CreateAndRecord(request: CommitRequest, context: CommitContext, faults: set<Site>, ghost d0: DiskState) returns (r: CommitResult)
      requires disk.Valid() && d0.Valid()
      requires context.baseline == request.baseline && context.changed <= context.authorized && context.hashes.Keys == context.changed
      requires disk.quiet ==> Fresh(d0, request, context) && LeftStaged(d0, request.root, context.changed, disk.state)
      modifies disk, store
      ensures disk.Valid() && Grows(old(disk.state), disk.state)
      ensures disk.quiet ==>
        StepFrom(Creation !in faults, Verified(disk.commands, request, context, faults, d0), request.root, context.changed, faults,
                 RecordFor(context, 0), d0, old(store.db), r, disk.state, store.db)
      ensures r.status != Completed ==> store.db == old(store.db)
      ensures r.status == Completed ==> Recorded(context, r, old(store.db), disk.state, store.db)
    {
      assert disk.quiet ==> StagedPaths(disk.state, request.root) != {} by {
        if disk.quiet {
          StagingIsExact(disk.ignored, disk.commands, d0, request, context);
        }
      }
      var created := disk.CreateLocalCommit(request.root, Creation in faults, HeadAfterCommit in faults);
      ghost var db0 := store.db;
      if disk.quiet && Creation !in faults {
        IndexCommitIsExact(disk.ignored, disk.commands, d0, request, context, old(disk.state), disk.state);
      }
      if created.Fail? {
        ghost var here := if Creation in faults then d0 else disk.state;
        assert disk.quiet ==> here.checkouts[request.root].index == here.HeadTree(request.root) &&
                              context.changed <= here.checkouts[request.root].worktree.Keys by {
          if disk.quiet {
            TakenChangesDiffer(disk.ignored, d0, request, context.authorized);
          }
        }
        var unstaged := CleanupStaging(request, context, faults, here);
        r := Stopped(context, created.reason, unstaged);
        assert disk.quiet && Creation in faults ==>
          NothingCommitted(request.root, context.changed, faults, d0, db0, r, disk.state, store.db);
        assert disk.quiet && Creation !in faults ==> HeadAfterCommit in faults && disk.state == here;
        return;
      }
      r := VerifyAndRecord(request, context, created.value, faults, d0);
    }

    /** The commit exists and its head was read back. */
    method VerifyAndRecord(request: CommitRequest, context: CommitContext, resulting: Sha, faults: set<Site>, ghost d0: DiskState)
      returns (r: CommitResult)
      requires disk.Valid() && d0.Valid() && context.hashes.Keys == context.changed
      requires disk.quiet ==> CommittedHere(d0, request, context, resulting, disk.state)
      modifies disk, store
      ensures disk.OnlyOthersWrote()
      ensures disk.quiet ==> (r.status == Completed <==> Verified(disk.commands, request, context, faults, d0))
      ensures r.resulting == Some(resulting)
      ensures r.status == Completed ==> r.committed == context.changed && Recorded(context, r, old(store.db), disk.state, store.db)
      ensures r.status != Completed ==> r.status == PostCommitVerificationFailed && r.manualReconciliation && store.db == old(store.db)
    {
      VerificationSites(faults);
      var g := VerifyPostCommit(request, context, resulting, faults, d0);
      if g.Stop? || Flush in faults {
        return CommitResult(PostCommitVerificationFailed, if g.Stop? then g.reason else RecordFlushFailed, Some(resulting),
                            context.authorized, {}, {}, true);
      }
      store.db := store.db.(records := store.db.records + [RecordFor(context, resulting)]);
      return CommitResult(Completed, NoReason, Some(resulting), context.authorized, context.changed, {}, false);
    }

    method VerifyPostCommit(request: CommitRequest, context: CommitContext, resulting: Sha, faults: set<Site>, ghost d0: DiskState)
      returns (g: Guard)
      requires disk.Valid() && d0.Valid() && context.hashes.Keys == context.changed
      requires disk.quiet ==> CommittedHere(d0, request, context, resulting, disk.state)
      modifies disk
      ensures disk.OnlyOthersWrote()
      ensures g.Pass? ==> Certified(disk.state, RecordFor(context, resulting))
      ensures disk.quiet ==>
        (g.Pass? <==> && faults !! VERIFICATION_SITES
                      && RunChecks(disk.commands, PostCommit, d0.checkouts[request.root].worktree, context.checks) == Some(context.evidence))
    {
      if disk.quiet {
        CommitIsExact(disk.ignored, disk.commands, d0, request, context, disk.state);
      }
      if resulting == context.baseline {
        return Stop(CommitDidNotAdvanceHead);
      }
      var head := disk.CurrentHead(request.root, PostHead in faults);
      if head.Fail? {
        return Stop(head.reason);
      }
      if head.value != resulting {
        return Stop(CanonicalHeadNotResultingCommit);
      }
      g := VerifyCommitObject(context, resulting, faults);
      if g.Stop? {
        return;
      }
      ghost var verified := disk.state;
      g := VerifyCleanWorktree(request, context, resulting, faults);
      CertificateLasts(verified, disk.state, RecordFor(context, resulting));
    }

    /** Parent, changed paths and contents of the commit object itself. */
    method VerifyCommitObject(context: CommitContext, resulting: Sha, faults: set<Site>) returns (g: Guard)
      requires disk.Valid()
      modifies disk
      ensures disk.OnlyOthersWrote()
      ensures g.Pass? && resulting != context.baseline && context.hashes.Keys == context.changed ==>
        Certified(disk.state, RecordFor(context, resulting))
      ensures disk.quiet && ObjectAsPlanned(disk.state, context, resulting) ==>
        (g.Pass? <==> PostParents !in faults && PostPaths !in faults && PostHash !in faults)
    {
      var parents := disk.ParentsOf(resulting, PostParents in faults);
      if parents.Fail? {
        return Stop(parents.reason);
      }
      if parents.value != [context.baseline] {
        return Stop(ControlledCommitParentMismatch);
      }
      ghost var d1 := disk.state;
      var paths := disk.PathsOf(resulting, PostPaths in faults);
      if paths.Fail? {
        return Stop(paths.reason);
      }
      if paths.value != context.changed {
        return Stop(CommittedPathsDoNotMatchManifest);
      }
      if !(paths.value <= context.authorized) {
        return Stop(CommittedUnauthorizedPaths);
      }
      ghost var d2 := disk.state;
      Kept(d1, d2, resulting);
      assert d2.commits[resulting].parents[0] == context.baseline;
      var hashes := disk.HashCommitted(resulting, context.changed, PostHash in faults);
      if hashes.Fail? {
        return Stop(hashes.reason);
      }
      Kept(d2, disk.state, resulting);
      Kept(d2, disk.state, context.baseline);
      return Need(hashes.value == context.hashes, CommittedContentHashMismatch);
    }

    /** Acceptance, protected files and cleanliness after the commit. */
    method VerifyCleanWorktree(request: CommitRequest, context: CommitContext, resulting: Sha, faults: set<Site>) returns (g: Guard)
      requires disk.Valid()
      modifies disk
      ensures disk.OnlyOthersWrote()
      ensures disk.quiet && request.root in disk.state.checkouts && disk.state.checkouts[request.root].head == resulting ==>
        (g.Pass? <==>
           && PostAcceptance !in faults && PostProtected !in faults && PostChanged !in faults && PostHeadAgain !in faults
           && RunChecks(disk.commands, PostCommit, disk.state.checkouts[request.root].worktree, context.checks) == Some(context.evidence)
           && UntrackedIntact(disk.ignored, disk.state.checkouts[request.root], request.protectedFiles)
           && CommitPaths(disk.ignored, disk.state, request) == {})
    {
      var evidence := disk.VerifyAcceptance(request.root, PostCommit, context.checks, PostAcceptance in faults);
      if evidence.Fail? {
        return Stop(evidence.reason);
      }
      if evidence.value != context.evidence {
        return Stop(PostCommitDeterministicAcceptanceDrift);
      }
      g := disk.VerifyUntracked(request.root, request.protectedFiles, PostProtected in faults);
      if g.Stop? {
        return;
      }
      var remaining := disk.Changed(request.root, PostChanged in faults);
      if remaining.Fail? {
        return Stop(remaining.reason);
      }
      if remaining.value - request.protectedFiles.Keys != {} {
        return Stop(CanonicalWorktreeNotCleanAfterCommit);
      }
      var head := disk.CurrentHead(request.root, PostHeadAgain in faults);
      if head.Fail? {
        return Stop(head.reason);
      }
      return Need(head.value == resulting, CanonicalHeadChangedAfterVerification);
    }

    /** The disk holds exactly the planned commit on top of `d0`. */
    predicate CommittedHere(d0: DiskState, request: CommitRequest, context: CommitContext, resulting: Sha, d: DiskState)
      requires d0.Valid()
    {
      && Fresh(d0, request, context)
      && CommitsExactly(d0, request.root, context.changed, d) && d.checkouts[request.root].head == resulting
      && context.baseline == request.baseline && context.changed <= context.authorized
    }

    predicate Fresh(d: DiskState, request: CommitRequest, context: CommitContext)
      requires d.Valid()
    {
      && AtBaseline(disk.ignored, d, request, context.authorized) && context.changed != {}
      && ContextFresh(disk.ignored, disk.commands, d, request, context)
    }

    /** Nothing moved since the preflight. */
    method VerifyPreCommitState(request: CommitRequest, context: CommitContext, faults: set<Site>) returns (g: Guard)
      requires disk.Valid()
      modifies disk
      ensures disk.OnlyOthersWrote()
      ensures disk.quiet && Fresh(old(disk.state), request, context) ==>
        (g.Pass? <==> && NoFault(faults, InRecheck)
                      && RunChecks(disk.commands, PreCommit, disk.state.checkouts[request.root].worktree, context.checks) == Some(context.evidence))
    {
      RecheckSites(faults);
      var head := disk.CurrentHead(request.root, PreHead in faults);
      if head.Fail? {
        return Stop(head.reason);
      }
      if head.value != request.baseline {
        return Stop(CanonicalHeadDrift);
      }
      var staged := disk.Staged(request.root, PreStaged in faults);
      if staged.Fail? {
        return Stop(staged.reason);
      }
      if staged.value != {} {
        return Stop(PreexistingStagedChanges);
      }
      var intact := disk.VerifyUntracked(request.root, request.protectedFiles, PreProtected in faults);
      if intact.Stop? {
        return intact;
      }
      var observed := disk.Changed(request.root, PreChanged in faults);
      if observed.Fail? {
        return Stop(observed.reason);
      }
      if observed.value - request.protectedFiles.Keys != context.changed {
        return Stop(CanonicalChangedPathsDrift);
      }
      var evidence := disk.VerifyAcceptance(request.root, PreCommit, context.checks, PreAcceptance in faults);
      if evidence.Fail? {
        return Stop(evidence.reason);
      }
      if evidence.value != context.evidence {
        return Stop(DeterministicAcceptanceDrift);
      }
      var hashes := disk.HashFiles(request.root, context.changed, PreHash in faults);
      if hashes.Fail? {
        return Stop(hashes.reason);
      }
      return Need(hashes.value == context.hashes, CanonicalContentHashDrift);
    }

    /** Stages the manifest and verifies that the index holds exactly it. */
    method StageManifest(request: CommitRequest, context: CommitContext, faults: set<Site>) returns (g: Guard)
      requires disk.Valid()
      modifies disk
      ensures disk.Valid() && Grows(old(disk.state), disk.state)
      ensures disk.quiet && Fresh(old(disk.state), request, context) ==>
        && (g.Pass? <==> NoFault(faults, InStaging))
        && (if Staging in faults then disk.state == old(disk.state) else LeftStaged(old(disk.state), request.root, context.changed, disk.state))
    {
      ghost var d0 := disk.state;
      StagingSites(faults);
      if disk.quiet && Fresh(d0, request, context) {
        StagingIsExact(disk.ignored, disk.commands, d0, request, context);
      }
      assert disk.quiet && Fresh(d0, request, context) ==> Stageable(disk.ignored, d0.checkouts[request.root], context.changed);
      g := disk.Stage(request.root, context.changed, Staging in faults);
      if g.Stop? {
        return;
      }
      g := disk.VerifyUntracked(request.root, request.protectedFiles, StagedProtected in faults);
      if g.Stop? {
        return;
      }
      var staged := disk.Staged(request.root, StagedStatus in faults);
      if staged.Fail? {
        return Stop(staged.reason);
      }
      if staged.value != context.changed {
        return Stop(StagedPathsDoNotMatchManifest);
      }
      var hashes := disk.HashStaged(request.root, context.changed, StagedHash in faults);
      if hashes.Fail? {
        return Stop(hashes.reason);
      }
      return Need(hashes.value == context.hashes, StagedContentHashMismatch);
    }

    /** Un-stages what this call staged.  `before` is the state to come back to. */
    method CleanupStaging(request: CommitRequest, context: CommitContext, faults: set<Site>, ghost before: DiskState) returns (unstaged: set<Path>)
      requires disk.Valid() && before.Valid()
      requires disk.quiet ==>
        && request.root in before.checkouts && before.checkouts[request.root].index == before.HeadTree(request.root)
        && context.changed <= before.checkouts[request.root].worktree.Keys
        && (disk.state == before || LeftStaged(before, request.root, context.changed, disk.state))
      modifies disk
      ensures disk.Valid() && Grows(old(disk.state), disk.state)
      ensures disk.quiet ==> disk.state == before || (Cleanup in faults && disk.state == old(disk.state) && unstaged == {})
    {
      if context.changed == {} {
        if disk.quiet {
          SameTree(Copy(before.checkouts[request.root].worktree, before.checkouts[request.root].index, {}), before.checkouts[request.root].index);
        }
        return {};
      }
      if disk.quiet {
        UnstagingUndoes(before, request.root, context.changed, disk.state);
      }
      var g := disk.Unstage(request.root, context.changed, Cleanup in faults);
      return if g.Pass? then context.changed else {};
    }
  }

  function Stopped(context: CommitContext, reason: Reason, unstaged: set<Path>): CommitResult {
    CommitResult(Failed, reason, None, context.authorized, {}, unstaged, false)
  }

  /** What the context observed is what the disk holds. */
  predicate ContextFresh(ignored: IgnoreRule, commands: CommandOracle, d: DiskState, request: CommitRequest, context: CommitContext)
    requires d.Valid() && request.root in d.checkouts
  {
    var worktree := d.checkouts[request.root].worktree;
    && context.changed == CommitPaths(ignored, d, request) && context.changed <= worktree.Keys
    && context.hashes == Pick(worktree, context.changed)
    && RunChecks(commands, CommitPreflight, worktree, context.checks) == Some(context.evidence)
  }

  /** What the context observed decides how far the call gets. */
  lemma ContextDecides(ignored: IgnoreRule, commands: CommandOracle, request: CommitRequest, context: CommitContext, faults: set<Site>,
                       d: DiskState, db: Db)
    requires d.Valid() && CanCommit(ignored, commands, d, db, request)
    requires ContextMatches(db, request, context) && ContextFresh(ignored, commands, d, request, context)
    ensures var worktree := d.checkouts[request.root].worktree;
      && (SameEvidence(commands, d, db, request, CommitPreflight, PreCommit) <==>
            RunChecks(commands, PreCommit, worktree, context.checks) == Some(context.evidence))
      && (SameEvidence(commands, d, db, request, CommitPreflight, PostCommit) <==>
            RunChecks(commands, PostCommit, worktree, context.checks) == Some(context.evidence))
    ensures RecordFor(context, 0) == RecordOf(ignored, d, db, request)
  {
    assert context.checks == CommitRows(db, request).value.0.freeze.checks.value;
  }

  lemma PreparedIsStep(ignored: IgnoreRule, commands: CommandOracle, request: CommitRequest, context: CommitContext, faults: set<Site>,
                       d: DiskState, db: Db, r: CommitResult, d': DiskState, db': Db)
    requires d.Valid() && CanCommit(ignored, commands, d, db, request) && NoFault(faults, InPreflight)
    requires ContextMatches(db, request, context) && ContextFresh(ignored, commands, d, request, context)
    requires PreparedStep(commands, request, context, faults, d, db, r, d', db')
    ensures CommitStep(ignored, commands, request, faults, d, db, r, d', db')
  {
    ContextDecides(ignored, commands, request, context, faults, d, db);
    assert ReachesCommit(ignored, commands, d, db, request, faults) <==> Reached(commands, request, context, faults, d);
    assert Verifies(commands, d, db, request, faults) <==> Verified(commands, request, context, faults, d);
  }

  /** The context carries the frozen plan, whatever the disk looked like. */
  predicate Described(request: CommitRequest, rows: Rows, target: Target, context: CommitContext) {
    && context.workflowId == request.workflowId && context.freezeId == rows.freezeId
    && context.repositoryId == target.repositoryId
    && context.root == request.root && context.baseline == request.baseline
    && Authorized(rows.freeze.affected) == Ok(context.authorized)
    && FrozenChecks(rows.freeze, context.authorized) == Ok(context.checks)
    && context.protectedFiles == request.protectedFiles
    && CommitMessage(request.message, rows.taskId) == Ok(context.message)
    && context.hashes.Keys == context.changed && context.changed != {} && context.changed <= context.authorized
  }

  predicate ContextMatches(db: Db, request: CommitRequest, context: CommitContext)
    requires CommitRows(db, request).Ok?
  {
    var (rows, target) := CommitRows(db, request).value;
    Described(request, rows, target, context) && !HasRecord(db, request.workflowId, rows.freezeId)
  }
}
