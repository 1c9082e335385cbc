/** What the two promotion steps guarantee together: rollback atomicity of L1, and the
    commit that L1 followed by L2 produces. */
module Promotion {
  import opened Prelude
  import opened Git
  import opened Acceptance
  import opened Disk
  import opened Session
  import L1 = Integration
  import L2 = ControlledCommit

  /** The frozen write authorization of the workflow a request names. */
  function AuthorizedBy(db: Db, request: L1.IntegrationRequest): set<Path> {
    var rows := L1.IntegrationRows(db, request);
    if rows.Ok? && Authorized(rows.value.freeze.affected).Ok? then Authorized(rows.value.freeze.affected).value else {}
  }

  lemma CapturedIsAuthorized(ignored: IgnoreRule, commands: CommandOracle, d: DiskState, db: Db, request: L1.IntegrationRequest)
    requires d.Valid() && L1.CanIntegrate(ignored, commands, d, db, request)
    ensures var context := L1.ContextOf(ignored, d, request, L1.IntegrationRows(db, request).value);
            && context.authorized == AuthorizedBy(db, request) && context.files.Keys == context.changed <= context.authorized
            && context.protectedFiles.Keys !! context.authorized
  {
  }

  lemma AppliedFrame(ignored: IgnoreRule, commands: CommandOracle, request: L1.IntegrationRequest, context: L1.IntegrationContext,
                     faults: L1.Faults, d: DiskState, db: Db, r: L1.IntegrationResult, d': DiskState, db': Db)
    requires d.Valid() && request.root in d.checkouts && request.workflowId in db.workflows
    requires context.files.Keys <= context.authorized
    requires L1.AppliedStep(ignored, commands, request, context, faults, d, db, r, d', db')
    ensures d' == d || L1.OnlyAuthorizedFiles(d, request.root, context.authorized, d')
    ensures db' == db || db' == L1.CloseWorkflow(db, request.workflowId)
  {
  }

  /** Whatever happens in an L1 call, faults and escaped exceptions included: no commit, head, index
      or other checkout changes, and no file of the canonical checkout outside the frozen authorization. */
  lemma IntegrationFrame(ignored: IgnoreRule, commands: CommandOracle, request: L1.IntegrationRequest, faults: L1.Faults,
                         d: DiskState, db: Db, r: L1.IntegrationResult, d': DiskState, db': Db)
    requires d.Valid() && L1.IntegrateStep(ignored, commands, request, faults, d, db, r, d', db')
    ensures d'.commits == d.commits && d'.checkouts.Keys == d.checkouts.Keys
    ensures d' == d || (request.root in d.checkouts && L1.OnlyAuthorizedFiles(d, request.root, AuthorizedBy(db, request), d'))
    ensures db' == db || (request.workflowId in db.workflows && db' == L1.CloseWorkflow(db, request.workflowId))
  {
    if L1.CanIntegrate(ignored, commands, d, db, request) && faults.sites !! L1.PREFLIGHT_SITES {
      CapturedIsAuthorized(ignored, commands, d, db, request);
      var context := L1.ContextOf(ignored, d, request, L1.IntegrationRows(db, request).value);
      AppliedFrame(ignored, commands, request, context, faults, d, db, r, d', db');
    }
  }

  /** The state right after the captured files are written. */
  function Written(ignored: IgnoreRule, d: DiskState, db: Db, request: L1.IntegrationRequest): DiskState
    requires d.Valid() && L1.IntegrationRows(db, request).Ok? && request.root in d.checkouts && request.candidate in d.checkouts
    requires Readable(d.checkouts[request.candidate].worktree, ChangedPaths(ignored, d, request.candidate))
  {
    L1.WithWorktree(d, request.root, d.checkouts[request.root].worktree +
      Captured(d.checkouts[request.candidate].worktree, ChangedPaths(ignored, d, request.candidate)))
  }

  /** Files that exist at authorized paths the baseline does not track. */
  function Unrestorable(d: DiskState, root: Loc, authorized: set<Path>): set<Path>
    requires d.Valid() && root in d.checkouts
  {
    set p | p in authorized && p in d.checkouts[root].worktree && p !in d.HeadTree(root)
  }

  /** Putting authorized paths back to the baseline loses exactly the unrestorable files. */
  lemma RestoringLoses(ignored: IgnoreRule, d: DiskState, request: L1.IntegrationRequest, authorized: set<Path>)
    requires d.Valid() && L1.CanonicalReady(ignored, d, request, authorized)
    ensures var c, lost := d.checkouts[request.root], Unrestorable(d, request.root, authorized);
      && L1.RolledBack(d, request.root, authorized) == L1.WithWorktree(d, request.root, c.worktree - lost)
      && (L1.RolledBack(d, request.root, authorized) == d <==> lost == {})
      && (forall p :: p in lost ==> p !in c.index && ignored(c.worktree, p))
  {
    var c, tree, lost := d.checkouts[request.root], d.HeadTree(request.root), Unrestorable(d, request.root, authorized);
    NoDiffMeansSame(c.index, tree);
    forall p | p in authorized
      ensures p in tree ==> At(c.worktree, p) == At(tree, p)
    {
      assert p in TrackedChanges(c) <==> p in c.index && At(c.index, p) != At(c.worktree, p);
    }
    SameTree(Copy(tree, c.worktree, authorized), c.worktree - lost);
    if lost == {} {
      assert c.worktree - lost == c.worktree;
      assert d.checkouts[request.root := c] == d.checkouts;
    } else {
      var p :| p in lost;
      assert p in c.worktree && p !in c.worktree - lost;
    }
    forall p | p in lost
      ensures ignored(c.worktree, p)
    {
      assert p !in UntrackedPaths(ignored, c);
    }
  }

  /** When a rollback reports success, the disk is exactly as before the call if and only if no file
      sat at an authorized path that the baseline does not track.  Such files are ignored ones, and
      the rollback deletes them: every other file is back. */
  lemma RollbackAtomicity(ignored: IgnoreRule, commands: CommandOracle, request: L1.IntegrationRequest, faults: L1.Faults,
                          d: DiskState, db: Db, r: L1.IntegrationResult, d': DiskState, db': Db)
    requires d.Valid() && L1.IntegrateStep(ignored, commands, request, faults, d, db, r, d', db')
    requires r.status == L1.Failed && r.rollbackSucceeded
    ensures request.root in d.checkouts
    ensures var c, lost := d.checkouts[request.root], Unrestorable(d, request.root, AuthorizedBy(db, request));
      && d' == L1.WithWorktree(d, request.root, c.worktree - lost)
      && (d' == d <==> lost == {})
      && (forall p :: p in lost ==> p !in c.index && ignored(c.worktree, p))
  {
    CapturedIsAuthorized(ignored, commands, d, db, request);
    RestoringLoses(ignored, d, request, AuthorizedBy(db, request));
  }

  /** The application passed its verification, so the workflow was closed. */
  predicate ApplicationVerified(ignored: IgnoreRule, commands: CommandOracle, request: L1.IntegrationRequest, faults: L1.Faults,
                                d: DiskState, db: Db)
    requires d.Valid() && L1.CanIntegrate(ignored, commands, d, db, request)
  {
    var context := L1.ContextOf(ignored, d, request, L1.IntegrationRows(db, request).value);
    faults.sites !! L1.APPLY_SITES && L1.AppliedWell(ignored, commands, Written(ignored, d, db, request), request.root, context)
  }

  /** The workflow row after a successful rollback: still pending, unless the application had already
      been verified and closed, which happens only when the very last head read faults. */
  lemma RollbackWorkflowState(ignored: IgnoreRule, commands: CommandOracle, request: L1.IntegrationRequest, faults: L1.Faults,
                              d: DiskState, db: Db, r: L1.IntegrationResult, d': DiskState, db': Db)
    requires d.Valid() && L1.IntegrateStep(ignored, commands, request, faults, d, db, r, d', db')
    requires r.status == L1.Failed && r.rollbackSucceeded
    ensures L1.CanIntegrate(ignored, commands, d, db, request)
    ensures db' == db <==> !ApplicationVerified(ignored, commands, request, faults, d, db)
    ensures db' != db ==> L1.HeadAtReturn in faults.sites && db' == L1.CloseWorkflow(db, request.workflowId)
  {
    assert db.workflows[request.workflowId].state == CompletedPendingIntegration;
    assert L1.CloseWorkflow(db, request.workflowId).workflows[request.workflowId].state == Closed;
  }

  // ----- L1 followed by L2 -----

  /** Files that were ignored before the application and no longer are after it. */
  function Unhidden(ignored: IgnoreRule, before: Checkout, after: Tree): set<Path> {
    set p | p in before.worktree && p !in before.index && ignored(before.worktree, p) && !ignored(after, p)
  }

  /** What L1 reports as actually changed: the captured files, plus whatever its writes un-ignored. */
  lemma ActualIsCapturedPlusUnhidden(ignored: IgnoreRule, d: DiskState, request: L1.IntegrationRequest, authorized: set<Path>, files: Tree)
    requires d.Valid() && L1.CanonicalReady(ignored, d, request, authorized)
    requires files.Keys <= L1.ActualPaths(ignored, L1.WithWorktree(d, request.root, d.checkouts[request.root].worktree + files), request.root,
                                          UntrackedFiles(ignored, d.checkouts[request.root]))
    ensures var d1 := L1.WithWorktree(d, request.root, d.checkouts[request.root].worktree + files);
      L1.ActualPaths(ignored, d1, request.root, UntrackedFiles(ignored, d.checkouts[request.root])) ==
      files.Keys + Unhidden(ignored, d.checkouts[request.root], d1.checkouts[request.root].worktree)
  {
    var c := d.checkouts[request.root];
    var d1 := L1.WithWorktree(d, request.root, c.worktree + files);
    var c1 := d1.checkouts[request.root];
    var actual := L1.ActualPaths(ignored, d1, request.root, UntrackedFiles(ignored, c));
    forall p
      ensures p in actual <==> p in files.Keys + Unhidden(ignored, c, c1.worktree)
    {
      assert At(c1.worktree, p) == if p in files then Some(files[p]) else At(c.worktree, p);
      assert p in StagedPaths(d1, request.root) <==> p in StagedPaths(d, request.root);
      assert p in TrackedChanges(c) <==> p in c.index && At(c.index, p) != At(c.worktree, p);
      assert p in UntrackedPaths(ignored, c) <==> p in c.worktree && p !in c.index && !ignored(c.worktree, p);
    }
  }

  /** A completed L1 call: the canonical worktree gained exactly the captured files. */
  lemma IntegratedCleanly(ignored: IgnoreRule, commands: CommandOracle, request: L1.IntegrationRequest, faults: L1.Faults,
                          d0: DiskState, db0: Db, r: L1.IntegrationResult, d1: DiskState, db1: Db)
    requires d0.Valid() && L1.IntegrateStep(ignored, commands, request, faults, d0, db0, r, d1, db1) && r.status == L1.Completed
    ensures request.workflowId in db0.workflows
    ensures Integrated(ignored, request, r, d0, d1)
    ensures db1 == L1.CloseWorkflow(db0, request.workflowId)
  {
    CapturedIsAuthorized(ignored, commands, d0, db0, request);
    var context := L1.ContextOf(ignored, d0, request, L1.IntegrationRows(db0, request).value);
    NoDiffMeansSame(d0.checkouts[request.root].index, d0.HeadTree(request.root));
    ActualIsCapturedPlusUnhidden(ignored, d0, request, context.authorized, context.files);
  }

  /** The commit that a completed L1 step followed by a completed L2 step produces. */
  ghost predicate PromotedAs(ignored: IgnoreRule, d0: DiskState, request: L1.IntegrationRequest, files: Tree, protectedFiles: Tree,
                             d2: DiskState)
    requires d0.Valid() && d2.Valid() && request.root in d0.checkouts
  {
    && request.root in d2.checkouts
    && var c0, c2 := d0.checkouts[request.root], d2.checkouts[request.root];
       && d2.commits[c2.head].parents == [request.baseline]
       && d2.HeadTree(request.root) ==
            Copy(c0.worktree + files, d0.HeadTree(request.root), files.Keys + Unhidden(ignored, c0, c2.worktree))
       && c2.index == d2.HeadTree(request.root) && c2.worktree == c0.worktree + files
       && UntrackedIntact(ignored, c2, protectedFiles)
       && protectedFiles == UntrackedFiles(ignored, c0)
  }

  /** What a completed L1 call established. */
  ghost predicate Integrated(ignored: IgnoreRule, request: L1.IntegrationRequest, r: L1.IntegrationResult, d0: DiskState, d1: DiskState)
    requires d0.Valid()
  {
    && request.root in d0.checkouts && request.candidate in d0.checkouts
    && r.candidateChanged == ChangedPaths(ignored, d0, request.candidate)
    && Readable(d0.checkouts[request.candidate].worktree, r.candidateChanged)
    && var c0, files := d0.checkouts[request.root], Captured(d0.checkouts[request.candidate].worktree, r.candidateChanged);
       && c0.head == request.baseline && c0.index == d0.HeadTree(request.root)
       && d1 == L1.WithWorktree(d0, request.root, c0.worktree + files)
       && r.protectedFiles == UntrackedFiles(ignored, c0)
       && r.actual == L1.ActualPaths(ignored, d1, request.root, r.protectedFiles)
       && r.actual == r.candidateChanged + Unhidden(ignored, c0, d1.checkouts[request.root].worktree)
  }

  lemma ComposedSteps(ignored: IgnoreRule, request: L1.IntegrationRequest, r1: L1.IntegrationResult,
                      request2: L2.CommitRequest, committed: set<Path>, d0: DiskState, d1: DiskState, d2: DiskState)
    requires d0.Valid() && d1.Valid() && d2.Valid() && Integrated(ignored, request, r1, d0, d1)
    requires request2.root == request.root && request2.protectedFiles == r1.protectedFiles
    requires L2.CleanlyCommitted(ignored, request2, committed, d1, d2)
    ensures EndToEnd(ignored, request, r1, committed, d0, d2)
  {
    var c0, c1, c2 := d0.checkouts[request.root], d1.checkouts[request.root], d2.checkouts[request.root];
    assert d1.HeadTree(request.root) == d0.HeadTree(request.root);
    var files := Captured(d0.checkouts[request.candidate].worktree, r1.candidateChanged);
    assert committed == r1.actual && files.Keys == r1.candidateChanged && c1.worktree == c0.worktree + files;
    assert c2.worktree == c1.worktree && c2.index == d2.HeadTree(request.root) == Copy(c1.worktree, d0.HeadTree(request.root), committed);
  }

  ghost predicate EndToEnd(ignored: IgnoreRule, request: L1.IntegrationRequest, r1: L1.IntegrationResult, committed: set<Path>,
                           d0: DiskState, d2: DiskState)
    requires d0.Valid() && d2.Valid()
  {
    && request.root in d0.checkouts && request.candidate in d0.checkouts
    && r1.candidateChanged == ChangedPaths(ignored, d0, request.candidate)
    && Readable(d0.checkouts[request.candidate].worktree, r1.candidateChanged)
    && PromotedAs(ignored, d0, request, Captured(d0.checkouts[request.candidate].worktree, r1.candidateChanged), r1.protectedFiles, d2)
    && committed == r1.actual == r1.candidateChanged + Unhidden(ignored, d0.checkouts[request.root], d2.checkouts[request.root].worktree)
    && d0.checkouts[request.root].index == d0.HeadTree(request.root)
    && d2.HeadTree(request.root) == Copy(d2.checkouts[request.root].worktree, d0.HeadTree(request.root), committed)
  }

  /** What two completed steps commit is what the first one reported, whichever plan the second one follows. */
  lemma CommittedAsReported(ignored: IgnoreRule, commands: CommandOracle,
                            request: L1.IntegrationRequest, faults1: L1.Faults, r1: L1.IntegrationResult,
                            request2: L2.CommitRequest, faults2: set<L2.Site>, r2: L2.CommitResult,
                            d0: DiskState, db0: Db, d1: DiskState, db1: Db, d2: DiskState, db2: Db)
    requires d0.Valid() && d1.Valid() && d2.Valid()
    requires L1.IntegrateStep(ignored, commands, request, faults1, d0, db0, r1, d1, db1) && r1.status == L1.Completed
    requires L2.CommitStep(ignored, commands, request2, faults2, d1, db1, r2, d2, db2) && r2.status == L2.Completed
    requires request2.root == request.root && request2.protectedFiles == r1.protectedFiles
    ensures EndToEnd(ignored, request, r1, r2.committed, d0, d2)
  {
    IntegratedCleanly(ignored, commands, request, faults1, d0, db0, r1, d1, db1);
    L2.CommittedCleanly(ignored, commands, request2, faults2, d1, db1, r2, d2, db2);
    ComposedSteps(ignored, request, r1, request2, r2.committed, d0, d1, d2);
  }

  // ----- both steps for one plan -----

  /** The frozen file checks of a plan that can be integrated are on exactly the candidate's changed
      files: each changed file must be checked, and a check on any other file fails. */
  lemma CheckedIsChanged(ignored: IgnoreRule, commands: CommandOracle, d: DiskState, db: Db, request: L1.IntegrationRequest)
    requires d.Valid() && L1.CanIntegrate(ignored, commands, d, db, request)
    ensures var checks := L1.IntegrationRows(db, request).value.freeze.checks;
      checks.Some? && CheckedPaths(checks.value) == ChangedPaths(ignored, d, request.candidate)
  {
    var checks, changed := L1.IntegrationRows(db, request).value.freeze.checks.value, ChangedPaths(ignored, d, request.candidate);
    CheckedIsCaptured(Captured(d.checkouts[request.candidate].worktree, changed), checks);
  }

  lemma CheckedIsCaptured(files: Tree, checks: seq<Check>)
    requires L1.ContentAccepted(files, checks)
    ensures CheckedPaths(checks) <= files.Keys
  {
    forall p | p in CheckedPaths(checks)
      ensures p in files
    {
      var k :| 0 <= k < |checks| && !checks[k].CommandSucceeds? && checks[k].path == p;
      assert RunFileCheck(files, checks[k]).Some?;
    }
  }

  /** After a completed L1 call, an L2 call for the same workflow follows the same frozen plan in the same place. */
  lemma SamePlan(db: Db, db1: Db, request: L1.IntegrationRequest, request2: L2.CommitRequest)
    requires L1.IntegrationRows(db, request).Ok? && db1 == L1.CloseWorkflow(db, request.workflowId)
    requires L2.CommitRows(db1, request2).Ok? && request2.workflowId == request.workflowId
    ensures L2.CommitRows(db1, request2).value.0.freeze == L1.IntegrationRows(db, request).value.freeze
    ensures request2.root == request.root && request2.baseline == request.baseline
    ensures request.workflowId in db.workflows && request.candidate == db.workflows[request.workflowId].worktree
    ensures Find(db.freezes, db.workflows[request.workflowId].freezeId) == Some(L1.IntegrationRows(db, request).value.freeze)
  {
  }

  /** The new commit's only parent is the frozen baseline, its tree is the baseline tree overwritten at
      exactly the candidate's changed paths with the captured contents, the checkout is on it with
      exactly these files written, and every protected untracked file is where and what it was. */
  ghost predicate PromotedExactly(ignored: IgnoreRule, request: L1.IntegrationRequest, r1: L1.IntegrationResult, committed: set<Path>,
                                  d0: DiskState, d2: DiskState)
    requires d0.Valid() && d2.Valid()
  {
    && request.root in d0.checkouts && request.candidate in d0.checkouts && request.root in d2.checkouts
    && committed == r1.actual == r1.candidateChanged == ChangedPaths(ignored, d0, request.candidate)
    && Readable(d0.checkouts[request.candidate].worktree, r1.candidateChanged)
    && var c0, c2, files := d0.checkouts[request.root], d2.checkouts[request.root],
                            Captured(d0.checkouts[request.candidate].worktree, r1.candidateChanged);
       && d2.commits[c2.head].parents == [request.baseline] && c0.head == request.baseline
       && d2.HeadTree(request.root) == Copy(files, d0.HeadTree(request.root), r1.candidateChanged)
       && c2.index == d2.HeadTree(request.root) && c2.worktree == c0.worktree + files
       && r1.protectedFiles == UntrackedFiles(ignored, c0) && UntrackedIntact(ignored, c2, r1.protectedFiles)
  }

  /** End to end, for one workflow, with the protected hashes L1 returned and no outside writes in between. */
  lemma EndToEndPromotion(ignored: IgnoreRule, commands: CommandOracle,
                          request: L1.IntegrationRequest, faults1: L1.Faults, r1: L1.IntegrationResult,
                          request2: L2.CommitRequest, faults2: set<L2.Site>, r2: L2.CommitResult,
                          d0: DiskState, db0: Db, d1: DiskState, db1: Db, d2: DiskState, db2: Db)
    requires d0.Valid() && d1.Valid() && d2.Valid()
    requires L1.IntegrateStep(ignored, commands, request, faults1, d0, db0, r1, d1, db1) && r1.status == L1.Completed
    requires L2.CommitStep(ignored, commands, request2, faults2, d1, db1, r2, d2, db2) && r2.status == L2.Completed
    requires request2.workflowId == request.workflowId && request2.protectedFiles == r1.protectedFiles
    ensures PromotedExactly(ignored, request, r1, r2.committed, d0, d2)
  {
    OnePlan(ignored, commands, request, faults1, r1, request2, faults2, r2, d0, db0, d1, db1, d2, db2);
    CommittedAsReported(ignored, commands, request, faults1, r1, request2, faults2, r2, d0, db0, d1, db1, d2, db2);
    IntegratedCleanly(ignored, commands, request, faults1, d0, db0, r1, d1, db1);
    ReportedExactly(ignored, request, r1, r2.committed, d0, d2);
  }

  /** Both steps follow one plan, and what is committed is among the candidate's changes. */
  lemma OnePlan(ignored: IgnoreRule, commands: CommandOracle,
                request: L1.IntegrationRequest, faults1: L1.Faults, r1: L1.IntegrationResult,
                request2: L2.CommitRequest, faults2: set<L2.Site>, r2: L2.CommitResult,
                d0: DiskState, db0: Db, d1: DiskState, db1: Db, d2: DiskState, db2: Db)
    requires d0.Valid() && d1.Valid() && d2.Valid()
    requires L1.IntegrateStep(ignored, commands, request, faults1, d0, db0, r1, d1, db1) && r1.status == L1.Completed
    requires L2.CommitStep(ignored, commands, request2, faults2, d1, db1, r2, d2, db2) && r2.status == L2.Completed
    requires request2.workflowId == request.workflowId
    ensures request2.root == request.root && r2.committed <= r1.candidateChanged
  {
    IntegratedCleanly(ignored, commands, request, faults1, d0, db0, r1, d1, db1);
    CommittedContentIsAccepted(ignored, commands, request2, faults2, d1, db1, r2, d2, db2);
    CheckedIsChanged(ignored, commands, d0, db0, request);
    SamePlan(db0, db1, request, request2);
  }

  lemma ReportedExactly(ignored: IgnoreRule, request: L1.IntegrationRequest, r1: L1.IntegrationResult, committed: set<Path>,
                        d0: DiskState, d2: DiskState)
    requires d0.Valid() && d2.Valid() && EndToEnd(ignored, request, r1, committed, d0, d2) && committed <= r1.candidateChanged
    requires d0.checkouts[request.root].head == request.baseline
    ensures PromotedExactly(ignored, request, r1, committed, d0, d2)
  {
    var files := Captured(d0.checkouts[request.candidate].worktree, r1.candidateChanged);
    SameTree(d2.HeadTree(request.root), Copy(files, d0.HeadTree(request.root), r1.candidateChanged));
  }

  /** The promoted tree is the baseline tree overwritten at exactly the candidate's changed paths with the
      candidate's own bytes if and only if no changed file holds a carriage return (text is read with
      universal newlines). */
  lemma PromotionIsExact(ignored: IgnoreRule, commands: CommandOracle,
                         request: L1.IntegrationRequest, faults1: L1.Faults, r1: L1.IntegrationResult,
                         request2: L2.CommitRequest, faults2: set<L2.Site>, r2: L2.CommitResult,
                         d0: DiskState, db0: Db, d1: DiskState, db1: Db, d2: DiskState, db2: Db)
    requires d0.Valid() && d1.Valid() && d2.Valid()
    requires L1.IntegrateStep(ignored, commands, request, faults1, d0, db0, r1, d1, db1) && r1.status == L1.Completed
    requires L2.CommitStep(ignored, commands, request2, faults2, d1, db1, r2, d2, db2) && r2.status == L2.Completed
    requires request2.workflowId == request.workflowId && request2.protectedFiles == r1.protectedFiles
    ensures PromotedExactly(ignored, request, r1, r2.committed, d0, d2)
    ensures var candidate, changed := d0.checkouts[request.candidate].worktree, ChangedPaths(ignored, d0, request.candidate);
      d2.HeadTree(request.root) == Copy(candidate, d0.HeadTree(request.root), changed) <==>
      forall p :: p in changed ==> '\r' !in candidate[p].text
  {
    EndToEndPromotion(ignored, commands, request, faults1, r1, request2, faults2, r2, d0, db0, d1, db1, d2, db2);
    CapturedExactly(d0.checkouts[request.candidate].worktree, d0.HeadTree(request.root), r1.candidateChanged);
  }

  lemma CapturedExactly(candidate: Tree, base: Tree, changed: set<Path>)
    requires Readable(candidate, changed)
    ensures Copy(Captured(candidate, changed), base, changed) == Copy(candidate, base, changed) <==>
            forall p :: p in changed ==> '\r' !in candidate[p].text
  {
    var files := Captured(candidate, changed);
    forall p
      ensures At(Copy(files, base, changed), p) == At(Copy(candidate, base, changed), p) <==>
              (p in changed ==> '\r' !in candidate[p].text)
    {
      if p in changed {
        NewlinesFixed(candidate[p].text);
      }
    }
    SameTree(Copy(files, base, changed), Copy(candidate, base, changed));
  }

  // ----- files the writes un-ignore -----

  lemma ActualIsAuthorized(ignored: IgnoreRule, commands: CommandOracle, request: L1.IntegrationRequest, faults: L1.Faults,
                           d0: DiskState, db0: Db, r: L1.IntegrationResult, d1: DiskState, db1: Db)
    requires d0.Valid() && L1.IntegrateStep(ignored, commands, request, faults, d0, db0, r, d1, db1) && r.status == L1.Completed
    ensures L1.CanIntegrate(ignored, commands, d0, db0, request) && r.actual <= AuthorizedBy(db0, request)
  {
    CapturedIsAuthorized(ignored, commands, d0, db0, request);
  }

  /** L1 completes, closing the workflow, even if its writes un-ignore other files, as long as these are
      authorized.  But then no L2 call for that plan can commit, whatever files it protects: the
      un-ignored files are authorized and not checked. */
  lemma UnhiddenBlocksCommit(ignored: IgnoreRule, commands: CommandOracle, request: L1.IntegrationRequest, faults: L1.Faults,
                             r: L1.IntegrationResult, request2: L2.CommitRequest, d0: DiskState, db0: Db, d1: DiskState, db1: Db)
    requires d0.Valid() && d1.Valid()
    requires L1.IntegrateStep(ignored, commands, request, faults, d0, db0, r, d1, db1) && r.status == L1.Completed
    requires request2.workflowId == request.workflowId
    ensures request.root in d0.checkouts && request.root in d1.checkouts
    ensures var unhidden := Unhidden(ignored, d0.checkouts[request.root], d1.checkouts[request.root].worktree);
      && (r.actual == r.candidateChanged <==> unhidden <= r.candidateChanged)
      && (L2.CanCommit(ignored, commands, d1, db1, request2) ==> unhidden <= r.candidateChanged)
  {
    IntegratedCleanly(ignored, commands, request, faults, d0, db0, r, d1, db1);
    ActualIsAuthorized(ignored, commands, request, faults, d0, db0, r, d1, db1);
    if L2.CanCommit(ignored, commands, d1, db1, request2) {
      CheckedIsChanged(ignored, commands, d0, db0, request);
      SamePlan(db0, db1, request, request2);
      TakenIsChecked(ignored, commands, d1, db1, request2, r.actual);
    }
  }

  /** Authorized changes cannot be protected, so a commit takes them, and they have to be checked. */
  lemma TakenIsChecked(ignored: IgnoreRule, commands: CommandOracle, d: DiskState, db: Db, request: L2.CommitRequest, paths: set<Path>)
    requires d.Valid() && L2.CanCommit(ignored, commands, d, db, request)
    requires request.root in d.checkouts && paths <= ChangedPaths(ignored, d, request.root)
    requires paths <= Authorized(L2.CommitRows(db, request).value.0.freeze.affected).value
    ensures L2.CommitRows(db, request).value.0.freeze.checks.Some?
    ensures paths <= CheckedPaths(L2.CommitRows(db, request).value.0.freeze.checks.value)
  {
    assert paths <= L2.CommitPaths(ignored, d, request);
  }

  /** Every path of a completed commit has at least one frozen file check, and every frozen file
      check on it holds of the committed content. */
  lemma CommittedContentIsAccepted(ignored: IgnoreRule, commands: CommandOracle, request: L2.CommitRequest, faults: set<L2.Site>,
                                   d: DiskState, db: Db, r: L2.CommitResult, d': DiskState, db': Db)
    requires d.Valid() && d'.Valid() && L2.CommitStep(ignored, commands, request, faults, d, db, r, d', db') && r.status == L2.Completed
    ensures L2.CommitRows(db, request).Ok? && L2.CommitRows(db, request).value.0.freeze.checks.Some?
    ensures var checks := L2.CommitRows(db, request).value.0.freeze.checks.value;
      && r.committed <= CheckedPaths(checks)
      && forall k :: 0 <= k < |checks| && !checks[k].CommandSucceeds? && checks[k].path in r.committed ==>
           RunFileCheck(d'.HeadTree(request.root), checks[k]).Some?
  {
    L2.CommittedCleanly(ignored, commands, request, faults, d, db, r, d', db');
    var checks, worktree, tree := L2.CommitRows(db, request).value.0.freeze.checks.value, d.checkouts[request.root].worktree, d'.HeadTree(request.root);
    ChecksPassTogether(commands, CommitPreflight, worktree, checks);
    forall k | 0 <= k < |checks| && !checks[k].CommandSucceeds? && checks[k].path in r.committed
      ensures RunFileCheck(tree, checks[k]).Some?
    {
      assert RunCheck(commands, CommitPreflight, worktree, checks[k]).Some?;
      assert At(tree, checks[k].path) == At(worktree, checks[k].path);
    }
  }

  /** The frozen file checks say the same of the candidate's own files as of the promoted ones, newlines
      or not: every check on a changed path passes on both, with the same evidence. */
  lemma CandidateContentIsAccepted(ignored: IgnoreRule, commands: CommandOracle,
                                   request: L1.IntegrationRequest, faults1: L1.Faults, r1: L1.IntegrationResult,
                                   request2: L2.CommitRequest, faults2: set<L2.Site>, r2: L2.CommitResult,
                                   d0: DiskState, db0: Db, d1: DiskState, db1: Db, d2: DiskState, db2: Db, k: nat)
    requires d0.Valid() && d1.Valid() && d2.Valid()
    requires L1.IntegrateStep(ignored, commands, request, faults1, d0, db0, r1, d1, db1) && r1.status == L1.Completed
    requires L2.CommitStep(ignored, commands, request2, faults2, d1, db1, r2, d2, db2) && r2.status == L2.Completed
    requires request2.root == request.root && request2.protectedFiles == r1.protectedFiles
    requires L2.CommitRows(db1, request2).Ok? && L2.CommitRows(db1, request2).value.0.freeze.checks.Some?
    requires var checks := L2.CommitRows(db1, request2).value.0.freeze.checks.value;
      k < |checks| && !checks[k].CommandSucceeds? && checks[k].path in r1.candidateChanged
    ensures request.candidate in d0.checkouts && request.root in d2.checkouts
    ensures var check := L2.CommitRows(db1, request2).value.0.freeze.checks.value[k];
      && RunFileCheck(d2.HeadTree(request.root), check).Some?
      && RunFileCheck(d0.checkouts[request.candidate].worktree, check) == RunFileCheck(d2.HeadTree(request.root), check)
  {
    CommittedAsReported(ignored, commands, request, faults1, r1, request2, faults2, r2, d0, db0, d1, db1, d2, db2);
    CommittedContentIsAccepted(ignored, commands, request2, faults2, d1, db1, r2, d2, db2);
    SameCheckOnBoth(ignored, request, r1, r2.committed, d0, d2, L2.CommitRows(db1, request2).value.0.freeze.checks.value[k]);
  }

  lemma SameCheckOnBoth(ignored: IgnoreRule, request: L1.IntegrationRequest, r1: L1.IntegrationResult, committed: set<Path>,
                        d0: DiskState, d2: DiskState, check: Check)
    requires d0.Valid() && d2.Valid() && EndToEnd(ignored, request, r1, committed, d0, d2)
    requires !check.CommandSucceeds? && check.path in r1.candidateChanged
    ensures RunFileCheck(d0.checkouts[request.candidate].worktree, check) == RunFileCheck(d2.HeadTree(request.root), check)
    ensures check.path in committed
  {
    var candidate, tree := d0.checkouts[request.candidate].worktree, d2.HeadTree(request.root);
    var files := Captured(candidate, r1.candidateChanged);
    assert At(tree, check.path) == At(d0.checkouts[request.root].worktree + files, check.path) == Some(files[check.path]);
    FileCheckIgnoresNewlineStyle(candidate, tree, check);
  }
}
