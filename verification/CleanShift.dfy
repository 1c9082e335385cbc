/** What one supervisor cycle, and a whole clean night, leaves behind in the canonical checkouts
    when nobody else writes and the runtime works in candidates only. */
module CleanShift {
  import opened Prelude
  import opened Git
  import opened Acceptance
  import opened Disk
  import opened Session
  import opened Promotion
  import opened History
  import opened Containment
  import opened NightShift
  import Ledger
  import L1 = Integration
  import L2 = ControlledCommit

  /** The cycle's own checkout advanced by its commit; any other one looks as before. */
  predicate CheckoutEffect(ignored: IgnoreRule, d: DiskState, d': DiskState, loc: Loc, cycle: Cycle)
    requires d.Valid() && d'.Valid()
  {
    loc in d.checkouts ==>
      && loc in d'.checkouts
      && if Committed(cycle) && cycle.root.value == loc then AdvancedCleanly(ignored, d, d', loc, cycle.resulting.value)
         else ViewOf(ignored, d'.checkouts[loc]) == ViewOf(ignored, d.checkouts[loc])
  }

  predicate CycleEffect(ignored: IgnoreRule, w: World, w': World, cycle: Cycle) {
    && w.disk.Valid() && Ledger.Ledger(w') && Grows(w.disk, w'.disk)
    && PlansKept(w.db, w'.db) && w'.db.repositories == w.db.repositories
    && (Committed(cycle) ==> cycle.root.value in Canonical(w.db))
    && forall loc :: loc in Canonical(w.db) ==> CheckoutEffect(ignored, w.disk, w'.disk, loc, cycle)
  }

  /** The containment promise for one failed task: the canonical checkout looks exactly as before the
      cycle, and a candidate that changed has its workflow blocked. */
  predicate TaskContained(ignored: IgnoreRule, w: World, w': World, id: Id, quarantined: bool) {
    && w.disk.Valid() && w'.disk.Valid() && Snapshotable(w.db, id)
    && var loc, candidate := CanonicalOf(w.db, id), w.db.workflows[id].worktree;
       && loc in w.disk.checkouts && loc in w'.disk.checkouts && candidate in w.disk.checkouts && candidate in w'.disk.checkouts
       && ViewOf(ignored, w'.disk.checkouts[loc]) == ViewOf(ignored, w.disk.checkouts[loc])
       && StagedPaths(w'.disk, loc) == {} && TrackedChanges(w'.disk.checkouts[loc]) == {}
       && (quarantined <==> w'.disk.checkouts[candidate].head != w.disk.checkouts[candidate].head ||
                            ChangedPaths(ignored, w'.disk, candidate) != {})
       && (quarantined && id in w'.db.workflows ==>
             w'.db.workflows[id].state == Blocked && w'.db.workflows[id].activeTask == None)
  }

  /** The snapshot was taken in world `w`. */
  ghost predicate Taken(ignored: IgnoreRule, w: World, workflowId: Id, s: Snapshot) {
    && w.disk.Valid() && Snapshotable(w.db, workflowId)
    && CanonicalOf(w.db, workflowId) in w.disk.checkouts && w.db.workflows[workflowId].worktree in w.disk.checkouts
    && s == SnapshotOf(ignored, w.disk, w.db, workflowId)
  }

  /** What the supervisor itself may have done to the rows while proving containment. */
  ghost predicate MaybeQuarantined(db: Db, db': Db, workflowId: Id, quarantined: bool) {
    if quarantined then exists event :: db' == Quarantine(db, workflowId, event) else db' == db
  }

  /** The containment checks, once passed, keep the promise. */
  lemma ChecksContain(ignored: IgnoreRule, w: World, w1: World, w2: World, id: Id, s: Snapshot, quarantined: bool)
    requires Taken(ignored, w, id, s) && SafeSnapshot(s) && w1.disk.Valid() && Grows(w.disk, w1.disk)
    requires CanonicalContained(ignored, w1.disk, s)
    requires quarantined <==> w1.disk.checkouts[s.candidate].head != s.candidateHead || ChangedPaths(ignored, w1.disk, s.candidate) != {}
    requires w2.disk == w1.disk && MaybeQuarantined(w1.db, w2.db, id, quarantined)
    ensures TaskContained(ignored, w, w2, id, quarantined)
  {
    ContainedMeansUnchanged(ignored, w.disk, w.db, id, w1.disk);
  }

  /** A runtime call that touched no canonical checkout. */
  lemma CallEffect(ignored: IgnoreRule, w: World, w': World, x: RuntimeResult)
    requires Ledger.Ledger(w) && SoundCall(w, w', x) && ConfinedCall(w, w', x)
    requires x.records == [] || x.records[|x.records| - 1].outcome == TaskCompleted
    ensures CycleEffect(ignored, w, w', NOTHING)
  {
    assert forall loc :: loc in Canonical(w.db) && loc in w.disk.checkouts ==> w'.disk.checkouts[loc] == w.disk.checkouts[loc];
    Ledger.LedgerStays(w, w');
  }

  lemma FailureEffect(ignored: IgnoreRule, w: World, w1: World, w2: World, x: RuntimeResult, id: Id, quarantined: bool, cycle: Cycle)
    requires Ledger.Ledger(w) && SoundCall(w, w1, x) && ConfinedCall(w, w1, x)
    requires x.records != [] && x.records[|x.records| - 1].workflowId == id && !Committed(cycle)
    requires w2.disk == w1.disk && MaybeQuarantined(w1.db, w2.db, id, quarantined) && TaskContained(ignored, w, w2, id, quarantined)
    ensures CycleEffect(ignored, w, w2, cycle)
  {
    forall loc | loc in Canonical(w.db)
      ensures CheckoutEffect(ignored, w.disk, w2.disk, loc, cycle)
    {
    }
    Ledger.LedgerStays(w, w2);
  }

  lemma EffectAfterNothing(ignored: IgnoreRule, w: World, w1: World, w2: World, cycle: Cycle)
    requires CycleEffect(ignored, w, w1, NOTHING) && CycleEffect(ignored, w1, w2, cycle)
    ensures CycleEffect(ignored, w, w2, cycle)
  {
    forall loc | loc in Canonical(w.db)
      ensures CheckoutEffect(ignored, w.disk, w2.disk, loc, cycle)
    {
      assert CheckoutEffect(ignored, w.disk, w1.disk, loc, NOTHING) && CheckoutEffect(ignored, w1.disk, w2.disk, loc, cycle);
      if Committed(cycle) && cycle.resulting.value in w.disk.commits {
        Kept(w.disk, w1.disk, cycle.resulting.value);
      }
    }
  }

  /** The two requests the supervisor makes for one promotion. */
  function IntegrationFor(id: Id, context: PromotionContext): L1.IntegrationRequest {
    L1.IntegrationRequest(id, context.canonical, context.candidate, context.baseline, true, Authority.L1)
  }

  function CommitFor(id: Id, context: PromotionContext, protectedFiles: Tree): L2.CommitRequest {
    L2.CommitRequest(id, context.canonical, context.baseline, Authority.L2, None, protectedFiles)
  }

  function PromotedCycle(id: Id, context: PromotionContext, r: L2.CommitResult): Cycle {
    Cycle(Some(id), Some(context.canonical), Some(L1.Completed), Some(r.status), r.resulting, false, false)
  }

  // ----- what a commit of the night contains -----

  predicate Promotable(ignored: IgnoreRule, w: World, id: Id, root: Loc) {
    && w.disk.Valid() && id in w.db.workflows && root in w.disk.checkouts
    && w.db.workflows[id].worktree in w.disk.checkouts
    && Readable(w.disk.checkouts[w.db.workflows[id].worktree].worktree, ChangedPaths(ignored, w.disk, w.db.workflows[id].worktree))
    && Find(w.db.freezes, w.db.workflows[id].freezeId).Some?
    && Authorized(Find(w.db.freezes, w.db.workflows[id].freezeId).value.affected).Ok?
  }

  /** The candidate's changed files in world `w`, as a promotion captures them. */
  function CandidateFiles(ignored: IgnoreRule, w: World, id: Id): (files: Tree)
    requires w.disk.Valid() && id in w.db.workflows && w.db.workflows[id].worktree in w.disk.checkouts
    requires Readable(w.disk.checkouts[w.db.workflows[id].worktree].worktree, ChangedPaths(ignored, w.disk, w.db.workflows[id].worktree))
    ensures files.Keys == ChangedPaths(ignored, w.disk, w.db.workflows[id].worktree)
  {
    var candidate := w.db.workflows[id].worktree;
    Captured(w.disk.checkouts[candidate].worktree, ChangedPaths(ignored, w.disk, candidate))
  }

  /** The cycle's commit, if it made one, is a child of the canonical head, and overwrites its tree at
      exactly the candidate's changed paths, all authorized, with the candidate's contents. */
  predicate PromotedFrom(ignored: IgnoreRule, w: World, commits: map<Sha, Commit>, cycle: Cycle) {
    Committed(cycle) ==>
      && cycle.workflowId.Some? && Promotable(ignored, w, cycle.workflowId.value, cycle.root.value)
      && var id, root := cycle.workflowId.value, cycle.root.value;
         var files := CandidateFiles(ignored, w, id);
         && files.Keys <= Authorized(Find(w.db.freezes, w.db.workflows[id].freezeId).value.affected).value
         && cycle.resulting.value in commits
         && commits[cycle.resulting.value] == Commit([w.disk.checkouts[root].head], Copy(files, w.disk.HeadTree(root), files.Keys))
  }

  /** A cycle from `w`, whose runtime call led to `w1`, to `w'`. */
  predicate CycleRan(ignored: IgnoreRule, w: World, w1: World, w': World, cycle: Cycle) {
    CycleEffect(ignored, w, w', cycle) && PromotedFrom(ignored, w1, w'.disk.commits, cycle)
  }

  /** The commit of two completed steps is the candidate's authorized changes. */
  lemma CommitIsPromotion(ignored: IgnoreRule, commands: CommandOracle, id: Id, context: PromotionContext,
                          faults1: L1.Faults, r1: L1.IntegrationResult, faults2: set<L2.Site>, r2: L2.CommitResult,
                          w: World, w1: World, w2: World)
    requires w.disk.Valid() && w1.disk.Valid() && w2.disk.Valid()
    requires L1.IntegrateStep(ignored, commands, IntegrationFor(id, context), faults1, w.disk, w.db, r1, w1.disk, w1.db)
    requires r1.status == L1.Completed && r2.status == L2.Completed
    requires L2.CommitStep(ignored, commands, CommitFor(id, context, r1.protectedFiles), faults2, w1.disk, w1.db, r2, w2.disk, w2.db)
    requires context.canonical in w2.disk.checkouts && r2.resulting == Some(w2.disk.checkouts[context.canonical].head)
    ensures PromotedFrom(ignored, w, w2.disk.commits, PromotedCycle(id, context, r2))
  {
    var request, request2 := IntegrationFor(id, context), CommitFor(id, context, r1.protectedFiles);
    EndToEndPromotion(ignored, commands, request, faults1, r1, request2, faults2, r2, w.disk, w.db, w1.disk, w1.db, w2.disk, w2.db);
    PlanOfPromotion(ignored, commands, request, faults1, r1, request2, faults2, r2, w, w1, w2);
    TreeIsPromotion(ignored, request, r1, r2.committed, w, w2, PromotedCycle(id, context, r2));
  }

  lemma PlanOfPromotion(ignored: IgnoreRule, commands: CommandOracle, request: L1.IntegrationRequest,
                        faults1: L1.Faults, r1: L1.IntegrationResult, request2: L2.CommitRequest, faults2: set<L2.Site>, r2: L2.CommitResult,
                        w: World, w1: World, w2: World)
    requires w.disk.Valid() && w1.disk.Valid() && w2.disk.Valid()
    requires L1.IntegrateStep(ignored, commands, request, faults1, w.disk, w.db, r1, w1.disk, w1.db) && r1.status == L1.Completed
    requires L2.CommitStep(ignored, commands, request2, faults2, w1.disk, w1.db, r2, w2.disk, w2.db) && r2.status == L2.Completed
    requires request2.workflowId == request.workflowId
    ensures PlannedFor(w.db, request, r1.candidateChanged)
  {
    IntegratedCleanly(ignored, commands, request, faults1, w.disk, w.db, r1, w1.disk, w1.db);
    ActualIsAuthorized(ignored, commands, request, faults1, w.disk, w.db, r1, w1.disk, w1.db);
    L2.CommittedCleanly(ignored, commands, request2, faults2, w1.disk, w1.db, r2, w2.disk, w2.db);
    SamePlan(w.db, w1.db, request, request2);
  }

  /** The request is for the workflow's own candidate, and its frozen plan authorizes the paths. */
  predicate PlannedFor(db: Db, request: L1.IntegrationRequest, paths: set<Path>) {
    && request.workflowId in db.workflows && request.candidate == db.workflows[request.workflowId].worktree
    && var freeze := Find(db.freezes, db.workflows[request.workflowId].freezeId);
       freeze.Some? && Authorized(freeze.value.affected).Ok? && paths <= Authorized(freeze.value.affected).value
  }

  lemma TreeIsPromotion(ignored: IgnoreRule, request: L1.IntegrationRequest, r1: L1.IntegrationResult, committed: set<Path>,
                        w: World, w2: World, cycle: Cycle)
    requires w.disk.Valid() && w2.disk.Valid() && PromotedExactly(ignored, request, r1, committed, w.disk, w2.disk)
    requires PlannedFor(w.db, request, r1.candidateChanged)
    requires cycle.workflowId == Some(request.workflowId) && cycle.root == Some(request.root)
    requires cycle.resulting == Some(w2.disk.checkouts[request.root].head)
    ensures PromotedFrom(ignored, w, w2.disk.commits, cycle)
  {
    assert CandidateFiles(ignored, w, request.workflowId) == Captured(w.disk.checkouts[request.candidate].worktree, r1.candidateChanged);
    assert w2.disk.commits[w2.disk.checkouts[request.root].head] ==
           Commit([request.baseline], w2.disk.HeadTree(request.root));
  }

  /** L1 completed, so L2 either completes or stops the run: it never finds an old record.  The
      promotion advanced its own canonical checkout and touched no other one. */
  lemma PromotionEffect(ignored: IgnoreRule, commands: CommandOracle, id: Id, context: PromotionContext,
                        faults1: L1.Faults, r1: L1.IntegrationResult, faults2: set<L2.Site>, r2: L2.CommitResult,
                        w: World, w1: World, w2: World)
    requires Ledger.Ledger(w) && w1.disk.Valid() && w2.disk.Valid()
    requires L1.IntegrateStep(ignored, commands, IntegrationFor(id, context), faults1, w.disk, w.db, r1, w1.disk, w1.db)
    requires r1.status == L1.Completed
    requires L2.CommitStep(ignored, commands, CommitFor(id, context, r1.protectedFiles), faults2, w1.disk, w1.db, r2, w2.disk, w2.db)
    ensures r2.status != L2.AlreadyCommitted
    ensures r2.status == L2.Completed ==> CycleRan(ignored, w, w, w2, PromotedCycle(id, context, r2))
  {
    var request, request2 := IntegrationFor(id, context), CommitFor(id, context, r1.protectedFiles);
    Ledger.IntegrationKeepsLedger(ignored, commands, request, faults1, w, r1, w1);
    IntegratedCleanly(ignored, commands, request, faults1, w.disk, w.db, r1, w1.disk, w1.db);
    if r2.status == L2.AlreadyCommitted {
      Ledger.NoRecordAtBaseline(w1, request2);
    }
    if r2.status == L2.Completed {
      CompletedEffect(ignored, commands, id, context, faults1, r1, faults2, r2, w, w1, w2);
    }
  }

  lemma CompletedEffect(ignored: IgnoreRule, commands: CommandOracle, id: Id, context: PromotionContext,
                        faults1: L1.Faults, r1: L1.IntegrationResult, faults2: set<L2.Site>, r2: L2.CommitResult,
                        w: World, w1: World, w2: World)
    requires Ledger.Ledger(w1) && w.disk.Valid() && w1.disk.Valid() && w2.disk.Valid()
    requires L1.IntegrateStep(ignored, commands, IntegrationFor(id, context), faults1, w.disk, w.db, r1, w1.disk, w1.db)
    requires r1.status == L1.Completed && r2.status == L2.Completed
    requires L2.CommitStep(ignored, commands, CommitFor(id, context, r1.protectedFiles), faults2, w1.disk, w1.db, r2, w2.disk, w2.db)
    ensures CycleRan(ignored, w, w, w2, PromotedCycle(id, context, r2))
  {
    var request, request2 := IntegrationFor(id, context), CommitFor(id, context, r1.protectedFiles);
    Ledger.CommitKeepsLedger(ignored, commands, request2, faults2, w1, r2, w2);
    CanonicalAfterPromotion(ignored, commands, request, faults1, r1, request2, faults2, r2, w, w1, w2);
    AdvanceEffect(ignored, request, r1, r2.committed, w, w2, PromotedCycle(id, context, r2));
    CommitIsPromotion(ignored, commands, id, context, faults1, r1, faults2, r2, w, w1, w2);
  }

  /** The canonical checkouts after both steps: the promoted one holds the new commit, the others are untouched. */
  ghost predicate CanonicalAdvanced(ignored: IgnoreRule, request: L1.IntegrationRequest, r1: L1.IntegrationResult, committed: set<Path>,
                                    resulting: Option<Sha>, w: World, w2: World)
  {
    && w.disk.Valid() && w2.disk.Valid() && EndToEnd(ignored, request, r1, committed, w.disk, w2.disk)
    && Grows(w.disk, w2.disk) && PlansKept(w.db, w2.db) && w2.db.repositories == w.db.repositories
    && request.root in Canonical(w.db) && TrackedChanges(w.disk.checkouts[request.root]) == {}
    && w.disk.checkouts[request.root].head == request.baseline && w2.disk.checkouts[request.root].head !in w.disk.commits
    && resulting == Some(w2.disk.checkouts[request.root].head)
    && OthersKept(request.root, w.disk, w2.disk)
  }

  predicate OthersKept(root: Loc, d: DiskState, d': DiskState) {
    forall loc :: loc in d.checkouts && loc != root ==> loc in d'.checkouts && d'.checkouts[loc] == d.checkouts[loc]
  }

  lemma AdvanceEffect(ignored: IgnoreRule, request: L1.IntegrationRequest, r1: L1.IntegrationResult, committed: set<Path>,
                      w: World, w2: World, cycle: Cycle)
    requires CanonicalAdvanced(ignored, request, r1, committed, cycle.resulting, w, w2) && Ledger.Ledger(w2)
    requires Committed(cycle) && cycle.root == Some(request.root)
    ensures CycleEffect(ignored, w, w2, cycle)
  {
    PromotionAdvances(ignored, request, r1, committed, w.disk, w2.disk);
  }

  lemma CanonicalAfterPromotion(ignored: IgnoreRule, commands: CommandOracle, request: L1.IntegrationRequest,
                                faults1: L1.Faults, r1: L1.IntegrationResult, request2: L2.CommitRequest, faults2: set<L2.Site>, r2: L2.CommitResult,
                                w: World, w1: World, w2: World)
    requires w.disk.Valid() && w1.disk.Valid() && w2.disk.Valid()
    requires L1.IntegrateStep(ignored, commands, request, faults1, w.disk, w.db, r1, w1.disk, w1.db) && r1.status == L1.Completed
    requires L2.CommitStep(ignored, commands, request2, faults2, w1.disk, w1.db, r2, w2.disk, w2.db) && r2.status == L2.Completed
    requires request2.root == request.root && request2.protectedFiles == r1.protectedFiles
    ensures CanonicalAdvanced(ignored, request, r1, r2.committed, r2.resulting, w, w2)
  {
    CommittedAsReported(ignored, commands, request, faults1, r1, request2, faults2, r2, w.disk, w.db, w1.disk, w1.db, w2.disk, w2.db);
    BeforeCommit(ignored, commands, request, faults1, r1, w, w1);
    CommitAdvances(ignored, commands, request2, faults2, r2, w1, w2);
  }

  lemma BeforeCommit(ignored: IgnoreRule, commands: CommandOracle, request: L1.IntegrationRequest,
                     faults1: L1.Faults, r1: L1.IntegrationResult, w: World, w1: World)
    requires w.disk.Valid() && w1.disk.Valid()
    requires L1.IntegrateStep(ignored, commands, request, faults1, w.disk, w.db, r1, w1.disk, w1.db) && r1.status == L1.Completed
    ensures request.root in w.disk.checkouts && request.root in Canonical(w.db) && TrackedChanges(w.disk.checkouts[request.root]) == {}
    ensures w1.disk.commits == w.disk.commits && w1.disk.checkouts.Keys == w.disk.checkouts.Keys && OthersKept(request.root, w.disk, w1.disk)
    ensures w.disk.checkouts[request.root].head == request.baseline
    ensures PlansKept(w.db, w1.db) && w1.db.repositories == w.db.repositories
  {
    IntegratedCleanly(ignored, commands, request, faults1, w.disk, w.db, r1, w1.disk, w1.db);
    RegisteredRoot(w.db, request);
  }

  lemma CommitAdvances(ignored: IgnoreRule, commands: CommandOracle, request: L2.CommitRequest, faults: set<L2.Site>, r: L2.CommitResult,
                       w: World, w': World)
    requires w.disk.Valid() && w'.disk.Valid()
    requires L2.CommitStep(ignored, commands, request, faults, w.disk, w.db, r, w'.disk, w'.db) && r.status == L2.Completed
    ensures Grows(w.disk, w'.disk) && OthersKept(request.root, w.disk, w'.disk) && request.root in w'.disk.checkouts
    ensures w'.disk.checkouts[request.root].head !in w.disk.commits && r.resulting == Some(w'.disk.checkouts[request.root].head)
    ensures PlansKept(w.db, w'.db) && w'.db.repositories == w.db.repositories
  {
    CommitFrame(ignored, commands, request, faults, w.disk, w.db, r, w'.disk, w'.db);
  }

  lemma RegisteredRoot(db: Db, request: L1.IntegrationRequest)
    requires L1.IntegrationRows(db, request).Ok?
    ensures request.root in Canonical(db)
  {
    var id := db.workflows[request.workflowId].repositoryId;
    assert id.value in db.repositories;
  }

  // ----- whole nights -----

  /** Everything the canonical checkouts show after `cycles`: each advanced by exactly the commits the
      cycles made there, in order, and otherwise unchanged. */
  predicate NightSettled(ignored: IgnoreRule, w0: World, w: World, cycles: seq<Cycle>) {
    && w0.disk.Valid() && Ledger.Ledger(w) && Grows(w0.disk, w.disk) && w.db.repositories == w0.db.repositories
    && (forall k :: 0 <= k < |cycles| && Committed(cycles[k]) ==> cycles[k].root.value in Canonical(w0.db))
    && forall loc :: loc in Canonical(w0.db) && loc in w0.disk.checkouts ==>
         Settled(ignored, w0.disk, w.disk, loc, LineOf(cycles, loc))
  }

  lemma NightBegins(ignored: IgnoreRule, w: World)
    requires Ledger.Ledger(w)
    ensures NightSettled(ignored, w, w, [])
  {
  }

  lemma NightGoesOn(ignored: IgnoreRule, w0: World, w: World, w': World, cycles: seq<Cycle>, cycle: Cycle)
    requires NightSettled(ignored, w0, w, cycles) && CycleEffect(ignored, w, w', cycle)
    ensures NightSettled(ignored, w0, w', cycles + [cycle])
  {
    assert (cycles + [cycle])[..|cycles|] == cycles;
    forall loc | loc in Canonical(w0.db) && loc in w0.disk.checkouts
      ensures Settled(ignored, w0.disk, w'.disk, loc, LineOf(cycles + [cycle], loc))
    {
      var line := LineOf(cycles, loc);
      assert Settled(ignored, w0.disk, w.disk, loc, line) && CheckoutEffect(ignored, w.disk, w'.disk, loc, cycle);
      if Committed(cycle) && cycle.root.value == loc {
        SettledAdvances(ignored, w0.disk, w.disk, w'.disk, loc, line, cycle.resulting.value);
      } else {
        SettledStays(ignored, w0.disk, w.disk, w'.disk, loc, line);
        assert line + [] == line;
      }
    }
  }

  /** The worlds between the cycles of a night, each cycle accounted for, its commit included; the k-th
      runtime call is made in the k-th world. */
  ghost predicate Night(ignored: IgnoreRule, runtime: Runtime, worlds: seq<World>, cycles: seq<Cycle>) {
    |worlds| == |cycles| + 1 && forall k :: 0 <= k < |cycles| ==> CycleAt(ignored, runtime, worlds, cycles, k)
  }

  ghost predicate CycleAt(ignored: IgnoreRule, runtime: Runtime, worlds: seq<World>, cycles: seq<Cycle>, k: nat)
    requires k < |cycles| < |worlds|
  {
    CycleRan(ignored, worlds[k], runtime(k, worlds[k]).0, worlds[k + 1], cycles[k])
  }

  lemma NightLengthens(ignored: IgnoreRule, runtime: Runtime, worlds: seq<World>, cycles: seq<Cycle>, w': World, cycle: Cycle)
    requires Night(ignored, runtime, worlds, cycles)
    requires CycleRan(ignored, worlds[|cycles|], runtime(|cycles|, worlds[|cycles|]).0, w', cycle)
    ensures Night(ignored, runtime, worlds + [w'], cycles + [cycle])
  {
    forall k | 0 <= k < |cycles + [cycle]|
      ensures CycleAt(ignored, runtime, worlds + [w'], cycles + [cycle], k)
    {
      assert k < |cycles| ==> CycleAt(ignored, runtime, worlds, cycles, k);
    }
  }

  lemma {:induction false} NightGrows(ignored: IgnoreRule, runtime: Runtime, worlds: seq<World>, cycles: seq<Cycle>, i: nat, j: nat)
    requires Night(ignored, runtime, worlds, cycles) && i <= j < |worlds|
    ensures Grows(worlds[i].disk, worlds[j].disk)
    decreases j
  {
    if i < j {
      NightGrows(ignored, runtime, worlds, cycles, i, j - 1);
      assert CycleAt(ignored, runtime, worlds, cycles, j - 1);
    }
  }

  /** At the end of the night every commit it made is still what its candidate's authorized changes make it. */
  lemma NightCommits(ignored: IgnoreRule, runtime: Runtime, worlds: seq<World>, cycles: seq<Cycle>, k: nat)
    requires Night(ignored, runtime, worlds, cycles) && k < |cycles|
    ensures PromotedFrom(ignored, runtime(k, worlds[k]).0, worlds[|worlds| - 1].disk.commits, cycles[k])
  {
    assert CycleAt(ignored, runtime, worlds, cycles, k);
    NightGrows(ignored, runtime, worlds, cycles, k + 1, |worlds| - 1);
    if Committed(cycles[k]) {
      Kept(worlds[k + 1].disk, worlds[|worlds| - 1].disk, cycles[k].resulting.value);
    }
  }

  // ----- a night that stops -----

  /** Every canonical checkout but possibly the one at `loc` is as it was. */
  predicate KeptBut(w: World, w': World, loc: Loc) {
    forall c :: c in Canonical(w.db) && c in w.disk.checkouts && c != loc ==>
      c in w'.disk.checkouts && w'.disk.checkouts[c] == w.disk.checkouts[c]
  }

  ghost predicate OneTouched(w: World, w': World) {
    exists loc :: KeptBut(w, w', loc)
  }

  lemma IntegrationTouchesOne(ignored: IgnoreRule, commands: CommandOracle, request: L1.IntegrationRequest, faults: L1.Faults,
                              d: DiskState, db: Db, r: L1.IntegrationResult, d': DiskState, db': Db)
    requires d.Valid() && L1.IntegrateStep(ignored, commands, request, faults, d, db, r, d', db')
    ensures OthersKept(request.root, d, d')
  {
    IntegrationFrame(ignored, commands, request, faults, d, db, r, d', db');
  }

  lemma CommitTouchesOne(ignored: IgnoreRule, commands: CommandOracle, request: L2.CommitRequest, faults: set<L2.Site>,
                         d: DiskState, db: Db, r: L2.CommitResult, d': DiskState, db': Db)
    requires d.Valid() && L2.CommitStep(ignored, commands, request, faults, d, db, r, d', db')
    ensures OthersKept(request.root, d, d')
  {
  }

  lemma CallTouchesOne(w: World, w1: World, x: RuntimeResult)
    requires SoundCall(w, w1, x) && ConfinedCall(w, w1, x)
    ensures OneTouched(w, w1)
    ensures x.records == [] || x.records[|x.records| - 1].outcome == TaskCompleted ==> forall loc :: KeptBut(w, w1, loc)
  {
    var loc := if x.records != [] && Snapshotable(w.db, x.records[|x.records| - 1].workflowId)
               then CanonicalOf(w.db, x.records[|x.records| - 1].workflowId) else "";
    assert KeptBut(w, w1, loc);
  }

  /** How many commits the cycles made at any of `places`. */
  function CommitsAt(cycles: seq<Cycle>, places: seq<Loc>): nat {
    if places == [] then 0 else |LineOf(cycles, places[0])| + CommitsAt(cycles, places[1..])
  }

  lemma {:induction false} CommitsAtExtends(cycles: seq<Cycle>, cycle: Cycle, places: seq<Loc>)
    requires Distinct(places)
    ensures CommitsAt(cycles + [cycle], places) ==
            CommitsAt(cycles, places) + (if Committed(cycle) && cycle.root.value in places then 1 else 0)
  {
    assert (cycles + [cycle])[..|cycles|] == cycles;
    if places != [] {
      var rest := places[1..];
      assert places == [places[0]] + rest;
      assert forall k :: 0 <= k < |rest| ==> rest[k] == places[k + 1];
      assert places[0] !in rest;
      CommitsAtExtends(cycles, cycle, rest);
    }
  }

  /** The commits of the canonical checkouts add up to the number of successful L2 commits. */
  lemma {:induction false} CommitsAddUp(cycles: seq<Cycle>, places: seq<Loc>)
    requires Distinct(places)
    requires forall k :: 0 <= k < |cycles| && Committed(cycles[k]) ==> cycles[k].root.value in places
    ensures CommitsAt(cycles, places) == CountCommitted(cycles)
  {
    if cycles == [] {
      NoCommitsAt(places);
    } else {
      var n := |cycles| - 1;
      CommitsAddUp(cycles[..n], places);
      CommitsAtExtends(cycles[..n], cycles[n], places);
      assert cycles[..n] + [cycles[n]] == cycles;
    }
  }

  lemma {:induction false} NoCommitsAt(places: seq<Loc>)
    ensures CommitsAt([], places) == 0
  {
    if places != [] {
      NoCommitsAt(places[1..]);
    }
  }

  /** After a clean night the canonical heads have advanced by exactly the successful L2 commits, taken together. */
  lemma NightTotal(ignored: IgnoreRule, w0: World, w: World, cycles: seq<Cycle>, places: seq<Loc>)
    requires NightSettled(ignored, w0, w, cycles)
    requires Distinct(places) && forall loc :: loc in places <==> loc in Canonical(w0.db)
    ensures CommitsAt(cycles, places) == CountCommitted(cycles)
  {
    CommitsAddUp(cycles, places);
  }
}
