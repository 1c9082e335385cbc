/** What the night shift relies on between cycles: a contained failure leaves the canonical
    checkout as it was, and a promotion leaves it clean one commit further on. */
module Containment {
  import opened Prelude
  import opened Git
  import opened Acceptance
  import opened Disk
  import opened Session
  import opened Promotion
  import opened History
  import L1 = Integration
  import L2 = ControlledCommit

  /** Everything Git can see of a checkout: head, index, the working files of indexed paths, and the
      untracked files that are not ignored. */
  datatype View = View(head: Sha, index: Tree, tracked: Tree, untracked: Tree)

  function ViewOf(ignored: IgnoreRule, c: Checkout): View {
    View(c.head, c.index, Pick(c.worktree, c.index.Keys), UntrackedFiles(ignored, c))
  }

  /** The canonical part and the candidate part of a containment snapshot. */
  datatype Snapshot = Snapshot(
    canonical: Loc, candidate: Loc, baseline: Option<Sha>, head: Sha, tracked: set<Path>, staged: set<Path>,
    protectedFiles: Tree, candidateHead: Sha, candidateChanged: set<Path>)

  /** The rows a snapshot needs: a freeze, a repository and a worktree path. */
  predicate Snapshotable(db: Db, workflowId: Id) {
    && workflowId in db.workflows
    && Find(db.freezes, db.workflows[workflowId].freezeId).Some?
    && Find(db.repositories, db.workflows[workflowId].repositoryId).Some?
    && db.workflows[workflowId].worktree != ""
  }

  function CanonicalOf(db: Db, workflowId: Id): Loc
    requires Snapshotable(db, workflowId)
  {
    Find(db.repositories, db.workflows[workflowId].repositoryId).value.location
  }

  function SnapshotOf(ignored: IgnoreRule, d: DiskState, db: Db, workflowId: Id): Snapshot
    requires d.Valid() && Snapshotable(db, workflowId)
    requires CanonicalOf(db, workflowId) in d.checkouts && db.workflows[workflowId].worktree in d.checkouts
  {
    var canonical, candidate := CanonicalOf(db, workflowId), db.workflows[workflowId].worktree;
    Snapshot(canonical, candidate, Find(db.freezes, db.workflows[workflowId].freezeId).value.commitSha,
             d.checkouts[canonical].head, TrackedChanges(d.checkouts[canonical]), StagedPaths(d, canonical),
             UntrackedFiles(ignored, d.checkouts[canonical]), d.checkouts[candidate].head, ChangedPaths(ignored, d, candidate))
  }

  /** The snapshot was taken in a safe state: everything clean on the frozen baseline. */
  predicate SafeSnapshot(s: Snapshot) {
    && s.baseline == Some(s.head) && s.tracked == {} && s.staged == {}
    && s.candidateHead == s.head && s.candidateChanged == {}
  }

  /** The canonical checkout passes every containment check against the snapshot. */
  predicate CanonicalContained(ignored: IgnoreRule, d: DiskState, s: Snapshot)
    requires d.Valid()
  {
    && s.canonical in d.checkouts
    && d.checkouts[s.canonical].head == s.head
    && StagedPaths(d, s.canonical) == {}
    && TrackedChanges(d.checkouts[s.canonical]) == {}
    && UntrackedIntact(ignored, d.checkouts[s.canonical], s.protectedFiles)
    && ChangedPaths(ignored, d, s.canonical) <= s.protectedFiles.Keys
  }

  lemma CleanTrackedFiles(c: Checkout)
    requires TrackedChanges(c) == {}
    ensures Pick(c.worktree, c.index.Keys) == c.index
  {
    forall p | p in c.index
      ensures At(c.worktree, p) == At(c.index, p)
    {
      assert p in TrackedChanges(c) <==> At(c.index, p) != At(c.worktree, p);
    }
    SameTree(Pick(c.worktree, c.index.Keys), c.index);
  }

  /** A contained failure left head, index, tracked files and visible untracked files of the canonical
      checkout exactly as the snapshot saw them. */
  lemma ContainedMeansUnchanged(ignored: IgnoreRule, d0: DiskState, db: Db, workflowId: Id, d: DiskState)
    requires d0.Valid() && d.Valid() && Grows(d0, d) && Snapshotable(db, workflowId)
    requires CanonicalOf(db, workflowId) in d0.checkouts && db.workflows[workflowId].worktree in d0.checkouts
    requires SafeSnapshot(SnapshotOf(ignored, d0, db, workflowId))
    requires CanonicalContained(ignored, d, SnapshotOf(ignored, d0, db, workflowId))
    ensures var loc := CanonicalOf(db, workflowId);
            loc in d.checkouts && ViewOf(ignored, d.checkouts[loc]) == ViewOf(ignored, d0.checkouts[loc])
  {
    var s := SnapshotOf(ignored, d0, db, workflowId);
    var c0, c := d0.checkouts[s.canonical], d.checkouts[s.canonical];
    Kept(d0, d, s.head);
    NoDiffMeansSame(c0.index, d0.HeadTree(s.canonical));
    NoDiffMeansSame(c.index, d.HeadTree(s.canonical));
    CleanTrackedFiles(c0);
    CleanTrackedFiles(c);
    SameTree(UntrackedFiles(ignored, c), UntrackedFiles(ignored, c0));
  }

  /** Both checkouts are clean on the baseline. */
  predicate CleanBefore(ignored: IgnoreRule, d: DiskState, canonical: Loc, candidate: Loc, baseline: Option<Sha>)
    requires d.Valid() && canonical in d.checkouts && candidate in d.checkouts
  {
    && baseline == Some(d.checkouts[canonical].head) == Some(d.checkouts[candidate].head)
    && StagedPaths(d, canonical) == {} && TrackedChanges(d.checkouts[canonical]) == {} && ChangedPaths(ignored, d, candidate) == {}
  }

  /** The safety of the snapshot and the checks against it say exactly this: both checkouts were clean on the
      baseline, and the canonical one still looks as it did. */
  lemma ContainedExactly(ignored: IgnoreRule, d0: DiskState, db: Db, workflowId: Id, d: DiskState)
    requires d0.Valid() && d.Valid() && Grows(d0, d) && Snapshotable(db, workflowId)
    requires CanonicalOf(db, workflowId) in d0.checkouts && db.workflows[workflowId].worktree in d0.checkouts
    ensures var s, loc := SnapshotOf(ignored, d0, db, workflowId), CanonicalOf(db, workflowId);
      SafeSnapshot(s) && CanonicalContained(ignored, d, s) <==>
      && CleanBefore(ignored, d0, loc, s.candidate, s.baseline)
      && loc in d.checkouts && ViewOf(ignored, d.checkouts[loc]) == ViewOf(ignored, d0.checkouts[loc])
  {
    var s := SnapshotOf(ignored, d0, db, workflowId);
    if SafeSnapshot(s) {
      if CanonicalContained(ignored, d, s) {
        ContainedMeansUnchanged(ignored, d0, db, workflowId, d);
      }
      if s.canonical in d.checkouts && ViewOf(ignored, d.checkouts[s.canonical]) == ViewOf(ignored, d0.checkouts[s.canonical]) {
        UnchangedIsContained(ignored, d0, s, d);
      }
    }
  }

  lemma UnchangedIsContained(ignored: IgnoreRule, d0: DiskState, s: Snapshot, d: DiskState)
    requires d0.Valid() && d.Valid() && Grows(d0, d) && s.canonical in d0.checkouts && s.canonical in d.checkouts
    requires SafeSnapshot(s) && s.head == d0.checkouts[s.canonical].head && s.protectedFiles == UntrackedFiles(ignored, d0.checkouts[s.canonical])
    requires StagedPaths(d0, s.canonical) == {} && TrackedChanges(d0.checkouts[s.canonical]) == {}
    requires ViewOf(ignored, d.checkouts[s.canonical]) == ViewOf(ignored, d0.checkouts[s.canonical])
    ensures CanonicalContained(ignored, d, s)
  {
    var c0, c := d0.checkouts[s.canonical], d.checkouts[s.canonical];
    Kept(d0, d, c0.head);
    CleanTrackedFiles(c0);
    forall p | p in c.index
      ensures At(c.worktree, p) == At(c.index, p)
    {
      assert At(Pick(c.worktree, c.index.Keys), p) == At(c.index, p);
    }
    assert TrackedChanges(c) == {};
    assert forall p :: p in UntrackedPaths(ignored, c) <==> p in UntrackedFiles(ignored, c);
    assert forall p :: p in s.protectedFiles ==> UntrackedFiles(ignored, c)[p] == c.worktree[p];
  }

  /** A promotion at `loc`: one new commit on top of the old head, checked out cleanly, with the same
      visible untracked files as before. */
  predicate AdvancedCleanly(ignored: IgnoreRule, d: DiskState, d': DiskState, loc: Loc, s: Sha)
    requires d.Valid() && d'.Valid()
  {
    && loc in d.checkouts && loc in d'.checkouts
    && d'.checkouts[loc].head == s && s !in d.commits && d'.commits[s].parents == [d.checkouts[loc].head]
    && StagedPaths(d', loc) == {} && TrackedChanges(d'.checkouts[loc]) == {}
    && UntrackedFiles(ignored, d'.checkouts[loc]) == UntrackedFiles(ignored, d.checkouts[loc])
  }

  /** Two completed steps in a row advance the canonical checkout cleanly. */
  lemma PromotionAdvances(ignored: IgnoreRule, request: L1.IntegrationRequest, r1: L1.IntegrationResult, committed: set<Path>,
                          d0: DiskState, d2: DiskState)
    requires d0.Valid() && d2.Valid() && EndToEnd(ignored, request, r1, committed, d0, d2)
    requires TrackedChanges(d0.checkouts[request.root]) == {}
    requires d0.checkouts[request.root].head == request.baseline && d2.checkouts[request.root].head !in d0.commits
    ensures AdvancedCleanly(ignored, d0, d2, request.root, d2.checkouts[request.root].head)
  {
    var c0, c2 := d0.checkouts[request.root], d2.checkouts[request.root];
    var files := Captured(d0.checkouts[request.candidate].worktree, r1.candidateChanged);
    NoDiffMeansSame(c2.index, d2.HeadTree(request.root));
    CleanTrackedFiles(c0);
    forall p
      ensures p in c0.index ==> At(c0.worktree, p) == At(c0.index, p)
      ensures At(c2.worktree, p) == if p in files then Some(files[p]) else At(c0.worktree, p)
      ensures At(c2.index, p) == if p in committed then At(c2.worktree, p) else At(c0.index, p)
    {
      assert At(Pick(c0.worktree, c0.index.Keys), p) == At(c0.index, p);
    }
    assert files.Keys <= committed;
    forall p | p in c2.index
      ensures At(c2.index, p) == At(c2.worktree, p)
    {
    }
    forall p
      ensures At(UntrackedFiles(ignored, c2), p) == At(UntrackedFiles(ignored, c0), p)
    {
      assert p in UntrackedFiles(ignored, c0) ==> p in UntrackedPaths(ignored, c2) && At(c2.worktree, p) == At(c0.worktree, p);
      assert p in UntrackedPaths(ignored, c2) ==> At(c2.index, p).None? && p !in committed && At(c0.index, p).None?;
      assert p in Unhidden(ignored, c0, c2.worktree) ==> p in committed;
    }
    SameTree(UntrackedFiles(ignored, c2), UntrackedFiles(ignored, c0));
  }

  /** After a run that made the commits `line` at `loc`: heads advanced by exactly those commits, and
      otherwise nothing visible changed. */
  predicate Settled(ignored: IgnoreRule, d0: DiskState, d: DiskState, loc: Loc, line: seq<Sha>)
    requires d0.Valid() && d.Valid()
  {
    && loc in d0.checkouts && loc in d.checkouts
    && Line(d.commits, d0.checkouts[loc].head, line)
    && d.checkouts[loc].head == Before(d0.checkouts[loc].head, line, |line|)
    && UntrackedFiles(ignored, d.checkouts[loc]) == UntrackedFiles(ignored, d0.checkouts[loc])
    && (if line == [] then ViewOf(ignored, d.checkouts[loc]) == ViewOf(ignored, d0.checkouts[loc])
        else StagedPaths(d, loc) == {} && TrackedChanges(d.checkouts[loc]) == {})
  }

  lemma LineKept(d: DiskState, d': DiskState, start: Sha, line: seq<Sha>)
    requires Grows(d, d') && Line(d.commits, start, line)
    ensures Line(d'.commits, start, line)
  {
    forall k | 0 <= k < |line|
      ensures line[k] in d'.commits && d'.commits[line[k]].parents == [Before(start, line, k)]
    {
      Kept(d, d', line[k]);
    }
  }

  lemma SettledStays(ignored: IgnoreRule, d0: DiskState, d: DiskState, d': DiskState, loc: Loc, line: seq<Sha>)
    requires d0.Valid() && d.Valid() && d'.Valid() && Settled(ignored, d0, d, loc, line) && Grows(d, d') && loc in d'.checkouts
    requires ViewOf(ignored, d'.checkouts[loc]) == ViewOf(ignored, d.checkouts[loc])
    ensures Settled(ignored, d0, d', loc, line)
  {
    LineKept(d, d', d0.checkouts[loc].head, line);
    var c, c' := d.checkouts[loc], d'.checkouts[loc];
    Kept(d, d', c.head);
    if line != [] {
      forall p | p in c'.index
        ensures At(c'.worktree, p) == At(c'.index, p)
      {
        assert p in TrackedChanges(c) <==> At(c.index, p) != At(c.worktree, p);
        assert At(Pick(c.worktree, c.index.Keys), p) == At(c.worktree, p);
        assert At(Pick(c'.worktree, c'.index.Keys), p) == At(c'.worktree, p);
      }
    }
  }

  lemma SettledAdvances(ignored: IgnoreRule, d0: DiskState, d: DiskState, d': DiskState, loc: Loc, line: seq<Sha>, s: Sha)
    requires d0.Valid() && d.Valid() && d'.Valid() && Settled(ignored, d0, d, loc, line) && Grows(d, d')
    requires AdvancedCleanly(ignored, d, d', loc, s)
    ensures Settled(ignored, d0, d', loc, line + [s])
  {
    var start := d0.checkouts[loc].head;
    LineKept(d, d', start, line);
    forall k | 0 <= k < |line + [s]|
      ensures (line + [s])[k] in d'.commits && d'.commits[(line + [s])[k]].parents == [Before(start, line + [s], k)]
    {
      assert k < |line| ==> (line + [s])[k] == line[k] && Before(start, line + [s], k) == Before(start, line, k);
    }
  }
}
