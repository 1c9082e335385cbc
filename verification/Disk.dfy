/** The machine's repositories as the services see them: one mutable object whose
    methods are the Git and file operations of `git_mutation.py`.

    Each operation takes a flag saying whether the command behind it faults.  When
    `quiet` is false, other processes may rewrite any checkout and add commits
    before every single operation. */
module Disk {
  import opened Prelude
  import opened Git
  import opened Acceptance

  class Machine {
    var state: DiskState
    const ignored: IgnoreRule
    const commands: CommandOracle
    const quiet: bool  // nobody else writes

    constructor (start: DiskState, ignored: IgnoreRule, commands: CommandOracle, quiet: bool)
      requires start.Valid()
      ensures state == start && Valid()
      ensures this.ignored == ignored && this.commands == commands && this.quiet == quiet
    {
      state := start;
      this.ignored, this.commands, this.quiet := ignored, commands, quiet;
    }

    predicate Valid()
      reads this
    {
      state.Valid()
    }

    /** Commits survive, and nothing at all changed if nobody else writes. */
    twostate predicate OnlyOthersWrote()
      reads this
    {
      && Valid()
      && Grows(old(state), state)
      && (quiet ==> state == old(state))
    }

    /** Whatever other processes do between two operations. */
    method Others()
      requires Valid()
      modifies this
      ensures OnlyOthersWrote()
    {
      if !quiet {
        var there: DiskState := *;
        if there.Valid() && Grows(state, there) {
          state := there;
        }
      }
    }

    method CurrentHead(root: Loc, fault: bool) returns (r: Result<Sha>)
      requires Valid()
      modifies this
      ensures OnlyOthersWrote()
      ensures r.Fail? ==> r.reason == GitCommandFailed
      ensures r.Ok? <==> !fault && root in state.checkouts
      ensures r.Ok? ==> r.value == state.checkouts[root].head
    {
      Others();
      if fault || root !in state.checkouts {
        return Fail(GitCommandFailed);
      }
      return Ok(state.checkouts[root].head);
    }

    method Staged(root: Loc, fault: bool) returns (r: Result<set<Path>>)
      requires Valid()
      modifies this
      ensures OnlyOthersWrote()
      ensures r.Fail? ==> r.reason == GitStatusFailed
      ensures quiet ==> (r.Ok? <==> !fault && root in state.checkouts)
      ensures quiet && r.Ok? ==> r.value == StagedPaths(state, root)
    {
      Others();
      if fault || root !in state.checkouts {
        return Fail(GitStatusFailed);
      }
      return Ok(StagedPaths(state, root));
    }

    method Tracked(root: Loc, fault: bool) returns (r: Result<set<Path>>)
      requires Valid()
      modifies this
      ensures OnlyOthersWrote()
      ensures r.Fail? ==> r.reason == GitStatusFailed
      ensures quiet ==> (r.Ok? <==> !fault && root in state.checkouts)
      ensures quiet && r.Ok? ==> r.value == TrackedChanges(state.checkouts[root])
    {
      Others();
      if fault || root !in state.checkouts {
        return Fail(GitStatusFailed);
      }
      return Ok(TrackedChanges(state.checkouts[root]));
    }

    method Changed(root: Loc, fault: bool) returns (r: Result<set<Path>>)
      requires Valid()
      modifies this
      ensures OnlyOthersWrote()
      ensures r.Fail? ==> r.reason == GitStatusFailed
      ensures quiet ==> (r.Ok? <==> !fault && root in state.checkouts)
      ensures quiet && r.Ok? ==> r.value == ChangedPaths(ignored, state, root)
    {
      Others();
      if fault || root !in state.checkouts {
        return Fail(GitStatusFailed);
      }
      return Ok(ChangedPaths(ignored, state, root));
    }

    method CaptureUntracked(root: Loc, fault: bool) returns (r: Result<Tree>)
      requires Valid()
      modifies this
      ensures OnlyOthersWrote()
      ensures r.Fail? ==> r.reason == GitStatusFailed
      ensures quiet ==> (r.Ok? <==> !fault && root in state.checkouts)
      ensures quiet && r.Ok? ==> r.value == UntrackedFiles(ignored, state.checkouts[root])
    {
      Others();
      if fault || root !in state.checkouts {
        return Fail(GitStatusFailed);
      }
      return Ok(UntrackedFiles(ignored, state.checkouts[root]));
    }

    method VerifyUntracked(root: Loc, expected: Tree, fault: bool) returns (g: Guard)
      requires Valid()
      modifies this
      ensures OnlyOthersWrote()
      ensures g.Stop? ==> g.reason == GitStatusFailed || g.reason == ProtectedUntrackedStateDrift
      ensures quiet && g.Stop? ==> (g.reason == GitStatusFailed <==> fault || root !in state.checkouts)
      ensures quiet ==> (g.Pass? <==> !fault && root in state.checkouts && UntrackedIntact(ignored, state.checkouts[root], expected))
    {
      Others();
      if fault || root !in state.checkouts {
        return Stop(GitStatusFailed);
      }
      return Need(UntrackedIntact(ignored, state.checkouts[root], expected), ProtectedUntrackedStateDrift);
    }

    method VerifyAcceptance(root: Loc, point: CheckPoint, checks: seq<Check>, fault: bool)
      returns (r: Result<seq<Evidence>>)
      requires Valid()
      modifies this
      ensures OnlyOthersWrote()
      ensures r.Fail? ==> r.reason == DeterministicAcceptanceReadFailed || r.reason == DeterministicAcceptanceFailed
      ensures quiet && r.Fail? ==> (r.reason == DeterministicAcceptanceReadFailed <==> fault || root !in state.checkouts)
      ensures quiet ==>
        (r.Ok? <==> !fault && root in state.checkouts && RunChecks(commands, point, state.checkouts[root].worktree, checks).Some?)
      ensures quiet && r.Ok? ==> RunChecks(commands, point, state.checkouts[root].worktree, checks) == Some(r.value)
    {
      Others();
      if fault || root !in state.checkouts {
        return Fail(DeterministicAcceptanceReadFailed);
      }
      var verification := Verify(commands, point, state.checkouts[root].worktree, checks);
      match verification
      case None => return Fail(DeterministicAcceptanceFailed);
      case Some(evidence) => return Ok(evidence);
    }

    /** Reads text files, with universal newlines; deleted and undecodable files are refused. */
    method CaptureText(root: Loc, paths: set<Path>, fault: bool) returns (r: Result<Tree>)
      requires Valid()
      modifies this
      ensures OnlyOthersWrote()
      ensures quiet && r.Fail? ==> Unreadable(state, root, paths, fault, r.reason)
      ensures quiet ==> (r.Ok? <==> !fault && root in state.checkouts && Readable(state.checkouts[root].worktree, paths))
      ensures quiet && r.Ok? ==> r.value == Captured(state.checkouts[root].worktree, paths)
      ensures r.Ok? ==> r.value.Keys == paths
    {
      Others();
      if fault || root !in state.checkouts {
        return Fail(CandidateFileReadFailed);
      }
      var worktree := state.checkouts[root].worktree;
      var todo, captured: Tree := paths, map[];
      while todo != {}
        invariant todo <= paths && Readable(worktree, paths - todo)
        invariant captured == Captured(worktree, paths - todo)
      {
        var p :| p in todo;
        if p !in worktree {
          return Fail(CandidateFileNotRegular);
        }
        var content := AsWritten(worktree[p]);
        if content.None? {
          return Fail(CandidateFileNotUtf8);
        }
        captured := captured[p := content.value];
        todo := todo - {p};
      }
      assert paths - {} == paths;
      return Ok(captured);
    }

    /** Hashes working files; a missing file is refused. */
    method HashFiles(root: Loc, paths: set<Path>, fault: bool) returns (r: Result<Tree>)
      requires Valid()
      modifies this
      ensures OnlyOthersWrote()
      ensures r.Fail? ==> r.reason == WorktreeFileNotRegular
      ensures quiet ==> (r.Ok? <==> !fault && root in state.checkouts && paths <= state.checkouts[root].worktree.Keys)
      ensures quiet && r.Ok? ==> r.value == Pick(state.checkouts[root].worktree, paths)
      ensures r.Ok? ==> r.value.Keys == paths
    {
      Others();
      if fault || root !in state.checkouts || !(paths <= state.checkouts[root].worktree.Keys) {
        return Fail(WorktreeFileNotRegular);
      }
      return Ok(Pick(state.checkouts[root].worktree, paths));
    }

    /** Hashes index entries. */
    method HashStaged(root: Loc, paths: set<Path>, fault: bool) returns (r: Result<Tree>)
      requires Valid()
      modifies this
      ensures OnlyOthersWrote()
      ensures quiet ==> (r.Ok? <==> !fault && root in state.checkouts && paths <= state.checkouts[root].index.Keys)
      ensures quiet && r.Ok? ==> r.value == Pick(state.checkouts[root].index, paths)
    {
      Others();
      if fault || root !in state.checkouts || !(paths <= state.checkouts[root].index.Keys) {
        return Fail(GitCommandFailed);
      }
      return Ok(Pick(state.checkouts[root].index, paths));
    }

    /** Hashes files of a commit. */
    method HashCommitted(s: Sha, paths: set<Path>, fault: bool) returns (r: Result<Tree>)
      requires Valid()
      modifies this
      ensures OnlyOthersWrote()
      ensures r.Ok? <==> !fault && s in state.commits && paths <= state.commits[s].tree.Keys
      ensures r.Ok? ==> r.value == Pick(state.commits[s].tree, paths)
    {
      Others();
      if fault || s !in state.commits || !(paths <= state.commits[s].tree.Keys) {
        return Fail(GitCommandFailed);
      }
      return Ok(Pick(state.commits[s].tree, paths));
    }

    method ParentsOf(s: Sha, fault: bool) returns (r: Result<seq<Sha>>)
      requires Valid()
      modifies this
      ensures OnlyOthersWrote()
      ensures r.Ok? <==> !fault && s in state.commits
      ensures r.Ok? ==> r.value == state.commits[s].parents
    {
      Others();
      if fault || s !in state.commits {
        return Fail(CommitParentInspectionFailed);
      }
      return Ok(state.commits[s].parents);
    }

    method PathsOf(s: Sha, fault: bool) returns (r: Result<set<Path>>)
      requires Valid()
      modifies this
      ensures OnlyOthersWrote()
      ensures r.Ok? <==> !fault && s in state.commits
      ensures r.Ok? ==> r.value == CommitChangedPaths(state.commits, s)
    {
      Others();
      if fault || s !in state.commits {
        return Fail(CommitPathInspectionFailed);
      }
      return Ok(CommitChangedPaths(state.commits, s));
    }

    /** Writes files one at a time, in any order; writing a path in `failing` raises. */
    method WriteFiles(root: Loc, files: Tree, failing: set<Path>) returns (g: Guard)
      requires Valid()
      modifies this
      ensures Valid() && Grows(old(state), state)
      ensures g.Pass? <==> root in state.checkouts && failing !! files.Keys
      ensures quiet ==> state.commits == old(state).commits
      ensures quiet && root !in state.checkouts ==> state.checkouts == old(state).checkouts
      ensures quiet && root in state.checkouts ==>
        var c := old(state).checkouts[root];
        && state.checkouts == old(state).checkouts[root := c.(worktree := state.checkouts[root].worktree)]
        && (forall p :: p !in files ==> At(state.checkouts[root].worktree, p) == At(c.worktree, p))
        && (g.Pass? ==> state.checkouts[root].worktree == c.worktree + files)
    {
      Others();
      if root !in state.checkouts {
        return Stop(WriteFailed);
      }
      var c := state.checkouts[root];
      var worktree, todo := c.worktree, files.Keys;
      while todo != {}
        invariant todo <= files.Keys
        invariant forall p :: At(worktree, p) == if p in files.Keys - todo then At(files, p) else At(c.worktree, p)
        invariant failing !! files.Keys - todo
      {
        var p :| p in todo;
        if p in failing {
          state := state.(checkouts := state.checkouts[root := c.(worktree := worktree)]);
          return Stop(WriteFailed);
        }
        worktree := worktree[p := files[p]];
        todo := todo - {p};
      }
      SameTree(worktree, c.worktree + files);
      state := state.(checkouts := state.checkouts[root := c.(worktree := worktree)]);
      return Pass;
    }

    /** Puts the listed paths back to the baseline commit: index and file for a path the
        baseline tracks, deletion of the file for any other.  Then the head is compared. */
    method RestoreToBaseline(root: Loc, baseline: Sha, paths: set<Path>, failing: set<Path>, fault: bool) returns (g: Guard)
      requires Valid()
      modifies this
      ensures Valid() && Grows(old(state), state)
      ensures quiet ==> state.commits == old(state).commits
      ensures g.Pass? ==> root in state.checkouts && baseline in state.commits && state.checkouts[root].head == baseline
      ensures quiet && root !in state.checkouts ==> state.checkouts == old(state).checkouts
      ensures quiet && root in state.checkouts ==>
        var c := old(state).checkouts[root];
        && state.checkouts == old(state).checkouts[root := c.(index := state.checkouts[root].index, worktree := state.checkouts[root].worktree)]
        && (forall p :: At(state.checkouts[root].index, p) == At(c.index, p) ||
                        (baseline in state.commits && At(state.checkouts[root].index, p) == At(state.commits[baseline].tree, p)))
        && (forall p :: p !in paths ==> At(state.checkouts[root].worktree, p) == At(c.worktree, p))
        && (g.Pass? <==> !fault && baseline in state.commits && failing !! paths && c.head == baseline)
        && (g.Pass? ==>
              && state.checkouts[root].index == Copy(state.commits[baseline].tree, c.index, paths * state.commits[baseline].tree.Keys)
              && state.checkouts[root].worktree == Copy(state.commits[baseline].tree, c.worktree, paths))
    {
      Others();
      if fault || root !in state.checkouts || baseline !in state.commits {
        return Stop(GitCommandFailed);
      }
      var tree, c := state.commits[baseline].tree, state.checkouts[root];
      var index, worktree, todo := c.index, c.worktree, paths;
      while todo != {}
        invariant todo <= paths
        invariant forall p :: At(index, p) == if p in (paths - todo) * tree.Keys then At(tree, p) else At(c.index, p)
        invariant forall p :: At(worktree, p) == if p in paths - todo then At(tree, p) else At(c.worktree, p)
        invariant failing !! paths - todo
      {
        var p :| p in todo;
        if p in failing {
          state := state.(checkouts := state.checkouts[root := c.(index := index, worktree := worktree)]);
          return Stop(RestoreFailed);
        }
        if p in tree {
          index, worktree := index[p := tree[p]], worktree[p := tree[p]];
        } else {
          worktree := worktree - {p};
        }
        todo := todo - {p};
      }
      SameTree(index, Copy(tree, c.index, paths * tree.Keys));
      SameTree(worktree, Copy(tree, c.worktree, paths));
      state := state.(checkouts := state.checkouts[root := c.(index := index, worktree := worktree)]);
      return Need(c.head == baseline, RestoreHeadMismatch);
    }

    /** `git add`: refuses an empty list, a path that is nowhere, and an ignored untracked path. */
    method Stage(root: Loc, paths: set<Path>, fault: bool) returns (g: Guard)
      requires Valid()
      modifies this
      ensures Valid() && Grows(old(state), state)
      ensures quiet ==> state.commits == old(state).commits
      ensures quiet && g.Stop? ==> state.checkouts == old(state).checkouts
      ensures quiet && g.Pass? ==>
        && root in state.checkouts
        && var c := old(state).checkouts[root];
           state.checkouts == old(state).checkouts[root := c.(index := Copy(c.worktree, c.index, paths))]
      ensures quiet && root in state.checkouts ==>
        (g.Pass? <==> !fault && paths != {} && Stageable(ignored, old(state).checkouts[root], paths))
    {
      Others();
      if fault || root !in state.checkouts || paths == {} || !Stageable(ignored, state.checkouts[root], paths) {
        return Stop(GitStageFailed);
      }
      var c := state.checkouts[root];
      state := state.(checkouts := state.checkouts[root := c.(index := Copy(c.worktree, c.index, paths))]);
      return Pass;
    }

    /** `git restore --staged`: refuses a path known neither to the index nor to HEAD. */
    method Unstage(root: Loc, paths: set<Path>, fault: bool) returns (g: Guard)
      requires Valid()
      modifies this
      ensures Valid() && Grows(old(state), state)
      ensures quiet ==> state.commits == old(state).commits
      ensures quiet && g.Stop? ==> state.checkouts == old(state).checkouts
      ensures quiet && g.Pass? ==>
        && root in state.checkouts
        && var c := old(state).checkouts[root];
           state.checkouts == old(state).checkouts[root := c.(index := Copy(state.HeadTree(root), c.index, paths))]
      ensures quiet && root in state.checkouts ==>
        (g.Pass? <==> !fault && paths <= old(state).checkouts[root].index.Keys + state.HeadTree(root).Keys)
    {
      Others();
      if fault || root !in state.checkouts || !(paths <= state.checkouts[root].index.Keys + state.HeadTree(root).Keys) {
        return Stop(GitUnstageFailed);
      }
      var c := state.checkouts[root];
      state := state.(checkouts := state.checkouts[root := c.(index := Copy(state.HeadTree(root), c.index, paths))]);
      return Pass;
    }

    /** `git commit`, followed by a read of HEAD that may fault on its own. */
    method CreateLocalCommit(root: Loc, commitFault: bool, headFault: bool) returns (r: Result<Sha>)
      requires Valid()
      modifies this
      ensures Valid() && Grows(old(state), state)
      ensures r.Ok? ==> root in state.checkouts && r.value == state.checkouts[root].head
      ensures quiet && (root !in state.checkouts || commitFault || StagedPaths(old(state), root) == {}) ==>
        r.Fail? && state == old(state)
      ensures quiet && root in state.checkouts && !commitFault && StagedPaths(old(state), root) != {} ==>
        && IsCommitOfIndex(old(state), root, state)
        && (r.Ok? <==> !headFault)
    {
      Others();
      if commitFault || root !in state.checkouts || StagedPaths(state, root) == {} {
        return Fail(GitCommitFailed);
      }
      var s := FreshSha(state.commits.Keys);
      var c := state.checkouts[root];
      state := DiskState(state.commits[s := Commit([c.head], c.index)], state.checkouts[root := c.(head := s)]);
      r := CurrentHead(root, headFault);
    }
  }

  /** Every listed file exists and decodes. */
  predicate Readable(worktree: Tree, paths: set<Path>) {
    forall p :: p in paths ==> p in worktree && AsWritten(worktree[p]).Some?
  }

  /** Why the texts could not be captured: the read faulted, a file is missing, or one does not decode. */
  predicate Unreadable(d: DiskState, root: Loc, paths: set<Path>, fault: bool, reason: Reason) {
    || (reason == CandidateFileReadFailed && (fault || root !in d.checkouts))
    || (root in d.checkouts &&
        (|| (reason == CandidateFileNotRegular && !(paths <= d.checkouts[root].worktree.Keys))
         || (reason == CandidateFileNotUtf8 && exists p :: p in paths && p in d.checkouts[root].worktree && d.checkouts[root].worktree[p].Binary?)))
  }

  function Captured(worktree: Tree, paths: set<Path>): Tree
    requires Readable(worktree, paths)
  {
    map p | p in paths :: AsWritten(worktree[p]).value
  }

  predicate Stageable(ignored: IgnoreRule, c: Checkout, paths: set<Path>) {
    forall p :: p in paths ==> p in c.index || (p in c.worktree && !ignored(c.worktree, p))
  }

  /** `after` is `before` with one new commit at `root`: child of HEAD, tree of the index. */
  predicate IsCommitOfIndex(before: DiskState, root: Loc, after: DiskState)
    requires root in before.checkouts
  {
    && root in after.checkouts
    && var c, s := before.checkouts[root], after.checkouts[root].head;
       && s !in before.commits
       && after.commits == before.commits[s := Commit([c.head], c.index)]
       && after.checkouts == before.checkouts[root := c.(head := s)]
  }

  method FreshSha(taken: set<Sha>) returns (s: Sha)
    ensures s !in taken
  {
    s := 0;
    var todo := taken;
    while todo != {}
      invariant todo <= taken
      invariant forall t :: t in taken && t !in todo ==> t < s
    {
      var t :| t in todo;
      if s <= t {
        s := t + 1;
      }
      todo := todo - {t};
    }
  }
}
