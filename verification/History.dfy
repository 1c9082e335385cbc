/** Whole runs of the promotion services: any sequence of L1 and L2 calls, with faults
    anywhere, interleaved with anything that moves no canonical head and writes no record. */
module History {
  import opened Prelude
  import opened Git
  import opened Acceptance
  import opened Session
  import opened Promotion
  import L1 = Integration
  import L2 = ControlledCommit

  datatype World = World(disk: DiskState, db: Db)

  datatype Move =
    | Integrating(request: L1.IntegrationRequest, faults: L1.Faults, result: L1.IntegrationResult)
    | Committing(request2: L2.CommitRequest, faults2: set<L2.Site>, result2: L2.CommitResult)
    | Elsewhere

  /** Frozen plans and repository registrations are never rewritten, and a workflow keeps its repository. */
  predicate PlansKept(db: Db, db': Db) {
    && db.freezes.Items <= db'.freezes.Items
    && db.repositories.Items <= db'.repositories.Items
    && (forall w :: w in db.workflows ==> w in db'.workflows && db'.workflows[w].repositoryId == db.workflows[w].repositoryId)
  }

  predicate HeadsKept(canonical: set<Loc>, d: DiskState, d': DiskState) {
    forall loc :: loc in canonical && loc in d.checkouts && loc in d'.checkouts ==> d'.checkouts[loc].head == d.checkouts[loc].head
  }

  ghost predicate MoveOk(ignored: IgnoreRule, commands: CommandOracle, canonical: set<Loc>, move: Move, w: World, w': World) {
    && w.disk.Valid() && w'.disk.Valid()
    && match move
       case Integrating(request, faults, result) =>
         L1.IntegrateStep(ignored, commands, request, faults, w.disk, w.db, result, w'.disk, w'.db)
       case Committing(request, faults, result) =>
         L2.CommitStep(ignored, commands, request, faults, w.disk, w.db, result, w'.disk, w'.db)
       case Elsewhere =>
         Grows(w.disk, w'.disk) && HeadsKept(canonical, w.disk, w'.disk) && PlansKept(w.db, w'.db) && w'.db.records == w.db.records
  }

  ghost predicate Run(ignored: IgnoreRule, commands: CommandOracle, canonical: set<Loc>, worlds: seq<World>, moves: seq<Move>) {
    && |worlds| == |moves| + 1
    && worlds[0].disk.Valid()
    && forall k :: 0 <= k < |moves| ==> StepAt(ignored, commands, canonical, worlds, moves, k)
  }

  ghost predicate StepAt(ignored: IgnoreRule, commands: CommandOracle, canonical: set<Loc>, worlds: seq<World>, moves: seq<Move>, k: nat)
    requires k < |moves| < |worlds|
  {
    MoveOk(ignored, commands, canonical, moves[k], worlds[k], worlds[k + 1])
  }

  /** The call created a commit object. */
  predicate MadeCommit(w: World, w': World) {
    w'.disk.commits != w.disk.commits
  }

  /** A call that reports FAILED made a commit exactly when everything up to the commit succeeded and
      the head could then not be read back. */
  lemma FailedCommitExactly(ignored: IgnoreRule, commands: CommandOracle, request: L2.CommitRequest, faults: set<L2.Site>,
                            d: DiskState, db: Db, r: L2.CommitResult, d': DiskState, db': Db)
    requires d.Valid() && L2.CommitStep(ignored, commands, request, faults, d, db, r, d', db') && r.status == L2.Failed
    ensures d'.commits != d.commits <==>
            L2.HeadAfterCommit in faults && L2.ReachesCommit(ignored, commands, d, db, request, faults)
    ensures db' == db
  {
    if L2.ReachesCommit(ignored, commands, d, db, request, faults) {
      var s := d'.checkouts[request.root].head;
      assert s in d'.commits;
    }
  }

  /** One move: commits are kept; a canonical head either stays or becomes a brand-new child of itself. */
  lemma MoveMovesHead(ignored: IgnoreRule, commands: CommandOracle, canonical: set<Loc>, move: Move, w: World, w': World, loc: Loc)
    requires MoveOk(ignored, commands, canonical, move, w, w') && loc in canonical && loc in w.disk.checkouts
    ensures Grows(w.disk, w'.disk) && loc in w'.disk.checkouts
    ensures var head, head' := w.disk.checkouts[loc].head, w'.disk.checkouts[loc].head;
      head' == head || (head' !in w.disk.commits && w'.disk.commits[head'].parents == [head])
  {
    match move
    case Integrating(request, faults, result) =>
      IntegrationFrame(ignored, commands, request, faults, w.disk, w.db, result, w'.disk, w'.db);
    case Committing(request, faults, result) =>
      CommitFrame(ignored, commands, request, faults, w.disk, w.db, result, w'.disk, w'.db);
    case Elsewhere =>
  }

  /** What an L2 call can do to the disk. */
  lemma CommitFrame(ignored: IgnoreRule, commands: CommandOracle, request: L2.CommitRequest, faults: set<L2.Site>,
                    d: DiskState, db: Db, r: L2.CommitResult, d': DiskState, db': Db)
    requires d.Valid() && d'.Valid() && L2.CommitStep(ignored, commands, request, faults, d, db, r, d', db')
    ensures Grows(d, d')
    ensures d'.commits != d.commits ==>
      && L2.ReachesCommit(ignored, commands, d, db, request, faults)
      && L2.CommitsExactly(d, request.root, L2.CommitPaths(ignored, d, request), d')
    ensures d'.commits == d.commits ==> HeadsKept(d.checkouts.Keys, d, d') && db' == db
    ensures PlansKept(db, db')
  {
    var rows := L2.CommitRows(db, request);
    if rows.Ok? && !L2.HasRecord(db, request.workflowId, rows.value.0.freezeId) && request.root in d.checkouts {
      var reached := L2.ReachesCommit(ignored, commands, d, db, request, faults);
      StepFrame(reached, reached && L2.Verifies(commands, d, db, request, faults), request.root, L2.CommitPaths(ignored, d, request),
                faults, L2.RecordOf(ignored, d, db, request), d, db, r, d', db');
    }
  }

  lemma StepFrame(reached: bool, verifies: bool, root: Loc, paths: set<Path>, faults: set<L2.Site>, record: CommitRecord,
                  d: DiskState, db: Db, r: L2.CommitResult, d': DiskState, db': Db)
    requires d.Valid() && d'.Valid() && root in d.checkouts
    requires L2.StepFrom(reached, verifies, root, paths, faults, record, d, db, r, d', db')
    ensures Grows(d, d') && PlansKept(db, db') && (reached <==> d'.commits != d.commits)
    ensures reached ==> L2.CommitsExactly(d, root, paths, d')
    ensures !reached ==> HeadsKept(d.checkouts.Keys, d, d') && db' == db
  {
    if reached {
      assert d'.checkouts[root].head in d'.commits;
    }
  }

  lemma AnyMoveGrows(ignored: IgnoreRule, commands: CommandOracle, canonical: set<Loc>, move: Move, w: World, w': World)
    requires MoveOk(ignored, commands, canonical, move, w, w')
    ensures Grows(w.disk, w'.disk)
  {
    match move
    case Integrating(request, faults, result) =>
      IntegrationFrame(ignored, commands, request, faults, w.disk, w.db, result, w'.disk, w'.db);
    case Committing(request, faults, result) =>
      CommitFrame(ignored, commands, request, faults, w.disk, w.db, result, w'.disk, w'.db);
    case Elsewhere =>
  }

  // ----- the commits of a run form one line per canonical repository -----

  /** A head stays, or becomes a brand-new child of itself; commits are kept. */
  predicate HeadStep(d: DiskState, d': DiskState, loc: Loc) {
    && loc in d.checkouts && loc in d'.checkouts && Grows(d, d')
    && var head, head' := d.checkouts[loc].head, d'.checkouts[loc].head;
       && head in d.commits && head' in d'.commits
       && (head' == head || (head' !in d.commits && d'.commits[head'].parents == [head]))
  }

  predicate Track(worlds: seq<World>, loc: Loc) {
    && worlds != [] && loc in worlds[0].disk.checkouts && worlds[0].disk.checkouts[loc].head in worlds[0].disk.commits
    && forall k :: 0 < k < |worlds| ==> HeadStep(worlds[k - 1].disk, worlds[k].disk, loc)
  }

  lemma PrefixIsRun(ignored: IgnoreRule, commands: CommandOracle, canonical: set<Loc>, worlds: seq<World>, moves: seq<Move>)
    requires Run(ignored, commands, canonical, worlds, moves) && moves != []
    ensures Run(ignored, commands, canonical, worlds[..|worlds| - 1], moves[..|moves| - 1])
  {
    var n := |moves| - 1;
    var worlds', moves' := worlds[..n + 1], moves[..n];
    forall k | 0 <= k < n
      ensures StepAt(ignored, commands, canonical, worlds', moves', k)
    {
      assert StepAt(ignored, commands, canonical, worlds, moves, k);
    }
  }

  lemma {:induction false} RunIsTrack(ignored: IgnoreRule, commands: CommandOracle, canonical: set<Loc>, worlds: seq<World>, moves: seq<Move>, loc: Loc)
    requires Run(ignored, commands, canonical, worlds, moves) && loc in canonical && loc in worlds[0].disk.checkouts
    ensures Track(worlds, loc)
  {
    var n := |worlds| - 1;
    if n > 0 {
      var shorter := worlds[..n];
      PrefixIsRun(ignored, commands, canonical, worlds, moves);
      RunIsTrack(ignored, commands, canonical, shorter, moves[..n - 1], loc);
      assert loc in worlds[n - 1].disk.checkouts by {
        if n > 1 {
          assert HeadStep(shorter[n - 2].disk, shorter[n - 1].disk, loc);
        }
      }
      assert StepAt(ignored, commands, canonical, worlds, moves, n - 1);
      MoveMovesHead(ignored, commands, canonical, moves[n - 1], worlds[n - 1], worlds[n], loc);
      forall k | 0 < k < |worlds|
        ensures HeadStep(worlds[k - 1].disk, worlds[k].disk, loc)
      {
        if k < n {
          assert HeadStep(shorter[k - 1].disk, shorter[k].disk, loc);
        }
      }
    }
  }

  lemma {:induction false} TrackGrows(worlds: seq<World>, loc: Loc, i: nat, j: nat)
    requires Track(worlds, loc) && i <= j < |worlds|
    ensures loc in worlds[i].disk.checkouts && loc in worlds[j].disk.checkouts
    ensures worlds[i].disk.checkouts[loc].head in worlds[i].disk.commits
    ensures Grows(worlds[i].disk, worlds[j].disk)
    decreases j
  {
    if i < j {
      TrackGrows(worlds, loc, i, j - 1);
      assert HeadStep(worlds[j - 1].disk, worlds[j].disk, loc);
    } else if i > 0 {
      assert HeadStep(worlds[i - 1].disk, worlds[i].disk, loc);
    }
  }

  /** Once a head has moved, no commit that existed before is ever the head again. */
  lemma {:induction false} HeadsNeverReturn(worlds: seq<World>, loc: Loc, i: nat, j: nat)
    requires Track(worlds, loc) && i < j < |worlds|
    requires worlds[i].disk.checkouts.Keys == worlds[i + 1].disk.checkouts.Keys && loc in worlds[i].disk.checkouts
    requires worlds[i + 1].disk.checkouts[loc].head != worlds[i].disk.checkouts[loc].head
    ensures loc in worlds[j].disk.checkouts && worlds[j].disk.checkouts[loc].head !in worlds[i].disk.commits
    decreases j
  {
    assert HeadStep(worlds[j - 1].disk, worlds[j].disk, loc);
    if j > i + 1 {
      HeadsNeverReturn(worlds, loc, i, j - 1);
      TrackGrows(worlds, loc, i, j - 1);
      var head := worlds[j].disk.checkouts[loc].head;
      if head in worlds[i].disk.commits {
        Kept(worlds[i].disk, worlds[j - 1].disk, head);
      }
    }
  }

  /** The successive new heads of `loc` over the run. */
  function NewHeads(worlds: seq<World>, loc: Loc): seq<Sha>
    requires Track(worlds, loc)
  {
    if |worlds| == 1 then []
    else
      var n := |worlds| - 1;
      assert HeadStep(worlds[n - 1].disk, worlds[n].disk, loc);
      var before, after := worlds[n - 1].disk.checkouts[loc].head, worlds[n].disk.checkouts[loc].head;
      NewHeads(Shorter(worlds, loc), loc) + (if after != before then [after] else [])
  }

  function Shorter(worlds: seq<World>, loc: Loc): (r: seq<World>)
    requires Track(worlds, loc) && |worlds| > 1
    ensures Track(r, loc)
  {
    var r := worlds[..|worlds| - 1];
    assert forall k :: 0 < k < |r| ==> HeadStep(r[k - 1].disk, r[k].disk, loc);
    r
  }

  /** Each commit's only parent is the one before it, and the first one's is `start`. */
  predicate Line(commits: map<Sha, Commit>, start: Sha, line: seq<Sha>) {
    forall k :: 0 <= k < |line| ==> line[k] in commits && commits[line[k]].parents == [Before(start, line, k)]
  }

  function Before(start: Sha, line: seq<Sha>, k: nat): Sha
    requires k <= |line|
  {
    if k == 0 then start else line[k - 1]
  }

  /** The new heads form one line of brand-new commits from the first head to the last. */
  ghost predicate LineOfHeads(worlds: seq<World>, loc: Loc)
    requires Track(worlds, loc)
  {
    var line, last, start := NewHeads(worlds, loc), worlds[|worlds| - 1].disk, worlds[0].disk.checkouts[loc].head;
    && Line(last.commits, start, line)
    && Distinct(line)
    && (forall k :: 0 <= k < |line| ==> line[k] !in worlds[0].disk.commits)
    && loc in last.checkouts && last.checkouts[loc].head == Before(start, line, |line|)
  }

  lemma {:induction false} TrackFormsALine(worlds: seq<World>, loc: Loc)
    requires Track(worlds, loc)
    ensures LineOfHeads(worlds, loc)
    decreases |worlds|
  {
    var n := |worlds| - 1;
    if n > 0 {
      var shorter := Shorter(worlds, loc);
      TrackFormsALine(shorter, loc);
      var line, d, d' := NewHeads(shorter, loc), worlds[n - 1].disk, worlds[n].disk;
      assert shorter[|shorter| - 1].disk == d && shorter[0] == worlds[0];
      assert HeadStep(d, d', loc);
      TrackGrows(worlds, loc, 0, n - 1);
      forall k | 0 <= k < |line|
        ensures line[k] in d.commits && line[k] in d'.commits && d'.commits[line[k]] == d.commits[line[k]]
      {
        Kept(d, d', line[k]);
      }
      LineExtends(worlds[0].disk, d, d', loc, worlds[0].disk.checkouts[loc].head, line);
    }
  }

  lemma LineExtends(first: DiskState, d: DiskState, d': DiskState, loc: Loc, start: Sha, line: seq<Sha>)
    requires HeadStep(d, d', loc) && Grows(first, d)
    requires Line(d.commits, start, line) && Distinct(line) && d.checkouts[loc].head == Before(start, line, |line|)
    requires forall k :: 0 <= k < |line| ==> line[k] !in first.commits
    requires forall k :: 0 <= k < |line| ==> line[k] in d'.commits && d'.commits[line[k]] == d.commits[line[k]]
    ensures var head, head' := d.checkouts[loc].head, d'.checkouts[loc].head;
            var line' := line + (if head' != head then [head'] else []);
      && Line(d'.commits, start, line') && Distinct(line') && head' == Before(start, line', |line'|)
      && forall k :: 0 <= k < |line'| ==> line'[k] !in first.commits
  {
    var head, head' := d.checkouts[loc].head, d'.checkouts[loc].head;
    if head' != head {
      if head' in first.commits {
        Kept(first, d, head');
      }
      var line' := line + [head'];
      forall k | 0 <= k < |line'|
        ensures line'[k] in d'.commits && d'.commits[line'[k]].parents == [Before(start, line', k)]
      {
        assert k < |line| ==> line'[k] == line[k] && Before(start, line', k) == Before(start, line, k);
      }
    } else {
      assert line + [] == line;
    }
  }

  /** Over any run in which only the service moves canonical heads, faults at any step included, the new
      heads of a repository form one line of brand-new commits from its first head to its last; hence
      no two of them share a parent. */
  lemma CommitsFormALine(ignored: IgnoreRule, commands: CommandOracle, canonical: set<Loc>,
                         worlds: seq<World>, moves: seq<Move>, loc: Loc)
    requires Run(ignored, commands, canonical, worlds, moves) && loc in canonical && loc in worlds[0].disk.checkouts
    ensures Track(worlds, loc) && LineOfHeads(worlds, loc)
    ensures var line, commits := NewHeads(worlds, loc), worlds[|worlds| - 1].disk.commits;
      forall i, j :: 0 <= i < j < |line| ==>
        line[i] in commits && line[j] in commits && commits[line[i]].parents != commits[line[j]].parents
  {
    RunIsTrack(ignored, commands, canonical, worlds, moves, loc);
    TrackFormsALine(worlds, loc);
    var line, start := NewHeads(worlds, loc), worlds[0].disk.checkouts[loc].head;
    forall i, j | 0 <= i < j < |line|
      ensures Before(start, line, i) != Before(start, line, j)
    {
    }
  }

  // ----- one commit, and one record, per frozen plan -----

  /** The rows that fix where and on what an L2 call commits. */
  lemma CommitRowsFacts(db: Db, request: L2.CommitRequest)
    requires L2.CommitRows(db, request).Ok?
    ensures var rows := L2.CommitRows(db, request).value.0;
      && request.workflowId in db.workflows && db.workflows[request.workflowId].repositoryId.Some?
      && rows.freezeId in db.freezes && db.freezes[rows.freezeId] == rows.freeze && rows.freeze.commitSha == Some(request.baseline)
      && var repository := db.workflows[request.workflowId].repositoryId.value;
         repository in db.repositories && db.repositories[repository].location == request.root
  {
  }

  lemma MoveKeepsPlans(ignored: IgnoreRule, commands: CommandOracle, canonical: set<Loc>, move: Move, w: World, w': World)
    requires MoveOk(ignored, commands, canonical, move, w, w')
    ensures PlansKept(w.db, w'.db)
  {
    match move
    case Integrating(request, faults, result) =>
      IntegrationFrame(ignored, commands, request, faults, w.disk, w.db, result, w'.disk, w'.db);
    case Committing(request, faults, result) =>
      CommitFrame(ignored, commands, request, faults, w.disk, w.db, result, w'.disk, w'.db);
    case Elsewhere =>
  }

  lemma {:induction false} RunKeepsPlans(ignored: IgnoreRule, commands: CommandOracle, canonical: set<Loc>,
                                         worlds: seq<World>, moves: seq<Move>, i: nat, j: nat)
    requires Run(ignored, commands, canonical, worlds, moves) && i <= j < |worlds|
    ensures PlansKept(worlds[i].db, worlds[j].db)
    decreases j
  {
    if i < j {
      RunKeepsPlans(ignored, commands, canonical, worlds, moves, i, j - 1);
      assert StepAt(ignored, commands, canonical, worlds, moves, j - 1);
      MoveKeepsPlans(ignored, commands, canonical, moves[j - 1], worlds[j - 1], worlds[j]);
    }
  }

  /** The call at step k is an L2 call for this workflow, under this frozen plan. */
  predicate CommitsFor(worlds: seq<World>, moves: seq<Move>, k: nat, workflowId: Id, freezeId: Id)
    requires k < |moves| < |worlds|
  {
    && moves[k].Committing? && moves[k].request2.workflowId == workflowId
    && L2.CommitRows(worlds[k].db, moves[k].request2).Ok?
    && L2.CommitRows(worlds[k].db, moves[k].request2).value.0.freezeId == freezeId
  }

  lemma SamePlanSameTarget(db: Db, request: L2.CommitRequest, db': Db, request': L2.CommitRequest)
    requires PlansKept(db, db') && request'.workflowId == request.workflowId
    requires L2.CommitRows(db, request).Ok? && L2.CommitRows(db', request').Ok?
    requires L2.CommitRows(db, request).value.0.freezeId == L2.CommitRows(db', request').value.0.freezeId
    ensures request'.root == request.root && request'.baseline == request.baseline
  {
    CommitRowsFacts(db, request);
    CommitRowsFacts(db', request');
    var freezeId := L2.CommitRows(db, request).value.0.freezeId;
    var repository := db.workflows[request.workflowId].repositoryId.value;
    assert (freezeId, db.freezes[freezeId]) in db.freezes.Items;
    assert (repository, db.repositories[repository]) in db.repositories.Items;
  }

  /** Over a whole run, a frozen plan is committed at most once, recorded or not. */
  lemma AtMostOneCommitPerPlan(ignored: IgnoreRule, commands: CommandOracle, canonical: set<Loc>,
                               worlds: seq<World>, moves: seq<Move>, i: nat, j: nat, workflowId: Id, freezeId: Id)
    requires Run(ignored, commands, canonical, worlds, moves) && i < j < |moves|
    requires CommitsFor(worlds, moves, i, workflowId, freezeId) && CommitsFor(worlds, moves, j, workflowId, freezeId)
    requires moves[i].request2.root in canonical
    requires MadeCommit(worlds[i], worlds[i + 1])
    ensures !MadeCommit(worlds[j], worlds[j + 1])
  {
    if MadeCommit(worlds[j], worlds[j + 1]) {
      var request, request' := moves[i].request2, moves[j].request2;
      assert request'.root == request.root && request'.baseline == request.baseline by {
        RunKeepsPlans(ignored, commands, canonical, worlds, moves, i, j);
        SamePlanSameTarget(worlds[i].db, request, worlds[j].db, request');
      }
      assert CommittedAtBaseline(worlds[i], worlds[i + 1], request) by {
        assert StepAt(ignored, commands, canonical, worlds, moves, i);
        CommitIsAtBaseline(ignored, commands, canonical, moves[i], worlds[i], worlds[i + 1]);
      }
      assert CommittedAtBaseline(worlds[j], worlds[j + 1], request') by {
        assert StepAt(ignored, commands, canonical, worlds, moves, j);
        CommitIsAtBaseline(ignored, commands, canonical, moves[j], worlds[j], worlds[j + 1]);
      }
      BaselineIsGone(ignored, commands, canonical, worlds, moves, i, j, request);
    }
  }

  lemma BaselineIsGone(ignored: IgnoreRule, commands: CommandOracle, canonical: set<Loc>,
                       worlds: seq<World>, moves: seq<Move>, i: nat, j: nat, request: L2.CommitRequest)
    requires Run(ignored, commands, canonical, worlds, moves) && i < j < |moves| && request.root in canonical
    requires CommittedAtBaseline(worlds[i], worlds[i + 1], request)
    ensures request.root in worlds[j].disk.checkouts && worlds[j].disk.checkouts[request.root].head != request.baseline
  {
    SuffixIsRun(ignored, commands, canonical, worlds, moves, i);
    RunIsTrack(ignored, commands, canonical, worlds[i..], moves[i..], request.root);
    HeadsNeverReturn(worlds[i..], request.root, 0, j - i);
  }

  lemma SuffixIsRun(ignored: IgnoreRule, commands: CommandOracle, canonical: set<Loc>, worlds: seq<World>, moves: seq<Move>, i: nat)
    requires Run(ignored, commands, canonical, worlds, moves) && i < |moves|
    ensures Run(ignored, commands, canonical, worlds[i..], moves[i..])
  {
    forall k | 0 <= k < |moves[i..]|
      ensures StepAt(ignored, commands, canonical, worlds[i..], moves[i..], k)
    {
      assert StepAt(ignored, commands, canonical, worlds, moves, i + k);
    }
    assert StepAt(ignored, commands, canonical, worlds, moves, i);
  }

  predicate CommittedAtBaseline(w: World, w': World, request: L2.CommitRequest) {
    && request.root in w.disk.checkouts && w.disk.checkouts[request.root].head == request.baseline && request.baseline in w.disk.commits
    && w'.disk.checkouts.Keys == w.disk.checkouts.Keys && w'.disk.checkouts[request.root].head != request.baseline
  }

  lemma CommitIsAtBaseline(ignored: IgnoreRule, commands: CommandOracle, canonical: set<Loc>, move: Move, w: World, w': World)
    requires MoveOk(ignored, commands, canonical, move, w, w') && move.Committing? && MadeCommit(w, w')
    ensures CommittedAtBaseline(w, w', move.request2)
  {
    CommitFrame(ignored, commands, move.request2, move.faults2, w.disk, w.db, move.result2, w'.disk, w'.db);
  }

  /** A record appears only when the very call that made the commit completed. */
  lemma RecordsComeFromCommits(ignored: IgnoreRule, commands: CommandOracle, canonical: set<Loc>, move: Move, w: World, w': World,
                               workflowId: Id, freezeId: Id)
    requires MoveOk(ignored, commands, canonical, move, w, w')
    requires L2.HasRecord(w'.db, workflowId, freezeId) && !L2.HasRecord(w.db, workflowId, freezeId)
    ensures MadeCommit(w, w') && CommitsFor([w, w'], [move], 0, workflowId, freezeId) && move.result2.status == L2.Completed
  {
    OnlyCommitsRecord(ignored, commands, canonical, move, w, w');
    assert move.Committing?;
    CommitFrame(ignored, commands, move.request2, move.faults2, w.disk, w.db, move.result2, w'.disk, w'.db);
    RecordsGrowByOne(ignored, commands, move.request2, move.faults2, w.disk, w.db, move.result2, w'.disk, w'.db);
  }

  lemma OnlyCommitsRecord(ignored: IgnoreRule, commands: CommandOracle, canonical: set<Loc>, move: Move, w: World, w': World)
    requires MoveOk(ignored, commands, canonical, move, w, w')
    ensures !move.Committing? ==> w'.db.records == w.db.records
  {
    if move.Integrating? {
      IntegrationFrame(ignored, commands, move.request, move.faults, w.disk, w.db, move.result, w'.disk, w'.db);
    }
  }

  lemma RecordsGrowByOne(ignored: IgnoreRule, commands: CommandOracle, request: L2.CommitRequest, faults: set<L2.Site>,
                         d: DiskState, db: Db, r: L2.CommitResult, d': DiskState, db': Db)
    requires d.Valid() && L2.CommitStep(ignored, commands, request, faults, d, db, r, d', db')
    ensures r.status != L2.Completed ==> db'.records == db.records
    ensures r.status == L2.Completed ==>
      && L2.CommitRows(db, request).Ok? && |db'.records| == |db.records| + 1 && db'.records[..|db.records|] == db.records
      && var record := db'.records[|db.records|];
         && record.workflowId == request.workflowId && record.freezeId == L2.CommitRows(db, request).value.0.freezeId
         && !L2.HasRecord(db, record.workflowId, record.freezeId)
  {
  }

  predicate OneRecordPerPlan(db: Db) {
    forall i, j :: 0 <= i < j < |db.records| ==>
      !(db.records[i].workflowId == db.records[j].workflowId && db.records[i].freezeId == db.records[j].freezeId)
  }

  /** Every (workflow, freeze) pair keeps at most one COMPLETED record. */
  lemma {:induction false} RecordsStayUnique(ignored: IgnoreRule, commands: CommandOracle, canonical: set<Loc>, worlds: seq<World>, moves: seq<Move>, k: nat)
    requires Run(ignored, commands, canonical, worlds, moves) && OneRecordPerPlan(worlds[0].db) && k < |worlds|
    ensures OneRecordPerPlan(worlds[k].db)
  {
    if k > 0 {
      RecordsStayUnique(ignored, commands, canonical, worlds, moves, k - 1);
      assert StepAt(ignored, commands, canonical, worlds, moves, k - 1);
      MoveKeepsRecordsUnique(ignored, commands, canonical, moves[k - 1], worlds[k - 1], worlds[k]);
    }
  }

  lemma MoveKeepsRecordsUnique(ignored: IgnoreRule, commands: CommandOracle, canonical: set<Loc>, move: Move, w: World, w': World)
    requires MoveOk(ignored, commands, canonical, move, w, w') && OneRecordPerPlan(w.db)
    ensures OneRecordPerPlan(w'.db)
  {
    match move
    case Integrating(request, faults, result) =>
      IntegrationFrame(ignored, commands, request, faults, w.disk, w.db, result, w'.disk, w'.db);
      assert w'.db.records == w.db.records;
    case Committing(request, faults, result) =>
      RecordsGrowByOne(ignored, commands, request, faults, w.disk, w.db, result, w'.disk, w'.db);
      assert forall i :: 0 <= i < |w.db.records| ==> w'.db.records[i] == w'.db.records[..|w.db.records|][i];
    case Elsewhere =>
  }

  /** A commit whose record was lost stays unrecorded... */
  lemma {:induction false} LostRecordStaysLost(ignored: IgnoreRule, commands: CommandOracle, canonical: set<Loc>,
                                               worlds: seq<World>, moves: seq<Move>, i: nat, j: nat, workflowId: Id, freezeId: Id)
    requires Run(ignored, commands, canonical, worlds, moves) && i < j < |worlds|
    requires CommitsFor(worlds, moves, i, workflowId, freezeId) && moves[i].request2.root in canonical
    requires MadeCommit(worlds[i], worlds[i + 1]) && moves[i].result2.status != L2.Completed
    ensures !L2.HasRecord(worlds[j].db, workflowId, freezeId)
    decreases j
  {
    var w, w', move := worlds[j - 1], worlds[j], moves[j - 1];
    assert StepAt(ignored, commands, canonical, worlds, moves, j - 1);
    if j == i + 1 {
      CommitFrame(ignored, commands, move.request2, move.faults2, w.disk, w.db, move.result2, w'.disk, w'.db);
    } else {
      LostRecordStaysLost(ignored, commands, canonical, worlds, moves, i, j - 1, workflowId, freezeId);
      if L2.HasRecord(w'.db, workflowId, freezeId) {
        RecordsComeFromCommits(ignored, commands, canonical, move, w, w', workflowId, freezeId);
        assert CommitsFor(worlds, moves, j - 1, workflowId, freezeId);
        AtMostOneCommitPerPlan(ignored, commands, canonical, worlds, moves, i, j - 1, workflowId, freezeId);
      }
    }
  }

  /** ... and every later call for the same frozen plan ends FAILED without committing again. */
  lemma LostRecordFailsClosed(ignored: IgnoreRule, commands: CommandOracle, canonical: set<Loc>,
                              worlds: seq<World>, moves: seq<Move>, i: nat, j: nat, workflowId: Id, freezeId: Id)
    requires Run(ignored, commands, canonical, worlds, moves) && i < j < |moves|
    requires CommitsFor(worlds, moves, i, workflowId, freezeId) && moves[i].request2.root in canonical
    requires MadeCommit(worlds[i], worlds[i + 1]) && moves[i].result2.status != L2.Completed
    requires CommitsFor(worlds, moves, j, workflowId, freezeId)
    ensures moves[j].result2.status == L2.Failed && !MadeCommit(worlds[j], worlds[j + 1]) && worlds[j + 1].db == worlds[j].db
  {
    LostRecordStaysLost(ignored, commands, canonical, worlds, moves, i, j, workflowId, freezeId);
    AtMostOneCommitPerPlan(ignored, commands, canonical, worlds, moves, i, j, workflowId, freezeId);
    var w, w', move := worlds[j], worlds[j + 1], moves[j];
    assert StepAt(ignored, commands, canonical, worlds, moves, j);
    CommitFrame(ignored, commands, move.request2, move.faults2, w.disk, w.db, move.result2, w'.disk, w'.db);
    NoCommitNoRecordMeansFailed(ignored, commands, move.request2, move.faults2, w.disk, w.db, move.result2, w'.disk, w'.db);
  }

  lemma NoCommitNoRecordMeansFailed(ignored: IgnoreRule, commands: CommandOracle, request: L2.CommitRequest, faults: set<L2.Site>,
                                    d: DiskState, db: Db, r: L2.CommitResult, d': DiskState, db': Db)
    requires d.Valid() && L2.CommitStep(ignored, commands, request, faults, d, db, r, d', db') && d'.commits == d.commits
    requires L2.CommitRows(db, request).Ok? && !L2.HasRecord(db, request.workflowId, L2.CommitRows(db, request).value.0.freezeId)
    ensures r.status == L2.Failed
  {
    ReachingMakesCommit(ignored, commands, request, faults, d, db, r, d', db');
  }

  lemma ReachingMakesCommit(ignored: IgnoreRule, commands: CommandOracle, request: L2.CommitRequest, faults: set<L2.Site>,
                            d: DiskState, db: Db, r: L2.CommitResult, d': DiskState, db': Db)
    requires d.Valid() && L2.CommitStep(ignored, commands, request, faults, d, db, r, d', db')
    ensures L2.ReachesCommit(ignored, commands, d, db, request, faults) ==> d'.commits != d.commits
  {
    if L2.ReachesCommit(ignored, commands, d, db, request, faults) {
      assert d'.checkouts[request.root].head in d'.commits;
    }
  }

  // ----- recognizing a lost record -----

  /** Every commit the service makes looks, to its own check, like a commit whose record was lost: while
      the head stays there, a later call without a record reports that reconciliation is required. */
  lemma LostCommitIsRecognized(ignored: IgnoreRule, commands: CommandOracle, request: L2.CommitRequest, faults: set<L2.Site>,
                               d: DiskState, db: Db, r: L2.CommitResult, d': DiskState, db': Db)
    requires d.Valid() && d'.Valid() && L2.CommitStep(ignored, commands, request, faults, d, db, r, d', db') && d'.commits != d.commits
    ensures request.root in d'.checkouts && L2.CommitRows(db, request).Ok?
    ensures var rows := L2.CommitRows(db, request).value.0;
      Authorized(rows.freeze.affected).Ok? && L2.DriftReason(d', request, rows) == ControlledCommitReconciliationRequired
  {
    CommitFrame(ignored, commands, request, faults, d, db, r, d', db');
    var authorized := Authorized(L2.CommitRows(db, request).value.0.freeze.affected).value;
    L2.TakenChangesDiffer(ignored, d, request, authorized);
    ExactCommitLooksLost(d, request.root, L2.CommitPaths(ignored, d, request), authorized, d');
  }

  lemma ExactCommitLooksLost(d: DiskState, root: Loc, paths: set<Path>, authorized: set<Path>, d': DiskState)
    requires d.Valid() && d'.Valid() && root in d.checkouts && L2.CommitsExactly(d, root, paths, d')
    requires forall p :: p in paths ==> At(d.checkouts[root].worktree, p) != At(d.HeadTree(root), p)
    requires paths != {} && paths <= authorized
    ensures L2.LostRecord(d', d'.checkouts[root].head, d.checkouts[root].head, authorized)
  {
    var s, tree := d'.checkouts[root].head, Copy(d.checkouts[root].worktree, d.HeadTree(root), paths);
    assert d'.commits[s] == Commit([d.checkouts[root].head], tree);
    assert forall p :: p in DiffPaths(tree, d.HeadTree(root)) <==> p in paths;
    assert CommitChangedPaths(d'.commits, s) == paths;
  }

  // ----- records stay true -----

  /** What every stored record certifies. */
  predicate AllCertified(w: World) {
    w.disk.Valid() && forall r :: r in w.db.records ==> L2.Certified(w.disk, r)
  }

  /** The record a completed call stores is certified by the commit it made. */
  lemma CompletedIsCertified(ignored: IgnoreRule, commands: CommandOracle, request: L2.CommitRequest, faults: set<L2.Site>,
                             d: DiskState, db: Db, r: L2.CommitResult, d': DiskState, db': Db)
    requires d.Valid() && d'.Valid() && L2.CommitStep(ignored, commands, request, faults, d, db, r, d', db') && r.status == L2.Completed
    ensures exists record :: db'.records == db.records + [record] && L2.Certified(d', record)
  {
    L2.CommittedCleanly(ignored, commands, request, faults, d, db, r, d', db');
    var authorized := Authorized(L2.CommitRows(db, request).value.0.freeze.affected).value;
    L2.TakenChangesDiffer(ignored, d, request, authorized);
    var record := L2.RecordOf(ignored, d, db, request).(resulting := d'.checkouts[request.root].head);
    assert db'.records == db.records + [record];
    ExactCommitCertified(d, request.root, L2.CommitPaths(ignored, d, request), d', record);
  }

  lemma ExactCommitCertified(d: DiskState, root: Loc, paths: set<Path>, d': DiskState, record: CommitRecord)
    requires d.Valid() && d'.Valid() && root in d.checkouts && L2.CommitsExactly(d, root, paths, d')
    requires forall p :: p in paths ==> At(d.checkouts[root].worktree, p) != At(d.HeadTree(root), p)
    requires paths <= d.checkouts[root].worktree.Keys && paths <= record.authorized
    requires record.baseline == d.checkouts[root].head && record.resulting == d'.checkouts[root].head && record.changed == paths
    requires record.hashes == Pick(d.checkouts[root].worktree, paths)
    ensures L2.Certified(d', record)
  {
    var tree := Copy(d.checkouts[root].worktree, d.HeadTree(root), paths);
    assert d'.commits[record.resulting] == Commit([record.baseline], tree);
    assert d'.commits[record.baseline] == d.commits[record.baseline];
    assert forall p :: p in DiffPaths(tree, d.HeadTree(root)) <==> p in paths;
    assert forall p :: p in paths ==> At(tree, p) == At(d.checkouts[root].worktree, p);
  }

  lemma CertifiedStays(w: World, w': World)
    requires AllCertified(w) && w'.disk.Valid() && Grows(w.disk, w'.disk) && w'.db.records == w.db.records
    ensures AllCertified(w')
  {
    forall r | r in w'.db.records
      ensures L2.Certified(w'.disk, r)
    {
      L2.CertificateLasts(w.disk, w'.disk, r);
    }
  }

  lemma CertifiedGrows(w: World, w': World)
    requires AllCertified(w) && w'.disk.Valid() && Grows(w.disk, w'.disk)
    requires exists record :: w'.db.records == w.db.records + [record] && L2.Certified(w'.disk, record)
    ensures AllCertified(w')
  {
    forall r | r in w.db.records
      ensures L2.Certified(w'.disk, r)
    {
      L2.CertificateLasts(w.disk, w'.disk, r);
    }
  }

  lemma MoveKeepsCertified(ignored: IgnoreRule, commands: CommandOracle, canonical: set<Loc>, move: Move, w: World, w': World)
    requires MoveOk(ignored, commands, canonical, move, w, w') && AllCertified(w)
    ensures AllCertified(w')
  {
    AnyMoveGrows(ignored, commands, canonical, move, w, w');
    if move.Committing? && move.result2.status == L2.Completed {
      CompletedIsCertified(ignored, commands, move.request2, move.faults2, w.disk, w.db, move.result2, w'.disk, w'.db);
      CertifiedGrows(w, w');
    } else {
      RecordsUntouched(ignored, commands, canonical, move, w, w');
      CertifiedStays(w, w');
    }
  }

  lemma RecordsUntouched(ignored: IgnoreRule, commands: CommandOracle, canonical: set<Loc>, move: Move, w: World, w': World)
    requires MoveOk(ignored, commands, canonical, move, w, w')
    requires move.Committing? ==> move.result2.status != L2.Completed
    ensures w'.db.records == w.db.records
  {
    OnlyCommitsRecord(ignored, commands, canonical, move, w, w');
    if move.Committing? {
      RecordsGrowByOne(ignored, commands, move.request2, move.faults2, w.disk, w.db, move.result2, w'.disk, w'.db);
    }
  }

  /** Over any run, faults anywhere, every record ever stored keeps telling the truth: its commit is a child
      of exactly the frozen baseline, changes exactly the recorded authorized paths and holds the recorded
      contents. */
  lemma {:induction false} RecordsStayTrue(ignored: IgnoreRule, commands: CommandOracle, canonical: set<Loc>,
                                           worlds: seq<World>, moves: seq<Move>, k: nat)
    requires Run(ignored, commands, canonical, worlds, moves) && AllCertified(worlds[0]) && k < |worlds|
    ensures AllCertified(worlds[k])
  {
    if k > 0 {
      RecordsStayTrue(ignored, commands, canonical, worlds, moves, k - 1);
      assert StepAt(ignored, commands, canonical, worlds, moves, k - 1);
      MoveKeepsCertified(ignored, commands, canonical, moves[k - 1], worlds[k - 1], worlds[k]);
    }
  }
}
