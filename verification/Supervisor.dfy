/** The night shift's loop over the session and the disk. */
module Supervisor {
  import opened Prelude
  import opened Git
  import opened Acceptance
  import opened Disk
  import opened Session
  import opened Containment
  import opened NightShift
  import opened CleanShift
  import opened History
  import opened Progress
  import Ledger
  import L1 = Integration
  import L2 = ControlledCommit

  function Last(r: ShiftResult): Cycle {
    if r.cycles == [] then NOTHING else r.cycles[|r.cycles| - 1]
  }

  lemma CountExtends(cycles: seq<Cycle>, cycle: Cycle)
    ensures CountCommitted(cycles + [cycle]) == CountCommitted(cycles) + if Committed(cycle) then 1 else 0
  {
    assert (cycles + [cycle])[..|cycles|] == cycles;
  }

  /** The cycle whose task counters are already in `r` closed well. */
  predicate Resumes(r: ShiftResult, r': ShiftResult) {
    && Balanced(r', 0) && r'.status == CleanTermination && r'.tasksSelected == r.tasksSelected
    && r'.cycles == r.cycles + [Last(r')] && r.l2Succeeded <= r'.l2Succeeded <= r.l2Succeeded + 1
    && r'.manualReconciliation == r.manualReconciliation
  }

  /** It stopped the run instead. */
  predicate Halts(r: ShiftResult, r': ShiftResult) {
    && Balanced(r', 1) && r'.status == HardStop && r'.tasksSelected == r.tasksSelected
    && r'.cycles == r.cycles + [Last(r')] && r'.l2Succeeded == r.l2Succeeded
    && (r'.manualReconciliation ==> r'.stopReason == ManualReconciliationRequired || r.manualReconciliation)
  }

  /** A whole cycle closed well: it selected exactly one task. */
  predicate Continues(r: ShiftResult, r': ShiftResult) {
    r'.tasksSelected == r.tasksSelected + 1 && Resumes(r.(tasksSelected := r.tasksSelected + 1), r')
  }

  /** A whole cycle ended the run: cleanly with nothing to do, or with a hard stop. */
  predicate Concludes(r: ShiftResult, r': ShiftResult) {
    && Balanced(r', 1) && r.tasksSelected <= r'.tasksSelected <= r.tasksSelected + 1
    && r'.cycles == r.cycles + [Last(r')] && r'.l2Succeeded == r.l2Succeeded
    && (r'.status == CleanTermination ==> r'.stopReason == Idle && r'.tasksSelected == r.tasksSelected && Last(r') == NOTHING &&
                                          r'.manualReconciliation == r.manualReconciliation)
    && (r'.manualReconciliation ==> r'.stopReason == ManualReconciliationRequired || r.manualReconciliation)
  }

  predicate Closes(r: ShiftResult, end: CycleEnd) {
    match end
    case GoOn(r') => Continues(r, r')
    case Ended(r') => Concludes(r, r')
    case Escape => true
  }

  /** The runtime call's task counts are added to the run's. */
  predicate Tallied(r: ShiftResult, x: RuntimeResult, end: CycleEnd) {
    end.Escape? ||
    (&& end.result.tasksSelected == r.tasksSelected + x.selected && end.result.tasksCompleted == r.tasksCompleted + x.completed
     && end.result.tasksBlocked == r.tasksBlocked + x.blocked && end.result.tasksEscalated == r.tasksEscalated + x.escalations)
  }

  predicate SameTally(r: ShiftResult, end: CycleEnd) {
    end.Escape? ||
    (&& end.result.tasksSelected == r.tasksSelected && end.result.tasksCompleted == r.tasksCompleted
     && end.result.tasksBlocked == r.tasksBlocked && end.result.tasksEscalated == r.tasksEscalated)
  }

  /** What a clean end of a cycle from `w`, with the runtime call leading to `w1`, left behind. */
  ghost predicate CleanEnd(ignored: IgnoreRule, w: World, w1: World, w': World, r: ShiftResult, end: CycleEnd) {
    && (end.GoOn? ==> CycleRan(ignored, w, w1, w', Last(end.result)) && end.result.l2Already == r.l2Already)
    && (end.Ended? && end.result.status == CleanTermination ==>
          CycleRan(ignored, w, w1, w', NOTHING) && end.result.l2Already == r.l2Already)
  }

  /** A runtime call that leaves no task to follow up ends the run: idle first, then escalation. */
  function NoTask(r: ShiftResult, x: RuntimeResult): ShiftResult {
    if x.status == RuntimeIdle && x.selected == 0 then Finish(Counted(r, x).(cycles := r.cycles + [NOTHING]), Idle)
    else if x.escalations > 0 || x.status == RuntimeEscalated then Stopped(Counted(r, x), RuntimeEscalation, NOTHING)
    else Stopped(Counted(r, x), if x.stopped.Some? then x.stopped.value else RuntimeResultWithoutTaskRecord, NOTHING)
  }

  lemma NoTaskBooksClose(r: ShiftResult, x: RuntimeResult)
    requires Balanced(r, 0) && r.status == CleanTermination && x.selected <= 1
    ensures Closes(r, Ended(NoTask(r, x))) && Tallied(r, x, Ended(NoTask(r, x)))
    ensures NoTask(r, x).status == CleanTermination ==> x.status == RuntimeIdle && x.selected == 0 && NoTask(r, x).l2Already == r.l2Already
  {
    CountExtends(r.cycles, NOTHING);
    if x.status == RuntimeIdle && x.selected == 0 {
      IdleBooksClose(r, x);
    } else if x.escalations > 0 || x.status == RuntimeEscalated {
      StopBooksClose(r, x, RuntimeEscalation);
    } else {
      StopBooksClose(r, x, if x.stopped.Some? then x.stopped.value else RuntimeResultWithoutTaskRecord);
    }
  }

  /** What a run that ends without a task to follow up reports. */
  lemma NoTaskTells(r: ShiftResult, x: RuntimeResult)
    ensures NoTask(r, x).status == CleanTermination && NoTask(r, x).stopReason == Idle <==> x.status == RuntimeIdle && x.selected == 0
    ensures NoTask(r, x).status == HardStop && x.escalations > 0 ==> NoTask(r, x).stopReason == RuntimeEscalation
    ensures NoTask(r, x).status == HardStop && x.status != RuntimeEscalated && x.escalations == 0 ==>
      match x.stopped
      case None => NoTask(r, x).stopReason == RuntimeResultWithoutTaskRecord
      case Some(reason) => NoTask(r, x).stopReason == reason
  {
  }

  lemma IdleBooksClose(r: ShiftResult, x: RuntimeResult)
    requires Balanced(r, 0) && r.status == CleanTermination && x.selected == 0
    requires CountCommitted(r.cycles + [NOTHING]) == CountCommitted(r.cycles)
    ensures Concludes(r, Finish(Counted(r, x).(cycles := r.cycles + [NOTHING]), Idle))
  {
  }

  lemma StopBooksClose(r: ShiftResult, x: RuntimeResult, reason: Reason)
    requires Balanced(r, 0) && r.status == CleanTermination && x.selected <= 1
    requires CountCommitted(r.cycles + [NOTHING]) == CountCommitted(r.cycles)
    ensures Concludes(r, Stopped(Counted(r, x), reason, NOTHING))
  {
  }

  lemma TaskBooksClose(r: ShiftResult, x: RuntimeResult, end: CycleEnd)
    requires Balanced(r, 0) && r.status == CleanTermination && x.selected == 1
    requires end.GoOn? ==> Resumes(Counted(r, x), end.result)
    requires end.Ended? ==> Halts(Counted(r, x), end.result)
    requires SameTally(Counted(r, x), end)
    ensures Closes(r, end) && (end.Ended? ==> end.result.status == HardStop) && Tallied(r, x, end)
  {
  }

  function IntegrationStopReason(r: L1.IntegrationResult): Reason {
    if r.status == L1.RollbackFailed || (r.rollbackAttempted && !r.rollbackSucceeded) then L1RollbackUncertain else L1IntegrationFailed
  }

  function AttemptedCycle(id: Id, context: PromotionContext, status: L1.IntegrationStatus): Cycle {
    NOTHING.(workflowId := Some(id), root := Some(context.canonical), integration := Some(status))
  }

  function IntegrationFailed(r: ShiftResult, id: Id, context: PromotionContext, integrated: L1.IntegrationResult): ShiftResult {
    Stopped(r.(l1Attempted := r.l1Attempted + 1, l1Failed := r.l1Failed + 1), IntegrationStopReason(integrated),
            AttemptedCycle(id, context, integrated.status))
  }

  function Applied(r: ShiftResult): ShiftResult {
    r.(l1Attempted := r.l1Attempted + 1, l1Succeeded := r.l1Succeeded + 1)
  }

  function CommitRefused(r: ShiftResult, id: Id, context: PromotionContext): ShiftResult {
    Stopped(Applied(r), CreateCommitNotAuthorized, AttemptedCycle(id, context, L1.Completed))
  }

  /** Counters after the L2 call. */
  function AfterCommit(r: ShiftResult, id: Id, context: PromotionContext, commit: L2.CommitResult, stopOnManual: bool): CycleEnd {
    var attempted := Applied(r).(l2Attempted := r.l2Attempted + 1);
    var cycle := PromotedCycle(id, context, commit);
    match commit.status
    case Completed => GoOn(attempted.(l2Succeeded := r.l2Succeeded + 1, cycles := r.cycles + [cycle]))
    case AlreadyCommitted => GoOn(attempted.(l2Already := r.l2Already + 1, cycles := r.cycles + [cycle]))
    case _ =>
      var manual := commit.manualReconciliation && stopOnManual;
      Ended(Stopped(attempted.(l2Failed := r.l2Failed + 1, manualReconciliation := manual || r.manualReconciliation),
                    if manual then ManualReconciliationRequired else ControlledCommitFailed, cycle))
  }

  lemma BooksClose(r: ShiftResult, id: Id, context: PromotionContext, integrated: L1.IntegrationResult, stopOnManual: bool)
    requires Balanced(r, 0) && r.status == CleanTermination
    ensures Halts(r, IntegrationFailed(r, id, context, integrated)) && Halts(r, CommitRefused(r, id, context))
  {
    CountExtends(r.cycles, AttemptedCycle(id, context, integrated.status));
    CountExtends(r.cycles, AttemptedCycle(id, context, L1.Completed));
  }

  lemma CommitBooksClose(r: ShiftResult, id: Id, context: PromotionContext, commit: L2.CommitResult, stopOnManual: bool)
    requires Balanced(r, 0) && r.status == CleanTermination && (commit.status == L2.Completed ==> commit.resulting.Some?)
    ensures var end := AfterCommit(r, id, context, commit, stopOnManual);
      if commit.status == L2.Completed || commit.status == L2.AlreadyCommitted then
        && end.GoOn? && Resumes(r, end.result) && Last(end.result) == PromotedCycle(id, context, commit)
        && (end.result.l2Already != r.l2Already <==> commit.status == L2.AlreadyCommitted)
      else end.Ended? && Halts(r, end.result)
  {
    CountExtends(r.cycles, PromotedCycle(id, context, commit));
  }

  /** What the end of a promoting cycle says, when nobody else writes, about the world it began in and the one it left. */
  lemma CommitAccount(ignored: IgnoreRule, commands: CommandOracle, id: Id, context: PromotionContext, stopOnManual: bool,
                      faults: CycleFaults, r: ShiftResult, integrated: L1.IntegrationResult, commit: L2.CommitResult, w: World, w1: World, w2: World)
    requires Balanced(r, 0) && r.status == CleanTermination && integrated.status == L1.Completed
    requires w.disk.Valid() && w1.disk.Valid() && w2.disk.Valid() && OthersKept(context.canonical, w.disk, w1.disk)
    requires L1.IntegrateStep(ignored, commands, IntegrationFor(id, context), faults.l1, w.disk, w.db, integrated, w1.disk, w1.db)
    requires L2.CommitStep(ignored, commands, CommitFor(id, context, integrated.protectedFiles), faults.l2, w1.disk, w1.db, commit, w2.disk, w2.db)
    requires commit.status == L2.Completed ==> commit.resulting.Some?
    ensures OthersKept(context.canonical, w.disk, w2.disk)
    ensures var end := AfterCommit(r, id, context, commit, stopOnManual);
      Ledger.Ledger(w) && end.GoOn? ==> CycleRan(ignored, w, w, w2, Last(end.result)) && end.result.l2Already == r.l2Already
  {
    CommitTouchesOne(ignored, commands, CommitFor(id, context, integrated.protectedFiles), faults.l2, w1.disk, w1.db, commit, w2.disk, w2.db);
    CommitBooksClose(r, id, context, commit, stopOnManual);
    if Ledger.Ledger(w) {
      PromotionEffect(ignored, commands, id, context, faults.l1, integrated, faults.l2, commit, w, w1, w2);
    }
  }

  /** Without faults the cycle goes on exactly when both steps go through. */
  lemma PromotionCounts(ignored: IgnoreRule, commands: CommandOracle, id: Id, context: PromotionContext, stopOnManual: bool,
                        faults: CycleFaults, r: ShiftResult, integrated: L1.IntegrationResult, commit: L2.CommitResult, w: World, w1: World, w2: World)
    requires integrated.status == L1.Completed && FaultFree(faults)
    requires w.disk.Valid() && w1.disk.Valid() && w2.disk.Valid()
    requires L1.IntegrateStep(ignored, commands, IntegrationFor(id, context), faults.l1, w.disk, w.db, integrated, w1.disk, w1.db)
    requires L2.CommitStep(ignored, commands, CommitFor(id, context, integrated.protectedFiles), faults.l2, w1.disk, w1.db, commit, w2.disk, w2.db)
    ensures Advances(r, AfterCommit(r, id, context, commit, stopOnManual),
                     PromotesFrom(ignored, commands, w, id, context.canonical, context.candidate, context.baseline), false, OnRecord(w.db, id))
  {
    PromotionEndsExactly(ignored, commands, id, context, w, integrated, w1, commit, w2);
  }

  /** The stop reason after an integration that did not complete tells how the canonical checkout was left: as it
      was, or rolled back; and only an uncertain rollback is reported as one. */
  lemma IntegrationStopTells(ignored: IgnoreRule, commands: CommandOracle, request: L1.IntegrationRequest, faults: L1.Faults,
                             d: DiskState, db: Db, r: L1.IntegrationResult, d': DiskState, db': Db)
    requires d.Valid() && L1.IntegrateStep(ignored, commands, request, faults, d, db, r, d', db')
    requires r.status != L1.Completed && r.status != L1.Escaped
    ensures IntegrationStopReason(r) == if r.status == L1.RollbackFailed then L1RollbackUncertain else L1IntegrationFailed
    ensures IntegrationStopReason(r) == L1IntegrationFailed ==>
      d' == d || (request.root in d.checkouts && exists authorized :: d' == L1.RolledBack(d, request.root, authorized))
  {
  }

  /** Reconciliation is asked for exactly when a commit was made and read back but not verified and recorded,
      and only if the night is set to stop for it; any other stop after L2 is a failed commit. */
  lemma CommitStopTells(ignored: IgnoreRule, commands: CommandOracle, id: Id, context: PromotionContext, request: L2.CommitRequest,
                        faults: set<L2.Site>, r: ShiftResult, d: DiskState, db: Db, commit: L2.CommitResult, d': DiskState, db': Db, stopOnManual: bool)
    requires d.Valid() && L2.CommitStep(ignored, commands, request, faults, d, db, commit, d', db')
    requires AfterCommit(r, id, context, commit, stopOnManual).Ended?
    requires commit.manualReconciliation ==> commit.status == L2.PostCommitVerificationFailed
    ensures var reason := AfterCommit(r, id, context, commit, stopOnManual).result.stopReason;
      && (reason == ManualReconciliationRequired <==> stopOnManual && d'.commits != d.commits && L2.HeadAfterCommit !in faults)
      && (reason != ManualReconciliationRequired ==> reason == ControlledCommitFailed)
  {
  }

  function Elapsed(clock: nat -> real, cycle: nat): real {
    var elapsed := clock(cycle + 1) - clock(0);
    if elapsed < 0.0 then 0.0 else elapsed
  }

  /** The budget was not used up when the k-th cycle was about to begin. */
  predicate Within(clock: nat -> real, k: nat, seconds: real) {
    clock(k + 1) - clock(0) < seconds
  }

  /** No cycle began after the time budget was used up. */
  ghost predicate InTime(cycles: nat, config: Config, clock: nat -> real) {
    forall k :: 0 <= k < cycles ==> Within(clock, k, config.maxSeconds)
  }

  /** The run's books: at most one cycle, the last, is neither contained nor committed, and it is there
      exactly when that cycle ended the run; budgets are kept. */
  predicate Accounted(r: ShiftResult, config: Config) {
    && Balanced(r, if r.status == HardStop || r.stopReason == Idle then 1 else 0)
    && |r.cycles| <= config.maxTasks && r.tasksSelected <= config.maxTasks && r.l2Succeeded <= config.maxCommits
    && (r.manualReconciliation ==> r.stopReason == ManualReconciliationRequired)
  }

  /** What a clean stop reason says, and that the time budget was checked before every cycle. */
  ghost predicate StopMeaning(r: ShiftResult, config: Config, clock: nat -> real) {
    && InTime(|r.cycles|, config, clock)
    && (r.status == CleanTermination ==>
          if r.stopReason == MaxTasksReached then r.tasksSelected == config.maxTasks
          else if r.stopReason == MaxCommitsReached then r.tasksSelected < config.maxTasks && r.l2Succeeded == config.maxCommits
          else if r.stopReason == MaxWallClockReached then
            r.tasksSelected < config.maxTasks && r.l2Succeeded < config.maxCommits && !Within(clock, |r.cycles|, config.maxSeconds)
          else r.stopReason == Idle && Last(r) == NOTHING && r.tasksSelected < config.maxTasks && r.l2Succeeded < config.maxCommits)
  }

  /** The loop's books between cycles. */
  ghost predicate Underway(r: ShiftResult, config: Config, clock: nat -> real) {
    && Balanced(r, 0) && r.status == CleanTermination && !r.manualReconciliation
    && r.tasksSelected == |r.cycles| <= config.maxTasks && r.l2Succeeded <= config.maxCommits
    && InTime(|r.cycles|, config, clock)
  }

  /** The limit that ends the run before another cycle, tasks first and time last. */
  function LimitReached(r: ShiftResult, config: Config, elapsed: real): Option<Reason> {
    if r.tasksSelected >= config.maxTasks then Some(MaxTasksReached)
    else if r.l2Succeeded >= config.maxCommits then Some(MaxCommitsReached)
    else if elapsed >= config.maxSeconds then Some(MaxWallClockReached)
    else None
  }

  lemma FinishedAtLimit(r: ShiftResult, config: Config, clock: nat -> real)
    requires config.Valid() && Underway(r, config, clock) && LimitReached(r, config, Elapsed(clock, |r.cycles|)).Some?
    ensures var finished := Finish(r, LimitReached(r, config, Elapsed(clock, |r.cycles|)).value);
            Accounted(finished, config) && StopMeaning(finished, config, clock)
  {
    ElapsedTells(clock, |r.cycles|, config.maxSeconds);
  }

  lemma ElapsedTells(clock: nat -> real, k: nat, seconds: real)
    requires seconds > 0.0
    ensures Elapsed(clock, k) < seconds <==> Within(clock, k, seconds)
  {
  }

  lemma EndIsAccounted(r: ShiftResult, end: CycleEnd, config: Config, clock: nat -> real)
    requires config.Valid() && Underway(r, config, clock) && LimitReached(r, config, Elapsed(clock, |r.cycles|)).None? && !end.Escape?
    requires Closes(r, end)
    ensures end.GoOn? ==> Underway(end.result, config, clock)
    ensures end.Ended? ==> Accounted(end.result, config) && StopMeaning(end.result, config, clock)
  {
    ElapsedTells(clock, |r.cycles|, config.maxSeconds);
    assert |end.result.cycles| == |r.cycles| + 1;
  }

  /** The account of a night that began in `w0`: the worlds between its cycles, and what they show together. */
  ghost predicate NightSoFar(ignored: IgnoreRule, runtime: Runtime, w0: World, worlds: seq<World>, cycles: seq<Cycle>) {
    && Night(ignored, runtime, worlds, cycles) && worlds[0] == w0
    && NightSettled(ignored, w0, worlds[|cycles|], cycles)
  }

  ghost predicate NightUnderway(ignored: IgnoreRule, runtime: Runtime, w0: World, worlds: seq<World>, w: World, r: ShiftResult) {
    NightSoFar(ignored, runtime, w0, worlds, r.cycles) && worlds[|r.cycles|] == w && r.l2Already == 0
  }

  lemma NightStarts(ignored: IgnoreRule, runtime: Runtime, w0: World, r: ShiftResult)
    requires Ledger.Ledger(w0) && |r.cycles| == 0 && r.l2Already == 0
    ensures NightUnderway(ignored, runtime, w0, [w0], w0, r)
  {
    NightBegins(ignored, w0);
    assert r.cycles == [];
  }

  /** What a finished night leaves: on a clean end everything is accounted for; otherwise everything but the
      last cycle, which touched at most one canonical checkout. */
  ghost predicate NightAccount(ignored: IgnoreRule, runtime: Runtime, w0: World, worlds: seq<World>, w: World, outcome: ShiftOutcome) {
    worlds != [] &&
    match outcome
    case Finished(r) =>
      if r.status == CleanTermination then
        NightSoFar(ignored, runtime, w0, worlds, r.cycles) && worlds[|worlds| - 1] == w && r.l2Already == 0
      else
        && r.cycles != [] && NightSoFar(ignored, runtime, w0, worlds, r.cycles[..|r.cycles| - 1])
        && OneTouched(worlds[|worlds| - 1], w)
    case Raised =>
      (exists cycles :: NightSoFar(ignored, runtime, w0, worlds, cycles)) && OneTouched(worlds[|worlds| - 1], w)
  }

  lemma NightStep(ignored: IgnoreRule, runtime: Runtime, w0: World, worlds: seq<World>, w: World, w': World, r: ShiftResult, end: CycleEnd)
    requires NightUnderway(ignored, runtime, w0, worlds, w, r) && Closes(r, end) && OneTouched(w, w')
    requires CleanEnd(ignored, w, runtime(|r.cycles|, w).0, w', r, end)
    ensures match end
      case GoOn(r') => NightUnderway(ignored, runtime, w0, worlds + [w'], w', r')
      case Ended(r') =>
        NightAccount(ignored, runtime, w0, if r'.status == CleanTermination then worlds + [w'] else worlds, w', Finished(r'))
      case Escape => NightAccount(ignored, runtime, w0, worlds, w', Raised)
  {
    if !end.Escape? && end.result.status == CleanTermination {
      NightGoesOn(ignored, w0, w, w', r.cycles, Last(end.result));
      NightLengthens(ignored, runtime, worlds, r.cycles, w', Last(end.result));
    } else if end.Ended? {
      assert end.result.cycles[..|end.result.cycles| - 1] == r.cycles;
    }
  }

  /** How far a night without faults has gone: every cycle so far was rightly followed by another. */
  ghost predicate OnItsWay(rule: Rule, w0: World, worlds: seq<World>, w: World, cycles: nat) {
    |worlds| == cycles + 1 && worlds[0] == w0 && worlds[cycles] == w && WentOn(rule, worlds, cycles)
  }

  /** The night began in `w0` and ended where it should. */
  ghost predicate RightEnd(rule: Rule, w0: World, worlds: seq<World>, outcome: ShiftOutcome) {
    worlds != [] && worlds[0] == w0 && NightProgress(rule, worlds, outcome)
  }

  lemma CycleIsRight(rule: Rule, w0: World, worlds: seq<World>, w: World, w': World, r: ShiftResult, end: CycleEnd)
    requires OnItsWay(rule, w0, worlds, w, |r.cycles|) && Closes(r, end) && (end.GoOn? <==> rule(|r.cycles|, w))
    ensures match end
      case GoOn(r') => OnItsWay(rule, w0, worlds + [w'], w', |r'.cycles|)
      case Ended(r') => RightEnd(rule, w0, if r'.status == CleanTermination then worlds + [w'] else worlds, Finished(r'))
      case Escape => RightEnd(rule, w0, worlds, Raised)
  {
    ProgressStep(rule, worlds, |r.cycles|, w', end.GoOn?);
  }

  // ----- the two accounts together, each as far as it applies -----

  ghost predicate Telling(settled: bool, followed: bool, ignored: IgnoreRule, runtime: Runtime, rule: Rule,
                          w0: World, worlds: seq<World>, w: World, r: ShiftResult)
  {
    && (settled ==> NightUnderway(ignored, runtime, w0, worlds, w, r))
    && (followed ==> OnItsWay(rule, w0, worlds, w, |r.cycles|))
  }

  ghost predicate Told(settled: bool, followed: bool, ignored: IgnoreRule, runtime: Runtime, rule: Rule,
                       w0: World, worlds: seq<World>, w: World, outcome: ShiftOutcome)
  {
    && (settled ==> NightAccount(ignored, runtime, w0, worlds, w, outcome))
    && (followed ==> RightEnd(rule, w0, worlds, outcome))
  }

  lemma NightOpens(settled: bool, followed: bool, ignored: IgnoreRule, runtime: Runtime, rule: Rule, w0: World, r: ShiftResult)
    requires |r.cycles| == 0 && r.l2Already == 0 && (settled ==> Ledger.Ledger(w0))
    ensures Telling(settled, followed, ignored, runtime, rule, w0, [w0], w0, r)
  {
    if settled {
      NightStarts(ignored, runtime, w0, r);
    }
  }

  lemma NightEndsAtLimit(settled: bool, followed: bool, ignored: IgnoreRule, runtime: Runtime, rule: Rule,
                         w0: World, worlds: seq<World>, w: World, config: Config, r: ShiftResult, limit: Option<Reason>)
    requires Telling(settled, followed, ignored, runtime, rule, w0, worlds, w, r)
    requires limit.Some? && exists elapsed :: LimitReached(r, config, elapsed) == limit
    ensures Told(settled, followed, ignored, runtime, rule, w0, worlds, w, Finished(Finish(r, limit.value)))
  {
  }

  lemma NightContinues(settled: bool, followed: bool, ignored: IgnoreRule, runtime: Runtime, rule: Rule,
                       w0: World, worlds: seq<World>, w: World, w': World, r: ShiftResult, end: CycleEnd)
    requires Telling(settled, followed, ignored, runtime, rule, w0, worlds, w, r) && Closes(r, end)
    requires settled ==> OneTouched(w, w') && CleanEnd(ignored, w, runtime(|r.cycles|, w).0, w', r, end)
    requires followed ==> (end.GoOn? <==> rule(|r.cycles|, w))
    ensures match end
      case GoOn(r') => Telling(settled, followed, ignored, runtime, rule, w0, worlds + [w'], w', r')
      case Ended(r') =>
        Told(settled, followed, ignored, runtime, rule, w0, if r'.status == CleanTermination then worlds + [w'] else worlds, w', Finished(r'))
      case Escape => Told(settled, followed, ignored, runtime, rule, w0, worlds, w', Raised)
  {
    if settled {
      NightStep(ignored, runtime, w0, worlds, w, w', r, end);
    }
    if followed {
      CycleIsRight(rule, w0, worlds, w, w', r, end);
    }
  }

  class NightShiftSupervisor {
    const disk: Machine
    const store: Store
    const integration: L1.CanonicalIntegrationService
    const commits: L2.ControlledCommitService
    const runtime: Runtime
    const clock: nat -> real

    constructor (disk: Machine, store: Store, runtime: Runtime, clock: nat -> real)
      ensures Wired() && this.disk == disk && this.store == store && this.runtime == runtime && this.clock == clock
    {
      this.disk, this.store, this.runtime, this.clock := disk, store, runtime, clock;
      var integration := new L1.CanonicalIntegrationService(disk, store);
      var commits := new L2.ControlledCommitService(disk, store);
      this.integration, this.commits := integration, commits;
    }

    predicate Wired() {
      integration.disk == disk && integration.store == store && commits.disk == disk && commits.store == store
    }

    function Here(): World
      reads disk, store
    {
      World(disk.state, store.db)
    }

    /** Runs the bounded loop until a limit is reached, nothing is left to do, or a cycle stops it.  With no
        outside writes and a confined runtime, `worlds` accounts for every cycle but one that stopped the
        run, and such a last cycle touched at most one canonical checkout. */
    method Run(config: Config, faults: nat -> CycleFaults) returns (outcome: ShiftOutcome, ghost worlds: seq<World>)
      requires disk.Valid() && Wired() && config.Valid() && Sound(runtime)
      modifies disk, store
      ensures disk.Valid() && Grows(old(disk.state), disk.state)
      ensures outcome.Finished? ==> Accounted(outcome.result, config) && StopMeaning(outcome.result, config, clock)
      ensures disk.quiet && Confined(runtime) && Ledger.Ledger(old(Here())) ==>
        NightAccount(disk.ignored, runtime, old(Here()), worlds, Here(), outcome)
      ensures disk.quiet && FaultFreeNight(faults) ==>
        RightEnd(GoingOn(disk.ignored, disk.commands, runtime, config, faults), old(Here()), worlds, outcome)
    {
      ghost var w0, settled := Here(), disk.quiet && Confined(runtime) && Ledger.Ledger(Here());
      ghost var rule, followed := GoingOn(disk.ignored, disk.commands, runtime, config, faults), disk.quiet && FaultFreeNight(faults);
      var started := clock(0);
      var r := Begin(config, []);
      worlds := [w0];
      NightOpens(settled, followed, disk.ignored, runtime, rule, w0, r);
      while true
        invariant disk.Valid() && Grows(w0.disk, disk.state)
        invariant Underway(r, config, clock)
        invariant Telling(settled, followed, disk.ignored, runtime, rule, w0, worlds, Here(), r)
        decreases config.maxTasks - r.tasksSelected
      {
        var limit := LimitReached(r, config, Elapsed(clock, |r.cycles|));
        if limit.Some? {
          FinishedAtLimit(r, config, clock);
          NightEndsAtLimit(settled, followed, disk.ignored, runtime, rule, w0, worlds, Here(), config, r, limit);
          outcome := Finished(Finish(r, limit.value));
          return;
        }
        ghost var before := Here();
        var end := NextCycle(config, faults, r);
        NightContinues(settled, followed, disk.ignored, runtime, rule, w0, worlds, before, Here(), r, end);
        if end.Escape? {
          outcome := Raised;
          return;
        }
        EndIsAccounted(r, end, config, clock);
        if end.Ended? {
          outcome := Finished(end.result);
          if end.result.status == CleanTermination {
            worlds := worlds + [Here()];
          }
          return;
        }
        worlds := worlds + [Here()];
        r := end.result;
      }
    }

    /** The cycle after those in `r`, as the account of the night needs it. */
    method NextCycle(config: Config, faults: nat -> CycleFaults, r: ShiftResult) returns (end: CycleEnd)
      requires disk.Valid() && Wired() && Sound(runtime) && Balanced(r, 0) && r.status == CleanTermination
      modifies disk, store
      ensures disk.Valid() && Grows(old(disk.state), disk.state)
      ensures Closes(r, end)
      ensures disk.quiet && Confined(runtime) ==> OneTouched(old(Here()), Here())
      ensures disk.quiet && Confined(runtime) && Ledger.Ledger(old(Here())) ==>
        CleanEnd(disk.ignored, old(Here()), runtime(|r.cycles|, old(Here())).0, Here(), r, end)
      ensures disk.quiet && FaultFreeNight(faults) ==>
        (end.GoOn? <==> GoingOn(disk.ignored, disk.commands, runtime, config, faults)(|r.cycles|, old(Here())))
    {
      end := RunCycle(config, faults(|r.cycles|), |r.cycles|, r);
    }

    method Begin(config: Config, cycles: seq<Cycle>) returns (r: ShiftResult)
      requires config.Valid() && |cycles| == 0
      ensures Underway(r, config, clock) && r.l2Already == 0 && r.cycles == cycles
    {
      r := ShiftResult(CleanTermination, NoReason, 0, 0, 0, 0, 0, 0, 0, 0, 0, 0, 0, 0, 0, false, cycles);
    }

    /** One cycle: snapshots, one runtime call, and then containment or promotion. */
    method RunCycle(config: Config, faults: CycleFaults, k: nat, r: ShiftResult) returns (end: CycleEnd)
      requires disk.Valid() && Wired() && Sound(runtime) && Balanced(r, 0) && r.status == CleanTermination
      modifies disk, store
      ensures disk.Valid() && Grows(old(disk.state), disk.state)
      ensures Closes(r, end)
      ensures disk.quiet && end.GoOn? && Last(end.result).contained ==>
        Last(end.result).workflowId.Some? &&
        TaskContained(disk.ignored, old(Here()), Here(), Last(end.result).workflowId.value, Last(end.result).quarantined)
      ensures disk.quiet && Confined(runtime) ==> OneTouched(old(Here()), Here())
      ensures disk.quiet && Confined(runtime) && Ledger.Ledger(old(Here())) ==>
        CleanEnd(disk.ignored, old(Here()), runtime(k, old(Here())).0, Here(), r, end)
      ensures disk.quiet && FaultFree(faults) ==>
        CycleAdvances(disk.ignored, disk.commands, config, faults, old(Here()), runtime(k, old(Here())).0, runtime(k, old(Here())).1, r, end)
      ensures disk.quiet ==> Tallied(r, runtime(k, old(Here())).1, end)
    {
      ghost var w0 := Here();
      var snapshots := CaptureSnapshots(config.workflowIds, faults.snapshots);
      var x := CallRuntime(k);
      end := Follow(config, faults, snapshots, x, r, w0, Here());
    }

    /** What a runtime call leads to: the end of the run, or a task to follow up. */
    method Follow(config: Config, faults: CycleFaults, snapshots: map<Id, Snapshot>, x: RuntimeResult, r: ShiftResult,
                  ghost w0: World, ghost w1: World) returns (end: CycleEnd)
      requires disk.Valid() && Wired() && Balanced(r, 0) && r.status == CleanTermination
      requires w1 == Here() && SoundCall(w0, w1, x)
      requires disk.quiet ==> forall id :: id in snapshots ==> Taken(disk.ignored, w0, id, snapshots[id])
      requires disk.quiet ==> forall id :: id in snapshots <==> SnapshotDue(w0, config.workflowIds, faults.snapshots, id)
      modifies disk, store
      ensures disk.Valid() && Grows(old(disk.state), disk.state)
      ensures Closes(r, end)
      ensures disk.quiet && end.GoOn? && Last(end.result).contained ==>
        Last(end.result).workflowId.Some? &&
        TaskContained(disk.ignored, w0, Here(), Last(end.result).workflowId.value, Last(end.result).quarantined)
      ensures disk.quiet && ConfinedCall(w0, w1, x) ==> OneTouched(w0, Here())
      ensures disk.quiet && ConfinedCall(w0, w1, x) && Ledger.Ledger(w0) ==> CleanEnd(disk.ignored, w0, w1, Here(), r, end)
      ensures disk.quiet && FaultFree(faults) ==> CycleAdvances(disk.ignored, disk.commands, config, faults, w0, w1, x, r, end)
      ensures Tallied(r, x, end)
    {
      NoTaskBooksClose(r, x);
      if x.records == [] || x.escalations > 0 || x.status == RuntimeEscalated || (x.status == RuntimeIdle && x.selected == 0) {
        assert !Reported(x);
        if ConfinedCall(w0, w1, x) {
          CallTouchesOne(w0, w1, x);
          if Ledger.Ledger(w0) && x.status == RuntimeIdle && x.selected == 0 {
            CallEffect(disk.ignored, w0, w1, x);
          }
        }
        return Ended(NoTask(r, x));
      }
      var record := x.records[|x.records| - 1];
      var snapshot := if record.workflowId in snapshots then Some(snapshots[record.workflowId]) else None;
      end := FinishTask(config, record, snapshot, faults, Counted(r, x), w0, w1, x);
      TaskBooksClose(r, x, end);
      if disk.quiet && FaultFree(faults) {
        CountingKeeps(disk.ignored, disk.commands, config, faults, w0, w1, x, r, end);
      }
      assert Reported(x);
    }

    /** Containment for a task that did not complete, promotion for one that did. */
    method FinishTask(config: Config, record: TaskRecord, snapshot: Option<Snapshot>, faults: CycleFaults, r: ShiftResult,
                      ghost w0: World, ghost w1: World, ghost x: RuntimeResult) returns (end: CycleEnd)
      requires disk.Valid() && Wired() && Balanced(r, 0) && r.status == CleanTermination
      requires x.records != [] && record == x.records[|x.records| - 1] && w1 == Here() && SoundCall(w0, w1, x)
      requires disk.quiet && snapshot.Some? ==> Taken(disk.ignored, w0, record.workflowId, snapshot.value)
      requires disk.quiet ==> (snapshot.Some? <==> SnapshotDue(w0, config.workflowIds, faults.snapshots, record.workflowId))
      modifies disk, store
      ensures disk.Valid() && Grows(old(disk.state), disk.state)
      ensures end.GoOn? ==> Resumes(r, end.result)
      ensures end.Ended? ==> Halts(r, end.result)
      ensures SameTally(r, end)
      ensures disk.quiet && end.GoOn? && Last(end.result).contained ==>
        Last(end.result).workflowId == Some(record.workflowId) &&
        TaskContained(disk.ignored, w0, Here(), record.workflowId, Last(end.result).quarantined)
      ensures disk.quiet && ConfinedCall(w0, w1, x) ==> OneTouched(w0, Here())
      ensures disk.quiet && ConfinedCall(w0, w1, x) && Ledger.Ledger(w0) ==> CleanEnd(disk.ignored, w0, w1, Here(), r, end)
      ensures disk.quiet && FaultFree(faults) ==> TaskAdvances(disk.ignored, disk.commands, config, faults, w0, w1, record, r, end)
    {
      if ConfinedCall(w0, w1, x) {
        CallTouchesOne(w0, w1, x);
      }
      if record.outcome != TaskCompleted {
        end := HandleFailure(record.workflowId, snapshot, faults.containment, r, w0);
        if disk.quiet && ConfinedCall(w0, w1, x) {
          ghost var loc :| KeptBut(w0, w1, loc);
          assert KeptBut(w0, Here(), loc);
        }
        if disk.quiet && ConfinedCall(w0, w1, x) && Ledger.Ledger(w0) && end.GoOn? {
          FailureEffect(disk.ignored, w0, w1, Here(), x, record.workflowId, Last(end.result).quarantined, Last(end.result));
        }
      } else {
        end := Promote(config, record.workflowId, faults, r);
        if disk.quiet && ConfinedCall(w0, w1, x) {
          ghost var loc :| OthersKept(loc, w1.disk, disk.state);
          assert KeptBut(w0, w1, loc);
          assert KeptBut(w0, Here(), loc);
        }
        if disk.quiet && ConfinedCall(w0, w1, x) && Ledger.Ledger(w0) {
          CallEffect(disk.ignored, w0, w1, x);
          if end.GoOn? {
            assert CycleEffect(disk.ignored, w1, Here(), Last(end.result));
            EffectAfterNothing(disk.ignored, w0, w1, Here(), Last(end.result));
          }
        }
      }
    }

    /** The k-th call of the runtime service. */
    method CallRuntime(k: nat) returns (x: RuntimeResult)
      requires disk.Valid() && Sound(runtime)
      modifies disk, store
      ensures Here() == runtime(k, old(Here())).0 && x == runtime(k, old(Here())).1
      ensures SoundCall(old(Here()), Here(), x)
      ensures Confined(runtime) ==> ConfinedCall(old(Here()), Here(), x)
    {
      var next, result := runtime(k, Here()).0, runtime(k, Here()).1;
      disk.state, store.db := next.disk, next.db;
      return result;
    }

    /** A task that did not complete: go on only if containment is proved. */
    method HandleFailure(id: Id, snapshot: Option<Snapshot>, faults: set<ContainmentSite>, r: ShiftResult, ghost w0: World) returns (end: CycleEnd)
      requires disk.Valid() && Balanced(r, 0) && r.status == CleanTermination
      requires disk.quiet && snapshot.Some? ==> Taken(disk.ignored, w0, id, snapshot.value) && Grows(w0.disk, disk.state)
      modifies disk, store
      ensures disk.OnlyOthersWrote() && (end.GoOn? || end.Ended?)
      ensures end.GoOn? ==> Resumes(r, end.result) && !Committed(Last(end.result)) && end.result.l2Already == r.l2Already
      ensures end.GoOn? ==> Last(end.result).workflowId == Some(id) && Last(end.result).contained
      ensures end.GoOn? ==> MaybeQuarantined(old(store.db), store.db, id, Last(end.result).quarantined)
      ensures end.Ended? ==> Halts(r, end.result)
      ensures SameTally(r, end)
      ensures disk.quiet && end.GoOn? ==> TaskContained(disk.ignored, w0, Here(), id, Last(end.result).quarantined)
      ensures disk.quiet ==>
        Advances(r, end, snapshot.Some? && faults == {} && LeftClean(disk.ignored, w0, old(Here()), id), true, false)
      ensures disk.quiet && end.Ended? ==>
        ContainmentRefused(disk.ignored, old(disk.state), snapshot, faults, end.result.stopReason)
    {
      ghost var w1 := Here();
      if disk.quiet && snapshot.Some? {
        LeftCleanExactly(disk.ignored, w0, w1, id, snapshot.value);
      }
      var c := ProveContained(id, snapshot, faults);
      var cycle := NOTHING.(workflowId := Some(id), contained := c.contained, quarantined := c.quarantined);
      CountExtends(r.cycles, cycle);
      if !c.contained {
        return Ended(Stopped(r, c.reason, cycle));
      }
      if disk.quiet {
        ChecksContain(disk.ignored, w0, w1, Here(), id, snapshot.value, c.quarantined);
      }
      return GoOn(r.(contained := r.contained + 1, cycles := r.cycles + [cycle]));
    }

    /** A completed task: L1, and then L2 with the files L1 protected. */
    method Promote(config: Config, id: Id, faults: CycleFaults, r: ShiftResult) returns (end: CycleEnd)
      requires disk.Valid() && Wired() && Balanced(r, 0) && r.status == CleanTermination
      modifies disk, store
      ensures disk.Valid() && Grows(old(disk.state), disk.state)
      ensures end.GoOn? ==> Resumes(r, end.result) && !Last(end.result).contained
      ensures end.Ended? ==> Halts(r, end.result)
      ensures SameTally(r, end)
      ensures disk.quiet && Ledger.Ledger(old(Here())) && end.GoOn? ==>
        CycleRan(disk.ignored, old(Here()), old(Here()), Here(), Last(end.result)) && end.result.l2Already == r.l2Already
      ensures disk.quiet ==> exists loc :: OthersKept(loc, old(disk.state), disk.state)
      ensures disk.quiet && FaultFree(faults) ==>
        Advances(r, end, Promotes(disk.ignored, disk.commands, old(Here()), config, id), false, OnRecord(old(store.db), id))
      ensures !PromotionInOrder(old(store.db), id, config) ==>
        end.Ended? && PromotionRefused(old(store.db), id, config, end.result.stopReason) && old(Here()) == Here()
    {
      ghost var w := Here();
      var prepared := PromotionFor(store.db, id, config);
      PromotionRefusalTells(store.db, id, config);
      PromotionAdmitsExactly(store.db, id, config);
      CountExtends(r.cycles, NOTHING.(workflowId := Some(id)));
      if prepared.Fail? {
        assert OthersKept("", disk.state, disk.state);
        return Ended(Stopped(r, prepared.reason, NOTHING.(workflowId := Some(id))));
      }
      end := Integrate(prepared.value, config.stopOnManual, id, faults, r);
    }

    method Integrate(context: PromotionContext, stopOnManual: bool, id: Id, faults: CycleFaults, r: ShiftResult) returns (end: CycleEnd)
      requires disk.Valid() && Wired() && Balanced(r, 0) && r.status == CleanTermination
      modifies disk, store
      ensures disk.Valid() && Grows(old(disk.state), disk.state)
      ensures end.GoOn? ==> Resumes(r, end.result) && !Last(end.result).contained
      ensures end.Ended? ==> Halts(r, end.result)
      ensures SameTally(r, end)
      ensures disk.quiet && Ledger.Ledger(old(Here())) && end.GoOn? ==>
        CycleRan(disk.ignored, old(Here()), old(Here()), Here(), Last(end.result)) && end.result.l2Already == r.l2Already
      ensures disk.quiet ==> exists loc :: OthersKept(loc, old(disk.state), disk.state)
      ensures disk.quiet && FaultFree(faults) ==>
        Advances(r, end, context.commitAuthorized && PromotesFrom(disk.ignored, disk.commands, old(Here()), id, context.canonical,
                                                                  context.candidate, context.baseline), false, OnRecord(old(store.db), id))
    {
      ghost var w := Here();
      var integrated := integration.Integrate(IntegrationFor(id, context), faults.l1);
      if disk.quiet {
        IntegrationTouchesOne(disk.ignored, disk.commands, IntegrationFor(id, context), faults.l1, w.disk, w.db, integrated, disk.state, store.db);
        if FaultFree(faults) && integrated.status != L1.Completed {
          FailedIntegrationStops(disk.ignored, disk.commands, id, context, w, integrated, Here());
        }
      }
      if integrated.status == L1.Escaped {
        return Escape;
      }
      BooksClose(r, id, context, integrated, stopOnManual);
      if integrated.status != L1.Completed {
        return Ended(IntegrationFailed(r, id, context, integrated));
      }
      if !context.commitAuthorized {
        return Ended(CommitRefused(r, id, context));
      }
      end := CommitIntegrated(context, stopOnManual, id, faults, r, integrated, w);
    }

    /** The L2 half, after an L1 call that completed. */
    method CommitIntegrated(context: PromotionContext, stopOnManual: bool, id: Id, faults: CycleFaults, r: ShiftResult,
                            integrated: L1.IntegrationResult, ghost w: World) returns (end: CycleEnd)
      requires disk.Valid() && Wired() && Balanced(r, 0) && r.status == CleanTermination && integrated.status == L1.Completed
      requires disk.quiet ==> w.disk.Valid() && OthersKept(context.canonical, w.disk, disk.state)
      requires disk.quiet ==>
        L1.IntegrateStep(disk.ignored, disk.commands, IntegrationFor(id, context), faults.l1, w.disk, w.db, integrated, disk.state, store.db)
      modifies disk, store
      ensures disk.Valid() && Grows(old(disk.state), disk.state)
      ensures end.GoOn? ==> Resumes(r, end.result) && !Last(end.result).contained
      ensures end.Ended? ==> Halts(r, end.result)
      ensures SameTally(r, end)
      ensures disk.quiet && Ledger.Ledger(w) && end.GoOn? ==>
        CycleRan(disk.ignored, w, w, Here(), Last(end.result)) && end.result.l2Already == r.l2Already
      ensures disk.quiet ==> OthersKept(context.canonical, w.disk, disk.state)
      ensures disk.quiet && FaultFree(faults) ==>
        Advances(r, end, PromotesFrom(disk.ignored, disk.commands, w, id, context.canonical, context.candidate, context.baseline),
                 false, OnRecord(w.db, id))
    {
      ghost var w1 := Here();
      var commit := CallCommit(CommitFor(id, context, integrated.protectedFiles), faults.l2);
      CommitBooksClose(r, id, context, commit, stopOnManual);
      end := AfterCommit(r, id, context, commit, stopOnManual);
      if disk.quiet {
        CommitAccount(disk.ignored, disk.commands, id, context, stopOnManual, faults, r, integrated, commit, w, w1, Here());
        if FaultFree(faults) {
          PromotionCounts(disk.ignored, disk.commands, id, context, stopOnManual, faults, r, integrated, commit, w, w1, Here());
        }
      }
    }

    method CallCommit(request: L2.CommitRequest, faults: set<L2.Site>) returns (commit: L2.CommitResult)
      requires disk.Valid() && Wired()
      modifies disk, store
      ensures disk.Valid() && Grows(old(disk.state), disk.state)
      ensures disk.quiet ==>
        L2.CommitStep(disk.ignored, disk.commands, request, faults, old(disk.state), old(store.db), commit, disk.state, store.db)
      ensures commit.status == L2.Completed ==> commit.resulting.Some?
    {
      commit := commits.Commit(request, faults);
    }

    /** Snapshots of every workflow in scope that has the rows and whose checkouts can be read. */
    method CaptureSnapshots(scope: set<Id>, faults: set<Id>) returns (snapshots: map<Id, Snapshot>)
      requires disk.Valid()
      modifies disk
      ensures disk.OnlyOthersWrote()
      ensures disk.quiet ==> forall id :: id in snapshots ==> Taken(disk.ignored, Here(), id, snapshots[id])
      ensures disk.quiet ==> forall id :: id in snapshots <==> SnapshotDue(Here(), scope, faults, id)
    {
      snapshots := map[];
      var todo := store.db.workflows.Keys;
      while todo != {}
        invariant todo <= store.db.workflows.Keys
        invariant disk.OnlyOthersWrote()
        invariant disk.quiet ==> forall id :: id in snapshots ==> Taken(disk.ignored, Here(), id, snapshots[id])
        invariant disk.quiet ==> forall id :: id in snapshots <==> id !in todo && SnapshotDue(Here(), scope, faults, id)
      {
        var id :| id in todo;
        todo := todo - {id};
        if (scope == {} || id in scope) && Snapshotable(store.db, id) {
          var taken := CaptureSnapshot(id, id in faults);
          if taken.Ok? {
            snapshots := snapshots[id := taken.value];
          }
        }
      }
    }

    method CaptureSnapshot(id: Id, fault: bool) returns (r: Result<Snapshot>)
      requires disk.Valid() && Snapshotable(store.db, id)
      modifies disk
      ensures disk.OnlyOthersWrote()
      ensures disk.quiet ==>
        (r.Ok? <==> !fault && CanonicalOf(store.db, id) in disk.state.checkouts && store.db.workflows[id].worktree in disk.state.checkouts)
      ensures disk.quiet && r.Ok? ==> Taken(disk.ignored, Here(), id, r.value)
    {
      var canonical, candidate := CanonicalOf(store.db, id), store.db.workflows[id].worktree;
      var head :- disk.CurrentHead(canonical, fault);
      var tracked :- disk.Tracked(canonical, fault);
      var staged :- disk.Staged(canonical, fault);
      var untracked :- disk.CaptureUntracked(canonical, fault);
      var candidateHead :- disk.CurrentHead(candidate, fault);
      var candidateChanged :- disk.Changed(candidate, fault);
      return Ok(Snapshot(canonical, candidate, Find(store.db.freezes, store.db.workflows[id].freezeId).value.commitSha,
                         head, tracked, staged, untracked, candidateHead, candidateChanged));
    }

    /** Contained exactly when the snapshot was safe, the canonical checkout passes every check against
        it, and every read succeeds; a candidate that moved or is dirty is quarantined on the way. */
    method ProveContained(workflowId: Id, snapshot: Option<Snapshot>, faults: set<ContainmentSite>) returns (c: ContainmentResult)
      requires disk.Valid()
      modifies disk, store
      ensures disk.OnlyOthersWrote()
      ensures disk.quiet ==>
        (c.contained <==> && snapshot.Some? && SafeSnapshot(snapshot.value) && faults == {}
                          && CanonicalContained(disk.ignored, disk.state, snapshot.value) && snapshot.value.candidate in disk.state.checkouts)
      ensures disk.quiet && c.contained ==>
        (c.quarantined <==> disk.state.checkouts[snapshot.value.candidate].head != snapshot.value.candidateHead ||
                            ChangedPaths(disk.ignored, disk.state, snapshot.value.candidate) != {})
      ensures c.contained ==> snapshot.Some? && SafeSnapshot(snapshot.value)
      ensures disk.quiet && !c.contained ==> ContainmentRefused(disk.ignored, disk.state, snapshot, faults, c.reason)
      ensures MaybeQuarantined(old(store.db), store.db, workflowId, c.quarantined)
    {
      if snapshot.None? {
        return ContainmentResult(false, ContainmentSnapshotMissing, false);
      }
      var s := snapshot.value;
      if s.baseline.None? {
        return ContainmentResult(false, FrozenBaselineCommitRequired, false);
      }
      if s.head != s.baseline.value {
        return ContainmentResult(false, CanonicalHeadUnsafeBeforeFailure, false);
      }
      if s.tracked != {} || s.staged != {} {
        return ContainmentResult(false, CanonicalDirtyBeforeFailure, false);
      }
      if s.candidateHead != s.baseline.value || s.candidateChanged != {} {
        return ContainmentResult(false, CandidateUnsafeBeforeFailure, false);
      }
      var canonical := VerifyCanonical(s, faults);
      if canonical.Stop? {
        return ContainmentResult(false, canonical.reason, false);
      }
      var candidate := InspectCandidate(s.candidate, faults);
      if candidate.Fail? {
        return ContainmentResult(false, ContainmentGitCheckFailed, false);
      }
      var (head, changes) := candidate.value;
      EveryContainmentSite(faults);
      if head != s.candidateHead {
        store.db := Quarantine(store.db, workflowId, FailedTaskChangedCandidateHead);
        return ContainmentResult(true, FailedCandidateQuarantined, true);
      }
      if changes != {} {
        store.db := Quarantine(store.db, workflowId, FailedTaskLeftCandidateChanges);
        return ContainmentResult(true, FailedCandidateQuarantined, true);
      }
      return ContainmentResult(true, TaskLocalFailureContained, false);
    }

    method VerifyCanonical(s: Snapshot, faults: set<ContainmentSite>) returns (g: Guard)
      requires disk.Valid() && SafeSnapshot(s)
      modifies disk
      ensures disk.OnlyOthersWrote()
      ensures disk.quiet ==>
        (g.Pass? <==> CanonicalContained(disk.ignored, disk.state, s) &&
                      faults !! {HeadCheck, StagedCheck, TrackedCheck, UntrackedCheck, ChangedCheck})
      ensures disk.quiet && g.Stop? ==> CallRefused(disk.ignored, disk.state, s, faults, g.reason)
    {
      var head := disk.CurrentHead(s.canonical, HeadCheck in faults);
      if head.Fail? {
        return Stop(ContainmentGitCheckFailed);
      }
      if head.value != s.head {
        return Stop(FailedTaskAdvancedCanonicalHead);
      }
      var staged := disk.Staged(s.canonical, StagedCheck in faults);
      if staged.Fail? {
        return Stop(ContainmentGitCheckFailed);
      }
      if staged.value != {} {
        return Stop(FailedTaskLeftCanonicalStagedChanges);
      }
      var tracked := disk.Tracked(s.canonical, TrackedCheck in faults);
      if tracked.Fail? {
        return Stop(ContainmentGitCheckFailed);
      }
      if tracked.value != {} {
        return Stop(FailedTaskLeftCanonicalTrackedChanges);
      }
      g := disk.VerifyUntracked(s.canonical, s.protectedFiles, UntrackedCheck in faults);
      if g.Stop? {
        return Stop(ContainmentGitCheckFailed);
      }
      var observed := disk.Changed(s.canonical, ChangedCheck in faults);
      if observed.Fail? {
        return Stop(ContainmentGitCheckFailed);
      }
      return Need(observed.value <= s.protectedFiles.Keys, FailedTaskLeftUnauthorizedCanonicalChanges);
    }

    method InspectCandidate(candidate: Loc, faults: set<ContainmentSite>) returns (r: Result<(Sha, set<Path>)>)
      requires disk.Valid()
      modifies disk
      ensures disk.OnlyOthersWrote()
      ensures disk.quiet ==> (r.Ok? <==> candidate in disk.state.checkouts && faults !! {CandidateHeadCheck, CandidateChangedCheck})
      ensures disk.quiet && r.Ok? ==>
        r.value == (disk.state.checkouts[candidate].head, ChangedPaths(disk.ignored, disk.state, candidate))
    {
      var head :- disk.CurrentHead(candidate, CandidateHeadCheck in faults);
      var changed :- disk.Changed(candidate, CandidateChangedCheck in faults);
      return Ok((head, changed));
    }
  }
}
