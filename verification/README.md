# Lucius: promotion, routing, ids, scoring and knowledge

A Dafny model of the parts of Lucius in which several steps have to agree, with proofs about whole calls
and whole runs. `dafny verify dfyconfig.toml` checks everything.

## How the model is laid out

- **Promotion** (`Git`, `Acceptance`, `Disk`, `Session`, `Integration`, `ControlledCommit`). `Disk.Machine` is the
  machine's repositories as one mutable object: a checkout is a head, an index and a worktree, and every Git command
  of `git_mutation.py` is a method that may fault. The L1 and L2 services are classes over it. Each service method is
  proved against a *step*, a predicate that says, fault by fault, what the call returns and what it leaves behind.
  When `quiet` is false, other processes may rewrite every checkout before every command; what a COMPLETED commit
  certifies is proved even then.
- **What the guards admit** (`Session`, `Integration`, `ControlledCommit`, `Completion`). Beside the guards stand predicates
  on the rows' own fields (`PlanInOrder`, `IntegrationInOrder`, `CommitInOrder`, `UsableLists`, `OneLine`), and lemmas that
  the guards admit exactly these; `Completion` says exactly when a fault-free call completes, in those terms.
- **Consequences of the steps** (`Promotion`, `History`, `Ledger`, `Containment`). End-to-end promotion, rollback
  atomicity, runs of arbitrary calls with faults anywhere, and the standing facts the night shift rests on.
  All results that allow no outside writes also assume that the commands of acceptance checks write no files.
- **The night shift** (`NightShift`, `CleanShift`, `Progress`, `Supervisor`). The runtime is an arbitrary oracle. The loop's
  accounting needs only that one runtime call selects at most one task; the account of a clean night also needs that
  the runtime works in candidates (`NightShift.Confined`) and that nobody else writes.  `Progress` says exactly which
  cycles are followed by another one, in terms of the worlds before and after the runtime call.
- **Concrete situations** (`Witnesses`), with all names left open: one in which a promotion goes through, and ones in
  which a promise one might expect fails; the exact conditions are in `Promotion` and `History`.
- **Model routing** (`Policies`, `Ordering`, `Preference`, `Routing`, `Arrangements`, `Gateway`), **public ids** (`PublicIds`, `IdAllocation`),
  **plan verdicts and scoring** (`Rounding`, `PlanVerdict`, `Scoring`), **documentation requirements**
  (`DocumentationContract`) and **memories and learning candidates** (`Knowledge`, `Supersession`).

## What the code does not do

Properties that are not quite true of the code, each with its exact condition:

- A rollback that reports success can delete an ignored file at an authorized path the baseline does not track
  (`Promotion.RollbackAtomicity`, `Witnesses.RollbackLosesIgnoredFile`).
- If the very last head read of an L1 call faults, the files are rolled back but the workflow stays CLOSED
  (`Promotion.RollbackWorkflowState`, `Witnesses.RolledBackButClosed`).
- An L2 call that reports FAILED has made a commit when the head could not be read back after committing
  (`History.FailedCommitExactly`, `Witnesses.FailedCallCommitted`).
- The promoted text is the candidate's with newlines normalized, so its own bytes are promoted if and only if they hold
  no carriage return (`Promotion.PromotionIsExact`, `Witnesses.CarriageReturnIsLost`).
- An L1 call can complete, and close the workflow, when its writes un-ignore another authorized file; unless the
  candidate changed that file too, no L2 call for the plan can commit then (`Promotion.UnhiddenBlocksCommit`,
  `Witnesses.UnignoredFileBlocksCommit`).
- Relaxing a limit can exclude a profile, if and only if it has a negative price, which nothing validates
  (`Policies.RelaxingKeepsAdmission`).
- Routing can depend on the list order, if and only if a tie decides (`Arrangements.RoutingExactly`); without requested
  fallbacks that is when two different eligible profiles agree in all six key components
  (`Arrangements.PlainRoutingExactly`, `Routing.OrderShowsWithoutIds`).
- Ids past 999999 need not sort as numbers (`PublicIds.SortedWrongExactly`, `PublicIds.OrderBreaksAfterLimit`) and do
  not match the evidence-id pattern (`PublicIds.PatternAcceptsUpToLimit`).
- Canonicalizing a documentation requirement once is not enough when both `path` and `target_path` are given
  (`DocumentationContract.OnceSufficesExactly`).
- Supersession cycles of three and more memories are not excluded: a call closes one if and only if the newer memory
  already leads to the older one (`Supersession.MoveKeepsAcyclicExactly`, `Supersession.RunStaysAcyclicExactly`,
  `Knowledge.ThreeCycleIsPossible`).

Two points follow the code where its own naming suggests otherwise: changed paths are the worktree against the
index, the index against HEAD and the untracked files that are not ignored, so an ignored file is never seen; and a
protected untracked file may be joined by new untracked files without failing its verification.

## Model

| member | source | states |
|---|---|---|
| `Promotion.EndToEndPromotion` | src/lucius/integration/service.py:102-172 | For one workflow, after a completed L1 call and a completed L2 call with the protected hashes it returned, and nothing in between: the new commit's only parent is the frozen baseline, its tree is the baseline tree overwritten at exactly the candidate's changed paths with the captured contents, the checkout is on it, and every protected untracked file is where and what it was |
| `Promotion.CheckedIsChanged` | src/lucius/runtime/deterministic_acceptance.py:225-276 | The frozen file checks of a plan that passes the L1 preflight are on exactly the candidate's changed files |
| `Promotion.OnePlan` | src/lucius/integration/controlled_commit.py:342-353 | What L2 commits for the same workflow is among the candidate's changes, in the same repository |
| `Promotion.PromotionIsExact` | src/lucius/repositories/git_mutation.py:279-307 | The tree two completed steps promote is the baseline overwritten at exactly the candidate's changed paths with the candidate's own bytes if and only if no changed file holds a carriage return |
| `Promotion.UnhiddenBlocksCommit` | src/lucius/integration/controlled_commit.py:342-353 | After a completed L1 call the reported paths are the candidate's exactly when the writes un-ignored no other file, and otherwise no L2 call for that workflow can commit, whatever it protects |
| `Promotion.IntegratedCleanly` | src/lucius/integration/service.py:128-172 | A completed L1 call adds exactly the captured files to the canonical worktree and closes the workflow |
| `Promotion.ActualIsCapturedPlusUnhidden` | src/lucius/integration/service.py:382-409 | The reported changed paths are the captured ones plus the files the writes un-ignored |
| `Promotion.IntegrationFrame` | src/lucius/integration/service.py:80-240 | Whatever faults occur, escaped exceptions included: no commit, head, index or other checkout changes, and no canonical file outside the frozen authorization |
| `Promotion.RollbackAtomicity` | src/lucius/integration/service.py:173-200 | A rollback reported as successful leaves the disk as before if and only if no file sat at an authorized path the baseline does not track; such files were ignored ones, and are all that is lost |
| `Promotion.RestoringLoses` | src/lucius/repositories/git_mutation.py:138-201 | Restoring the authorized paths on a clean checkout removes exactly the files the baseline does not track, and nothing else |
| `Promotion.RollbackWorkflowState` | src/lucius/integration/service.py:142-172 | After a successful rollback the rows are as before exactly when the application had not been verified yet; otherwise the last head read faulted and the workflow stays closed |
| `Promotion.CommittedAsReported` | src/lucius/integration/controlled_commit.py:329-340 | What two completed steps commit is what the first one reported as changed |
| `Promotion.CommittedContentIsAccepted` | src/lucius/integration/controlled_commit.py:342-353 | Every committed path has a frozen file check, and every frozen file check on a committed path holds of the committed content |
| `Promotion.CandidateContentIsAccepted` | src/lucius/runtime/deterministic_acceptance.py:225-276 | Every frozen file check on a changed path gives the same evidence on the candidate's own file as on the committed one, newlines or not |
| `Acceptance.FileCheckIgnoresNewlineStyle` | src/lucius/runtime/deterministic_acceptance.py:50-138 | A file check cannot tell a file from its newline-normalized copy |
| `Integration.CanonicalIntegrationService.Integrate` | src/lucius/integration/service.py:80-240 | With no outside writes, result, disk and rows are exactly those of the fault-by-fault L1 step; commits are never lost; the rows change only by closing the workflow. A request that is not in order is refused with a reason that names a guard it fails, and nothing is touched; COMPLETED means it was in order, whoever else was writing; a later refusal names a condition of the lists, the checkouts or the candidate that does not hold, or a read that faulted |
| `Integration.CanonicalIntegrationService.RunPreflight` | src/lucius/integration/service.py:301-380 | Without faults the Git half of the preflight passes exactly when the canonical and the candidate checkout are ready, and hands on what it found |
| `Integration.CanonicalIntegrationService.InspectCanonical` | src/lucius/integration/service.py:301-317 | Passes exactly when the checkout is on the baseline with nothing tracked or staged changed; returns the untracked files |
| `Integration.CanonicalIntegrationService.InspectCandidate` | src/lucius/integration/service.py:329-362 | Passes exactly when the candidate is on the baseline with authorized, checked, accepted changes; returns them with their contents |
| `Integration.CanonicalIntegrationService.VerifyContent` | src/lucius/runtime/deterministic_acceptance.py:225-276 | The captured contents are accepted exactly when every frozen file check passes on them; a file that was not captured fails its check |
| `Integration.CanonicalIntegrationService.Apply` | src/lucius/integration/service.py:102-172 | Writing, verifying, closing, and undoing on any fault, as the applied step says; a rollback reports the post-apply check that failed |
| `Integration.CanonicalIntegrationService.VerifyApplied` | src/lucius/integration/service.py:129-140 | Passes exactly when protected files are intact, nothing unauthorized changed, every intended write shows and the frozen checks pass |
| `Integration.CanonicalIntegrationService.RollBack` | src/lucius/integration/service.py:173-240 | Ends as FAILED, ROLLBACK_FAILED or an escaped exception according to which of restoring, verifying and the head read faulted |
| `Integration.RestoringUndoesWriting` | src/lucius/integration/service.py:184-194 | Restoring after writing authorized files gives the same state as restoring without having written |
| `Session.RelatedRowsExactly` | src/lucius/integration/service.py:248-264 | The relation guards pass exactly when workflow, task, plan and freeze are there, belong to one project and name each other, and the workflow is in the required state; they hand on those very rows |
| `Session.TargetExactly` | src/lucius/integration/service.py:270-289 | The repository guards pass exactly when the workflow's repository is in canonical mode, attached to the project and located at the request's root |
| `Session.FrozenListsExactly` | src/lucius/integration/service.py:458-488 | The frozen payload is usable exactly when it lists paths, none malformed, and different checks, every file check on a listed path; the lists are taken as they are |
| `Integration.IntegrationAdmitsExactly` | src/lucius/integration/service.py:242-299 | The row guards admit exactly: canonical access, request and workflow tier L1, state COMPLETED_PENDING_INTEGRATION, a plan of L0 or L1, rows in order, a candidate that is the workflow's worktree and not the root, and the frozen sha as baseline |
| `Integration.IntegrationRefusalTells` | src/lucius/integration/service.py:242-299 | Every reason the guards refuse with names a condition that does not hold |
| `Completion.IntegrationCompletesExactly` | src/lucius/integration/service.py:80-172 | Without faults an L1 call completes exactly when the request is in order, the frozen lists are usable, both checkouts are ready and the captured files, once written, pass |
| `Completion.IntegratesExactly` | src/lucius/integration/service.py:242-380 | That condition, said of the fields, is the preflight's together with the post-apply checks |
| `ControlledCommit.ControlledCommitService.Commit` | src/lucius/integration/controlled_commit.py:84-239 | With no outside writes, result, disk and rows are exactly those of the L2 step; with arbitrary outside writes, COMPLETED still means a stored record whose commit is a child of exactly the baseline, changes exactly the recorded authorized paths and holds the recorded contents, and any other status leaves the rows alone; a drifted head gets exactly the right reason. A request that is not in order is refused with a reason that names a guard it fails; a refused preflight names a condition of the lists, the checkout, the changes or the message that does not hold, or a read that faulted; COMPLETED means the request was in order |
| `ControlledCommit.ControlledCommitService.RunPreflight` | src/lucius/integration/controlled_commit.py:241-383 | Finds an existing record exactly when there is one; otherwise passes exactly when the commit is possible and nothing faults |
| `ControlledCommit.ControlledCommitService.PrepareContext` | src/lucius/integration/controlled_commit.py:302-383 | Passes exactly when the frozen plan covers the changes found; a drifted head is refused with the reason it deserves |
| `ControlledCommit.ControlledCommitService.VerifyAtBaseline` | src/lucius/integration/controlled_commit.py:304-327 | Passes exactly on the baseline head with nothing staged and the protected files intact and unauthorized |
| `ControlledCommit.ControlledCommitService.CaptureChanges` | src/lucius/integration/controlled_commit.py:329-383 | Passes exactly when there are changes, all authorized, checked, accepted and regular files |
| `ControlledCommit.ControlledCommitService.LooksLikeMissingRecord` | src/lucius/integration/controlled_commit.py:579-585 | Says yes exactly when the head is a child of the baseline alone and changes some, and only authorized, paths |
| `ControlledCommit.ControlledCommitService.VerifyPreCommitState` | src/lucius/integration/controlled_commit.py:393-417 | Re-verification passes exactly when nothing faults and the checks report the same evidence; any pass means the state still matches the manifest |
| `ControlledCommit.ControlledCommitService.StageManifest` | src/lucius/integration/controlled_commit.py:119-124 | Staging and its verification leave exactly the manifest staged |
| `ControlledCommit.ControlledCommitService.CleanupStaging` | src/lucius/integration/controlled_commit.py:473-480 | Un-staging restores the index, or reports nothing unstaged and leaves the staging behind |
| `ControlledCommit.ControlledCommitService.VerifyPostCommit` | src/lucius/integration/controlled_commit.py:432-471 | Passing certifies parent, paths, contents, clean worktree and protected files, whoever else was writing |
| `ControlledCommit.StagingIsExact` | src/lucius/integration/controlled_commit.py:419-430 | After staging the manifest the index differs from the head exactly there and holds the hashed contents |
| `ControlledCommit.UnstagingUndoes` | src/lucius/integration/controlled_commit.py:473-480 | Un-staging gives back the index from before staging, whether or not staging took place |
| `ControlledCommit.IndexCommitIsExact` | src/lucius/repositories/git_mutation.py:336-347 | Committing the staged manifest creates exactly the planned commit |
| `ControlledCommit.CommitIsExact` | src/lucius/integration/controlled_commit.py:432-471 | The planned commit passes every post-commit verification |
| `ControlledCommit.CommittedCleanly` | src/lucius/integration/controlled_commit.py:168-216 | A completed call commits exactly the changes it found and leaves a clean checkout with the protected files intact |
| `ControlledCommit.CertificateLasts` | src/lucius/integration/controlled_commit.py:170-193 | What a record certifies stays true as commits are added |
| `ControlledCommit.CommitAdmitsExactly` | src/lucius/integration/controlled_commit.py:241-290 | The row guards admit exactly: authority L2, a CLOSED workflow with rows in order, the plan's own contract in its version allowing commits, task and contract of L2 or L3, the repository in place and the frozen sha as baseline |
| `ControlledCommit.CommitRefusalTells` | src/lucius/integration/controlled_commit.py:241-290 | Every reason the guards refuse with names a condition that does not hold |
| `ControlledCommit.GivenMessageExactly` | src/lucius/integration/controlled_commit.py:561-567 | A given message is used as it is exactly when it has 1 to 120 printable characters and no blank at either end |
| `ControlledCommit.DefaultMessageExactly` | src/lucius/integration/controlled_commit.py:561-567 | Without a message the commit is called lucius: complete and the task id; it is refused exactly for a task id that is empty, ends in a blank, is longer than 103 characters or is not printable |
| `Completion.CommitCompletesExactly` | src/lucius/integration/controlled_commit.py:84-239 | Without faults an L2 call completes exactly when the request and the frozen lists are in order, no commit of the plan is on record, the checkout on the baseline holds exactly covered changes, the message is one line and the checks report the same evidence throughout |
| `Completion.StoredRecordExactly` | src/lucius/integration/controlled_commit.py:168-193 | A completed call stores one record: its request, the plan's own freeze and repository, the listed paths, the changes found with their contents, and the message given or the default one |
| `History.CommitsFormALine` | src/lucius/integration/controlled_commit.py:304-308 | Over any run in which only the service moves canonical heads, faults anywhere: the new heads of a repository are brand-new commits in one line from its first head to its last, so no two share a parent |
| `History.TrackFormsALine` | src/lucius/integration/controlled_commit.py:436-439 | Heads that only ever stay or become brand-new children of themselves form such a line |
| `History.HeadsNeverReturn` | src/lucius/integration/controlled_commit.py:304-308 | Once a head has moved, no commit from before is ever the head again |
| `History.FailedCommitExactly` | src/lucius/integration/controlled_commit.py:148-166 | FAILED hides a created commit exactly when every step up to the commit succeeded and the head could then not be read back; the rows never change |
| `History.AtMostOneCommitPerPlan` | src/lucius/integration/controlled_commit.py:292-308 | Two different calls of one run never both commit for the same workflow and freeze |
| `History.RecordsStayUnique` | src/lucius/integration/controlled_commit.py:292-300 | Every (workflow, freeze) pair keeps at most one COMPLETED record, over any run |
| `History.RecordsComeFromCommits` | src/lucius/integration/controlled_commit.py:168-193 | A record appears only by the very call that made its commit and completed |
| `History.RecordsStayTrue` | src/lucius/integration/controlled_commit.py:168-193 | Over any run every record ever stored keeps telling the truth: parent, authorized paths and contents of its commit |
| `History.CompletedIsCertified` | src/lucius/integration/controlled_commit.py:168-193 | The record a completed call stores is certified by the commit it made |
| `History.LostRecordStaysLost` | src/lucius/integration/controlled_commit.py:217-239 | A commit whose record was lost stays unrecorded for the rest of the run |
| `History.LostRecordFailsClosed` | src/lucius/integration/controlled_commit.py:304-308 | Every later call for that frozen plan ends FAILED, makes no commit and changes no row |
| `History.LostCommitIsRecognized` | src/lucius/integration/controlled_commit.py:579-585 | Every commit the service makes meets its own test for a lost record, so a later call without a record asks for reconciliation |
| `History.CommitFrame` | src/lucius/integration/controlled_commit.py:84-239 | An L2 call keeps all commits, and makes one only when every step up to the commit succeeded, exactly at the request's root |
| `Ledger.CommitKeepsLedger` | src/lucius/integration/controlled_commit.py:168-216 | Every L2 call keeps the ledger: each recorded baseline has been left behind by its repository's head |
| `Ledger.IntegrationKeepsLedger` | src/lucius/integration/service.py:80-240 | So does every L1 call |
| `Ledger.NoRecordAtBaseline` | src/lucius/integration/controlled_commit.py:292-300 | A checkout still on a plan's baseline has no record of that plan, so L2 after a completed L1 never answers ALREADY_COMMITTED |
| `Containment.ContainedMeansUnchanged` | src/lucius/night_shift/supervisor.py:326-357 | Passing the containment checks against a safe snapshot means head, index, tracked files and visible untracked files equal the snapshot |
| `Containment.ContainedExactly` | src/lucius/night_shift/supervisor.py:326-357 | The snapshot is safe and the checks pass exactly when both checkouts were clean on the baseline and the canonical one still looks as it did |
| `NightShift.PromotionAdmitsExactly` | src/lucius/night_shift/supervisor.py:386-415 | The supervisor promotes exactly workflows pending integration with rows in order, a repository, a frozen sha, a worktree, and complexity and risk within the night's bounds; it promotes from that worktree to that repository, and knows whether commits are allowed |
| `NightShift.PromotionRefusalTells` | src/lucius/night_shift/supervisor.py:386-410 | Every reason a promotion is refused with names a condition that does not hold |
| `Progress.LeftCleanExactly` | src/lucius/night_shift/supervisor.py:326-366 | Containment, said of the worlds before and after the runtime call |
| `Progress.PromotionEndsExactly` | src/lucius/night_shift/supervisor.py:236-285 | After a completed fault-free L1 call the L2 call completes, or finds the plan on record, exactly when both steps go through from the world before |
| `Progress.FailedIntegrationStops` | src/lucius/night_shift/supervisor.py:246-252 | An L1 call that did not complete without faults rules that out |
| `Progress.ProgressStep` | src/lucius/night_shift/supervisor.py:155-294 | The worlds between the cycles tell where the night first should not go on |
| `Containment.PromotionAdvances` | src/lucius/night_shift/supervisor.py:230-267 | Two completed steps advance the canonical checkout by one clean commit and keep its visible untracked files |
| `Containment.SettledStays` | src/lucius/night_shift/supervisor.py:155-294 | A cycle that leaves a checkout looking the same keeps what the run established about it |
| `Containment.SettledAdvances` | src/lucius/night_shift/supervisor.py:155-294 | A promotion extends the line of commits the run established |
| `CleanShift.ChecksContain` | src/lucius/night_shift/supervisor.py:326-384 | CONTAINED: the canonical checkout looks exactly as before the cycle and is clean, a candidate is quarantined exactly when it changed, and its workflow is then BLOCKED with no active task |
| `CleanShift.CallEffect` | src/lucius/night_shift/supervisor.py:174-182 | A confined runtime call that failed no task leaves every canonical checkout as it was |
| `CleanShift.FailureEffect` | src/lucius/night_shift/supervisor.py:214-228 | A contained failure leaves every canonical checkout looking as before |
| `CleanShift.PromotionEffect` | src/lucius/night_shift/supervisor.py:236-285 | After a completed L1 call L2 never reports ALREADY_COMMITTED; if it completes, the cycle advanced its own canonical checkout by that commit, which is the candidate's authorized changes, and touched no other |
| `CleanShift.CommitIsPromotion` | src/lucius/night_shift/supervisor.py:236-285 | The commit overwrites the head's tree at exactly the candidate's changed paths, all authorized, with the candidate's contents |
| `CleanShift.NightCommits` | src/lucius/night_shift/supervisor.py:155-294 | At the end of the night every commit it made is still what its candidate's authorized changes make it |
| `CleanShift.NightGoesOn` | src/lucius/night_shift/supervisor.py:155-294 | One more cycle extends the account of the whole night |
| `CleanShift.NightTotal` | src/lucius/night_shift/supervisor.py:268-272 | The commits by which the canonical heads advanced add up to the number of successful L2 commits |
| `CleanShift.CommitsAddUp` | src/lucius/night_shift/supervisor.py:268-272 | Commits counted checkout by checkout and cycle by cycle agree |
| `Supervisor.NightShiftSupervisor.Run` | src/lucius/night_shift/supervisor.py:150-294 | The loop ends; budgets are kept and every counter balances; each stop reason means what it says. With no outside writes and a confined runtime: on a CLEAN_TERMINATION every canonical head advanced by exactly the commits its cycles made, in order, each the candidate's authorized changes, with nothing else changed and no ALREADY_COMMITTED; on a HARD_STOP or an escaped L1 exception the same of all cycles but the last, which touched at most one canonical checkout. With no outside writes and no faults in the services: the night ends at its first cycle that should not be followed by another, and otherwise only at a limit |
| `Supervisor.NightStep` | src/lucius/night_shift/supervisor.py:155-294 | One more cycle extends that account, or ends it |
| `Supervisor.NightShiftSupervisor.RunCycle` | src/lucius/night_shift/supervisor.py:164-294 | A cycle goes on only after selecting one task and containing or promoting it; otherwise it ends the run with balanced counters. Without faults in the services it goes on if and only if the reported task failed in scope with a snapshot and left its canonical checkout looking as it was, clean on the baseline, or completed with promotable rows, both steps going through; it then counts one more contained failure or one more promotion; the task counts of the call are added |
| `Supervisor.NightShiftSupervisor.FinishTask` | src/lucius/night_shift/supervisor.py:206-294 | Goes on, without faults in the services, if and only if the failure is passed over or the completed task is promoted; otherwise hard-stops |
| `Supervisor.NightShiftSupervisor.HandleFailure` | src/lucius/night_shift/supervisor.py:214-228 | Goes on if and only if there is a snapshot, every read succeeds and the canonical checkout, clean before, looks the same after the call; the containment promise is then kept |
| `Supervisor.NightShiftSupervisor.ProveContained` | src/lucius/night_shift/supervisor.py:326-384 | Contained exactly when the snapshot was safe, every read succeeds and every check passes; quarantines exactly a changed candidate; any other answer names what was unsafe, what the task left behind, or a check that failed |
| `Supervisor.NightShiftSupervisor.VerifyCanonical` | src/lucius/night_shift/supervisor.py:342-357 | Passes exactly when the canonical checkout is contained and no read faults |
| `Supervisor.NightShiftSupervisor.CaptureSnapshot` | src/lucius/night_shift/supervisor.py:296-324 | Succeeds exactly when both checkouts are there and the reads do not fault; a snapshot is what the disk held when it was taken |
| `Supervisor.NightShiftSupervisor.CaptureSnapshots` | src/lucius/night_shift/supervisor.py:296-324 | A workflow has a snapshot if and only if it is in scope, an empty scope meaning all, has its freeze, its repository and a worktree, and both checkouts are there and can be read |
| `Supervisor.NightShiftSupervisor.Promote` | src/lucius/night_shift/supervisor.py:230-294 | L1 then L2; without faults it goes on if and only if the rows are within the night's bounds, commits are allowed and both steps go through; rows that are not in order stop the night with a reason that names what is wrong with them |
| `Supervisor.NightShiftSupervisor.Follow` | src/lucius/night_shift/supervisor.py:190-294 | What a runtime call leads to: the end of the run, a proved containment or a promotion; at most one canonical checkout is touched |
| `Supervisor.NightShiftSupervisor.CommitIntegrated` | src/lucius/night_shift/supervisor.py:260-294 | The L2 half: goes on only with the commit accounted for |
| `Supervisor.BooksClose` | src/lucius/night_shift/supervisor.py:246-258 | A failed L1 call or a missing authorization stops the run with balanced counters |
| `Supervisor.CommitBooksClose` | src/lucius/night_shift/supervisor.py:260-294 | Every outcome of the L2 call leaves the counters balanced, and counts ALREADY_COMMITTED exactly when reported |
| `Supervisor.PromotionCounts` | src/lucius/night_shift/supervisor.py:236-285 | Without faults the end of a promoting cycle goes on exactly when both steps go through, counting one more commit, or one found on record |
| `Supervisor.CycleIsRight` | src/lucius/night_shift/supervisor.py:155-294 | One more cycle keeps the night on its way, or ends it at the first cycle that should not be followed by another |
| `Supervisor.IntegrationStopTells` | src/lucius/night_shift/supervisor.py:496-501 | L1_ROLLBACK_UNCERTAIN is the stop reason exactly for a failed rollback; L1_INTEGRATION_FAILED leaves the canonical checkout as it was, or rolled back |
| `Supervisor.CommitStopTells` | src/lucius/night_shift/supervisor.py:286-294 | MANUAL_RECONCILIATION_REQUIRED is the stop reason exactly when a commit was made and read back but not recorded, if the night stops for that; otherwise CONTROLLED_COMMIT_FAILED |
| `Supervisor.FinishedAtLimit` | src/lucius/night_shift/supervisor.py:155-162 | A limit reason is reported only at that limit, tasks before commits before time |
| `Supervisor.NoTaskBooksClose` | src/lucius/night_shift/supervisor.py:190-205 | An idle or taskless runtime call ends the run with balanced counters, cleanly only if idle |
| `Supervisor.NoTaskTells` | src/lucius/night_shift/supervisor.py:190-204 | Idle is reported exactly for an idle call that selected nothing; otherwise escalation first, then the runtime's own reason, if it gave one |
| `Witnesses.RollbackLosesIgnoredFile` | src/lucius/repositories/git_mutation.py:138-201 | Concrete: a rollback reported as successful deleted an ignored file at an authorized path |
| `Witnesses.RolledBackButClosed` | src/lucius/integration/service.py:142-172 | Concrete: a fault in the last head read rolls the files back and leaves the workflow closed |
| `Witnesses.CarriageReturnIsLost` | src/lucius/repositories/git_mutation.py:279-307 | Concrete: a completed L1 call whose applied file is not the candidate's |
| `Witnesses.FailedCallCommitted` | src/lucius/integration/controlled_commit.py:148-166 | Concrete: a call that reports FAILED moved the head to a new commit |
| `Witnesses.UnignoredFileBlocksCommit` | src/lucius/integration/controlled_commit.py:342-353 | Concrete: L1 completes and closes the workflow although its write un-ignored an authorized file, and every L2 call for that workflow then fails without committing |
| `Witnesses.PromotionGoesThrough` | src/lucius/night_shift/supervisor.py:236-272 | Concrete: without faults, L1 and then L2 complete, with a one-line message or without one; the record holds that message, or the default one with the task id |
| `Session.AuthorizedPaths` | src/lucius/integration/service.py:458-477 | The authorized paths come out once each, in the order of first mention; malformed and empty lists are refused |
| `Git.NewlinesFixed` | src/lucius/repositories/git_mutation.py:279-307 | Reading a text and writing it back keeps it exactly when it holds no carriage return; doing it twice changes nothing more |
| `Git.NoDiffMeansSame` | src/lucius/repositories/git_mutation.py:203-208 | Two trees differ nowhere exactly when they are equal |
| `Git.CleanExactly` | src/lucius/repositories/git_mutation.py:35-92 | Nothing is reported as changed exactly when index, head and tracked files agree and every other file is ignored |
| `Git.LinesReadAlike` | src/lucius/repositories/git_mutation.py:279-307 | A text written with any one kind of line end reads as its lines put together with line feeds |
| `Acceptance.Verify` | src/lucius/runtime/deterministic_acceptance.py:50-138 | The loop returns the evidence of all checks in order, or nothing if one fails |
| `Acceptance.ChecksPassTogether` | src/lucius/runtime/deterministic_acceptance.py:50-138 | The checks pass exactly when each of them passes |
| `Acceptance.FileCheckExactly` | src/lucius/runtime/deterministic_acceptance.py:72-138 | A file passes exactly when it exists, or is a text that, read with universal newlines, equals, holds or does not hold what the check says |
| `Acceptance.EvidenceInOrder` | src/lucius/runtime/deterministic_acceptance.py:50-138 | One piece of evidence for each check, in order, about that check |
| `Disk.Machine.VerifyUntracked` | src/lucius/repositories/git_mutation.py:102-135 | Passes exactly when every expected untracked file is still there, untracked, with its content |
| `Disk.Machine.CaptureText` | src/lucius/repositories/git_mutation.py:279-307 | Captures exactly the text files, newline-normalized, and refuses missing and binary ones |
| `Disk.Machine.WriteFiles` | src/lucius/repositories/git_mutation.py:378-384 | Writes exactly the given files, or a part of them when one write raises |
| `Disk.Machine.RestoreToBaseline` | src/lucius/repositories/git_mutation.py:138-201 | Index and worktree hold the baseline's content at every listed path, or some of them when it faults; nothing else changes |
| `Disk.Machine.Stage` | src/lucius/repositories/git_mutation.py:310-317 | The index takes the worktree's content at exactly the listed paths, or nothing changes |
| `Disk.Machine.Unstage` | src/lucius/repositories/git_mutation.py:320-327 | The index takes the head's content at exactly the listed paths, or nothing changes |
| `Disk.Machine.CreateLocalCommit` | src/lucius/repositories/git_mutation.py:336-347 | One brand-new commit of the index, child of the head; reading it back may still fault |
| `Policies.Validate` | src/lucius/models/policies.py:26-119 | No blocker exactly when the profile is up and within all nine limits; exactly which codes are reported, in the order of the guards |
| `Policies.Satisfied` | src/lucius/models/capabilities.py:36-47 | The early-return loop decides whether every required capability is there, local private inference aside |
| `Policies.AdmitsExactly` | src/lucius/models/policies.py:26-119 | A profile passes exactly when it and its provider are up, every required capability is there or local, it is neither too open nor dearer than allowed, large and good enough, and its price for the estimated tokens is within budget |
| `Policies.TokensExactly` | src/lucius/models/policies.py:9-14 | The estimate is the caller's figure, or a quarter of all characters rounded down, at least 1 if there are any |
| `Policies.AffordableExactly` | src/lucius/models/policies.py:17-23 | Within budget means: prices per million times tokens add up to no more than a million times the budget |
| `Policies.AbleExactly` | src/lucius/models/capabilities.py:36-47 | Capabilities are satisfied exactly when every required one, structured output included, is there, or is private inference from a local provider |
| `Policies.RelaxingKeepsAdmission` | src/lucius/models/policies.py:9-119 | Relaxing limits never costs a profile its admission if and only if neither of its prices is negative |
| `Policies.RelaxedIsAdmitted` | src/lucius/models/policies.py:26-119 | A fairly priced profile admitted under a request is admitted under every looser one |
| `Policies.UnderpricedFails` | src/lucius/models/policies.py:17-23 | Concrete: with a negative price, asking for one token less exceeds the budget |
| `Policies.CostGrows` | src/lucius/models/policies.py:17-23 | With prices that are not negative, the estimate grows with the tokens |
| `Ordering.LexTotal` | src/lucius/models/router.py:66-79 | The key order is total and antisymmetric |
| `Ordering.LexTransitive` | src/lucius/models/router.py:66-79 | The key order is transitive |
| `Ordering.LexDecides` | src/lucius/models/router.py:66-79 | The first differing component decides |
| `Ordering.SortedIsSorted` | src/lucius/models/router.py:86-86 | Sorting orders by key and loses nothing |
| `Ordering.SortedIsStable` | src/lucius/models/router.py:86-86 | Pairs with equal keys keep their order |
| `Ordering.SortedOnce` | src/lucius/models/router.py:86-86 | With distinct keys there is only one sorted arrangement |
| `Routing.OrderEligible` | src/lucius/models/router.py:82-103 | The pick-and-remove loop computes the ordered pairs |
| `Routing.OrderedShape` | src/lucius/models/router.py:82-103 | All eligible pairs, requested ones first in request order, whatever the preferred model, the rest by key |
| `Routing.EveryNameIsServed` | src/lucius/models/router.py:91-103 | Every requested id that names an eligible pair gets one picked |
| `Routing.Route` | src/lucius/models/router.py:11-63 | Selection, fallbacks, error, and the rejections in the order of list and guards; the selected profile and the fallbacks are all eligible ones, arranged by requested ids and preference |
| `Routing.EligibleOrRejected` | src/lucius/models/router.py:26-44 | Every profile is eligible or has a rejection, never both |
| `Routing.NoEligibleModelExactly` | src/lucius/models/router.py:106-122 | NO_ELIGIBLE_MODEL is reported exactly when there are no profiles |
| `Routing.RoutingIgnoresOrder` | src/lucius/models/router.py:11-63 | For distinctly named profiles the order, the eligibility and the error codes are the same for every permutation of the list |
| `Routing.DistinctIdsAreDistinctNames` | src/lucius/models/router.py:66-79 | Nonempty, different ids are enough for that |
| `Arrangements.RoutingExactly` | src/lucius/models/router.py:11-63 | Selection and fallbacks are the same for every order of the profile list if and only if no tie ever decides: each requested id that names an eligible profile names one ahead of all others, and of the rest no two different ones have the same key |
| `Arrangements.PlainRoutingExactly` | src/lucius/models/router.py:66-79 | Without requested fallbacks: if and only if no two different eligible profiles agree in all six key components |
| `Arrangements.ReplyExactly` | src/lucius/models/router.py:46-63 | For profiles with ids of their own the same holds of the selected id and the fallback ids the caller sees |
| `Arrangements.OrderedExactly` | src/lucius/models/router.py:82-103 | The ordered pairs are the same for every rearrangement of the eligible ones under exactly that condition |
| `Arrangements.SortedExactly` | src/lucius/models/router.py:86-86 | Sorting alone is the same for every rearrangement if and only if different pairs have different keys |
| `Arrangements.DistinctNamesDetermine` | src/lucius/models/router.py:66-79 | Distinct names leave nothing to a tie, whatever is requested |
| `Ordering.SameKeyExactly` | src/lucius/models/router.py:66-79 | Two keys are equal exactly when all six components agree |
| `Preference.PreferredExactly` | src/lucius/models/router.py:66-79 | The key order is exactly this preference: the model asked for, the provider asked for, higher quality where it counts, FREE to PREMIUM, LOW to HIGH latency, then the smaller name, the first difference deciding |
| `Preference.UnrequestedByPreference` | src/lucius/models/router.py:82-103 | In an arranged list, of two pairs no requested id names the preferred one stands first |
| `Preference.AskedForIsFirst` | src/lucius/models/router.py:66-103 | Without requested ids a model asked for stands first |
| `Preference.RequestedIsFirst` | src/lucius/models/router.py:91-103 | The first requested id that names a pair gets the first place |
| `Routing.OrderedByPreference` | src/lucius/models/router.py:82-103 | The order is arranged: for each requested id in turn the best remaining pair that goes by it, then all others by preference, nothing lost |
| `Routing.RoutedByPreference` | src/lucius/models/router.py:82-103 | Hence of two eligible pairs that no requested id names the preferred one stands first |
| `Routing.AskedForIsSelected` | src/lucius/models/router.py:50-63 | Without requested fallbacks a usable model the request asks for is the one selected |
| `Routing.EligibleExactly` | src/lucius/models/router.py:18-44 | A pair is eligible exactly when its profile is listed, its provider is the last one registered for it, and it is usable |
| `Routing.RegisteredExactly` | src/lucius/models/router.py:18-18 | A later registration under the same id wins |
| `Routing.RefusalIsGravest` | src/lucius/models/router.py:106-122 | A request nobody may serve is answered with the gravest code any profile was refused with |
| `Routing.RejectionsExactly` | src/lucius/models/router.py:26-44 | The rejections listed profile by profile are exactly the guards that fail |
| `Routing.OrderShowsWithoutIds` | src/lucius/models/router.py:66-79 | Concrete: a profile without an id ties with another one's id, and the list order decides |
| `Gateway.ModelGateway.ExecuteWithFallback` | src/lucius/models/gateway.py:160-250 | A request without candidates records one blocked row with the dominant error; otherwise rows numbered from 1, each carrying what its attempt came to, all but the last failed retryably, one fallback event fewer than rows; the response, the last row, succeeds if and only if some adapter called gave an acceptable answer; adapters that leave the registrations alone only ever see eligible profiles; row by row the routed profiles are tried in their order, the selected one first, the calls come in that order, and the run stops early only for an outcome that may not be retried or the attempt limit |
| `Gateway.ModelGateway.TryInTurn` | src/lucius/models/gateway.py:186-250 | The loop always yields a response and records exactly the rows, calls and answers of a run over the candidates |
| `Gateway.ModelGateway.Attempt` | src/lucius/models/gateway.py:186-221 | One row per attempt, with the error of a vanished profile, of a missing adapter or provider, or of the answer the adapter gave, which is logged |
| `Gateway.AttemptExplained` | src/lucius/models/gateway.py:252-337 | Which error each kind of attempt and each kind of answer is recorded with |
| `Gateway.RunHasShape` | src/lucius/models/gateway.py:186-243 | Any run has that shape, whatever the adapters answer and do to the registrations |
| `Gateway.ShapeFollowsRoute` | src/lucius/models/gateway.py:180-243 | The rows name the routed profiles in order, the selected one first; they go on only past failures that may be retried, and end early only for another outcome or the limit |
| `Gateway.CandidatesInPlace` | src/lucius/models/gateway.py:180-184 | The candidates are the routed profiles from the selected one on: that one alone without fallback, otherwise as many as the limit leaves |
| `Gateway.RunCallsAlong` | src/lucius/models/gateway.py:186-221 | Calls are made row by row, each recorded with its own outcome; only a row without profile, adapter or provider has none |
| `Gateway.OnlyEligibleCalls` | src/lucius/models/gateway.py:186-221 | Adapters that leave the registrations alone are only handed eligible profiles |
| `Gateway.ModelGateway.RegisterProfile` | src/lucius/models/gateway.py:80-144 | Refused exactly without its provider; otherwise stored under its id, other profiles untouched, ids still unique |
| `Gateway.SuccessIsLast` | src/lucius/models/gateway.py:222-227 | The last row succeeds exactly when some adapter gave an acceptable answer, and no other row does |
| `Gateway.AttemptsAreLimited` | src/lucius/models/gateway.py:180-184 | Never more attempts than a nonzero limit allows, and one without fallback |
| `Gateway.NoProfileTwice` | src/lucius/models/gateway.py:180-184 | No profile is tried twice |
| `Gateway.CandidateIds` | src/lucius/models/gateway.py:160-184 | Every candidate id names an eligible profile |
| `Gateway.UpsertStores` | src/lucius/models/gateway.py:89-136 | An upsert stores the row under its id and leaves every other id alone |
| `PublicIds.RoundTrip` | src/lucius/domain/ids.py:38-43 | Parsing a formatted id gives its number under its own prefix and 0 under every other entity's |
| `PublicIds.FormatIsInjective` | src/lucius/domain/ids.py:38-43 | An id names one entity and one number |
| `PublicIds.PrefixesDiffer` | src/lucius/domain/ids.py:1-35 | No two entities share a prefix |
| `PublicIds.PaddedLength` | src/lucius/domain/ids.py:43-43 | Six digits exactly up to 999999 |
| `PublicIds.StringOrderIsNumberOrder` | src/lucius/domain/ids.py:43-43 | Up to 999999 string order is number order |
| `PublicIds.StringOrderExactly` | src/lucius/domain/ids.py:43-43 | String order of two ids of one entity, for any numbers: by number if both show equally many digits, otherwise by the longer number cut to the length of the shorter |
| `PublicIds.SortedWrongExactly` | src/lucius/domain/ids.py:43-43 | Of two numbers in order the ids sort the other way exactly when the higher one shows more digits and, cut to the length of the lower, is less |
| `PublicIds.OrderBreaksAfterLimit` | src/lucius/domain/ids.py:43-43 | The limit is tight |
| `PublicIds.PatternAcceptsUpToLimit` | src/lucius/pilots/provenance.py:30-30 | The evidence-id pattern accepts exactly the ids up to 999999 |
| `IdAllocation.PrefixFilter` | src/lucius/persistence/repositories.py:68-68 | The LIKE pattern keeps exactly the texts that begin with the prefix in any case and go on by at least one character |
| `IdAllocation.FilterKeepsCounted` | src/lucius/persistence/repositories.py:68-79 | It never drops an id the parser would count |
| `IdAllocation.IdStore.PersistedNextNumber` | src/lucius/persistence/repositories.py:61-71 | One more than the highest number any table holds |
| `IdAllocation.IdStore.NextId` | src/lucius/persistence/repositories.py:33-58 | Issues the counter's number or the first one above the tables, whichever is higher, and moves the counter past it |
| `IdAllocation.BumpIssuesNext` | src/lucius/persistence/repositories.py:37-55 | Insert-or-ignore followed by the CASE update issues exactly that number, with or without a counter row |
| `IdAllocation.IssuedIsFresh` | src/lucius/persistence/repositories.py:33-58 | Every issued number is positive and above every persisted id of its entity |
| `IdAllocation.CounterStaysAbove` | src/lucius/persistence/repositories.py:37-55 | The counter stays above every number it issued |
| `IdAllocation.IssuedIncreases` | src/lucius/persistence/repositories.py:33-58 | Over any run with any edits of the tables, numbers per entity strictly increase and no id is issued twice |
| `PlanVerdict.Evaluate` | src/lucius/pilots/evaluation.py:76-79 | The verdict, aggregate and corrections of a list of dimensions |
| `PlanVerdict.Corrections` | src/lucius/pilots/evaluation.py:911-933 | Exactly the corrections the dimensions call for, in their order, one each at most |
| `PlanVerdict.VerdictPermutes` | src/lucius/pilots/evaluation.py:76-79 | The order of the dimensions does not matter |
| `PlanVerdict.InapplicableIsNeutral` | src/lucius/pilots/evaluation.py:923-924 | A dimension that does not apply changes nothing, wherever it stands |
| `PlanVerdict.RaisingNeverHurts` | src/lucius/pilots/evaluation.py:936-955 | Raising a captured score with its status unchanged never makes the verdict worse |
| `PlanVerdict.PassMeans` | src/lucius/pilots/evaluation.py:936-955 | PASS: nothing missing, every captured score at least 80, no failed material check, aggregate at least 85 |
| `PlanVerdict.PassExactly` | src/lucius/pilots/evaluation.py:936-955 | And nothing else is needed, when only captured dimensions carry scores |
| `PlanVerdict.VerdictExactly` | src/lucius/pilots/evaluation.py:936-955 | Each verdict exactly: missing evidence; a critical dimension below 60, a failed material one or an aggregate below 60; a score below 80 or an aggregate below 85; otherwise PASS |
| `PlanVerdict.CorrectionsExactly` | src/lucius/pilots/evaluation.py:911-933 | A correction is listed exactly for a dimension not captured or scored below 80, critical, major or moderate by name and score |
| `PlanVerdict.AggregateIsBetween` | src/lucius/pilots/evaluation.py:78-78 | The aggregate lies between the lowest and the highest score, up to half a hundredth |
| `PlanVerdict.SetDimensionBounds` | src/lucius/pilots/evaluation.py:229-248 | Scores stay in [0, 100]; the unrounded one is 100 exactly for equal sets |
| `PlanVerdict.PassingSetDimension` | src/lucius/pilots/evaluation.py:229-248 | PASS forces recall above 71.4 and precision above 33.3, rounding notwithstanding |
| `Rounding.NearestIsMonotone` | src/lucius/pilots/evaluation.py:78-78 | Rounding keeps order |
| `Rounding.Round2IsNear` | src/lucius/pilots/evaluation.py:78-78 | Rounding moves by at most half a hundredth |
| `Scoring.PrecisionRecallDuality` | src/lucius/evaluation/metrics.py:6-31 | Precision one way is recall the other way; both are 100 exactly for equal normalized sets |
| `Scoring.MetricBounds` | src/lucius/evaluation/metrics.py:10-31 | Both lie in [0, 100], with the exact conditions for 100 |
| `Scoring.EveryMetricIsAccepted` | src/lucius/evaluation/evaluators.py:231-248 | The validator never rejects a metric of a case evaluation |
| `Scoring.InRangeIsAccepted` | src/lucius/evaluation/schemas.py:89-94 | The validator accepts exactly [0, 100], and rounding stays inside |
| `Scoring.EveryMetricOnce` | src/lucius/evaluation/evaluators.py:231-248 | A case is scored by the metrics of all evaluators, in their order |
| `Scoring.NormalizeExactly` | src/lucius/evaluation/metrics.py:6-8 | A normalized set holds exactly the stripped, lower-cased, nonempty values |
| `Scoring.ScopeExactly` | src/lucius/evaluation/evaluators.py:34-55 | No path counts as hallucinated exactly when every file claimed as verified is in the snapshot |
| `Scoring.CoverageExactly` | src/lucius/evaluation/evaluators.py:58-86 | Coverage passes when every criterion is covered; assumptions when each verified one has evidence, all expected if any is |
| `Scoring.RanksExactly` | src/lucius/evaluation/evaluators.py:89-131 | Risk passes when it reaches some expected level, authority when it reaches the expected one |
| `Scoring.MemoryExactly` | src/lucius/evaluation/evaluators.py:148-175 | Memory scope and privacy pass, with full marks, exactly when every memory used is authorized; conflicts when a wanted warning was seen |
| `Scoring.ProvenanceExactly` | src/lucius/evaluation/evaluators.py:178-197 | Provenance passes exactly when every key its target needs is present |
| `Scoring.CautionIsCheaper` | src/lucius/evaluation/evaluators.py:89-131 | Overestimating risk or authority costs less than underestimating it; full marks exactly for the expected level |
| `Scoring.WeightedScore` | src/lucius/evaluation/scoring.py:25-36 | The accumulating loop computes the rounded weighted mean, or 0 without weight |
| `Scoring.ScoreIsBetween` | src/lucius/evaluation/scoring.py:25-36 | It lies between the lowest and the highest positively weighted metric |
| `Scoring.ScoreIsMonotone` | src/lucius/evaluation/scoring.py:25-36 | Raising a metric never lowers it |
| `Scoring.AggregateScore` | src/lucius/evaluation/scoring.py:39-42 | The rounded mean of the case scores |
| `Scoring.EligibleMeansFewZeros` | src/lucius/evaluation/scoring.py:39-60 | RELEASE_ELIGIBLE leaves at most one case in five at zero, on the exact mean always and on the rounded one below 400000 cases |
| `DocumentationContract.Canonicalize` | src/lucius/pilots/documentation_contract.py:22-53 | The step-by-step form computes the canonical requirement |
| `DocumentationContract.CanonicalExactly` | src/lucius/pilots/documentation_contract.py:22-53 | Target is the first of target, path, proposed path and canonical target that says something; exactness is the flag, the type or the kind; an exact path is proposed if nothing else is |
| `DocumentationContract.OtherKeysExactly` | src/lucius/pilots/documentation_contract.py:22-53 | Both aliases go, unless `path` hides a `target_path`; every other key stays as it is |
| `DocumentationContract.PathsExactly` | src/lucius/pilots/documentation_contract.py:38-46 | The acceptable paths are exactly the given ones, the path if it need not be exact, and the target if it looks like a document |
| `DocumentationContract.CleanExactly` | src/lucius/pilots/documentation_contract.py:56-57 | A value says its text, or what it is shown as, without the blanks at its ends; a falsy value says nothing |
| `DocumentationContract.OnceSufficesExactly` | src/lucius/pilots/documentation_contract.py:22-53 | Canonicalizing once is enough if and only if `path` has no value or there is no `target_path` |
| `DocumentationContract.OnceIsNotEnough` | src/lucius/pilots/documentation_contract.py:26-26 | Concrete: both aliases given |
| `DocumentationContract.TwiceIsFixed` | src/lucius/pilots/documentation_contract.py:22-53 | Canonicalizing twice is always enough |
| `DocumentationContract.ListTwiceIsFixed` | src/lucius/pilots/documentation_contract.py:14-19 | So it is for lists |
| `DocumentationContract.ListsAreTidy` | src/lucius/pilots/documentation_contract.py:38-46 | Acceptable paths and categories come out trimmed, without repetition, given ones first, with the implied ones included |
| `DocumentationContract.OrderedList` | src/lucius/pilots/documentation_contract.py:60-68 | The loop computes the ordered strings |
| `DocumentationContract.OrderedIsTidy` | src/lucius/pilots/documentation_contract.py:60-68 | Exactly the cleaned nonempty items, each once |
| `DocumentationContract.OrderedKeepsOrder` | src/lucius/pilots/documentation_contract.py:60-68 | In the order of first mention |
| `Text.StripExactly` | src/lucius/pilots/documentation_contract.py:56-57 | Cleaning takes away blanks at the two ends, all of them, and nothing else |
| `Text.LowerExactly` | src/lucius/evaluation/metrics.py:6-8 | Lower case changes capital letters only |
| `Text.UpperExactly` | src/lucius/night_shift/supervisor.py:406-407 | Upper case changes small letters only |
| `Knowledge.InvariantKept` | src/lucius/memory/service.py:34-262 | Every accepted move keeps: validated memories have provenance, and no supersession link loops on one or two memories |
| `Knowledge.RunsStaySound` | src/lucius/memory/service.py:34-262 | Hence every reachable state has it |
| `Knowledge.ClientKnowledgeStaysHome` | src/lucius/memory/firewall.py:17-55 | A candidate filed from a CLIENT project is never promoted to GLOBAL, whatever happens afterwards |
| `Knowledge.GlobalKnowledgeHasEvidence` | src/lucius/learning/service.py:174-222 | A GLOBAL promotion takes a validated candidate, and its memory carries that candidate's evidence for ever after |
| `Knowledge.PromotionExactly` | src/lucius/memory/firewall.py:38-55 | Exactly which GLOBAL promotions go through, creation rules included |
| `Knowledge.PromotedExactly` | src/lucius/learning/service.py:174-222 | Exactly which promotions go through, for every scope, and the memory each creates, field by field |
| `Knowledge.FilingExactly` | src/lucius/learning/service.py:27-83 | A candidate is filed as pending; private for a client project or scope, abstractable for a project, otherwise safe; sanitization as asked for or as that calls for |
| `Knowledge.CreationExactly` | src/lucius/memory/validation.py:6-45 | Exactly which memories may be created, field by field |
| `Knowledge.SourceStays` | src/lucius/memory/service.py:191-262 | No operation changes where a memory came from, or its scope |
| `Knowledge.ClassificationStays` | src/lucius/learning/service.py:136-172 | No operation changes a candidate's classification or evidence |
| `Supersession.MoveKeepsAcyclicExactly` | src/lucius/memory/service.py:211-226 | A move keeps the superseded_by links free of cycles if and only if it is not a supersession whose newer memory already leads to the older one, and the supersedes links if and only if the older one does not already lead back to the newer; no other move can close a cycle |
| `Supersession.RunStaysAcyclicExactly` | src/lucius/memory/service.py:211-226 | A run that starts without cycles stays without them if and only if none of its accepted supersessions closes one |
| `Supersession.LinkingExactly` | src/lucius/memory/service.py:219-223 | Over any chain of links: pointing one memory at another keeps it acyclic exactly when the other does not already lead to it, whatever link is overwritten |
| `Supersession.LinksAfter` | src/lucius/memory/service.py:211-226 | An accepted supersession sets one link of each kind; no other operation changes a link |
| `Supersession.StartsAcyclic` | src/lucius/memory/service.py:30-32 | An empty store has no cycles |
| `Knowledge.ThreeCycleIsPossible` | src/lucius/memory/service.py:211-226 | Concrete: three accepted calls close a supersession cycle of length three |
| `Knowledge.KnowledgeServices.CreateMemory` | src/lucius/memory/service.py:34-115 | Accepted exactly under the creation rules; refused calls change nothing |
| `Knowledge.KnowledgeServices.ValidateMemory` | src/lucius/memory/service.py:191-200 | Accepted exactly with provenance |
| `Knowledge.KnowledgeServices.SupersedeMemory` | src/lucius/memory/service.py:211-226 | Accepted exactly for two different memories that do not already point back; sets both links |
| `Knowledge.KnowledgeServices.ClearRevalidationFlag` | src/lucius/memory/service.py:246-262 | Accepted exactly with evidence or a reference |
| `Knowledge.KnowledgeServices.CreateCandidate` | src/lucius/learning/service.py:27-83 | Files the candidate as pending, classified and sanitized by its source |
| `Knowledge.KnowledgeServices.JudgeCandidate` | src/lucius/learning/service.py:136-172 | Changes the status of an existing candidate and nothing else |
| `Knowledge.KnowledgeServices.PromoteCandidate` | src/lucius/learning/service.py:174-222 | Creates exactly the promoted memory, exactly when allowed |

## Left out

- Directories, symbolic links, file modes and path validation: a tree maps path strings to contents.
- Content hashes: taken to be injective, so a hash is the content itself.
- Git hooks, attributes, line-ending conversion by Git and merge commits made by others.
- Several faults inside one multi-path command: a command faults as a whole, except for writing and restoring, where the faulting paths are chosen freely.
- Database failures inside a call, and exceptions the services do not catch, other than the L1 head read after a failed rollback.
- Audit events, manifest hashes, timestamps and durations; only the counts of fallback events are kept.
- The commands of acceptance checks: an oracle that need not answer the same twice, and that writes no files; in the source a command runs in the workspace and could. The allow-list for their arguments is not modelled.
- The queue, workflow and runtime services behind one runtime call.
- The supervisor's lists of processed workflows, providers and commit ids; `workflow_ids` is a set.
- Supervisor.NightShiftSupervisor.Run: of the cycle that ended in a HARD_STOP or an escaped L1 exception it says only that one canonical checkout at most was touched; what happened there is in the L1 and L2 steps.
- Routing.Route: leaves out the human-readable reasons, and the messages and provider ids of rejections.
- Gateway.ModelGateway.ExecuteWithFallback: leaves out token counts, costs and latencies of a response; `_sanitize_metadata` is not modelled.
- Unicode: letters, digits and blanks are ASCII.
- Unknown entity names given to the id functions, which raise: `Entity` is an enumeration.
- Floating point: scores are exact reals, rounded half to even.
- The builders of single plan dimensions other than the set dimension, and the safety gates of a case evaluation.
- Memory retrieval and ranking, the capture helpers, and the propagation of evidence staleness, which call the modelled operations.
- Release, claim, hardening, fixture, dependency, provisioning and rubric policies: long guard lists that would only add easy members.
