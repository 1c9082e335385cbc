/** Small vocabulary shared by the models: optional values, and results that
    carry the reason string a service reports when it refuses or fails. */
module Prelude {

  /** Why a step refused or failed, by the source's own code. */
  datatype Reason =
    | NoReason
    | CandidateFileNotRegular | CandidateFileNotUtf8 | CandidateFileReadFailed
    | CanonicalChangeMissingDeterministicAcceptanceCheck | CanonicalHasNoChanges | CanonicalHasUnauthorizedChanges
    | CanonicalHeadDrift | CanonicalRepositoryPathMismatch | CommitParentInspectionFailed
    | CommitPathInspectionFailed | ContractL2AuthorityRequired | ControlledCommitReconciliationRequired
    | CreateCommitNotAuthorized | DeterministicAcceptanceFailed | DeterministicAcceptanceReadFailed
    | EmptyFrozenAffectedFiles | FrozenBaselineCommitRequired | FrozenDeterministicAcceptanceRequired
    | FrozenPlanProjectMismatch | FrozenPlanRelationshipInvalid | FrozenPlanRequired
    | GitCommandFailed | GitCommitFailed | GitStageFailed
    | GitStatusFailed | GitUnstageFailed | InvalidCommitMessage
    | InvalidFrozenAffectedFiles | InvalidFrozenDeterministicAcceptanceChecks | L2AuthorityRequired
    | PreexistingStagedChanges | ProtectedUntrackedPathAuthorizedForMutation | ProtectedUntrackedStateDrift
    | RepositoryAccessModeNotCanonicalIntegration | RepositoryNotAttachedToProject | RepositoryRequired
    | RequestBaselineDoesNotMatchFreeze | RestoreFailed | RestoreHeadMismatch
    | TaskContractRequired | TaskL2AuthorityRequired | WorkflowNotClosed
    | WorkflowNotFound | WorkflowTaskRelationshipInvalid | WorktreeFileNotRegular
    | WriteFailed | CanonicalChangedPathsDrift | DeterministicAcceptanceDrift | CanonicalContentHashDrift
    | StagedPathsDoNotMatchManifest | StagedContentHashMismatch | CommitDidNotAdvanceHead | CanonicalHeadNotResultingCommit
    | ControlledCommitParentMismatch | CommittedPathsDoNotMatchManifest | CommittedUnauthorizedPaths
    | CommittedContentHashMismatch | PostCommitDeterministicAcceptanceDrift | CanonicalWorktreeNotCleanAfterCommit
    | CanonicalHeadChangedAfterVerification | RecordFlushFailed
    | PromotionStateIncomplete | PromotionProjectRelationshipInvalid
    | PromotionPlanFreezeRelationshipInvalid | TaskComplexityOutsideNightShiftBounds
    | PlanRiskOutsideNightShiftBounds | CandidateWorktreeRequired
    | MaxTasksReached | MaxCommitsReached
    | MaxWallClockReached | Idle
    | RuntimeEscalation | RuntimeResultWithoutTaskRecord
    | ContainmentSnapshotMissing | CanonicalHeadUnsafeBeforeFailure
    | CanonicalDirtyBeforeFailure | CandidateUnsafeBeforeFailure
    | FailedTaskAdvancedCanonicalHead | FailedTaskLeftCanonicalStagedChanges
    | FailedTaskLeftCanonicalTrackedChanges | FailedTaskLeftUnauthorizedCanonicalChanges
    | ContainmentGitCheckFailed | FailedTaskChangedCandidateHead | FailedTaskLeftCandidateChanges | FailedCandidateQuarantined
    | TaskLocalFailureContained | L1RollbackUncertain
    | L1IntegrationFailed | ManualReconciliationRequired
    | ControlledCommitFailed | CanonicalUnauthorizedChangedPaths | CanonicalIntendedWritesNotObserved
    | CandidateCapturedContentMismatch | CandidateChangeMissingDeterministicAcceptanceCheck
    | CandidateHasNoGitChanges | CandidateHasUnauthorizedChanges
    | CandidateHeadBaselineMismatch | CandidateWorkspaceMismatch
    | CandidateWorkspaceMustBeIsolated | CanonicalIntegrationAccessModeRequired
    | L1AuthorityRequired | PlanAuthorityExceedsL1
    | PreexistingTrackedChanges | WorkflowL1AuthorityRequired
    | WorkflowNotCompletedPendingIntegration

  datatype Option<+T> = None | Some(value: T)

  datatype Result<+T> = Ok(value: T) | Fail(reason: Reason) {
    predicate IsFailure() {
      Fail?
    }

    function PropagateFailure<U>(): Result<U>
      requires Fail?
    {
      Fail(reason)
    }

    function Extract(): T
      requires Ok?
    {
      value
    }
  }

  /** The outcome of a guard: `:- Need(condition, reason)` stops at the first guard that fails. */
  datatype Guard = Pass | Stop(reason: Reason) {
    predicate IsFailure() {
      Stop?
    }

    function PropagateFailure<U>(): Result<U>
      requires Stop?
    {
      Fail(reason)
    }
  }

  function Need(condition: bool, reason: Reason): Guard {
    if condition then Pass else Stop(reason)
  }
}
