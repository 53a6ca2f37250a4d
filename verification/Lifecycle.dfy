/**
 The two durable state machines of one agent Run: the Run itself and each of its Attempts.
 A command or event that is not in the table is refused (None).
 */
module Lifecycle {
  import opened Common

  datatype RunState =
    | Draft | Ready | Running | Stopping | AwaitingVerification | Verifying | AwaitingReview
    | RevisionRequired | RecoveryRequired | VerificationRecoveryRequired | Accepted | Completed | Cancelled

  datatype RunCommand =
    | PrepareRun | StartAttempt | AttemptStarted | StartFailed | StartReconciliationRequired | RecoveryDetected
    | RequestIntervention | RequestHandoff | RequestCancel
    | StopConfirmedForRevision | StopConfirmedForCancel | StopUncertain
    | AttemptFailed | SubmitAgentReport | SubmitAgentReportDirectReview | CompleteNoChange
    | StartVerification | VerificationPassed | VerificationNeedsRevision | VerificationFailed
    | VerificationCancelConfirmed | RetryVerification | ReviewAccept | ReviewReject
    | PrepareRetry | CancelInactiveRun

  function TransitionRun(state: RunState, command: RunCommand): Option<RunState> {
    match (state, command)
    case (Running, CompleteNoChange) => Some(Completed)
    case (Draft, PrepareRun) => Some(Ready)
    case (Ready, StartAttempt) => Some(Running)
    case (Running, AttemptStarted) => Some(Running)
    case (Running, StartFailed) => Some(RecoveryRequired)
    case (Running, StartReconciliationRequired) => Some(RecoveryRequired)
    case (Running, RecoveryDetected) => Some(RecoveryRequired)
    case (Stopping, RecoveryDetected) => Some(RecoveryRequired)
    case (Running, SubmitAgentReport) => Some(AwaitingVerification)
    case (Running, SubmitAgentReportDirectReview) => Some(AwaitingReview)
    case (AwaitingVerification, StartVerification) => Some(Verifying)
    case (Verifying, VerificationPassed) => Some(AwaitingReview)
    case (Verifying, VerificationNeedsRevision) => Some(RevisionRequired)
    case (Verifying, VerificationFailed) => Some(VerificationRecoveryRequired)
    case (Verifying, VerificationCancelConfirmed) => Some(AwaitingVerification)
    case (VerificationRecoveryRequired, RetryVerification) => Some(Verifying)
    case (AwaitingVerification, RetryVerification) => Some(Verifying)
    case (Running, RequestIntervention) => Some(Stopping)
    case (Running, RequestHandoff) => Some(Stopping)
    case (Running, RequestCancel) => Some(Stopping)
    case (Stopping, StopConfirmedForRevision) => Some(RevisionRequired)
    case (Stopping, StopConfirmedForCancel) => Some(Cancelled)
    case (Stopping, StopUncertain) => Some(RecoveryRequired)
    case (Running, AttemptFailed) => Some(RecoveryRequired)
    case (AwaitingReview, ReviewAccept) => Some(Accepted)
    case (AwaitingReview, ReviewReject) => Some(RevisionRequired)
    case (RevisionRequired, PrepareRetry) => Some(Ready)
    case (RecoveryRequired, PrepareRetry) => Some(Ready)
    case (Cancelled, PrepareRetry) => Some(Ready)
    case (Draft, CancelInactiveRun) => Some(Cancelled)
    case (Ready, CancelInactiveRun) => Some(Cancelled)
    case (AwaitingReview, CancelInactiveRun) => Some(Cancelled)
    case (RevisionRequired, CancelInactiveRun) => Some(Cancelled)
    case (RecoveryRequired, CancelInactiveRun) => Some(Cancelled)
    case (AwaitingVerification, CancelInactiveRun) => Some(Cancelled)
    case (VerificationRecoveryRequired, CancelInactiveRun) => Some(Cancelled)
    case _ => None
  }

  datatype AttemptState =
    | Created | Starting | Live | OutputSubmitted | Failed | Interrupted | Withdrawn

  datatype AttemptEvent =
    | Start | Started | StartFailure | Output | Failure | StoppedForRevision | StoppedForCancel

  /** `Live` and `Withdrawn` are the states the program spells "running" and "cancelled". */
  function TransitionAttempt(state: AttemptState, event: AttemptEvent): Option<AttemptState> {
    match (state, event)
    case (Created, Start) => Some(Starting)
    case (Starting, Started) => Some(Live)
    case (Starting, StartFailure) => Some(Failed)
    case (Live, Output) => Some(OutputSubmitted)
    case (Starting, Failure) => Some(Failed)
    case (Live, Failure) => Some(Failed)
    case (Starting, StoppedForRevision) => Some(Interrupted)
    case (Live, StoppedForRevision) => Some(Interrupted)
    case (Created, StoppedForCancel) => Some(Withdrawn)
    case (Starting, StoppedForCancel) => Some(Withdrawn)
    case (Live, StoppedForCancel) => Some(Withdrawn)
    case _ => None
  }

  datatype DelegationState = DelegationRunning | DelegationStopping | DelegationStopped | DelegationBlocked | DelegationAwaitingReview

  predicate DelegationMayBecome(from: DelegationState, to: DelegationState) {
    match from
    case DelegationRunning => to.DelegationStopping? || to.DelegationBlocked? || to.DelegationAwaitingReview?
    case DelegationBlocked => to.DelegationRunning? || to.DelegationStopping?
    case DelegationStopping => to.DelegationStopped? || to.DelegationStopping?
    case _ => false
  }
}
