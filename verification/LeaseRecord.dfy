/**
 The row of the idempotency table, the declarative guard of a conditional update,
 and the pure decisions that are taken from a row that was just read.
 */
module LeaseRecord {
  import opened Options

  datatype Status = Starting | Running | Completed | StartFailed | ProcessingFailed

  datatype RecoveryMode = Normal | FullWorkflow | EnrichmentOnly

  datatype RecoveryStage = NoStage | FullStage | EnrichmentStage

  datatype Evidence = DecisionFnCommitted | RecoveryGateCoreExists

  /** One row. A nullable column is an Option; times are epoch milliseconds. */
  datatype Row = Row(
    idempotencyKey: string,
    decisionId: string,
    status: Status,
    attemptCount: int,
    leaseOwner: Option<string>,
    leaseExpiresAt: Option<int>,
    lastError: Option<string>,
    retryable: bool,
    executionArn: Option<string>,
    runningStartedAt: Option<int>,
    runningDeadlineAt: Option<int>,
    completedArn: Option<string>,
    completedAttempt: Option<int>,
    transitionArn: Option<string>,
    transitionAttempt: Option<int>,
    evidence: Option<Evidence>,
    coreCommitted: bool,
    recoveryStage: RecoveryStage,
    recoveryMode: RecoveryMode,
    previousLastError: Option<string>,
    createdAt: string,
    updatedAt: string,
    expiresAt: int)

  const CORE_IDENTITY_CONFLICT := "CORE_IDENTITY_CONFLICT"
  const STALE_RUNNING_EXECUTION := "STALE_RUNNING_EXECUTION"

  // ----- Guards -----------------------------------------------------------

  datatype StatusGuard = AnyStatus | StatusIs(status: Status) | StatusIn(statuses: seq<Status>)

  /** Every given field is ANDed; a field left at None is not tested. */
  datatype Guard = Guard(
    status: StatusGuard := AnyStatus,
    leaseOwner: Option<string> := None,
    attemptCount: Option<int> := None,
    recoveryMode: Option<RecoveryMode> := None,
    executionArn: Option<string> := None,
    coreCommitted: Option<bool> := None,
    retryable: Option<bool> := None,
    deadline: Option<int> := None,
    deadlineBefore: Option<int> := None,
    leaseExpiresBefore: Option<int> := None)

  predicate StatusAllowed(g: StatusGuard, s: Status) {
    match g
    case AnyStatus => true
    case StatusIs(t) => s == t
    case StatusIn(ts) => s in ts
  }

  /** What a guard means: a comparison with an unset time is false. */
  predicate GuardHolds(g: Guard, r: Row) {
    && StatusAllowed(g.status, r.status)
    && (g.leaseOwner.Some? ==> r.leaseOwner == g.leaseOwner)
    && (g.attemptCount.Some? ==> r.attemptCount == g.attemptCount.value)
    && (g.recoveryMode.Some? ==> r.recoveryMode == g.recoveryMode.value)
    && (g.executionArn.Some? ==> r.executionArn == g.executionArn)
    && (g.coreCommitted.Some? ==> r.coreCommitted == g.coreCommitted.value)
    && (g.retryable.Some? ==> r.retryable == g.retryable.value)
    && (g.deadline.Some? ==> r.runningDeadlineAt == g.deadline)
    && (g.deadlineBefore.Some? ==>
          r.runningDeadlineAt.Some? && r.runningDeadlineAt.value < g.deadlineBefore.value)
    && (g.leaseExpiresBefore.Some? ==>
          r.leaseExpiresAt.Some? && r.leaseExpiresAt.value < g.leaseExpiresBefore.value)
  }

  predicate GuardIsEmpty(g: Guard) {
    && g.status.AnyStatus? && g.leaseOwner.None? && g.attemptCount.None? && g.recoveryMode.None?
    && g.executionArn.None? && g.coreCommitted.None? && g.retryable.None?
    && g.deadline.None? && g.deadlineBefore.None? && g.leaseExpiresBefore.None?
  }

  // ----- Routing a same-key request ---------------------------------------

  predicate IsTerminalConflict(r: Row) {
    r.status.ProcessingFailed? && (r.lastError == Some(CORE_IDENTITY_CONFLICT) || !r.retryable)
  }

  predicate IsStartingLeaseExpired(r: Row, now: int) {
    r.status.Starting? && r.leaseExpiresAt.Some? && r.leaseExpiresAt.value < now
  }

  predicate IsStaleRunning(r: Row, now: int) {
    r.status.Running? && r.runningDeadlineAt.Some? && r.runningDeadlineAt.value < now
  }

  /** The answer a same-key request gives its caller. */
  datatype Answer =
    | KeyAbsent
    | RespondCompleted(decisionId: string)
    | RespondInProgress(decisionId: string, status: Status)
    | RespondTerminalConflict(decisionId: string)
    | RecoveredRetryStart(decisionId: string, mode: RecoveryMode)
    | RaceLost(decisionId: string)

  datatype LeaseKind =
    | FromStartFailed
    | FromProcessingFailed(effectiveCoreCommitted: bool)
    | FromExpiredStarting

  /** What the router does next with the row it read. */
  datatype Triage =
    | Reply(answer: Answer)
    | TakeLease(kind: LeaseKind)
    | GradeByGate
    | ReconcileStale

  function TriageRow(r: Row, now: int): Triage {
    match r.status
    case Completed => Reply(RespondCompleted(r.decisionId))
    case Running =>
      if IsStaleRunning(r, now) then ReconcileStale else Reply(RespondInProgress(r.decisionId, r.status))
    case Starting =>
      if IsStartingLeaseExpired(r, now) then TakeLease(FromExpiredStarting)
      else Reply(RespondInProgress(r.decisionId, r.status))
    case StartFailed => TakeLease(FromStartFailed)
    case ProcessingFailed =>
      if IsTerminalConflict(r) then Reply(RespondTerminalConflict(r.decisionId)) else GradeByGate
  }

  /** A row no same-key request ever moves again. */
  predicate IsTerminal(r: Row) {
    r.status.Completed? || IsTerminalConflict(r)
  }
}
