/** What each table transition asks of the row, what stage it leaves, and which verdict follows, column by column. */
module TransitionLaws {
  import opened Options
  import opened LeaseRecord
  import opened LeaseTransitions
  import opened Verdicts
  import opened StatusActions

  // ----- When a transition happens ------------------------------------------

  /** An execution's own actions happen exactly on the row that is under its lease or its name. */
  lemma ActionHappensIff(r: Row, action: Action, arn: string, lease: Lease, clock: Clock)
    ensures Perform(Some(r), InWorkflow(action, arn, lease, clock)).Some? <==>
      && r.attemptCount == lease.attempt
      && if action.MarkRunning? then
           r.status == Starting && r.leaseOwner == Some(lease.owner) && r.recoveryMode == lease.mode
         else
           r.status == Running && r.executionArn == Some(arn) && (action.MarkCoreCommitted? ==> !r.coreCommitted)
  {
  }

  /** A reconciliation happens exactly on the running row that was observed, past its deadline. */
  lemma ReconciliationHappensIff(r: Row, arn: string, attempt: int, deadline: int, effective: bool, clock: Clock)
    ensures Perform(Some(r), ReconcileStaleRunning(arn, attempt, deadline, effective, clock)).Some? <==>
      && r.status == Running && r.executionArn == Some(arn) && r.attemptCount == attempt
      && r.runningDeadlineAt == Some(deadline) && deadline < clock.now
  {
  }

  /** A re-lease happens exactly on the observed attempt of a failed launch, a retryable failure or an expired lease. */
  lemma ReLeaseHappensIff(
    r: Row, kind: LeaseKind, attempt: int, owner: string, previous: Option<string>, ttl: int, clock: Clock)
    ensures Perform(Some(r), ReacquireLease(kind, attempt, owner, previous, ttl, clock)).Some? <==>
      && r.attemptCount == attempt
      && match kind
         case FromStartFailed => r.status == StartFailed
         case FromProcessingFailed(_) => r.status == ProcessingFailed && r.retryable
         case FromExpiredStarting =>
           r.status == Starting && r.leaseExpiresAt.Some? && r.leaseExpiresAt.value < clock.now
  {
  }

  /** A launch failure is recorded exactly on the row that still waits under that lease. */
  lemma LaunchFailureHappensIff(r: Row, lease: Lease, error: string, retryable: bool, clock: Clock)
    ensures Perform(Some(r), MarkStartFailed(lease, error, retryable, clock)).Some? <==>
      r.status == Starting && r.leaseOwner == Some(lease.owner) && r.attemptCount == lease.attempt
  {
  }

  // ----- The recovery stage -------------------------------------------------

  /**
   A failure leaves the enrichment stage exactly when the core was reported committed; an
   identity conflict leaves none, and is the only failure that cannot be retried.
   */
  lemma FailureStage(r: Row, error: string, effective: bool, arn: string, lease: Lease, clock: Clock)
    requires Perform(Some(r), InWorkflow(MarkProcessingFailed(error, effective), arn, lease, clock)).Some?
    ensures var after := Perform(Some(r), InWorkflow(MarkProcessingFailed(error, effective), arn, lease, clock)).value;
      && after.status == ProcessingFailed && after.lastError == Some(error)
      && (after.recoveryStage == EnrichmentStage <==> error != "CORE_IDENTITY_CONFLICT" && effective)
      && (after.recoveryStage == FullStage <==> error != "CORE_IDENTITY_CONFLICT" && !effective)
      && (after.recoveryStage == NoStage <==> error == "CORE_IDENTITY_CONFLICT")
      && (after.retryable <==> error != "CORE_IDENTITY_CONFLICT")
  {
  }

  lemma ReconciliationStage(r: Row, arn: string, attempt: int, deadline: int, effective: bool, clock: Clock)
    requires Perform(Some(r), ReconcileStaleRunning(arn, attempt, deadline, effective, clock)).Some?
    ensures var after := Perform(Some(r), ReconcileStaleRunning(arn, attempt, deadline, effective, clock)).value;
      && after.status == ProcessingFailed && after.lastError == Some("STALE_RUNNING_EXECUTION") && after.retryable
      && (after.recoveryStage == EnrichmentStage <==> effective) && (after.recoveryStage == FullStage <==> !effective)
  {
  }

  /** A re-lease's stage is that of its mode, and the mode is enrichment exactly for a failure with a committed core. */
  lemma ReLeaseStage(
    r: Row, kind: LeaseKind, attempt: int, owner: string, previous: Option<string>, ttl: int, clock: Clock)
    requires Perform(Some(r), ReacquireLease(kind, attempt, owner, previous, ttl, clock)).Some?
    ensures var after := Perform(Some(r), ReacquireLease(kind, attempt, owner, previous, ttl, clock)).value;
      && (after.recoveryMode == EnrichmentOnly <==> kind.FromProcessingFailed? && kind.effectiveCoreCommitted)
      && (after.recoveryMode == EnrichmentOnly || after.recoveryMode == FullWorkflow)
      && (after.recoveryStage == EnrichmentStage <==> after.recoveryMode == EnrichmentOnly)
      && (after.recoveryStage == FullStage <==> after.recoveryMode == FullWorkflow)
      && after.previousLastError == previous && after.lastError == None
  {
  }

  // ----- Verdicts -----------------------------------------------------------

  /** What each action leads to, as its confirmation reads it off the row. */
  ghost predicate ShowsTarget(r: Row, u: Update)
    requires IsStatusAction(u)
  {
    if u.ReconcileStaleRunning? then r.status == ProcessingFailed && r.lastError == Some("STALE_RUNNING_EXECUTION")
    else
      && (u.action.MarkRunning? ==> r.status == Running)
      && (u.action.MarkCoreCommitted? ==> r.coreCommitted)
      && (u.action.MarkCompleted? ==>
            r.status == Completed && r.completedArn == Some(u.arn) && r.completedAttempt == Some(u.lease.attempt))
      && (u.action.MarkProcessingFailed? ==> r.status == ProcessingFailed && r.lastError == Some(u.action.lastError))
  }

  /** The row belongs to the execution and attempt that act. */
  predicate Owns(r: Row, u: Update)
    requires IsStatusAction(u)
  {
    r.executionArn == Some(u.arn) && r.attemptCount == if u.InWorkflow? then u.lease.attempt else u.attempt
  }

  /** Every verdict, and which one, is told by the row the action found. */
  lemma VerdictIff(before: Option<Row>, u: Update)
    requires IsStatusAction(u)
    ensures var v := Report(before, u).verdict;
      && (v == Applied <==> Perform(before, u).Some?)
      && (v == AlreadyApplied <==>
            Perform(before, u).None? && before.Some? && Owns(before.value, u) && ShowsTarget(before.value, u))
      && (v == Fenced(RecordMissing) <==> before.None?)
      && (v == Fenced(DifferentExecution) <==>
            Perform(before, u).None? && before.Some? && before.value.executionArn != Some(u.arn))
      && (v == Fenced(DifferentAttempt) <==>
            Perform(before, u).None? && before.Some? && before.value.executionArn == Some(u.arn)
            && before.value.attemptCount != if u.InWorkflow? then u.lease.attempt else u.attempt)
      && (v == Fenced(TargetNotReached) <==>
            Perform(before, u).None? && before.Some? && Owns(before.value, u) && !ShowsTarget(before.value, u))
  {
  }

  /** Where only the response was lost, trying again is confirmed and changes nothing. */
  lemma LostResponseIsConfirmed(r: Row, u: Update)
    requires IsStatusAction(u) && Perform(Some(r), u).Some?
    ensures var after := Perform(Some(r), u); Report(after, u) == Reported(AlreadyApplied, after)
  {
  }

  // ----- Routing ------------------------------------------------------------

  /** What the router makes of every row, shaped as reachable rows are or not. */
  lemma TriageIff(r: Row, now: int)
    ensures var t := TriageRow(r, now);
      && (t == Reply(RespondCompleted(r.decisionId)) <==> r.status == Completed)
      && (t == Reply(RespondTerminalConflict(r.decisionId)) <==>
            r.status == ProcessingFailed && (r.lastError == Some("CORE_IDENTITY_CONFLICT") || !r.retryable))
      && (t == GradeByGate <==>
            r.status == ProcessingFailed && r.lastError != Some("CORE_IDENTITY_CONFLICT") && r.retryable)
      && (t == ReconcileStale <==>
            r.status == Running && r.runningDeadlineAt.Some? && r.runningDeadlineAt.value < now)
      && (t == TakeLease(FromExpiredStarting) <==>
            r.status == Starting && r.leaseExpiresAt.Some? && r.leaseExpiresAt.value < now)
      && (t == TakeLease(FromStartFailed) <==> r.status == StartFailed)
      && (t == Reply(RespondInProgress(r.decisionId, r.status)) <==>
            || (r.status == Running && (r.runningDeadlineAt.None? || r.runningDeadlineAt.value >= now))
            || (r.status == Starting && (r.leaseExpiresAt.None? || r.leaseExpiresAt.value >= now)))
  {
  }
}
