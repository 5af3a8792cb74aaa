/** What a guarded status action reports: applied, already applied, or fenced. */
module Verdicts {
  import opened Options
  import opened LeaseRecord
  import opened LeaseTransitions

  datatype FencedReason = RecordMissing | DifferentExecution | DifferentAttempt | TargetNotReached

  datatype Verdict = Applied | AlreadyApplied | Fenced(reason: FencedReason)

  predicate MayProceed(v: Verdict) {
    !v.Fenced?
  }

  /** The five actions that go through apply-or-confirm. */
  predicate IsStatusAction(u: Update) {
    u.InWorkflow? || u.ReconcileStaleRunning?
  }

  /** The attempt half of the fencing pair. */
  function FencingAttempt(u: Update): int
    requires IsStatusAction(u)
  {
    match u
    case InWorkflow(_, _, lease, _) => lease.attempt
    case ReconcileStaleRunning(_, attempt, _, _, _) => attempt
  }

  /** Each action's test that the row already is where the action leads. */
  predicate TargetReached(u: Update, r: Row)
    requires IsStatusAction(u)
  {
    match u
    case InWorkflow(MarkRunning(_), _, _, _) => r.status.Running?
    case InWorkflow(MarkCoreCommitted(_), _, _, _) => r.coreCommitted
    case InWorkflow(MarkCompleted, arn, lease, _) =>
      r.status.Completed? && r.completedArn == Some(arn) && r.completedAttempt == Some(lease.attempt)
    case InWorkflow(MarkProcessingFailed(error, _), _, _, _) => r.status.ProcessingFailed? && r.lastError == Some(error)
    case ReconcileStaleRunning(_, _, _, _, _) =>
      r.status.ProcessingFailed? && r.lastError == Some(STALE_RUNNING_EXECUTION)
  }

  /** The verdict on a row re-read after the guard failed. */
  function Classify(u: Update, reread: Option<Row>): Verdict
    requires IsStatusAction(u)
  {
    if reread.None? then Fenced(RecordMissing)
    else if reread.value.executionArn != Some(u.arn) then Fenced(DifferentExecution)
    else if reread.value.attemptCount != FencingAttempt(u) then Fenced(DifferentAttempt)
    else if !TargetReached(u, reread.value) then Fenced(TargetNotReached)
    else AlreadyApplied
  }
}
