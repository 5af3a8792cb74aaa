/**
 Every conditional update of the idempotency table: its guard, its mutation, and the
 effect of the mutation on the record.
 */
module LeaseTransitions {
  import opened Options
  import opened LeaseRecord
  import opened Expressions

  datatype Clock = Clock(now: int, display: string)

  /** What a lease carries into the workflow's INPUT. */
  datatype Lease = Lease(attempt: int, owner: string, mode: RecoveryMode)

  /** The four in-workflow status actions. */
  datatype Action =
    | MarkRunning(deadlineMs: int)
    | MarkCoreCommitted(evidence: Evidence)
    | MarkCompleted
    | MarkProcessingFailed(lastError: string, effectiveCoreCommitted: bool)

  datatype Update =
    | InWorkflow(action: Action, arn: string, lease: Lease, clock: Clock)
    | ReconcileStaleRunning(arn: string, attempt: int, deadline: int, effectiveCoreCommitted: bool, clock: Clock)
    | ReacquireLease(kind: LeaseKind, attempt: int, owner: string, previousLastError: Option<string>, ttl: int,
      clock: Clock)
    | MarkStartFailed(lease: Lease, lastError: string, retryable: bool, clock: Clock)

  function StageFor(effectiveCoreCommitted: bool): RecoveryStage {
    if effectiveCoreCommitted then EnrichmentStage else FullStage
  }

  function ModeOf(kind: LeaseKind): RecoveryMode {
    if kind == FromProcessingFailed(true) then EnrichmentOnly else FullWorkflow
  }

  function UpdateGuard(u: Update): Guard {
    match u
    case InWorkflow(MarkRunning(_), _, lease, _) =>
      Guard(status := StatusIs(Starting), leaseOwner := Some(lease.owner),
            attemptCount := Some(lease.attempt), recoveryMode := Some(lease.mode))
    case InWorkflow(MarkCoreCommitted(_), arn, lease, _) =>
      Guard(status := StatusIs(Running), executionArn := Some(arn),
            attemptCount := Some(lease.attempt), coreCommitted := Some(false))
    case InWorkflow(_, arn, lease, _) =>
      Guard(status := StatusIs(Running), executionArn := Some(arn), attemptCount := Some(lease.attempt))
    case ReconcileStaleRunning(arn, attempt, deadline, _, clock) =>
      Guard(status := StatusIs(Running), executionArn := Some(arn), attemptCount := Some(attempt),
            deadline := Some(deadline), deadlineBefore := Some(clock.now))
    case ReacquireLease(FromStartFailed, attempt, _, _, _, _) =>
      Guard(status := StatusIs(StartFailed), attemptCount := Some(attempt))
    case ReacquireLease(FromProcessingFailed(_), attempt, _, _, _, _) =>
      Guard(status := StatusIs(ProcessingFailed), retryable := Some(true), attemptCount := Some(attempt))
    case ReacquireLease(FromExpiredStarting, attempt, _, _, _, clock) =>
      Guard(status := StatusIs(Starting), attemptCount := Some(attempt), leaseExpiresBefore := Some(clock.now))
    case MarkStartFailed(lease, _, _, _) =>
      Guard(status := StatusIs(Starting), leaseOwner := Some(lease.owner), attemptCount := Some(lease.attempt))
  }

  function FailureFields(error: string, retryable: bool, stage: RecoveryStage, arn: string, attempt: int, clock: Clock)
    : Fields
  {
    Fields(status := Some(ProcessingFailed), lastError := Some(Some(error)), retryable := Some(retryable),
           recoveryStage := Some(stage), leaseExpiresAt := Some(Some(clock.now)),
           transitionArn := Some(Some(arn)), transitionAttempt := Some(Some(attempt)), updatedAt := Some(clock.display))
  }

  function UpdateMutation(u: Update): Mutation {
    match u
    case InWorkflow(MarkRunning(deadlineMs), arn, lease, clock) =>
      Mutation(Fields(status := Some(Running), executionArn := Some(Some(arn)),
        runningStartedAt := Some(Some(clock.now)), runningDeadlineAt := Some(Some(clock.now + deadlineMs)),
        transitionArn := Some(Some(arn)), transitionAttempt := Some(Some(lease.attempt)),
        updatedAt := Some(clock.display)))
    case InWorkflow(MarkCoreCommitted(evidence), arn, lease, clock) =>
      Mutation(Fields(coreCommitted := Some(true), evidence := Some(Some(evidence)),
        transitionArn := Some(Some(arn)), transitionAttempt := Some(Some(lease.attempt)),
        updatedAt := Some(clock.display)))
    case InWorkflow(MarkCompleted, arn, lease, clock) =>
      Mutation(Fields(status := Some(Completed), completedArn := Some(Some(arn)),
        completedAttempt := Some(Some(lease.attempt)), recoveryStage := Some(NoStage),
        transitionArn := Some(Some(arn)), transitionAttempt := Some(Some(lease.attempt)),
        updatedAt := Some(clock.display)),
        [ALeaseOwner, ADeadline])
    case InWorkflow(MarkProcessingFailed(error, effective), arn, lease, clock) =>
      var terminal := error == CORE_IDENTITY_CONFLICT;
      Mutation(
        FailureFields(error, !terminal, if terminal then NoStage else StageFor(effective), arn, lease.attempt, clock),
        [ALeaseOwner, ADeadline])
    case ReconcileStaleRunning(arn, attempt, _, effective, clock) =>
      Mutation(FailureFields(STALE_RUNNING_EXECUTION, true, StageFor(effective), arn, attempt, clock),
        [ALeaseOwner, ADeadline])
    case ReacquireLease(kind, _, owner, previousLastError, ttl, clock) =>
      Mutation(Fields(status := Some(Starting), leaseOwner := Some(Some(owner)),
        leaseExpiresAt := Some(Some(clock.now + ttl)), recoveryMode := Some(ModeOf(kind)),
        recoveryStage := Some(StageFor(kind == FromProcessingFailed(true))),
        previousLastError := Some(previousLastError), lastError := Some(None),
        retryable := Some(true), updatedAt := Some(clock.display)),
        [AExecutionArn, AStartedAt, ADeadline], Some(1))
    case MarkStartFailed(_, error, retryable, clock) =>
      Mutation(Fields(status := Some(StartFailed), lastError := Some(Some(error)), retryable := Some(retryable),
        leaseExpiresAt := Some(Some(clock.now)), recoveryStage := Some(FullStage), updatedAt := Some(clock.display)))
  }

  function Failed(
    r: Row, error: string, retryable: bool, stage: RecoveryStage, arn: string, attempt: int, clock: Clock
  ): Row
  {
    r.(status := ProcessingFailed, lastError := Some(error), retryable := retryable, recoveryStage := stage,
       leaseExpiresAt := Some(clock.now), leaseOwner := None, runningDeadlineAt := None,
       transitionArn := Some(arn), transitionAttempt := Some(attempt), updatedAt := clock.display)
  }

  /** The record after the update, when its guard holds. */
  function UpdateEffect(u: Update, r: Row): Row {
    match u
    case InWorkflow(MarkRunning(deadlineMs), arn, lease, clock) =>
      r.(status := Running, executionArn := Some(arn), runningStartedAt := Some(clock.now),
         runningDeadlineAt := Some(clock.now + deadlineMs),
         transitionArn := Some(arn), transitionAttempt := Some(lease.attempt), updatedAt := clock.display)
    case InWorkflow(MarkCoreCommitted(evidence), arn, lease, clock) =>
      r.(coreCommitted := true, evidence := Some(evidence),
         transitionArn := Some(arn), transitionAttempt := Some(lease.attempt), updatedAt := clock.display)
    case InWorkflow(MarkCompleted, arn, lease, clock) =>
      r.(status := Completed, completedArn := Some(arn), completedAttempt := Some(lease.attempt),
         recoveryStage := NoStage, leaseOwner := None, runningDeadlineAt := None,
         transitionArn := Some(arn), transitionAttempt := Some(lease.attempt), updatedAt := clock.display)
    case InWorkflow(MarkProcessingFailed(error, effective), arn, lease, clock) =>
      var terminal := error == CORE_IDENTITY_CONFLICT;
      Failed(r, error, !terminal, if terminal then NoStage else StageFor(effective), arn, lease.attempt, clock)
    case ReconcileStaleRunning(arn, attempt, _, effective, clock) =>
      Failed(r, STALE_RUNNING_EXECUTION, true, StageFor(effective), arn, attempt, clock)
    case ReacquireLease(kind, _, owner, previousLastError, ttl, clock) =>
      r.(status := Starting, attemptCount := r.attemptCount + 1, leaseOwner := Some(owner),
         leaseExpiresAt := Some(clock.now + ttl), recoveryMode := ModeOf(kind),
         recoveryStage := StageFor(kind == FromProcessingFailed(true)),
         previousLastError := previousLastError, lastError := None, retryable := true,
         executionArn := None, runningStartedAt := None, runningDeadlineAt := None, updatedAt := clock.display)
    case MarkStartFailed(_, error, retryable, clock) =>
      r.(status := StartFailed, lastError := Some(error), retryable := retryable,
         leaseExpiresAt := Some(clock.now), recoveryStage := FullStage, updatedAt := clock.display)
  }

  /** One guarded write: the new row, or None when there is no row or the guard fails. */
  function Perform(row: Option<Row>, u: Update): Option<Row> {
    if row.Some? && GuardHolds(UpdateGuard(u), row.value) then Some(UpdateEffect(u, row.value)) else None
  }

  // ----- The effect is what the mutation does to the stored item ------------

  function Cleared<T>(m: Mutation, a: Attribute, o: Option<T>): Option<T> {
    if a in m.remove then None else o
  }

  /** The mutation on a record: a removed field reads as null, an undefined entry keeps its field. */
  function ApplyToRow(m: Mutation, r: Row): Row {
    var f := m.assign;
    Row(
      f.idempotencyKey.GetOr(r.idempotencyKey),
      f.decisionId.GetOr(r.decisionId),
      f.status.GetOr(r.status),
      f.attemptCount.GetOr(r.attemptCount + m.increment.GetOr(0)),
      Cleared(m, ALeaseOwner, f.leaseOwner.GetOr(r.leaseOwner)),
      Cleared(m, ALeaseExpiresAt, f.leaseExpiresAt.GetOr(r.leaseExpiresAt)),
      Cleared(m, ALastError, f.lastError.GetOr(r.lastError)),
      f.retryable.GetOr(r.retryable),
      Cleared(m, AExecutionArn, f.executionArn.GetOr(r.executionArn)),
      Cleared(m, AStartedAt, f.runningStartedAt.GetOr(r.runningStartedAt)),
      Cleared(m, ADeadline, f.runningDeadlineAt.GetOr(r.runningDeadlineAt)),
      Cleared(m, ACompletedArn, f.completedArn.GetOr(r.completedArn)),
      Cleared(m, ACompletedAttempt, f.completedAttempt.GetOr(r.completedAttempt)),
      Cleared(m, ATransitionArn, f.transitionArn.GetOr(r.transitionArn)),
      Cleared(m, ATransitionAttempt, f.transitionAttempt.GetOr(r.transitionAttempt)),
      Cleared(m, AEvidence, f.evidence.GetOr(r.evidence)),
      f.coreCommitted.GetOr(r.coreCommitted),
      f.recoveryStage.GetOr(r.recoveryStage),
      f.recoveryMode.GetOr(r.recoveryMode),
      Cleared(m, APreviousError, f.previousLastError.GetOr(r.previousLastError)),
      f.createdAt.GetOr(r.createdAt),
      f.updatedAt.GetOr(r.updatedAt),
      f.expiresAt.GetOr(r.expiresAt))
  }

  lemma ProgressApplies(u: Update, r: Row)
    requires u.InWorkflow? && (u.action.MarkRunning? || u.action.MarkCoreCommitted?)
    ensures ApplyToRow(UpdateMutation(u), r) == UpdateEffect(u, r)
  {
  }

  lemma CompletionApplies(u: Update, r: Row)
    requires u.InWorkflow? && u.action.MarkCompleted?
    ensures ApplyToRow(UpdateMutation(u), r) == UpdateEffect(u, r)
  {
  }

  lemma FailureApplies(
    error: string, retryable: bool, stage: RecoveryStage, arn: string, attempt: int, clock: Clock, r: Row)
    ensures
      var fields := FailureFields(error, retryable, stage, arn, attempt, clock);
      ApplyToRow(Mutation(fields, [ALeaseOwner, ADeadline]), r)
      == Failed(r, error, retryable, stage, arn, attempt, clock)
  {
  }

  lemma LeaseApplies(u: Update, r: Row)
    requires u.ReacquireLease? || u.MarkStartFailed?
    ensures ApplyToRow(UpdateMutation(u), r) == UpdateEffect(u, r)
  {
  }

  /** On records, each update's mutation is its effect. */
  lemma EffectAppliesMutation(u: Update, r: Row)
    ensures ApplyToRow(UpdateMutation(u), r) == UpdateEffect(u, r)
  {
    match u
    case InWorkflow(MarkProcessingFailed(error, effective), arn, lease, clock) =>
      var terminal := error == CORE_IDENTITY_CONFLICT;
      FailureApplies(error, !terminal, if terminal then NoStage else StageFor(effective), arn, lease.attempt, clock, r);
    case InWorkflow(MarkCompleted, _, _, _) => CompletionApplies(u, r);
    case InWorkflow(_, _, _, _) => ProgressApplies(u, r);
    case ReconcileStaleRunning(arn, attempt, _, effective, clock) =>
      FailureApplies(STALE_RUNNING_EXECUTION, true, StageFor(effective), arn, attempt, clock, r);
    case ReacquireLease(_, _, _, _, _, _) => LeaseApplies(u, r);
    case MarkStartFailed(_, _, _, _) => LeaseApplies(u, r);
  }

  lemma MutatedText(m: Mutation, item: Item, a: Attribute)
    requires KindOf(a) == KText
    ensures TextOf(Mutated(m, item), a) == Cleared(m, a, TextSetting(m.assign, a).GetOr(TextOf(item, a)))
  {
  }

  lemma MutatedNumber(m: Mutation, item: Item, a: Attribute)
    requires KindOf(a) == KNumber && a != AAttemptCount
    ensures NumberOf(Mutated(m, item), a) == Cleared(m, a, NumberSetting(m.assign, a).GetOr(NumberOf(item, a)))
  {
  }

  /** How the columns of `i` follow from those of `item` under the mutation. */
  ghost predicate TextsFollow(m: Mutation, item: Item, i: Item) {
    forall a :: KindOf(a) == KText ==> TextOf(i, a) == Cleared(m, a, TextSetting(m.assign, a).GetOr(TextOf(item, a)))
  }

  ghost predicate NumbersFollow(m: Mutation, item: Item, i: Item) {
    && (forall a :: KindOf(a) == KNumber && a != AAttemptCount ==>
          NumberOf(i, a) == Cleared(m, a, NumberSetting(m.assign, a).GetOr(NumberOf(item, a))))
    && NumberOf(i, AAttemptCount)
      == Some(m.assign.attemptCount.GetOr(GetNumber(item, AAttemptCount) + m.increment.GetOr(0)))
  }

  ghost predicate OthersFollow(m: Mutation, item: Item, i: Item) {
    && GetStatus(i) == m.assign.status.GetOr(GetStatus(item))
    && GetMode(i) == m.assign.recoveryMode.GetOr(GetMode(item))
    && GetStage(i) == m.assign.recoveryStage.GetOr(GetStage(item))
    && GetFlag(i, ARetryable) == m.assign.retryable.GetOr(GetFlag(item, ARetryable))
    && GetFlag(i, ACoreCommitted) == m.assign.coreCommitted.GetOr(GetFlag(item, ACoreCommitted))
    && EvidenceOf(i) == Cleared(m, AEvidence, m.assign.evidence.GetOr(EvidenceOf(item)))
  }

  lemma MutatedTextsFollow(m: Mutation, item: Item)
    ensures TextsFollow(m, item, Mutated(m, item))
  {
    forall a | KindOf(a) == KText
      ensures TextOf(Mutated(m, item), a) == Cleared(m, a, TextSetting(m.assign, a).GetOr(TextOf(item, a)))
    {
      MutatedText(m, item, a);
    }
  }

  lemma MutatedAttempt(m: Mutation, item: Item)
    requires Typed(item) && ClearsNullables(m)
    ensures NumberOf(Mutated(m, item), AAttemptCount)
            == Some(m.assign.attemptCount.GetOr(GetNumber(item, AAttemptCount) + m.increment.GetOr(0)))
  {
  }

  lemma MutatedNumbersFollow(m: Mutation, item: Item)
    requires Typed(item) && ClearsNullables(m)
    ensures NumbersFollow(m, item, Mutated(m, item))
  {
    MutatedAttempt(m, item);
    forall a | KindOf(a) == KNumber && a != AAttemptCount
      ensures NumberOf(Mutated(m, item), a) == Cleared(m, a, NumberSetting(m.assign, a).GetOr(NumberOf(item, a)))
    {
      MutatedNumber(m, item, a);
    }
  }

  lemma MutatedFlags(m: Mutation, item: Item)
    requires ClearsNullables(m)
    ensures var i := Mutated(m, item);
      && GetFlag(i, ARetryable) == m.assign.retryable.GetOr(GetFlag(item, ARetryable))
      && GetFlag(i, ACoreCommitted) == m.assign.coreCommitted.GetOr(GetFlag(item, ACoreCommitted))
  {
  }

  lemma MutatedEnums(m: Mutation, item: Item)
    requires ClearsNullables(m)
    ensures var i := Mutated(m, item);
      && GetStatus(i) == m.assign.status.GetOr(GetStatus(item))
      && GetMode(i) == m.assign.recoveryMode.GetOr(GetMode(item))
  {
  }

  lemma MutatedStage(m: Mutation, item: Item)
    requires ClearsNullables(m)
    ensures GetStage(Mutated(m, item)) == m.assign.recoveryStage.GetOr(GetStage(item))
  {
  }

  lemma MutatedEvidence(m: Mutation, item: Item)
    requires ClearsNullables(m)
    ensures EvidenceOf(Mutated(m, item)) == Cleared(m, AEvidence, m.assign.evidence.GetOr(EvidenceOf(item)))
  {
  }

  lemma TextColumnsFollow(m: Mutation, item: Item, i: Item)
    requires TextsFollow(m, item, i) && ClearsNullables(m)
    ensures var f := m.assign;
      && TextOf(i, AKey) == Present(f.idempotencyKey).GetOr(TextOf(item, AKey))
      && TextOf(i, ADecisionId) == Present(f.decisionId).GetOr(TextOf(item, ADecisionId))
      && TextOf(i, ALeaseOwner) == Cleared(m, ALeaseOwner, f.leaseOwner.GetOr(TextOf(item, ALeaseOwner)))
      && TextOf(i, ALastError) == Cleared(m, ALastError, f.lastError.GetOr(TextOf(item, ALastError)))
      && TextOf(i, APreviousError)
         == Cleared(m, APreviousError, f.previousLastError.GetOr(TextOf(item, APreviousError)))
  {
  }

  lemma ExecutionTextColumnsFollow(m: Mutation, item: Item, i: Item)
    requires TextsFollow(m, item, i) && ClearsNullables(m)
    ensures var f := m.assign;
      && TextOf(i, AExecutionArn) == Cleared(m, AExecutionArn, f.executionArn.GetOr(TextOf(item, AExecutionArn)))
      && TextOf(i, ACompletedArn) == Cleared(m, ACompletedArn, f.completedArn.GetOr(TextOf(item, ACompletedArn)))
      && TextOf(i, ATransitionArn) == Cleared(m, ATransitionArn, f.transitionArn.GetOr(TextOf(item, ATransitionArn)))
  {
  }

  lemma DisplayColumnsFollow(m: Mutation, item: Item, i: Item)
    requires TextsFollow(m, item, i) && ClearsNullables(m)
    ensures var f := m.assign;
      && TextOf(i, ACreatedAt) == Present(f.createdAt).GetOr(TextOf(item, ACreatedAt))
      && TextOf(i, AUpdatedAt) == Present(f.updatedAt).GetOr(TextOf(item, AUpdatedAt))
  {
  }

  ghost predicate NumberColumnsKept(m: Mutation, item: Item, i: Item) {
    var f := m.assign;
    && NumberOf(i, AAttemptCount) == Some(f.attemptCount.GetOr(GetNumber(item, AAttemptCount) + m.increment.GetOr(0)))
    && NumberOf(i, ALeaseExpiresAt)
      == Cleared(m, ALeaseExpiresAt, f.leaseExpiresAt.GetOr(NumberOf(item, ALeaseExpiresAt)))
    && NumberOf(i, AStartedAt) == Cleared(m, AStartedAt, f.runningStartedAt.GetOr(NumberOf(item, AStartedAt)))
    && NumberOf(i, ADeadline) == Cleared(m, ADeadline, f.runningDeadlineAt.GetOr(NumberOf(item, ADeadline)))
    && NumberOf(i, ACompletedAttempt)
       == Cleared(m, ACompletedAttempt, f.completedAttempt.GetOr(NumberOf(item, ACompletedAttempt)))
    && NumberOf(i, ATransitionAttempt)
       == Cleared(m, ATransitionAttempt, f.transitionAttempt.GetOr(NumberOf(item, ATransitionAttempt)))
    && NumberOf(i, AExpiresAt) == Present(f.expiresAt).GetOr(NumberOf(item, AExpiresAt))
  }

  lemma NumberColumnsFollow(m: Mutation, item: Item, i: Item)
    requires NumbersFollow(m, item, i) && ClearsNullables(m)
    ensures NumberColumnsKept(m, item, i)
  {
  }

  lemma PlainColumnsPresent(item: Item)
    requires Typed(item)
    ensures TextOf(item, AKey).Some? && TextOf(item, ADecisionId).Some?
    ensures TextOf(item, ACreatedAt).Some? && TextOf(item, AUpdatedAt).Some?
    ensures NumberOf(item, AExpiresAt).Some?
  {
    assert HasType(AKey, item[AKey]) && HasType(ADecisionId, item[ADecisionId]);
    assert HasType(ACreatedAt, item[ACreatedAt]) && HasType(AUpdatedAt, item[AUpdatedAt]);
    assert HasType(AExpiresAt, item[AExpiresAt]);
  }

  lemma TextColumnsApplied(m: Mutation, item: Item, i: Item)
    requires TextsFollow(m, item, i) && ClearsNullables(m) && Typed(item)
    ensures TextColumnsAgree(i, ApplyToRow(m, View(item)))
  {
    TextColumnsFollow(m, item, i);
    ExecutionTextColumnsFollow(m, item, i);
    DisplayColumnsFollow(m, item, i);
    PlainColumnsPresent(item);
  }

  lemma NumberColumnsApplied(m: Mutation, item: Item, i: Item)
    requires NumberColumnsKept(m, item, i) && NumberOf(item, AExpiresAt).Some?
    ensures NumberColumnsAgree(i, ApplyToRow(m, View(item)))
  {
  }

  lemma OtherColumnsApplied(m: Mutation, item: Item, i: Item)
    requires OthersFollow(m, item, i)
    ensures OtherColumnsAgree(i, ApplyToRow(m, View(item)))
  {
  }

  lemma ColumnsFollow(m: Mutation, item: Item, i: Item)
    requires TextsFollow(m, item, i) && NumbersFollow(m, item, i) && OthersFollow(m, item, i) && ClearsNullables(m)
    requires Typed(item)
    ensures View(i) == ApplyToRow(m, View(item))
  {
    TextColumnsApplied(m, item, i);
    NumberColumnsFollow(m, item, i);
    PlainColumnsPresent(item);
    NumberColumnsApplied(m, item, i);
    OtherColumnsApplied(m, item, i);
    ColumnsDetermineView(i, ApplyToRow(m, View(item)));
  }

  lemma MutatedFollows(m: Mutation, item: Item)
    requires Typed(item) && ClearsNullables(m)
    ensures var i := Mutated(m, item); TextsFollow(m, item, i) && NumbersFollow(m, item, i) && OthersFollow(m, item, i)
  {
    MutatedTextsFollow(m, item);
    MutatedNumbersFollow(m, item);
    MutatedFlags(m, item);
    MutatedEnums(m, item);
    MutatedStage(m, item);
    MutatedEvidence(m, item);
  }

  /** The stored item after a mutation reads as the mutated record. */
  lemma MutationOnRecord(m: Mutation, item: Item)
    requires Typed(item) && ClearsNullables(m)
    ensures Typed(Mutated(m, item)) && View(Mutated(m, item)) == ApplyToRow(m, View(item))
  {
    MutatedIsTyped(m, item);
    MutatedFollows(m, item);
    ColumnsFollow(m, item, Mutated(m, item));
  }

  lemma UpdateWritesNothingTwice(u: Update)
    ensures var m := UpdateMutation(u);
      && AKey !in WrittenAttributes(m)
      && (m.increment.Some? ==> AAttemptCount !in Assigned(m))
      && forall a :: a in m.remove ==> a !in WrittenAttributes(m)
  {
    if u.ReacquireLease? {
      assert Entry(UpdateMutation(u).assign, AExecutionArn).None?;
    }
  }

  /** No update is a usage error, whatever its arguments. */
  lemma UpdatesAreUsable(u: Update)
    ensures MutationProblem(UpdateMutation(u)).None? && GuardProblem(UpdateGuard(u)).None?
    ensures ClearsNullables(UpdateMutation(u)) && Distinct(UpdateMutation(u).remove)
  {
    UpdateWritesNothingTwice(u);
    var m := UpdateMutation(u);
    assert (if u.InWorkflow? && u.action.MarkCoreCommitted? then ACoreCommitted else AStatus) in WrittenAttributes(m);
  }
}
