/** The fenced status actions over the repository. */
module StatusActions {
  import opened Options
  import opened Faults
  import opened LeaseRecord
  import opened Expressions
  import opened LeaseTransitions
  import opened Verdicts
  import opened IdempotencyRepository
  import opened DecisionCore
  import opened Json

  datatype Reported = Reported(verdict: Verdict, record: Option<Row>)

  /** What an action without faults reports when nothing happens between its write and its re-read. */
  function Report(before: Option<Row>, u: Update): Reported
    requires IsStatusAction(u)
  {
    var after := Perform(before, u);
    if after.Some? then Reported(Applied, after) else Reported(Classify(u, before), before)
  }

  /**
   An action lets its execution proceed exactly when, after it, the row belongs to this
   execution and attempt and shows the action's target.
   */
  lemma ProceedIffTargetShown(before: Option<Row>, u: Update)
    requires IsStatusAction(u)
    ensures var report := Report(before, u);
      MayProceed(report.verdict) <==>
        && report.record.Some? && report.record.value.executionArn == Some(u.arn)
        && report.record.value.attemptCount == FencingAttempt(u) && TargetReached(u, report.record.value)
  {
    match u
    case InWorkflow(action, _, _, _) =>
      match action {
        case MarkRunning(_) =>
        case MarkCoreCommitted(_) =>
        case MarkCompleted =>
        case MarkProcessingFailed(_, _) =>
      }
    case ReconcileStaleRunning(_, _, _, _, _) =>
  }

  predicate FencingUsable(u: Update)
    requires IsStatusAction(u)
  {
    u.arn != "" && FencingAttempt(u) >= 1
  }

  /**
   One guarded write and, only if its condition failed, one re-read. A fault is always an
   error and never a verdict; every verdict is the truth about the row.
   */
  method ApplyOrConfirm(store: Repository, key: string, u: Update) returns (r: Result<Reported, StoreError>)
    requires store.Valid() && IsStatusAction(u)
    modifies store
    ensures store.Valid()
    ensures key == "" ==> r == Err(Usage(EmptyKey)) && store.rows == old(store.rows)
    ensures key != "" && (u.arn == "" || FencingAttempt(u) < 1) ==>
      r == Err(Usage(BadFencing)) && store.rows == old(store.rows)
    ensures var after := Perform(old(store.RowOf(key)), u);
      || store.rows == old(store.rows)
      || (after.Some? && store.rows == old(store.rows)[key := after.value])
    ensures r.Ok? ==>
      && r.value == Report(old(store.RowOf(key)), u)
      && store.RowOf(key) == r.value.record
    ensures key != "" && FencingUsable(u) && r.Err? ==> r.error == ServiceFault
    ensures key != "" && FencingUsable(u) && old(store.faults) == [] ==> r.Ok? && store.faults == []
  {
    if key == "" {
      return Err(Usage(EmptyKey));
    }
    if !FencingUsable(u) {
      return Err(Usage(BadFencing));
    }
    var written := store.Transition(key, u);
    if written.Ok? {
      return Ok(Reported(Applied, Some(written.value)));
    }
    if written.error != ConditionFailed {
      return Err(written.error);
    }
    var confirmed := store.GetConsistent(key);
    if confirmed.Err? {
      return Err(confirmed.error);
    }
    r := Ok(Reported(Classify(u, confirmed.value), confirmed.value));
  }

  // ----- The terminal branch of an execution --------------------------------

  datatype FailureNotice = FailureNotice(decisionId: string, traceId: string, attempt: int)

  /** What the security team is told: which decision and execution, and what diverged. */
  datatype SecurityAlert = SecurityAlert(
    traceId: string, decisionId: string, key: string, attempt: int, arn: string,
    mismatches: seq<Mismatch>, storedHash: Option<Text>, computedHash: Option<Text>)

  /** The conflict an execution reports. */
  datatype Conflict = Conflict(
    key: string, decisionId: string, traceId: string, arn: string, lease: Lease,
    mismatches: seq<Mismatch>, storedHash: Option<Text>, computedHash: Option<Text>)

  function AlertOf(c: Conflict): SecurityAlert {
    SecurityAlert(c.traceId, c.decisionId, c.key, c.lease.attempt, c.arn, c.mismatches, c.storedHash, c.computedHash)
  }

  function NoticeOf(c: Conflict): FailureNotice {
    FailureNotice(c.decisionId, c.traceId, c.lease.attempt)
  }

  /** The alert and the notice name the decision, the execution and what diverged, as they were reported. */
  lemma AlertShowsConflict(c: Conflict)
    ensures var a, n := AlertOf(c), NoticeOf(c);
      && a.traceId == n.traceId == c.traceId && a.decisionId == n.decisionId == c.decisionId
      && a.attempt == n.attempt == c.lease.attempt && a.key == c.key && a.arn == c.arn
      && a.mismatches == c.mismatches && a.storedHash == c.storedHash && a.computedHash == c.computedHash
  {
  }

  /** The push channel: there may be none, and it may fail. */
  datatype PushChannel = NoChannel | Working | Broken(error: string)

  class Outbox {
    var alerts: seq<SecurityAlert>
    var notices: seq<FailureNotice>

    constructor ()
      ensures alerts == [] && notices == []
    {
      alerts, notices := [], [];
    }
  }

  function ConflictUpdate(arn: string, lease: Lease, clock: Clock): Update {
    InWorkflow(MarkProcessingFailed(CORE_IDENTITY_CONFLICT, true), arn, lease, clock)
  }

  /** Whoever is let through after reporting a conflict sees a terminal row. */
  lemma ReportedConflictIsTerminal(before: Option<Row>, arn: string, lease: Lease, clock: Clock)
    ensures var report := Report(before, ConflictUpdate(arn, lease, clock));
      MayProceed(report.verdict) ==> IsRecordedConflict(report.record)
  {
  }

  /** The terminal write of a conflict. */
  method ReportConflict(store: Repository, key: string, arn: string, lease: Lease, clock: Clock)
    returns (r: Result<Reported, StoreError>)
    requires store.Valid()
    modifies store
    ensures store.Valid()
    ensures var after := Perform(old(store.RowOf(key)), ConflictUpdate(arn, lease, clock));
      || store.rows == old(store.rows)
      || (after.Some? && store.rows == old(store.rows)[key := after.value])
    ensures r.Ok? ==> r.value == Report(old(store.RowOf(key)), ConflictUpdate(arn, lease, clock))
    ensures r.Ok? ==> store.RowOf(key) == r.value.record
    ensures key != "" && FencingUsable(ConflictUpdate(arn, lease, clock)) && old(store.faults) == [] ==> r.Ok?
  {
    r := ApplyOrConfirm(store, key, ConflictUpdate(arn, lease, clock));
  }

  datatype ConflictResult = ConflictResult(statusAction: Reported, failurePushed: bool, publishError: Option<string>)

  predicate IsRecordedConflict(row: Option<Row>) {
    && row.Some? && row.value.status.ProcessingFailed?
    && row.value.lastError == Some(CORE_IDENTITY_CONFLICT) && IsTerminal(row.value)
  }

  /** Who is told of a conflict: nobody when the execution was fenced. */
  method Announce(outbox: Outbox, proceeds: bool, c: Conflict, channel: PushChannel)
    returns (pushed: bool, error: Option<string>)
    modifies outbox
    ensures outbox.alerts == old(outbox.alerts) + (if proceeds then [AlertOf(c)] else [])
    ensures pushed <==> proceeds && channel.Working?
    ensures outbox.notices == old(outbox.notices) + (if pushed then [NoticeOf(c)] else [])
    ensures error == if proceeds && channel.Broken? then Some(channel.error) else None
  {
    pushed := proceeds && channel.Working?;
    error := if proceeds && channel.Broken? then Some(channel.error) else None;
    if proceeds {
      outbox.alerts := outbox.alerts + [AlertOf(c)];
    }
    if pushed {
      outbox.notices := outbox.notices + [NoticeOf(c)];
    }
  }

  /**
   A conflict is first written as terminal. Only an execution that was not fenced alerts and
   announces, and then the row is the terminal conflict it announces. A push that fails is
   reported and changes nothing else. Without faults the conflict of an execution that owns
   the running row is recorded.
   */
  method HandleCoreIdentityConflict(
    store: Repository, outbox: Outbox, c: Conflict, clock: Clock, channel: PushChannel)
    returns (r: Result<ConflictResult, StoreError>)
    requires store.Valid()
    modifies store, outbox
    ensures store.Valid()
    ensures var after := Perform(old(store.RowOf(c.key)), ConflictUpdate(c.arn, c.lease, clock));
      || store.rows == old(store.rows)
      || (after.Some? && store.rows == old(store.rows)[c.key := after.value])
    ensures r.Err? ==> outbox.alerts == old(outbox.alerts) && outbox.notices == old(outbox.notices)
    ensures r.Ok? ==>
      && r.value.statusAction == Report(old(store.RowOf(c.key)), ConflictUpdate(c.arn, c.lease, clock))
      && store.RowOf(c.key) == r.value.statusAction.record
    ensures r.Ok? && MayProceed(r.value.statusAction.verdict) ==>
      IsRecordedConflict(store.RowOf(c.key)) && outbox.alerts == old(outbox.alerts) + [AlertOf(c)]
    ensures r.Ok? && !MayProceed(r.value.statusAction.verdict) ==> outbox.alerts == old(outbox.alerts)
    ensures r.Ok? ==>
      && (r.value.failurePushed <==> MayProceed(r.value.statusAction.verdict) && channel.Working?)
      && outbox.notices == old(outbox.notices) + (if r.value.failurePushed then [NoticeOf(c)] else [])
      && (r.value.publishError.Some? <==> MayProceed(r.value.statusAction.verdict) && channel.Broken?)
      && (r.value.publishError.Some? ==> r.value.publishError == Some(channel.error))
    ensures c.key != "" && FencingUsable(ConflictUpdate(c.arn, c.lease, clock)) && old(store.faults) == [] ==> r.Ok?
  {
    ReportedConflictIsTerminal(store.RowOf(c.key), c.arn, c.lease, clock);
    var action := ReportConflict(store, c.key, c.arn, c.lease, clock);
    if action.Err? {
      return Err(action.error);
    }
    var pushed, error := Announce(outbox, MayProceed(action.value.verdict), c, channel);
    r := Ok(ConflictResult(action.value, pushed, error));
  }

  /**
   The conflict is recorded for this execution exactly when the row belongs to it and its
   attempt and is running, or already shows this very conflict.
   */
  lemma ConflictProceedsIff(row: Row, arn: string, lease: Lease, clock: Clock)
    ensures MayProceed(Report(Some(row), ConflictUpdate(arn, lease, clock)).verdict) <==>
      && row.executionArn == Some(arn) && row.attemptCount == lease.attempt
      && (row.status.Running? || (row.status.ProcessingFailed? && row.lastError == Some(CORE_IDENTITY_CONFLICT)))
  {
  }

  /** The conflict of an execution that owns the running row is recorded, whatever the time. */
  lemma OwnConflictIsRecorded(row: Row, arn: string, lease: Lease, clock: Clock)
    requires row.status.Running? && row.executionArn == Some(arn) && row.attemptCount == lease.attempt
    ensures var report := Report(Some(row), ConflictUpdate(arn, lease, clock));
      report.verdict.Applied? && IsRecordedConflict(report.record)
  {
  }
}
