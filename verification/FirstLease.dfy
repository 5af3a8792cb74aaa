/** The first lease of a key, and the launch of its execution. */
module FirstLease {
  import opened Options
  import opened LeaseRecord
  import opened Expressions
  import opened LeaseTransitions
  import opened IdempotencyRepository
  import opened InjectionKeys
  import opened LeaseProtocol
  import opened LeaseInvariants

  datatype FirstLeaseInput = FirstLeaseInput(
    parts: KeyParts, owner: string, clock: Clock, leaseTtl: int, recordTtl: int, mode: RecoveryMode,
    stage: RecoveryStage)

  datatype FirstLeaseError = BadLeaseInput | BadKey(keyError: KeyError) | Store(storeError: StoreError)

  /** The source's floor of a quotient by 1000 is Dafny's division: the divisor is positive. */
  function Seconds(ms: int): int {
    ms / 1000
  }

  function BuildFirstLeaseRecord(i: FirstLeaseInput, digest: string -> string): Result<Row, FirstLeaseError>
    requires DeriveIdempotencyKey(i.parts).Ok? ==> IsDigest(digest, DeriveIdempotencyKey(i.parts).value)
  {
    if i.owner == "" || i.clock.display == "" || i.leaseTtl <= 0 || i.recordTtl <= 0 then Err(BadLeaseInput)
    else
      var key := DeriveIdempotencyKey(i.parts);
      if key.Err? then Err(BadKey(key.error))
      else
        var id := DeriveDecisionId(key.value, digest);
        if id.Err? then Err(BadKey(id.error))
        else
          Ok(Row(key.value, id.value, Starting, 1, Some(i.owner), Some(i.clock.now + i.leaseTtl), None, true,
                 None, None, None, None, None, None, None, None, false, i.stage, i.mode, None,
                 i.clock.display, i.clock.display, Seconds(i.clock.now + i.recordTtl)))
  }

  /**
   * A record is built exactly for usable inputs; it is the starting record of attempt 1, unexpired until its
   * lease ends.
   */
  lemma FirstRecordIsFresh(i: FirstLeaseInput, digest: string -> string)
    requires DeriveIdempotencyKey(i.parts).Ok? ==> IsDigest(digest, DeriveIdempotencyKey(i.parts).value)
    ensures var r := BuildFirstLeaseRecord(i, digest);
      && (r.Ok? <==> i.owner != "" && i.clock.display != "" && i.leaseTtl > 0 && i.recordTtl > 0 && ValidParts(i.parts))
      && (r == Err(BadLeaseInput) <==>
            i.owner == "" || i.clock.display == "" || i.leaseTtl <= 0 || i.recordTtl <= 0)
      && (r.Err? && r.error.BadKey? ==> DeriveIdempotencyKey(i.parts) == Err(r.error.keyError))
      && (r.Err? ==> !r.error.Store?)
      && (r.Ok? ==> ParseIdempotencyKey(r.value.idempotencyKey) == Some(i.parts) && r.value.decisionId != "")
      && (r.Ok? ==> forall now :: IsStartingLeaseExpired(r.value, now) <==> now > i.clock.now + i.leaseTtl)
      && (r.Ok? ==> TriageRow(r.value, i.clock.now) == Reply(RespondInProgress(r.value.decisionId, Starting)))
  {
    ParseInvertsDerive(i.parts);
  }

  /** The record of a first injection is the row the protocol starts from. */
  lemma FirstRecordStartsProtocol(i: FirstLeaseInput, digest: string -> string)
    requires DeriveIdempotencyKey(i.parts).Ok? ==> IsDigest(digest, DeriveIdempotencyKey(i.parts).value)
    requires BuildFirstLeaseRecord(i, digest).Ok?
    ensures var r := BuildFirstLeaseRecord(i, digest).value;
      var first := FirstRow(r.idempotencyKey, r.decisionId, i.owner, i.clock, i.leaseTtl, r.expiresAt);
      && r == first.(recoveryMode := i.mode, recoveryStage := i.stage)
      && (i.mode == Normal && i.stage == NoStage ==> r == first && Shaped(r))
      && r.expiresAt * 1000 <= i.clock.now + i.recordTtl < (r.expiresAt + 1) * 1000
  {
  }

  datatype FirstLeaseOutcome = LeaseAcquired(row: Row) | KeyAlreadyExists(key: string, decisionId: string)

  /** Exactly the request that finds the key free gets its first lease; the others are told to route. */
  method AcquireFirstLease(repository: Repository, i: FirstLeaseInput, digest: string -> string)
    returns (r: Result<FirstLeaseOutcome, FirstLeaseError>)
    requires repository.Valid()
    requires DeriveIdempotencyKey(i.parts).Ok? ==> IsDigest(digest, DeriveIdempotencyKey(i.parts).value)
    modifies repository
    ensures repository.Valid()
    ensures BuildFirstLeaseRecord(i, digest).Err? ==>
      r == Err(BuildFirstLeaseRecord(i, digest).error) && repository.rows == old(repository.rows)
    ensures BuildFirstLeaseRecord(i, digest).Ok? ==>
      var row := BuildFirstLeaseRecord(i, digest).value;
      && (r.Ok? ==> r.value == if row.idempotencyKey in old(repository.rows)
                               then KeyAlreadyExists(row.idempotencyKey, row.decisionId) else LeaseAcquired(row))
      && (r.Ok? && r.value.LeaseAcquired? ==> repository.rows == old(repository.rows)[row.idempotencyKey := row])
      && (r.Ok? && r.value.KeyAlreadyExists? ==> repository.rows == old(repository.rows))
      && (row.idempotencyKey in old(repository.rows) ==> repository.rows == old(repository.rows))
      && (old(repository.faults) == [] ==> r.Ok?)
      && (r.Err? ==> r.error == Store(ServiceFault))
      && (repository.rows == old(repository.rows)
          || repository.rows == old(repository.rows)[row.idempotencyKey := row])
  {
    var record := BuildFirstLeaseRecord(i, digest);
    if record.Err? {
      return Err(record.error);
    }
    KeyIsNotEmpty(i, digest);
    var written := repository.ConditionalPutNew(record.value);
    if written.Ok? {
      return Ok(LeaseAcquired(written.value));
    }
    if written.error == ConditionFailed {
      return Ok(KeyAlreadyExists(record.value.idempotencyKey, record.value.decisionId));
    }
    r := Err(Store(written.error));
  }

  lemma KeyIsNotEmpty(i: FirstLeaseInput, digest: string -> string)
    requires DeriveIdempotencyKey(i.parts).Ok? ==> IsDigest(digest, DeriveIdempotencyKey(i.parts).value)
    requires BuildFirstLeaseRecord(i, digest).Ok?
    ensures BuildFirstLeaseRecord(i, digest).value.idempotencyKey != ""
  {
  }

  // ----- Launching ----------------------------------------------------------

  /** What StartExecution answers. */
  datatype StartAnswer = Started(arn: string) | StartedWithoutArn | AlreadyExists
    | StartError(name: string, transient: bool)

  datatype LaunchResult = LaunchStarted(name: string, arn: string) | LaunchAlreadyStarted(name: string)

  datatype LaunchError = LaunchUsage | WorkflowStartFailed

  /** The failure a launch records, if it fails: the error text and whether it is worth retrying. */
  function LaunchFailure(configured: bool, answer: StartAnswer): Option<(string, bool)> {
    if !configured then Some(("STATE_MACHINE_ARN_NOT_CONFIGURED", false))
    else
      match answer
      case Started(_) => None
      case AlreadyExists => None
      case StartedWithoutArn => Some(("START_EXECUTION_MISSING_ARN", true))
      case StartError(name, transient) =>
        Some((if name == "" then "START_EXECUTION_FAILED" else "START_EXECUTION_FAILED:" + name, transient))
  }

  /** Which answers are failures, and what the row then says. */
  lemma LaunchFailureIff(configured: bool, answer: StartAnswer)
    ensures var failure := LaunchFailure(configured, answer);
      && (failure.None? <==> configured && (answer.Started? || answer.AlreadyExists?))
      && (!configured ==> failure == Some(("STATE_MACHINE_ARN_NOT_CONFIGURED", false)))
      && (configured && answer.StartedWithoutArn? ==> failure == Some(("START_EXECUTION_MISSING_ARN", true)))
      && (configured && answer.StartError? && answer.name == "" ==>
            failure == Some(("START_EXECUTION_FAILED", answer.transient)))
      && (configured && answer.StartError? && answer.name != "" ==>
            failure == Some(("START_EXECUTION_FAILED:" + answer.name, answer.transient)))
  {
  }

  /**
   Starts the execution of a lease. A real failure marks the row start_failed, if it still
   is that lease, and is reported whatever becomes of the write; an execution that already
   exists is success and leaves the row alone.
   */
  method Launch(
    repository: Repository, key: string, decisionId: string, lease: Lease, clock: Clock, configured: bool,
    answer: StartAnswer, digest: string -> string, show: int -> string)
    returns (r: Result<LaunchResult, LaunchError>)
    requires repository.Valid()
    requires IsDigest(digest, key + "#" + show(lease.attempt))
    modifies repository
    ensures repository.Valid()
    ensures var named := key != "" && decisionId != "" && lease.owner != ""
        && DeriveExecutionName(key, lease.attempt, digest, show).Ok?;
      && (!named ==> r == Err(LaunchUsage) && repository.rows == old(repository.rows))
      && (named ==>
            var failure := LaunchFailure(configured, answer);
            && (failure.None? ==> repository.rows == old(repository.rows))
            && (failure.None? ==>
                  var name := DeriveExecutionName(key, lease.attempt, digest, show).value;
                  r == Ok(if answer.Started? then LaunchStarted(name, answer.arn) else LaunchAlreadyStarted(name)))
            && (failure.Some? ==> r == Err(WorkflowStartFailed)))
    ensures r == Err(WorkflowStartFailed) ==>
      var failure := LaunchFailure(configured, answer).value;
      var after := Perform(old(repository.RowOf(key)), MarkStartFailed(lease, failure.0, failure.1, clock));
      && (repository.rows == old(repository.rows)
          || (after.Some? && repository.rows == old(repository.rows)[key := after.value]))
      && (old(repository.faults) == [] && after.Some? ==> repository.rows == old(repository.rows)[key := after.value])
  {
    if key == "" || decisionId == "" || lease.owner == "" {
      return Err(LaunchUsage);
    }
    var name := DeriveExecutionName(key, lease.attempt, digest, show);
    if name.Err? {
      return Err(LaunchUsage);
    }
    var failure := LaunchFailure(configured, answer);
    if failure.Some? {
      var ignored := repository.Transition(key, MarkStartFailed(lease, failure.value.0, failure.value.1, clock));
      return Err(WorkflowStartFailed);
    }
    r := Ok(if answer.Started? then LaunchStarted(name.value, answer.arn) else LaunchAlreadyStarted(name.value));
  }
}
