/**
 How one request for a key is handled: the first lease, the re-leases, the stale
 orchestration and the router, each over the repository.
 */
module SameKeyRouter {
  import opened Options
  import opened LeaseRecord
  import opened Expressions
  import opened LeaseTransitions
  import opened Verdicts
  import opened IdempotencyRepository
  import opened DecisionCoreRepository
  import opened RecoveryJudgement
  import opened RecoveryGate
  import opened StatusActions
  import Json

  // ----- What a request run alone does --------------------------------------

  /** A request's lease input. */
  datatype Claim = Claim(owner: string, clock: Clock, ttl: int)

  function LeaseUpdate(kind: LeaseKind, attempt: int, previous: Option<string>, c: Claim): Update {
    ReacquireLease(kind, attempt, c.owner, previous, c.ttl, c.clock)
  }

  function LeaseOutcome(row: Row, kind: LeaseKind, attempt: int, previous: Option<string>, c: Claim)
    : (Answer, Option<Row>)
  {
    var after := Perform(Some(row), LeaseUpdate(kind, attempt, previous, c));
    if after.Some? then (RecoveredRetryStart(row.decisionId, ModeOf(kind)), after)
    else (RaceLost(row.decisionId), Some(row))
  }

  function StaleUpdate(g: GateResult, c: Claim): Update
    requires g.expectedArn.Some? && g.expectedAttempt.Some? && g.observedDeadline.Some?
  {
    ReconcileStaleRunning(g.expectedArn.value, g.expectedAttempt.value, g.observedDeadline.value,
                          g.effectiveCoreCommitted, c.clock)
  }

  /** Gate, then reconcile, then re-lease. */
  function StaleOutcome(row: Row, g: GateResult, c: Claim): (Answer, Option<Row>) {
    if g.expectedArn.None? || g.expectedAttempt.None? || g.observedDeadline.None? then
      (RaceLost(row.decisionId), Some(row))
    else
      var report := Report(Some(row), StaleUpdate(g, c));
      if !MayProceed(report.verdict) || report.record.None? then (RaceLost(row.decisionId), Some(row))
      else
        LeaseOutcome(report.record.value, FromProcessingFailed(g.effectiveCoreCommitted), g.expectedAttempt.value,
                     report.record.value.lastError, c)
  }

  /** The answer to a same-key request that nothing interferes with, and the row it leaves. */
  function RowOutcome(row: Row, g: GateResult, c: Claim): (Answer, Option<Row>) {
    match TriageRow(row, c.clock.now)
    case Reply(answer) => (answer, Some(row))
    case TakeLease(kind) => LeaseOutcome(row, kind, row.attemptCount, row.lastError, c)
    case GradeByGate =>
      LeaseOutcome(row, FromProcessingFailed(g.effectiveCoreCommitted), row.attemptCount, row.lastError, c)
    case ReconcileStale => StaleOutcome(row, g, c)
  }

  // ----- Lease acquisition --------------------------------------------------

  predicate ClaimUsable(key: string, attempt: int, c: Claim) {
    key != "" && c.owner != "" && attempt >= 1 && c.ttl > 0
  }

  /** The two tables agree on every other key. */
  ghost predicate OthersKept(rows: map<string, Row>, rows': map<string, Row>, key: string) {
    rows' - {key} == rows - {key}
  }

  lemma WriteKeepsOthers(rows: map<string, Row>, key: string, row: Row)
    ensures OthersKept(rows, rows[key := row], key)
  {
    assert rows[key := row] - {key} == rows - {key};
  }

  /** A re-lease: the row after winning, or None when another request was faster. */
  method ReacquireLeaseOf(
    repository: Repository, key: string, kind: LeaseKind, attempt: int, previous: Option<string>, c: Claim)
    returns (r: Result<Option<Row>, StoreError>)
    requires repository.Valid()
    modifies repository
    ensures repository.Valid()
    ensures key == "" || c.owner == "" || attempt < 1 || c.ttl <= 0 ==>
      r == Err(Usage(BadRecoveryInput)) && repository.rows == old(repository.rows)
    ensures var after := Perform(old(repository.RowOf(key)), LeaseUpdate(kind, attempt, previous, c));
      repository.RowOf(key) == old(repository.RowOf(key)) || (after.Some? && repository.RowOf(key) == after)
    ensures r.Ok? ==>
      var after := Perform(old(repository.RowOf(key)), LeaseUpdate(kind, attempt, previous, c));
      r.value == after && repository.RowOf(key) == if after.Some? then after else old(repository.RowOf(key))
    ensures key != "" && c.owner != "" && attempt >= 1 && c.ttl > 0 && old(repository.faults) == [] ==>
      r.Ok? && repository.faults == []
    ensures key != "" && c.owner != "" && attempt >= 1 && c.ttl > 0 && r.Err? ==> r.error == ServiceFault
    ensures OthersKept(old(repository.rows), repository.rows, key)
  {
    if !ClaimUsable(key, attempt, c) {
      return Err(Usage(BadRecoveryInput));
    }
    var u := LeaseUpdate(kind, attempt, previous, c);
    ghost var after := Perform(repository.RowOf(key), u);
    if after.Some? {
      WriteKeepsOthers(repository.rows, key, after.value);
    }
    var written := repository.Transition(key, u);
    if written.Ok? {
      return Ok(Some(written.value));
    }
    if written.error == ConditionFailed {
      return Ok(None);
    }
    r := Err(written.error);
  }

  /** The answer of a request that tries for a lease. */
  method AnswerWithLease(
    repository: Repository, key: string, decisionId: string, kind: LeaseKind, attempt: int, previous: Option<string>,
    c: Claim, ghost row: Row)
    returns (r: Result<Answer, StoreError>)
    requires repository.Valid() && repository.RowOf(key) == Some(row) && row.decisionId == decisionId
    modifies repository
    ensures repository.Valid() && OthersKept(old(repository.rows), repository.rows, key)
    ensures r.Ok? ==> (r.value, repository.RowOf(key)) == LeaseOutcome(row, kind, attempt, previous, c)
    ensures repository.RowOf(key) == Some(row)
      || repository.RowOf(key) == LeaseOutcome(row, kind, attempt, previous, c).1
    ensures ClaimUsable(key, attempt, c) && old(repository.faults) == [] ==> r.Ok?
    ensures ClaimUsable(key, attempt, c) && r.Err? ==> r.error == ServiceFault
  {
    var lease := ReacquireLeaseOf(repository, key, kind, attempt, previous, c);
    if lease.Err? {
      return Err(lease.error);
    }
    r := Ok(if lease.value.Some? then RecoveredRetryStart(decisionId, ModeOf(kind)) else RaceLost(decisionId));
  }

  // ----- Stale orchestration ------------------------------------------------

  lemma ReconciliationKeepsDecision(row: Row, u: Update)
    requires u.ReconcileStaleRunning? && Report(Some(row), u).record.Some?
    ensures Report(Some(row), u).record.value.decisionId == row.decisionId
  {
  }

  /** The reconciling write and, unless it is fenced, the row it leads to. */
  method ReconcileStale(repository: Repository, key: string, u: Update, ghost row: Row)
    returns (r: Result<Reported, StoreError>)
    requires repository.Valid() && repository.RowOf(key) == Some(row) && u.ReconcileStaleRunning?
    modifies repository
    ensures repository.Valid() && OthersKept(old(repository.rows), repository.rows, key)
    ensures r.Ok? ==> r.value == Report(Some(row), u) && repository.RowOf(key) == r.value.record
    ensures repository.RowOf(key) == Some(row) || repository.RowOf(key) == Report(Some(row), u).record
    ensures r.Ok? ==> r.value.record.Some? && r.value.record.value.decisionId == row.decisionId
    ensures key != "" && FencingUsable(u) && old(repository.faults) == [] ==> r.Ok? && repository.faults == []
    ensures key != "" && FencingUsable(u) && r.Err? ==> r.error == ServiceFault
  {
    ghost var after := Perform(repository.RowOf(key), u);
    if after.Some? {
      WriteKeepsOthers(repository.rows, key, after.value);
    }
    r := ApplyOrConfirm(repository, key, u);
    if r.Ok? {
      ReconciliationKeepsDecision(row, u);
    }
  }

  lemma FencedKeepsRow(row: Row, u: Update)
    requires IsStatusAction(u) && !MayProceed(Report(Some(row), u).verdict)
    ensures Report(Some(row), u).record == Some(row)
  {
  }

  predicate TermsUsable(g: GateResult) {
    (g.expectedArn.Some? ==> g.expectedArn.value != "") && (g.expectedAttempt.Some? ==> g.expectedAttempt.value >= 1)
  }

  /**
   The rows a request may leave, even when a fault stops it half way: the row it found, that row
   reconciled, and the row of its outcome.
   */
  predicate MayLeave(row: Row, g: GateResult, c: Claim, left: Option<Row>) {
    || left == Some(row)
    || left == RowOutcome(row, g, c).1
    || (TriageRow(row, c.clock.now).ReconcileStale? && g.expectedArn.Some? && g.expectedAttempt.Some?
        && g.observedDeadline.Some? && left == Report(Some(row), StaleUpdate(g, c)).record)
  }

  /** The steps after the gate: reconcile, and only then re-lease. */
  method ReconcileAndReLease(repository: Repository, key: string, row: Row, g: GateResult, c: Claim)
    returns (r: Result<Answer, StoreError>)
    requires repository.Valid() && repository.RowOf(key) == Some(row)
    modifies repository
    ensures repository.Valid() && OthersKept(old(repository.rows), repository.rows, key)
    ensures r.Ok? ==> (r.value, repository.RowOf(key)) == StaleOutcome(row, g, c)
    ensures TriageRow(row, c.clock.now).ReconcileStale? ==> MayLeave(row, g, c, repository.RowOf(key))
    ensures key != "" && c.owner != "" && c.ttl > 0 && old(repository.faults) == [] && TermsUsable(g) ==> r.Ok?
    ensures key != "" && c.owner != "" && c.ttl > 0 && TermsUsable(g) && r.Err? ==> r.error == ServiceFault
  {
    if g.expectedArn.None? || g.expectedAttempt.None? || g.observedDeadline.None? {
      return Ok(RaceLost(row.decisionId));
    }
    var reconcile := ReconcileStale(repository, key, StaleUpdate(g, c), row);
    if reconcile.Err? {
      return Err(reconcile.error);
    }
    if !MayProceed(reconcile.value.verdict) {
      FencedKeepsRow(row, StaleUpdate(g, c));
      return Ok(RaceLost(row.decisionId));
    }
    var failed := reconcile.value.record.value;
    r := AnswerWithLease(repository, key, row.decisionId, FromProcessingFailed(g.effectiveCoreCommitted),
                         g.expectedAttempt.value, failed.lastError, c, failed);
  }

  /** The gate's judgement of a row that nothing else touches. */
  ghost function GateOf(row: Row, cores: CoreRepository): GateResult
    reads cores
  {
    Judge(Some(row), Some(row.decisionId), cores.CoreOf(Json.Utf16(row.decisionId)).Some?)
  }

  /** The narrative query the gate makes for this row succeeds; without a decision id it makes none. */
  predicate GateAnswers(row: Row, narratives: NarrativeQuery) {
    row.decisionId == "" || narratives(row.decisionId).Some?
  }

  /** The gate is asked only for rows that are failed or stale. */
  predicate RowAnswers(row: Row, now: int, narratives: NarrativeQuery) {
    TriageRow(row, now).GradeByGate? || TriageRow(row, now).ReconcileStale? ==> GateAnswers(row, narratives)
  }

  method AskGate(repository: Repository, cores: CoreRepository, narratives: NarrativeQuery, key: string, row: Row)
    returns (r: Result<GateResult, StoreError>)
    requires repository.Valid() && cores.Valid() && repository.RowOf(key) == Some(row)
    modifies repository`faults, cores`faults
    ensures repository.Valid()
    ensures r.Ok? ==> r.value == GateOf(row, cores)
    ensures old(repository.faults) == [] ==> repository.faults == []
    ensures key != "" && GateAnswers(row, narratives) && old(repository.faults) == [] && old(cores.faults) == [] ==>
      r.Ok?
    ensures key != "" && r.Err? ==> r.error == ServiceFault
  {
    var report := EvaluateRecoveryGate(repository, cores, narratives, key, Some(row.decisionId));
    r := if report.Ok? then Ok(report.value.judgement) else Err(report.error);
  }

  predicate ClaimComplete(key: string, c: Claim) {
    key != "" && c.owner != "" && c.ttl > 0
  }

  predicate RowUsable(row: Row) {
    row.executionArn != Some("") && row.attemptCount >= 1
  }

  lemma JudgedTermsUsable(row: Row, coreExists: bool)
    requires RowUsable(row)
    ensures TermsUsable(Judge(Some(row), Some(row.decisionId), coreExists))
  {
  }

  /** The gate is asked before anything is written. */
  method OrchestrateStaleRunning(
    repository: Repository, cores: CoreRepository, narratives: NarrativeQuery, key: string, row: Row, c: Claim)
    returns (r: Result<Answer, StoreError>)
    requires repository.Valid() && cores.Valid() && repository.RowOf(key) == Some(row)
    modifies repository, cores`faults
    ensures repository.Valid() && OthersKept(old(repository.rows), repository.rows, key)
    ensures !IsStaleRunning(row, c.clock.now) ==>
      r == Ok(RaceLost(row.decisionId)) && repository.rows == old(repository.rows)
    ensures r.Ok? && IsStaleRunning(row, c.clock.now) ==>
      (r.value, repository.RowOf(key)) == StaleOutcome(row, GateOf(row, cores), c)
    ensures TriageRow(row, c.clock.now).ReconcileStale? ==> MayLeave(row, GateOf(row, cores), c, repository.RowOf(key))
    ensures ClaimComplete(key, c) && RowUsable(row) && old(repository.faults) == [] && old(cores.faults) == [] ==>
      (GateAnswers(row, narratives) ==> r.Ok?)
    ensures ClaimComplete(key, c) && RowUsable(row) && r.Err? ==> r.error == ServiceFault
  {
    if !IsStaleRunning(row, c.clock.now) {
      return Ok(RaceLost(row.decisionId));
    }
    var gate := AskGate(repository, cores, narratives, key, row);
    if gate.Err? {
      return Err(gate.error);
    }
    if RowUsable(row) {
      JudgedTermsUsable(row, cores.CoreOf(Json.Utf16(row.decisionId)).Some?);
    }
    r := ReconcileAndReLease(repository, key, row, gate.value, c);
  }

  /** Graded re-lease of a failed row. */
  method RecoverFailed(
    repository: Repository, cores: CoreRepository, narratives: NarrativeQuery, key: string, row: Row, c: Claim)
    returns (r: Result<Answer, StoreError>)
    requires repository.Valid() && cores.Valid() && repository.RowOf(key) == Some(row)
    modifies repository, cores`faults
    ensures repository.Valid() && OthersKept(old(repository.rows), repository.rows, key)
    ensures r.Ok? ==>
      var kind := FromProcessingFailed(GateOf(row, cores).effectiveCoreCommitted);
      (r.value, repository.RowOf(key)) == LeaseOutcome(row, kind, row.attemptCount, row.lastError, c)
    ensures TriageRow(row, c.clock.now).GradeByGate? ==> MayLeave(row, GateOf(row, cores), c, repository.RowOf(key))
    ensures ClaimComplete(key, c) && RowUsable(row) && old(repository.faults) == [] && old(cores.faults) == [] ==>
      (GateAnswers(row, narratives) ==> r.Ok?)
    ensures ClaimComplete(key, c) && RowUsable(row) && r.Err? ==> r.error == ServiceFault
  {
    var gate := AskGate(repository, cores, narratives, key, row);
    if gate.Err? {
      return Err(gate.error);
    }
    r := AnswerWithLease(repository, key, row.decisionId, FromProcessingFailed(gate.value.effectiveCoreCommitted),
                         row.attemptCount, row.lastError, c, row);
  }

  // ----- The router ---------------------------------------------------------

  /** What the router does with the row it read. */
  method HandleRow(
    repository: Repository, cores: CoreRepository, narratives: NarrativeQuery, key: string, row: Row, c: Claim)
    returns (r: Result<Answer, StoreError>)
    requires repository.Valid() && cores.Valid() && repository.RowOf(key) == Some(row)
    modifies repository, cores`faults
    ensures repository.Valid() && OthersKept(old(repository.rows), repository.rows, key)
    ensures r.Ok? ==> (r.value, repository.RowOf(key)) == RowOutcome(row, GateOf(row, cores), c)
    ensures MayLeave(row, GateOf(row, cores), c, repository.RowOf(key))
    ensures ClaimComplete(key, c) && RowUsable(row) && old(repository.faults) == [] && old(cores.faults) == [] ==>
      (RowAnswers(row, c.clock.now, narratives) ==> r.Ok?)
    ensures ClaimComplete(key, c) && RowUsable(row) && r.Err? ==> r.error == ServiceFault
  {
    match TriageRow(row, c.clock.now)
    case Reply(answer) =>
      r := Ok(answer);
    case TakeLease(kind) =>
      r := AnswerWithLease(repository, key, row.decisionId, kind, row.attemptCount, row.lastError, c, row);
    case GradeByGate =>
      r := RecoverFailed(repository, cores, narratives, key, row, c);
    case ReconcileStale =>
      r := OrchestrateStaleRunning(repository, cores, narratives, key, row, c);
  }

  /**
   A same-key request. Its answer and the row it leaves are those of `RowOutcome`; a
   fault is an error and never a routing decision; no other key is touched.
   */
  method RouteSameKeyRequest(
    repository: Repository, cores: CoreRepository, narratives: NarrativeQuery, key: string, c: Claim)
    returns (r: Result<Answer, StoreError>)
    requires repository.Valid() && cores.Valid()
    modifies repository, cores`faults
    ensures repository.Valid() && OthersKept(old(repository.rows), repository.rows, key)
    ensures r.Ok? && old(repository.RowOf(key)).None? ==>
      r.value == KeyAbsent && repository.rows == old(repository.rows)
    ensures r.Ok? && old(repository.RowOf(key)).Some? ==>
      var row := old(repository.RowOf(key)).value;
      (r.value, repository.RowOf(key)) == RowOutcome(row, GateOf(row, cores), c)
    ensures old(repository.RowOf(key)).Some? ==>
      var row := old(repository.RowOf(key)).value; MayLeave(row, GateOf(row, cores), c, repository.RowOf(key))
    ensures old(repository.RowOf(key)).None? ==> repository.rows == old(repository.rows)
    ensures key == "" ==> r == Err(Usage(EmptyKey))
    ensures
      var row := old(repository.RowOf(key));
      ClaimComplete(key, c) && (row.Some? ==> RowUsable(row.value)) && r.Err? ==> r.error == ServiceFault
    ensures
      var row := old(repository.RowOf(key));
      ClaimComplete(key, c) && old(repository.faults) == [] && old(cores.faults) == [] ==>
      (row.Some? ==> RowUsable(row.value) && RowAnswers(row.value, c.clock.now, narratives)) ==> r.Ok?
  {
    var read := repository.GetConsistent(key);
    if read.Err? {
      return Err(read.error);
    }
    if read.value.None? {
      return Ok(KeyAbsent);
    }
    r := HandleRow(repository, cores, narratives, key, read.value.value, c);
  }
}
