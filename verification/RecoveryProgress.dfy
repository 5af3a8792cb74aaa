/** A same-key request run alone always moves a stuck key on. */
module RecoveryProgress {
  import opened Options
  import opened LeaseRecord
  import opened LeaseTransitions
  import opened Verdicts
  import opened RecoveryJudgement
  import opened StatusActions
  import opened SameKeyRouter
  import opened LeaseProtocol
  import opened LeaseInvariants
  import opened LeaseTheorems

  /** Both of the row's deadlines, where it has them, have passed. */
  predicate PastDeadlines(r: Row, now: int) {
    && (r.status.Starting? && r.leaseExpiresAt.Some? ==> r.leaseExpiresAt.value < now)
    && (r.status.Running? && r.runningDeadlineAt.Some? ==> r.runningDeadlineAt.value < now)
  }

  /** The lease a recovered key is under. */
  ghost predicate RecoveredFrom(r: Row, row: Option<Row>, c: Claim) {
    && row.Some? && row.value.status.Starting?
    && row.value.attemptCount == r.attemptCount + 1 && row.value.leaseOwner == Some(c.owner)
    && row.value.leaseExpiresAt == Some(c.clock.now + c.ttl)
    && row.value.decisionId == r.decisionId && row.value.coreCommitted == r.coreCommitted
    && row.value.executionArn == None && row.value.lastError == None && row.value.retryable
    && row.value.previousLastError == if r.status.Running? then Some(STALE_RUNNING_EXECUTION) else r.lastError
  }

  lemma StaleRowRecovers(r: Row, coreExists: bool, c: Claim)
    requires Shaped(r) && r.status.Running? && r.decisionId != "" && PastDeadlines(r, c.clock.now)
    ensures var (answer, row) := StaleOutcome(r, Judge(Some(r), Some(r.decisionId), coreExists), c);
      var mode := if r.coreCommitted || coreExists then EnrichmentOnly else FullWorkflow;
      answer == RecoveredRetryStart(r.decisionId, mode) && RecoveredFrom(r, row, c)
  {
  }

  lemma FailedRowRecovers(r: Row, coreExists: bool, c: Claim)
    requires Shaped(r) && r.status.ProcessingFailed? && !IsTerminal(r) && r.decisionId != ""
    ensures var (answer, row) := RowOutcome(r, Judge(Some(r), Some(r.decisionId), coreExists), c);
      var mode := if r.coreCommitted || coreExists then EnrichmentOnly else FullWorkflow;
      answer == RecoveredRetryStart(r.decisionId, mode) && RecoveredFrom(r, row, c)
  {
  }

  lemma UnstartedRowRecovers(r: Row, g: GateResult, c: Claim)
    requires Shaped(r) && (r.status.Starting? || r.status.StartFailed?) && PastDeadlines(r, c.clock.now)
    ensures var (answer, row) := RowOutcome(r, g, c);
      answer == RecoveredRetryStart(r.decisionId, FullWorkflow) && RecoveredFrom(r, row, c)
  {
  }

  /** How the new lease is graded. */
  function GradedMode(r: Row, coreExists: bool): RecoveryMode {
    if (r.status.Running? || r.status.ProcessingFailed?) && (r.coreCommitted || coreExists) then EnrichmentOnly
    else FullWorkflow
  }

  lemma ShapedRowRecovers(r: Row, coreExists: bool, c: Claim)
    requires Shaped(r) && !IsTerminal(r) && r.decisionId != "" && PastDeadlines(r, c.clock.now)
    ensures var (answer, row) := RowOutcome(r, Judge(Some(r), Some(r.decisionId), coreExists), c);
      && answer == RecoveredRetryStart(r.decisionId, GradedMode(r, coreExists)) && RecoveredFrom(r, row, c)
      && row.value.recoveryMode == GradedMode(r, coreExists)
  {
    match r.status
    case Running => StaleRowRecovers(r, coreExists, c);
    case ProcessingFailed => FailedRowRecovers(r, coreExists, c);
    case Starting => UnstartedRowRecovers(r, Judge(Some(r), Some(r.decisionId), coreExists), c);
    case StartFailed => UnstartedRowRecovers(r, Judge(Some(r), Some(r.decisionId), coreExists), c);
  }

  /**
   From every reachable row that is not terminal, a same-key request run alone past the
   row's deadlines is answered RECOVERED_RETRY_START and leaves the next attempt starting.
   */
  lemma StuckKeysRecover(w: World, c: Claim)
    requires LiveReachable(w) && w.decisionId != "" && w.row.Some?
    requires !IsTerminal(w.row.value) && PastDeadlines(w.row.value, c.clock.now)
    ensures var (answer, row) := RowOutcome(w.row.value, Judge(w.row, Some(w.decisionId), w.core.Some?), c);
      && answer == RecoveredRetryStart(w.decisionId, GradedMode(w.row.value, w.core.Some?))
      && RecoveredFrom(w.row.value, row, c)
  {
    LiveReachableKeepsAll(w);
    ShapedRowRecovers(w.row.value, w.core.Some?, c);
  }

  /** On shaped rows, a request run alone recovers exactly the rows that are stuck and changes no other. */
  lemma RecoversIffStuck(r: Row, coreExists: bool, c: Claim)
    requires Shaped(r) && r.decisionId != ""
    ensures var (answer, row) := RowOutcome(r, Judge(Some(r), Some(r.decisionId), coreExists), c);
      && (answer.RecoveredRetryStart? <==> !IsTerminal(r) && PastDeadlines(r, c.clock.now))
      && (!answer.RecoveredRetryStart? ==> row == Some(r))
  {
    if !IsTerminal(r) && PastDeadlines(r, c.clock.now) {
      ShapedRowRecovers(r, coreExists, c);
    }
  }

  /** The other answers: completed, terminal conflict, or in progress with time left. */
  lemma AnswersOfRowsAtRest(r: Row, g: GateResult, c: Claim)
    requires Shaped(r) && (IsTerminal(r) || !PastDeadlines(r, c.clock.now))
    ensures var answer := RowOutcome(r, g, c).0;
      && (answer == RespondCompleted(r.decisionId) <==> r.status.Completed?)
      && (answer == RespondTerminalConflict(r.decisionId) <==>
        r.lastError == Some(CORE_IDENTITY_CONFLICT) && r.status.ProcessingFailed?)
      && (answer == RespondInProgress(r.decisionId, r.status) <==> r.status.Starting? || r.status.Running?)
      && (r.status.Starting? || r.status.Running? || IsTerminal(r))
  {
  }

  // ----- The router alone is a run of the protocol ----------------------------

  ghost predicate At(w: World, id: nat, c: Claim, stage: Stage) {
    id in w.requests && w.requests[id] == Request(c.owner, c.clock, c.ttl, stage)
  }

  /** The two steps with nothing in between; a step that is not enabled does nothing. */
  function Two(w: World, s: Step, t: Step): World {
    Next(Next(w, s), t)
  }

  lemma ArriveAndLook(w: World, id: nat, c: Claim)
    requires id !in w.requests && w.row.Some?
    ensures var w' := Two(w, Arrive(id, c.owner, c.clock, c.ttl), Look(id));
      && At(w', id, c, AfterTriage(TriageRow(w.row.value, c.clock.now), w.row.value))
      && w'.row == w.row && w'.core == w.core && w'.decisionId == w.decisionId
  {
  }

  function AfterJudgement(w: World, stage: Stage): Stage {
    if stage.NeedsGate? then AfterGate(stage.seen, Judge(w.row, Some(w.decisionId), w.core.Some?)) else stage
  }

  lemma PassGate(w: World, id: nat, c: Claim, stage: Stage)
    requires At(w, id, c, stage) && !stage.GateRowRead?
    ensures var w' := Two(w, ReadGateRow(id), ReadGateCore(id));
      At(w', id, c, AfterJudgement(w, stage)) && w'.row == w.row && w'.core == w.core
  {
  }

  function ReportOf(w: World, stage: Stage, c: Claim): Reported
    requires stage.Reconciling?
  {
    Report(w.row, ReconcileStaleRunning(stage.arn, stage.attempt, stage.deadline, stage.effective, c.clock))
  }

  function AfterReconcile(w: World, stage: Stage, c: Claim): Stage {
    if !stage.Reconciling? then stage
    else
      var report := ReportOf(w, stage, c);
      if MayProceed(report.verdict) && report.record.Some? then
        Ready(FromProcessingFailed(stage.effective), stage.attempt, report.record.value.lastError)
      else Stage.Finished
  }

  lemma PassReconcile(w: World, id: nat, c: Claim, stage: Stage)
    requires At(w, id, c, stage) && !stage.Confirming?
    ensures var w' := Two(w, Reconcile(id, true), ConfirmReconcile(id));
      && At(w', id, c, AfterReconcile(w, stage, c)) && w'.core == w.core
      && w'.row == if stage.Reconciling? then ReportOf(w, stage, c).record else w.row
  {
  }

  lemma PassReLease(w: World, id: nat, c: Claim, stage: Stage)
    requires At(w, id, c, stage) && w.row.Some?
    ensures var w' := Next(w, ReLease(id, true));
      && w'.core == w.core
      && w'.row == if stage.Ready? then LeaseOutcome(w.row.value, stage.kind, stage.attempt, stage.previousError, c).1
                   else w.row
  {
  }

  /** One request from arrival to its end, with no other step in between. */
  function Alone(w: World, id: nat, c: Claim): World {
    var w1 := Two(w, Arrive(id, c.owner, c.clock, c.ttl), Look(id));
    var w2 := Two(w1, ReadGateRow(id), ReadGateCore(id));
    var w3 := Two(w2, Reconcile(id, true), ConfirmReconcile(id));
    Next(w3, ReLease(id, true))
  }

  lemma {:induction false} AloneIsLive(w: World, id: nat, c: Claim)
    requires LiveReachable(w)
    ensures LiveReachable(Alone(w, id, c))
  {
    var w0 := Next(w, Arrive(id, c.owner, c.clock, c.ttl));
    LiveStep(w, Arrive(id, c.owner, c.clock, c.ttl));
    LiveStep(w0, Look(id));
    var w1 := Next(w0, Look(id));
    LiveStep(w1, ReadGateRow(id));
    LiveStep(Next(w1, ReadGateRow(id)), ReadGateCore(id));
    var w2 := Two(w1, ReadGateRow(id), ReadGateCore(id));
    LiveStep(w2, Reconcile(id, true));
    LiveStep(Next(w2, Reconcile(id, true)), ConfirmReconcile(id));
    LiveStep(Two(w2, Reconcile(id, true), ConfirmReconcile(id)), ReLease(id, true));
  }

  /** The router's methods do what the protocol's steps of one undisturbed request do. */
  lemma RouterRefinesProtocol(w: World, id: nat, c: Claim)
    requires id !in w.requests && w.row.Some? && w.row.value.decisionId == w.decisionId
    ensures Alone(w, id, c).core == w.core
    ensures Alone(w, id, c).row == RowOutcome(w.row.value, Judge(w.row, Some(w.decisionId), w.core.Some?), c).1
  {
    var r := w.row.value;
    var w1 := Two(w, Arrive(id, c.owner, c.clock, c.ttl), Look(id));
    var s1 := AfterTriage(TriageRow(r, c.clock.now), r);
    ArriveAndLook(w, id, c);
    PassGate(w1, id, c, s1);
    var w2 := Two(w1, ReadGateRow(id), ReadGateCore(id));
    var s2 := AfterJudgement(w1, s1);
    PassReconcile(w2, id, c, s2);
    var w3 := Two(w2, Reconcile(id, true), ConfirmReconcile(id));
    var s3 := AfterReconcile(w2, s2, c);
    PassReLease(w3, id, c, s3);
  }

  /** From every stuck reachable state one undisturbed request reaches the next attempt. */
  lemma UndisturbedRequestRecovers(w: World, id: nat, c: Claim)
    requires LiveReachable(w) && w.decisionId != "" && w.row.Some? && id !in w.requests
    requires !IsTerminal(w.row.value) && PastDeadlines(w.row.value, c.clock.now)
    ensures LiveReachable(Alone(w, id, c)) && RecoveredFrom(w.row.value, Alone(w, id, c).row, c)
  {
    LiveReachableKeepsAll(w);
    StuckKeysRecover(w, c);
    RouterRefinesProtocol(w, id, c);
    AloneIsLive(w, id, c);
  }
}
