/** What every step of the lease protocol keeps. */
module LeaseInvariants {
  import opened Options
  import opened LeaseRecord
  import opened LeaseTransitions
  import opened Verdicts
  import opened RecoveryJudgement
  import opened DecisionCore
  import opened LeaseProtocol
  import opened LeaseHistory

  // ----- The core side: kept by every step, expiry included -----------------

  ghost predicate CoreLogged(core: Option<Core>, log: seq<Event>) {
    && (forall e :: e in log && e.Stored? ==> core == Some(e.core))
    && (core.Some? ==> Stored(core.value) in log)
  }

  /** What the execution believes about the core is true. */
  ghost predicate BelievesTruth(x: Execution, core: Option<Core>) {
    && (x.lease.mode.EnrichmentOnly? ==> core.Some?)
    && (x.computed.Some? ==> core.Some?)
    && (x.persisted.Some? ==> core.Some?)
    && (x.persisted.Some? && !x.persisted.value.IdentityConflict? ==> SameIdentity(core.value, x.persisted.value.core))
    && (x.gate.RowSeen? && x.gate.flag ==> core.Some?)
    && (x.gate.Judged? && (x.gate.coreExists || x.gate.effective) ==> core.Some?)
    && (forall a :: a in x.unconfirmed && a.MarkCoreCommitted? ==> core.Some?)
  }

  ghost predicate GradedTruly(s: Stage, core: Option<Core>) {
    match s
    case GateRowRead(_, r) => r.Some? && r.value.coreCommitted ==> core.Some?
    case Reconciling(_, _, _, effective) => effective ==> core.Some?
    case Confirming(_, _, _, effective) => effective ==> core.Some?
    case Ready(kind, _, _) => kind == FromProcessingFailed(true) ==> core.Some?
    case _ => true
  }

  /** The row relies on the core in its flag, its mode or its stage. */
  predicate NeedsCore(r: Row) {
    r.coreCommitted || r.recoveryMode.EnrichmentOnly? || r.recoveryStage.EnrichmentStage?
  }

  ghost predicate CoreInv(w: World) {
    && CoreSound(w.log)
    && CoreLogged(w.core, w.log)
    && (forall e :: e in w.log && e.Leased? && e.lease.mode.EnrichmentOnly? ==> w.core.Some?)
    && (w.row.Some? && NeedsCore(w.row.value) ==> w.core.Some?)
    && (forall arn :: arn in w.executions ==> BelievesTruth(w.executions[arn], w.core))
    && (forall id :: id in w.requests ==> GradedTruly(w.requests[id].stage, w.core))
  }

  lemma CoreInvInit(key: string, decisionId: string)
    ensures CoreInv(Init(key, decisionId))
  {
  }

  /** Events that say nothing about the core need no justification. */
  lemma CoreInvLogged(w: World, e: Event)
    requires CoreInv(w) && CoreJustified(w.log, e) && !e.Stored?
    requires e.Leased? && e.lease.mode.EnrichmentOnly? ==> w.core.Some?
    ensures CoreInv(Logged(w, e))
  {
    CoreSoundGrows(w.log, e);
  }

  lemma CoreInvExecution(w: World, arn: string, x: Execution)
    requires CoreInv(w) && BelievesTruth(x, w.core)
    ensures CoreInv(WithExecution(w, arn, x))
  {
  }

  lemma CoreInvStage(w: World, id: nat, s: Stage)
    requires CoreInv(w) && id in w.requests && GradedTruly(s, w.core)
    ensures CoreInv(WithStage(w, id, s))
  {
  }

  lemma CoreInvRow(w: World, row: Option<Row>)
    requires CoreInv(w)
    requires row.Some? && NeedsCore(row.value) ==> w.core.Some?
    ensures CoreInv(w.(row := row))
  {
  }

  lemma CoreInvFirstLease(w: World, s: Step)
    requires CoreInv(w) && s.FirstLease? && Enabled(w, s)
    ensures CoreInv(Next(w, s))
  {
    var row := FirstRow(w.key, w.decisionId, s.owner, s.clock, s.ttl, s.expiresAt);
    CoreInvRow(w, Some(row));
    CoreInvLogged(w.(row := Some(row)), Leased(Lease(1, s.owner, Normal), 0, s.told));
  }

  lemma CoreInvLook(w: World, id: nat)
    requires CoreInv(w) && Enabled(w, Look(id))
    ensures CoreInv(LookStep(w, id))
  {
    var t := TriageOf(w.row, w.requests[id].clock.now);
    var stage := if w.row.None? then Stage.Finished else AfterTriage(t, w.row.value);
    assert t.TakeLease? ==> t.kind != FromProcessingFailed(true);
    CoreInvStage(w, id, stage);
    CoreInvLogged(WithStage(w, id, stage), Looked(id, t));
  }

  lemma CoreInvGate(w: World, s: Step)
    requires CoreInv(w) && (s.ReadGateRow? || s.ReadGateCore?) && Enabled(w, s)
    ensures CoreInv(Next(w, s))
  {
    var g := w.requests[s.id].stage;
    if s.ReadGateRow? {
      CoreInvStage(w, s.id, GateRowRead(g.seen, w.row));
    } else {
      assert GradedTruly(g, w.core);
      CoreInvStage(w, s.id, AfterGate(g.seen, Judge(g.gateRow, Some(w.decisionId), w.core.Some?)));
    }
  }

  lemma CoreInvReconcile(w: World, id: nat, told: bool)
    requires CoreInv(w) && Enabled(w, Reconcile(id, told))
    ensures CoreInv(ReconcileStep(w, id, told))
  {
    var q := w.requests[id];
    var g := q.stage;
    assert GradedTruly(g, w.core);
    var row' := Perform(w.row, ReconcileStaleRunning(g.arn, g.attempt, g.deadline, g.effective, q.clock));
    if row'.Some? {
      var stage :=
        if told then Ready(FromProcessingFailed(g.effective), g.attempt, row'.value.lastError) else Stage.Finished;
      CoreInvStage(w, id, stage);
      CoreInvRow(WithStage(w, id, stage), row');
      CoreInvLogged(WithStage(w, id, stage).(row := row'),
                    Wrote(g.arn, g.attempt, FailedWith(STALE_RUNNING_EXECUTION, true)));
    } else {
      CoreInvStage(w, id, Confirming(g.arn, g.attempt, g.deadline, g.effective));
    }
  }

  lemma CoreInvConfirmReconcile(w: World, id: nat)
    requires CoreInv(w) && Enabled(w, ConfirmReconcile(id))
    ensures CoreInv(ConfirmReconcileStep(w, id))
  {
    var g := w.requests[id].stage;
    assert GradedTruly(g, w.core);
  }

  /** A re-lease that says ENRICHMENT_ONLY knows of the core. */
  lemma ReLeasedRowKnowsCore(row: Row, u: Update, core: Option<Core>)
    requires u.ReacquireLease? && (NeedsCore(row) || u.kind == FromProcessingFailed(true) ==> core.Some?)
    ensures NeedsCore(UpdateEffect(u, row)) || ModeOf(u.kind).EnrichmentOnly? ==> core.Some?
  {
  }

  function LeaseSought(q: Request): Update
    requires q.stage.Ready?
  {
    ReacquireLease(q.stage.kind, q.stage.attempt, q.owner, q.stage.previousError, q.ttl, q.clock)
  }

  /** The world after a re-lease was tried. */
  function Won(w: World, u: Update, told: bool): World
    requires u.ReacquireLease?
  {
    if Perform(w.row, u).None? then w
    else
      Logged(w.(row := Perform(w.row, u)), Leased(Lease(u.attempt + 1, u.owner, ModeOf(u.kind)), u.attempt, told))
  }

  lemma ReLeaseIsWon(w: World, id: nat, told: bool)
    requires Enabled(w, ReLease(id, told))
    ensures ReLeaseStep(w, id, told) == Won(WithStage(w, id, Stage.Finished), LeaseSought(w.requests[id]), told)
  {
  }

  lemma GradeIsTrue(w: World, id: nat)
    requires CoreInv(w) && id in w.requests && w.requests[id].stage.Ready?
    ensures w.requests[id].stage.kind == FromProcessingFailed(true) ==> w.core.Some?
  {
    assert GradedTruly(w.requests[id].stage, w.core);
  }

  lemma CoreInvWon(w: World, u: Update, told: bool)
    requires CoreInv(w) && u.ReacquireLease? && (u.kind == FromProcessingFailed(true) ==> w.core.Some?)
    ensures CoreInv(Won(w, u, told))
  {
    if Perform(w.row, u).Some? {
      ReLeasedRowKnowsCore(w.row.value, u, w.core);
      CoreInvRow(w, Perform(w.row, u));
      CoreInvLogged(w.(row := Perform(w.row, u)),
                    Leased(Lease(u.attempt + 1, u.owner, ModeOf(u.kind)), u.attempt, told));
    }
  }

  lemma CoreInvReLease(w: World, id: nat, told: bool)
    requires CoreInv(w) && Enabled(w, ReLease(id, told))
    ensures CoreInv(ReLeaseStep(w, id, told))
  {
    GradeIsTrue(w, id);
    CoreInvStage(w, id, Stage.Finished);
    CoreInvWon(WithStage(w, id, Stage.Finished), LeaseSought(w.requests[id]), told);
    ReLeaseIsWon(w, id, told);
  }

  lemma CoreInvFailLaunch(w: World, s: Step)
    requires CoreInv(w) && s.FailLaunch? && Enabled(w, s)
    ensures CoreInv(Next(w, s))
  {
    var row' := Perform(w.row, MarkStartFailed(s.lease, s.error, s.retryable, s.clock));
    if row'.Some? {
      CoreInvRow(w, row');
      CoreInvLogged(w.(row := row'), LaunchFailed(s.lease.attempt));
    }
  }

  lemma CoreInvSpawn(w: World, s: Step)
    requires CoreInv(w) && s.Spawn? && Enabled(w, s)
    ensures CoreInv(Next(w, s))
  {
    CoreInvExecution(w, s.arn, Execution(s.lease));
  }

  lemma CoreInvAct(w: World, arn: string, action: Action, clock: Clock, told: bool)
    requires CoreInv(w) && Enabled(w, Act(arn, action, clock, told))
    ensures CoreInv(ActStep(w, arn, action, clock, told))
  {
    var x := w.executions[arn];
    assert BelievesTruth(x, w.core);
    var row' := Perform(w.row, InWorkflow(action, arn, x.lease, clock));
    if row'.Some? {
      CoreInvRow(w, row');
      var e := Wrote(arn, x.lease.attempt, TargetOf(action));
      CoreInvLogged(w.(row := row'), e);
      var w' := Logged(w.(row := row'), e);
      if told {
        CoreInvExecution(w', arn, Learn(x, action));
        CoreInvLogged(WithExecution(w', arn, Learn(x, action)), Told(arn, x.lease.attempt, action, Applied));
      }
    } else if told {
      CoreInvExecution(w, arn, x.(unconfirmed := x.unconfirmed + {action}));
    }
  }

  lemma CoreInvConfirm(w: World, arn: string, action: Action, clock: Clock)
    requires CoreInv(w) && Enabled(w, Confirm(arn, action, clock))
    ensures CoreInv(ConfirmStep(w, arn, action, clock))
  {
    var x := w.executions[arn];
    var verdict := Classify(InWorkflow(action, arn, x.lease, clock), w.row);
    var x' := x.(unconfirmed := x.unconfirmed - {action});
    var x'' := if MayProceed(verdict) then Learn(x', action) else x';
    assert BelievesTruth(x, w.core);
    CoreInvExecution(w, arn, x'');
    CoreInvLogged(WithExecution(w, arn, x''), Told(arn, x.lease.attempt, action, verdict));
  }

  /** What was believed without a core stays true when it is stored. */
  lemma BeliefsOutlastStoring(core: Core)
    ensures forall x {:trigger BelievesTruth(x, None)} :: BelievesTruth(x, None) ==> BelievesTruth(x, Some(core))
    ensures forall s {:trigger GradedTruly(s, None)} :: GradedTruly(s, None) ==> GradedTruly(s, Some(core))
  {
  }

  lemma CoreInvStored(w: World, core: Core)
    requires CoreInv(w) && w.core.None?
    ensures CoreInv(Logged(w.(core := Some(core)), Stored(core)))
  {
    CoreSoundGrows(w.log, Stored(core));
    BeliefsOutlastStoring(core);
  }

  lemma CoreInvPutCore(w: World, arn: string, core: Core, told: bool)
    requires CoreInv(w) && Enabled(w, PutCore(arn, core, told))
    ensures CoreInv(PutCoreStep(w, arn, core, told))
  {
    if w.core.None? {
      CoreInvFirstPut(w, arn, core, told);
    } else {
      CoreInvLaterPut(w, arn, core, told);
    }
  }

  lemma CoreInvFirstPut(w: World, arn: string, core: Core, told: bool)
    requires CoreInv(w) && arn in w.executions && w.core.None?
    ensures var x := w.executions[arn];
      CoreInv(Logged(WithExecution(w, arn, if told then x.(persisted := Some(Committed(core))) else x)
                       .(core := Some(core)), Stored(core)))
  {
    var x := w.executions[arn];
    var w' := Logged(w.(core := Some(core)), Stored(core));
    CoreInvStored(w, core);
    assert BelievesTruth(x, w'.core);
    CoreInvExecution(w', arn, if told then x.(persisted := Some(Committed(core))) else x);
  }

  lemma CoreInvLaterPut(w: World, arn: string, core: Core, told: bool)
    requires CoreInv(w) && arn in w.executions && w.core.Some?
    ensures CoreInv(if told then WithExecution(w, arn, w.executions[arn].(computed := Some(core))) else w)
  {
    if told {
      assert BelievesTruth(w.executions[arn], w.core);
      CoreInvExecution(w, arn, w.executions[arn].(computed := Some(core)));
    }
  }

  lemma CoreInvPush(w: World, arn: string)
    requires CoreInv(w) && Enabled(w, Push(arn))
    ensures CoreInv(Next(w, Push(arn)))
  {
    var x := w.executions[arn];
    assert BelievesTruth(x, w.core);
    assert Stored(w.core.value) in w.log && SameIdentity(Stored(w.core.value).core, x.persisted.value.core);
    CoreInvLogged(w, Pushed(arn, x.lease.attempt, x.persisted.value.core));
  }

  lemma CoreInvSee(w: World, s: Step)
    requires CoreInv(w) && (s.SeeGateRow? || s.SeeGateCore? || s.RereadCore?) && Enabled(w, s)
    ensures CoreInv(Next(w, s))
  {
    assert BelievesTruth(w.executions[s.arn], w.core);
  }

  /** The steps of InjectFn and its reconciler. */
  predicate IsRequestStep(s: Step) {
    s.FirstLease? || s.Arrive? || s.Look? || s.ReadGateRow? || s.ReadGateCore? || s.Reconcile? || s.ConfirmReconcile?
    || s.ReLease? || s.FailLaunch?
  }

  lemma CoreInvRequestStep(w: World, s: Step)
    requires CoreInv(w) && Enabled(w, s) && IsRequestStep(s)
    ensures CoreInv(Next(w, s))
  {
    match s
    case FirstLease(_, _, _, _, _) => CoreInvFirstLease(w, s);
    case Arrive(_, _, _, _) =>
    case Look(id) => CoreInvLook(w, id);
    case ReadGateRow(_) => CoreInvGate(w, s);
    case ReadGateCore(_) => CoreInvGate(w, s);
    case Reconcile(id, told) => CoreInvReconcile(w, id, told);
    case ConfirmReconcile(id) => CoreInvConfirmReconcile(w, id);
    case ReLease(id, told) => CoreInvReLease(w, id, told);
    case FailLaunch(_, _, _, _) => CoreInvFailLaunch(w, s);
  }

  lemma CoreInvNext(w: World, s: Step)
    requires CoreInv(w)
    ensures CoreInv(Next(w, s))
  {
    if Enabled(w, s) {
      if IsRequestStep(s) {
        CoreInvRequestStep(w, s);
      } else {
        match s
        case Spawn(_, _) => CoreInvSpawn(w, s);
        case Act(arn, action, clock, told) => CoreInvAct(w, arn, action, clock, told);
        case Confirm(arn, action, clock) => CoreInvConfirm(w, arn, action, clock);
        case PutCore(arn, core, told) => CoreInvPutCore(w, arn, core, told);
        case Push(arn) => CoreInvPush(w, arn);
        case Expire => CoreInvRow(w, None);
        case _ => CoreInvSee(w, s);
      }
    }
  }

  // ----- The lease side: kept by every step but expiry ----------------------

  /** The row is still at the write's attempt only if it shows what was written. */
  predicate Accounted(r: Row, e: Event)
    requires e.Wrote?
  {
    && 1 <= e.attempt <= r.attemptCount
    && (e.attempt == r.attemptCount ==>
          && r.executionArn == Some(e.arn)
          && (e.target.Finished? ==> r.status.Completed?)
          && (e.target.FailedWith? ==> r.status.ProcessingFailed? && r.lastError == Some(e.target.error)))
  }

  /** The shape of every reachable row. */
  predicate Shaped(r: Row) {
    && 1 <= r.attemptCount
    && (r.executionArn.Some? <==> r.status.Running? || r.status.Completed? || r.status.ProcessingFailed?)
    && (r.executionArn.Some? ==> r.executionArn.value != "")
    && (r.status.Running? ==> r.runningDeadlineAt.Some?)
    && (r.status.Starting? ==> r.leaseExpiresAt.Some?)
    && (r.status.ProcessingFailed? ==>
      r.lastError.Some? && (r.lastError.value == CORE_IDENTITY_CONFLICT <==> !r.retryable))
    && (r.status.Completed? ==>
          r.coreCommitted && r.completedArn == r.executionArn && r.completedAttempt == Some(r.attemptCount))
  }

  /** What the row shows was written by the execution it names. */
  ghost predicate Witnessed(r: Row, log: seq<Event>)
    requires Shaped(r)
  {
    && (r.executionArn.Some? ==> Wrote(r.executionArn.value, r.attemptCount, Entered) in log)
    && (r.status.Completed? ==> Wrote(r.executionArn.value, r.attemptCount, Target.Finished) in log)
    && (r.status.ProcessingFailed? ==>
          || Wrote(r.executionArn.value, r.attemptCount, FailedWith(r.lastError.value, false)) in log
          || (r.lastError.value == STALE_RUNNING_EXECUTION
              && Wrote(r.executionArn.value, r.attemptCount, FailedWith(r.lastError.value, true)) in log))
    && (r.coreCommitted <==> FlaggedIn(log))
  }

  ghost predicate RowLogged(r: Row, log: seq<Event>) {
    && Shaped(r) && Witnessed(r, log)
    && (forall n :: LeasedAt(log, n) <==> 1 <= n <= r.attemptCount)
    && (forall e :: e in log && e.Wrote? ==> Accounted(r, e))
    && (forall e :: e in log && e.Looked? && IsTerminalReply(e.triage) ==> forall now :: TriageRow(r, now) == e.triage)
  }

  /** Nothing has happened to a key that was never leased. */
  ghost predicate Unleased(log: seq<Event>) {
    forall e :: e in log ==> e.Looked? && !IsTerminalReply(e.triage)
  }

  ghost predicate Remembers(arn: string, x: Execution, log: seq<Event>) {
    && arn != "" && LeaseIssued(log, x.lease)
    && (x.entered || x.flagged ==> Wrote(arn, x.lease.attempt, Entered) in log)
    && (x.flagged ==> FlaggedIn(log))
  }

  ghost predicate LeaseInv(w: World) {
    && LeaseSound(w.log)
    && (w.row.None? ==> Unleased(w.log))
    && (w.row.Some? ==> RowLogged(w.row.value, w.log)
                        && w.row.value.idempotencyKey == w.key && w.row.value.decisionId == w.decisionId)
    && (forall arn :: arn in w.executions ==> Remembers(arn, w.executions[arn], w.log))
  }

  lemma LeaseInvInit(key: string, decisionId: string)
    ensures LeaseInv(Init(key, decisionId))
  {
  }

  /** Events that record no write leave the row accounted for. */
  predicate Quiet(e: Event) {
    e.Told? || e.Stored? || e.Pushed? || e.LaunchFailed?
  }

  lemma QuietEvent(log: seq<Event>, e: Event)
    requires Quiet(e) || e.Looked?
    ensures forall n :: LeasedAt(log + [e], n) <==> LeasedAt(log, n)
    ensures FlaggedIn(log + [e]) <==> FlaggedIn(log)
  {
    forall n ensures LeasedAt(log + [e], n) <==> LeasedAt(log, n) {
      if LeasedAt(log, n) {
        var p :| p in log && p.Leased? && p.lease.attempt == n;
        assert p in log + [e];
      }
    }
    if FlaggedIn(log) {
      var p :| p in log && p.Wrote? && p.target.CoreFlagged?;
      assert p in log + [e];
    }
  }

  lemma RemembersMore(arn: string, x: Execution, log: seq<Event>, e: Event)
    requires Remembers(arn, x, log)
    ensures Remembers(arn, x, log + [e])
  {
    var l :| l in log && l.Leased? && l.lease == x.lease;
    assert l in log + [e];
    if FlaggedIn(log) {
      var p :| p in log && p.Wrote? && p.target.CoreFlagged?;
      assert p in log + [e];
    }
  }

  lemma AllRememberMore(w: World, e: Event)
    requires LeaseInv(w)
    ensures forall arn :: arn in w.executions ==> Remembers(arn, w.executions[arn], w.log + [e])
  {
    forall arn | arn in w.executions ensures Remembers(arn, w.executions[arn], w.log + [e]) {
      RemembersMore(arn, w.executions[arn], w.log, e);
    }
  }

  lemma LeaseInvQuiet(w: World, e: Event)
    requires LeaseInv(w) && w.row.Some? && LeaseJustified(w.log, e) && Quiet(e)
    ensures LeaseInv(Logged(w, e))
  {
    LeaseSoundGrows(w.log, e);
    QuietEvent(w.log, e);
    AllRememberMore(w, e);
  }

  lemma LeaseInvExecution(w: World, arn: string, x: Execution)
    requires LeaseInv(w) && Remembers(arn, x, w.log)
    ensures LeaseInv(WithExecution(w, arn, x))
  {
  }

  // ----- Guarded writes of executions and reconcilers -----------------------

  lemma WriteEvent(log: seq<Event>, e: Event)
    requires e.Wrote?
    ensures forall n :: LeasedAt(log + [e], n) <==> LeasedAt(log, n)
    ensures FlaggedIn(log + [e]) <==> FlaggedIn(log) || e.target.CoreFlagged?
  {
    forall n ensures LeasedAt(log + [e], n) <==> LeasedAt(log, n) {
      if LeasedAt(log, n) {
        var p :| p in log && p.Leased? && p.lease.attempt == n;
        assert p in log + [e];
      }
    }
    if FlaggedIn(log) {
      var p :| p in log && p.Wrote? && p.target.CoreFlagged?;
      assert p in log + [e];
    }
    assert e in log + [e];
  }

  lemma NoTerminalReply(r: Row, log: seq<Event>)
    requires RowLogged(r, log) && !IsTerminal(r)
    ensures forall e :: e in log && e.Looked? ==> !IsTerminalReply(e.triage)
  {
    assert !IsTerminalReply(TriageRow(r, 0));
  }

  /** The write `e` took the row from `r` to `r'`. */
  ghost predicate Records(r: Row, r': Row, e: Event, log: seq<Event>) {
    && e.Wrote? && e.attempt == r.attemptCount == r'.attemptCount
    && r'.idempotencyKey == r.idempotencyKey && r'.decisionId == r.decisionId
    && !IsTerminal(r) && Shaped(r')
    && Accounted(r', e) && (forall p :: p in log && p.Wrote? ==> Accounted(r', p))
    && Witnessed(r', log + [e])
  }

  lemma LeaseInvWrite(w: World, r': Row, e: Event)
    requires LeaseInv(w) && w.row.Some? && Records(w.row.value, r', e, w.log) && LeaseJustified(w.log, e)
    ensures LeaseInv(Logged(w.(row := Some(r')), e))
  {
    LeaseSoundGrows(w.log, e);
    WriteEvent(w.log, e);
    NoTerminalReply(w.row.value, w.log);
    AllRememberMore(w, e);
  }

  lemma NotEntered(r: Row, log: seq<Event>)
    requires RowLogged(r, log) && r.executionArn.None?
    ensures !EnteredAt(log, r.attemptCount)
  {
  }

  lemma NotExited(r: Row, log: seq<Event>)
    requires RowLogged(r, log) && r.status.Running?
    ensures !ExitedAt(log, r.attemptCount)
  {
  }

  lemma EntryRecords(w: World, arn: string, action: Action, lease: Lease, clock: Clock)
    requires LeaseInv(w) && action.MarkRunning? && arn != ""
    requires Perform(w.row, InWorkflow(action, arn, lease, clock)).Some?
    ensures var e := Wrote(arn, lease.attempt, Entered);
      LeaseJustified(w.log, e)
        && Records(w.row.value, UpdateEffect(InWorkflow(action, arn, lease, clock), w.row.value), e, w.log)
  {
    NotEntered(w.row.value, w.log);
    WriteEvent(w.log, Wrote(arn, lease.attempt, Entered));
  }

  lemma FlagRecords(w: World, arn: string, action: Action, lease: Lease, clock: Clock)
    requires LeaseInv(w) && action.MarkCoreCommitted?
    requires Perform(w.row, InWorkflow(action, arn, lease, clock)).Some?
    ensures var e := Wrote(arn, lease.attempt, TargetOf(action));
      LeaseJustified(w.log, e)
        && Records(w.row.value, UpdateEffect(InWorkflow(action, arn, lease, clock), w.row.value), e, w.log)
  {
    NotExited(w.row.value, w.log);
    WriteEvent(w.log, Wrote(arn, lease.attempt, TargetOf(action)));
  }

  lemma FinishRecords(w: World, arn: string, lease: Lease, clock: Clock)
    requires LeaseInv(w) && FlaggedIn(w.log)
    requires Perform(w.row, InWorkflow(MarkCompleted, arn, lease, clock)).Some?
    ensures var e := Wrote(arn, lease.attempt, Target.Finished);
      LeaseJustified(w.log, e)
        && Records(w.row.value, UpdateEffect(InWorkflow(MarkCompleted, arn, lease, clock), w.row.value), e, w.log)
  {
    NotExited(w.row.value, w.log);
    WriteEvent(w.log, Wrote(arn, lease.attempt, Target.Finished));
  }

  /** A failure recorded by the execution itself or by a reconciler. */
  lemma FailureRecords(
    w: World, r': Row, arn: string, attempt: int, error: string, reconciled: bool, stage: RecoveryStage, clock: Clock)
    requires LeaseInv(w) && w.row.Some?
    requires var r := w.row.value; r.status.Running? && r.executionArn == Some(arn) && r.attemptCount == attempt
    requires reconciled ==> error == STALE_RUNNING_EXECUTION
    requires r' == Failed(w.row.value, error, error != CORE_IDENTITY_CONFLICT, stage, arn, attempt, clock)
    ensures var e := Wrote(arn, attempt, FailedWith(error, reconciled));
      LeaseJustified(w.log, e) && Records(w.row.value, r', e, w.log)
  {
    NotExited(w.row.value, w.log);
    WriteEvent(w.log, Wrote(arn, attempt, FailedWith(error, reconciled)));
  }

  lemma ActionRecords(w: World, arn: string, action: Action, clock: Clock)
    requires LeaseInv(w) && arn in w.executions && Permitted(w.executions[arn], action)
    requires Perform(w.row, InWorkflow(action, arn, w.executions[arn].lease, clock)).Some?
    ensures var x := w.executions[arn]; var e := Wrote(arn, x.lease.attempt, TargetOf(action));
      LeaseJustified(w.log, e)
        && Records(w.row.value, UpdateEffect(InWorkflow(action, arn, x.lease, clock), w.row.value), e, w.log)
  {
    var x := w.executions[arn];
    assert Remembers(arn, x, w.log);
    match action
    case MarkRunning(_) => EntryRecords(w, arn, action, x.lease, clock);
    case MarkCoreCommitted(_) => FlagRecords(w, arn, action, x.lease, clock);
    case MarkCompleted => FinishRecords(w, arn, x.lease, clock);
    case MarkProcessingFailed(error, effective) =>
      var r' := UpdateEffect(InWorkflow(action, arn, x.lease, clock), w.row.value);
      var stage := if error == CORE_IDENTITY_CONFLICT then NoStage else StageFor(effective);
      FailureRecords(w, r', arn, x.lease.attempt, error, false, stage, clock);
  }

  // ----- The other events ---------------------------------------------------

  lemma LeaseEvent(log: seq<Event>, e: Event)
    requires e.Leased?
    ensures forall n :: LeasedAt(log + [e], n) <==> LeasedAt(log, n) || n == e.lease.attempt
    ensures FlaggedIn(log + [e]) <==> FlaggedIn(log)
  {
    forall n ensures LeasedAt(log + [e], n) <==> LeasedAt(log, n) || n == e.lease.attempt {
      if LeasedAt(log, n) {
        var p :| p in log && p.Leased? && p.lease.attempt == n;
        assert p in log + [e];
      }
      assert e in log + [e];
    }
    if FlaggedIn(log) {
      var p :| p in log && p.Wrote? && p.target.CoreFlagged?;
      assert p in log + [e];
    }
  }

  lemma LeaseInvFirstLease(w: World, s: Step)
    requires LeaseInv(w) && s.FirstLease? && Enabled(w, s)
    ensures LeaseInv(Next(w, s))
  {
    var e := Leased(Lease(1, s.owner, Normal), 0, s.told);
    LeaseSoundGrows(w.log, e);
    LeaseEvent(w.log, e);
    AllRememberMore(w, e);
  }

  /** Winning a lease: the attempt moves on by one and the row forgets its execution. */
  lemma WonRowShown(r: Row, u: Update, log: seq<Event>, e: Event)
    requires RowLogged(r, log) && u.ReacquireLease? && GuardHolds(UpdateGuard(u), r) && e.Leased?
    ensures var r' := UpdateEffect(u, r);
      Shaped(r') && Witnessed(r', log + [e]) && r'.attemptCount == r.attemptCount + 1 && !IsTerminal(r)
  {
    LeaseEvent(log, e);
  }

  lemma WonRowLogged(r: Row, r': Row, log: seq<Event>, e: Event)
    requires RowLogged(r, log) && !IsTerminal(r)
    requires e.Leased? && e.lease.attempt == r'.attemptCount == r.attemptCount + 1
    requires Shaped(r') && Witnessed(r', log + [e])
    ensures RowLogged(r', log + [e])
  {
    NoTerminalReply(r, log);
    LeaseEvent(log, e);
  }

  lemma LeaseInvWin(w: World, u: Update, told: bool)
    requires LeaseInv(w) && u.ReacquireLease? && Perform(w.row, u).Some?
    ensures var e := Leased(Lease(u.attempt + 1, u.owner, ModeOf(u.kind)), u.attempt, told);
      LeaseInv(Logged(w.(row := Perform(w.row, u)), e))
  {
    var e := Leased(Lease(u.attempt + 1, u.owner, ModeOf(u.kind)), u.attempt, told);
    WonRowShown(w.row.value, u, w.log, e);
    WonRowLogged(w.row.value, UpdateEffect(u, w.row.value), w.log, e);
    LeaseSoundGrows(w.log, e);
    AllRememberMore(w, e);
  }

  lemma LaunchFailureLogged(r: Row, u: Update, log: seq<Event>)
    requires RowLogged(r, log) && u.MarkStartFailed? && GuardHolds(UpdateGuard(u), r)
    ensures RowLogged(UpdateEffect(u, r), log)
  {
    NoTerminalReply(r, log);
  }

  lemma LeaseInvFailLaunch(w: World, s: Step)
    requires LeaseInv(w) && s.FailLaunch? && Enabled(w, s)
    ensures LeaseInv(Next(w, s))
  {
    var u := MarkStartFailed(s.lease, s.error, s.retryable, s.clock);
    var row' := Perform(w.row, u);
    if row'.Some? {
      NotEntered(w.row.value, w.log);
      LaunchFailureLogged(w.row.value, u, w.log);
      LeaseInvQuiet(w.(row := row'), LaunchFailed(s.lease.attempt));
    }
  }

  lemma TerminalTriageIsConstant(r: Row, now: int, now': int)
    requires IsTerminalReply(TriageRow(r, now))
    ensures TriageRow(r, now') == TriageRow(r, now)
  {
  }

  lemma LeaseInvLooked(w: World, id: nat, now: int)
    requires LeaseInv(w)
    ensures LeaseInv(Logged(w, Looked(id, TriageOf(w.row, now))))
  {
    var e := Looked(id, TriageOf(w.row, now));
    LeaseSoundGrows(w.log, e);
    QuietEvent(w.log, e);
    AllRememberMore(w, e);
    if w.row.Some? && IsTerminalReply(e.triage) {
      forall t ensures TriageRow(w.row.value, t) == e.triage {
        TerminalTriageIsConstant(w.row.value, now, t);
      }
    }
  }

  lemma RowPresent(w: World, arn: string)
    requires LeaseInv(w) && arn in w.executions
    ensures w.row.Some?
  {
    assert Remembers(arn, w.executions[arn], w.log);
  }

  /** A verdict that lets the execution proceed is backed by the history. */
  lemma VerdictJustified(w: World, arn: string, action: Action, clock: Clock)
    requires LeaseInv(w) && arn in w.executions
    ensures var x := w.executions[arn];
      var verdict := Classify(InWorkflow(action, arn, x.lease, clock), w.row);
      LeaseJustified(w.log, Told(arn, x.lease.attempt, action, verdict))
  {
    RowPresent(w, arn);
  }

  lemma LeaseInvConfirm(w: World, arn: string, action: Action, clock: Clock)
    requires LeaseInv(w) && Enabled(w, Confirm(arn, action, clock))
    ensures LeaseInv(ConfirmStep(w, arn, action, clock))
  {
    var x := w.executions[arn];
    var verdict := Classify(InWorkflow(action, arn, x.lease, clock), w.row);
    var x' := x.(unconfirmed := x.unconfirmed - {action});
    var x'' := if MayProceed(verdict) then Learn(x', action) else x';
    RowPresent(w, arn);
    VerdictJustified(w, arn, action, clock);
    assert Remembers(arn, x, w.log);
    LeaseInvExecution(w, arn, x'');
    LeaseInvQuiet(WithExecution(w, arn, x''), Told(arn, x.lease.attempt, action, verdict));
  }

  lemma LeaseInvAct(w: World, arn: string, action: Action, clock: Clock, told: bool)
    requires LeaseInv(w) && Enabled(w, Act(arn, action, clock, told))
    ensures LeaseInv(ActStep(w, arn, action, clock, told))
  {
    var x := w.executions[arn];
    assert Remembers(arn, x, w.log);
    var row' := Perform(w.row, InWorkflow(action, arn, x.lease, clock));
    if row'.Some? {
      ActionRecords(w, arn, action, clock);
      var e := Wrote(arn, x.lease.attempt, TargetOf(action));
      LeaseInvWrite(w, row'.value, e);
      var w' := Logged(w.(row := row'), e);
      if told {
        assert w'.executions[arn] == x && Remembers(arn, x, w'.log) && e in w'.log;
        LeaseInvExecution(w', arn, Learn(x, action));
        LeaseInvQuiet(WithExecution(w', arn, Learn(x, action)), Told(arn, x.lease.attempt, action, Applied));
      }
    } else if told {
      LeaseInvExecution(w, arn, x.(unconfirmed := x.unconfirmed + {action}));
    }
  }

  lemma LeaseInvReconcile(w: World, id: nat, told: bool)
    requires LeaseInv(w) && Enabled(w, Reconcile(id, told))
    ensures LeaseInv(ReconcileStep(w, id, told))
  {
    var q := w.requests[id];
    var g := q.stage;
    var row' := Perform(w.row, ReconcileStaleRunning(g.arn, g.attempt, g.deadline, g.effective, q.clock));
    if row'.Some? {
      FailureRecords(w, row'.value, g.arn, g.attempt, STALE_RUNNING_EXECUTION, true, StageFor(g.effective), q.clock);
      LeaseInvWrite(w, row'.value, Wrote(g.arn, g.attempt, FailedWith(STALE_RUNNING_EXECUTION, true)));
    }
  }

  lemma LeaseInvReLease(w: World, id: nat, told: bool)
    requires LeaseInv(w) && Enabled(w, ReLease(id, told))
    ensures LeaseInv(ReLeaseStep(w, id, told))
  {
    var q := w.requests[id];
    var g := q.stage;
    var u := ReacquireLease(g.kind, g.attempt, q.owner, g.previousError, q.ttl, q.clock);
    if Perform(w.row, u).Some? {
      LeaseInvWin(w, u, told);
    }
  }

  lemma LeaseInvPush(w: World, arn: string)
    requires LeaseInv(w) && Enabled(w, Push(arn))
    ensures LeaseInv(Next(w, Push(arn)))
  {
    var x := w.executions[arn];
    assert Remembers(arn, x, w.log);
    RowPresent(w, arn);
    LeaseInvQuiet(w, Pushed(arn, x.lease.attempt, x.persisted.value.core));
  }

  lemma LeaseInvPutCore(w: World, arn: string, core: Core, told: bool)
    requires LeaseInv(w) && Enabled(w, PutCore(arn, core, told))
    ensures LeaseInv(PutCoreStep(w, arn, core, told))
  {
    var x := w.executions[arn];
    assert Remembers(arn, x, w.log);
    RowPresent(w, arn);
    if w.core.None? {
      var x' := if told then x.(persisted := Some(Committed(core))) else x;
      assert Wrote(arn, x.lease.attempt, Entered) in w.log;
      LeaseInvExecution(w, arn, x');
      LeaseInvQuiet(WithExecution(w, arn, x').(core := Some(core)), Stored(core));
    } else if told {
      LeaseInvExecution(w, arn, x.(computed := Some(core)));
    }
  }

  lemma LeaseInvSee(w: World, s: Step)
    requires LeaseInv(w) && (s.SeeGateRow? || s.SeeGateCore? || s.RereadCore?) && Enabled(w, s)
    ensures LeaseInv(Next(w, s))
  {
    assert Remembers(s.arn, w.executions[s.arn], w.log);
  }

  lemma LeaseInvRequestStep(w: World, s: Step)
    requires LeaseInv(w) && Enabled(w, s) && IsRequestStep(s)
    ensures LeaseInv(Next(w, s))
  {
    match s
    case FirstLease(_, _, _, _, _) => LeaseInvFirstLease(w, s);
    case Look(id) => LeaseInvLooked(w, id, w.requests[id].clock.now);
    case Reconcile(id, told) => LeaseInvReconcile(w, id, told);
    case ReLease(id, told) => LeaseInvReLease(w, id, told);
    case FailLaunch(_, _, _, _) => LeaseInvFailLaunch(w, s);
    case _ =>
  }

  lemma LeaseInvNext(w: World, s: Step)
    requires LeaseInv(w) && !s.Expire?
    ensures LeaseInv(Next(w, s))
  {
    if Enabled(w, s) {
      if IsRequestStep(s) {
        LeaseInvRequestStep(w, s);
      } else {
        match s
        case Spawn(arn, lease) => LeaseInvExecution(w, arn, Execution(lease));
        case Act(arn, action, clock, told) => LeaseInvAct(w, arn, action, clock, told);
        case Confirm(arn, action, clock) => LeaseInvConfirm(w, arn, action, clock);
        case PutCore(arn, core, told) => LeaseInvPutCore(w, arn, core, told);
        case Push(arn) => LeaseInvPush(w, arn);
        case _ => LeaseInvSee(w, s);
      }
    }
  }
}
