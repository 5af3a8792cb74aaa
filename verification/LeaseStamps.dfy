/** What the row's audit columns tell: who wrote last, and on what evidence the core was flagged. */
module LeaseStamps {
  import opened Options
  import opened LeaseRecord
  import opened LeaseTransitions
  import opened Verdicts
  import opened LeaseProtocol
  import opened LeaseHistory
  import opened LeaseInvariants
  import opened LeaseTheorems

  /** The last guarded write of an execution or reconciler. */
  function LastWrite(log: seq<Event>): Option<Event> {
    if log == [] then None
    else if log[|log| - 1].Wrote? then Some(log[|log| - 1])
    else LastWrite(log[..|log| - 1])
  }

  lemma LastWriteAppend(log: seq<Event>, e: Event)
    ensures LastWrite(log + [e]) == if e.Wrote? then Some(e) else LastWrite(log)
  {
    assert (log + [e])[..|log|] == log;
  }

  lemma {:induction false} LastWriteIsIn(log: seq<Event>)
    ensures LastWrite(log).Some? ==> LastWrite(log).value in log && LastWrite(log).value.Wrote?
  {
    if log != [] && !log[|log| - 1].Wrote? {
      LastWriteIsIn(log[..|log| - 1]);
    }
  }

  /** The lease handed out last. */
  function LastLease(log: seq<Event>): Option<Lease> {
    if log == [] then None
    else if log[|log| - 1].Leased? then Some(log[|log| - 1].lease)
    else LastLease(log[..|log| - 1])
  }

  lemma LastLeaseAppend(log: seq<Event>, e: Event)
    ensures LastLease(log + [e]) == if e.Leased? then Some(e.lease) else LastLease(log)
  {
    assert (log + [e])[..|log|] == log;
  }

  predicate Ended(r: Row) {
    r.status.Completed? || r.status.ProcessingFailed?
  }

  /** The stage of every reachable row: that of its lease's mode until it ends or its launch fails. */
  predicate StageShown(r: Row) {
    match r.status
    case Completed => r.recoveryStage == NoStage
    case StartFailed => r.recoveryStage == FullStage
    case ProcessingFailed => r.recoveryStage == NoStage <==> r.lastError == Some("CORE_IDENTITY_CONFLICT")
    case _ =>
      if r.attemptCount == 1 then r.recoveryStage == NoStage && r.recoveryMode == Normal
      else r.recoveryStage == if r.recoveryMode == EnrichmentOnly then EnrichmentStage else FullStage
  }

  /** The row shows the last lease, whose owner it keeps until its execution has ended: a failed launch keeps it. */
  ghost predicate LeaseShown(r: Row, log: seq<Event>) {
    var last := LastLease(log);
    && last.Some? && r.attemptCount == last.value.attempt && r.recoveryMode == last.value.mode
    && StageShown(r)
    && r.leaseOwner == if Ended(r) then None else Some(last.value.owner)
  }

  /** The owner is given up exactly when the execution has ended. */
  predicate KeepsLease(r: Row, r': Row) {
    && r'.attemptCount == r.attemptCount && r'.recoveryMode == r.recoveryMode && (StageShown(r) ==> StageShown(r'))
    && if Ended(r) then Ended(r') && r'.leaseOwner == r.leaseOwner
       else r'.leaseOwner == if Ended(r') then None else r.leaseOwner
  }

  ghost predicate FlaggedOn(log: seq<Event>, evidence: Evidence) {
    exists e :: e in log && e.Wrote? && e.target == CoreFlagged(evidence)
  }

  /** The transition columns name the last write's execution and attempt; the evidence is the flag's. */
  ghost predicate StampedRow(r: Row, log: seq<Event>) {
    var last := LastWrite(log);
    && r.transitionArn == (if last.Some? && last.value.Wrote? then Some(last.value.arn) else None)
    && r.transitionAttempt == (if last.Some? && last.value.Wrote? then Some(last.value.attempt) else None)
    && (r.evidence.Some? <==> r.coreCommitted)
    && (r.evidence.Some? ==> FlaggedOn(log, r.evidence.value))
  }

  ghost predicate Stamped(w: World) {
    w.row.Some? ==> StampedRow(w.row.value, w.log) && LeaseShown(w.row.value, w.log)
  }

  lemma FlaggedStays(log: seq<Event>, e: Event, evidence: Evidence)
    requires FlaggedOn(log, evidence)
    ensures FlaggedOn(log + [e], evidence)
  {
    var p :| p in log && p.Wrote? && p.target == CoreFlagged(evidence);
    assert p in log + [e];
  }

  /** A row that keeps its stamps, under a history that gains no write. */
  lemma StampsKept(r: Row, r': Row, log: seq<Event>, e: Event)
    requires StampedRow(r, log) && LeaseShown(r, log) && !e.Wrote? && !e.Leased? && KeepsLease(r, r')
    requires r'.transitionArn == r.transitionArn && r'.transitionAttempt == r.transitionAttempt
    requires r'.evidence == r.evidence && r'.coreCommitted == r.coreCommitted
    ensures StampedRow(r', log + [e]) && LeaseShown(r', log + [e])
  {
    LastWriteAppend(log, e);
    LastLeaseAppend(log, e);
    if r.evidence.Some? {
      FlaggedStays(log, e, r.evidence.value);
    }
  }

  /** A write stamps the row. */
  lemma StampsSet(r: Row, r': Row, log: seq<Event>, e: Event)
    requires StampedRow(r, log) && LeaseShown(r, log) && e.Wrote? && KeepsLease(r, r')
    requires r'.transitionArn == Some(e.arn) && r'.transitionAttempt == Some(e.attempt)
    requires if e.target.CoreFlagged? then r'.coreCommitted && r'.evidence == Some(e.target.evidence)
             else r'.evidence == r.evidence && r'.coreCommitted == r.coreCommitted
    ensures StampedRow(r', log + [e]) && LeaseShown(r', log + [e])
  {
    LastWriteAppend(log, e);
    LastLeaseAppend(log, e);
    assert e in log + [e];
    if r.evidence.Some? {
      FlaggedStays(log, e, r.evidence.value);
    }
  }

  lemma StampedFirstLease(w: World, s: Step)
    requires LeaseInv(w) && s.FirstLease? && Enabled(w, s)
    ensures Stamped(Next(w, s))
  {
    LastWriteAppend(w.log, Leased(Lease(1, s.owner, Normal), 0, s.told));
    LastLeaseAppend(w.log, Leased(Lease(1, s.owner, Normal), 0, s.told));
    LastWriteIsIn(w.log);
  }

  /** What an execution's write does to the columns that this module speaks of. */
  lemma ActedRowShown(r: Row, action: Action, arn: string, lease: Lease, clock: Clock)
    requires Perform(Some(r), InWorkflow(action, arn, lease, clock)).Some?
    ensures var after := Perform(Some(r), InWorkflow(action, arn, lease, clock)).value;
      && KeepsLease(r, after) && after.transitionArn == Some(arn) && after.transitionAttempt == Some(lease.attempt)
      && if TargetOf(action).CoreFlagged? then after.coreCommitted && after.evidence == Some(TargetOf(action).evidence)
         else after.evidence == r.evidence && after.coreCommitted == r.coreCommitted
  {
  }

  lemma StampedAct(w: World, arn: string, action: Action, clock: Clock, told: bool)
    requires Stamped(w) && Enabled(w, Act(arn, action, clock, told))
    ensures Stamped(ActStep(w, arn, action, clock, told))
  {
    var x := w.executions[arn];
    var row' := Perform(w.row, InWorkflow(action, arn, x.lease, clock));
    if row'.Some? {
      var e := Wrote(arn, x.lease.attempt, TargetOf(action));
      ActedRowShown(w.row.value, action, arn, x.lease, clock);
      StampsSet(w.row.value, row'.value, w.log, e);
      StampsKept(row'.value, row'.value, w.log + [e], Told(arn, x.lease.attempt, action, Applied));
    }
  }

  lemma StampedReconcile(w: World, id: nat, told: bool)
    requires Stamped(w) && Enabled(w, Reconcile(id, told))
    ensures Stamped(ReconcileStep(w, id, told))
  {
    var q := w.requests[id];
    var g := q.stage;
    var row' := Perform(w.row, ReconcileStaleRunning(g.arn, g.attempt, g.deadline, g.effective, q.clock));
    if row'.Some? {
      StampsSet(w.row.value, row'.value, w.log, Wrote(g.arn, g.attempt, FailedWith(STALE_RUNNING_EXECUTION, true)));
    }
  }

  /** A lease leaves the audit columns alone and shows itself on the row. */
  lemma ReLeasedRowShown(
    r: Row, log: seq<Event>, kind: LeaseKind, attempt: int, owner: string, previous: Option<string>, ttl: int,
    clock: Clock, e: Event)
    requires StampedRow(r, log) && r.attemptCount >= 1
    requires Perform(Some(r), ReacquireLease(kind, attempt, owner, previous, ttl, clock)).Some?
    requires e.Leased? && e.lease == Lease(attempt + 1, owner, ModeOf(kind))
    ensures var after := Perform(Some(r), ReacquireLease(kind, attempt, owner, previous, ttl, clock)).value;
      StampedRow(after, log + [e]) && LeaseShown(after, log + [e])
  {
    LastWriteAppend(log, e);
    LastLeaseAppend(log, e);
    if r.evidence.Some? {
      FlaggedStays(log, e, r.evidence.value);
    }
  }

  lemma AttemptsStartAtOne(w: World)
    requires LeaseInv(w) && w.row.Some?
    ensures w.row.value.attemptCount >= 1
  {
  }

  lemma StampedReLease(w: World, id: nat, told: bool)
    requires LeaseInv(w) && Stamped(w) && Enabled(w, ReLease(id, told))
    ensures Stamped(ReLeaseStep(w, id, told))
  {
    var q := w.requests[id];
    var g := q.stage;
    var row' := Perform(w.row, ReacquireLease(g.kind, g.attempt, q.owner, g.previousError, q.ttl, q.clock));
    if row'.Some? {
      AttemptsStartAtOne(w);
      ReLeasedRowShown(w.row.value, w.log, g.kind, g.attempt, q.owner, g.previousError, q.ttl, q.clock,
        Leased(Lease(g.attempt + 1, q.owner, ModeOf(g.kind)), g.attempt, told));
    }
  }

  lemma StampedFailLaunch(w: World, s: Step)
    requires Stamped(w) && s.FailLaunch? && Enabled(w, s)
    ensures Stamped(Next(w, s))
  {
    var row' := Perform(w.row, MarkStartFailed(s.lease, s.error, s.retryable, s.clock));
    if row'.Some? {
      StampsKept(w.row.value, row'.value, w.log, LaunchFailed(s.lease.attempt));
    }
  }

  predicate ChangesRow(s: Step) {
    s.FirstLease? || s.Act? || s.Reconcile? || s.ReLease? || s.FailLaunch? || s.Expire?
  }

  /** The other steps leave the row alone and write nothing to the history but announcements. */
  lemma OtherStepsOnlyAnnounce(w: World, s: Step)
    requires !ChangesRow(s)
    ensures Next(w, s).row == w.row
    ensures Next(w, s).log == w.log || exists e: Event :: !e.Wrote? && !e.Leased? && Next(w, s).log == w.log + [e]
  {
  }

  lemma StampedOther(w: World, s: Step)
    requires Stamped(w) && !ChangesRow(s)
    ensures Stamped(Next(w, s))
  {
    OtherStepsOnlyAnnounce(w, s);
    if w.row.Some? && Next(w, s).log != w.log {
      var e: Event :| !e.Wrote? && !e.Leased? && Next(w, s).log == w.log + [e];
      StampsKept(w.row.value, w.row.value, w.log, e);
    }
  }

  lemma StampedNext(w: World, s: Step)
    requires LeaseInv(w) && Stamped(w) && !s.Expire?
    ensures Stamped(Next(w, s))
  {
    if !ChangesRow(s) {
      StampedOther(w, s);
    } else if Enabled(w, s) {
      match s
      case FirstLease(_, _, _, _, _) => StampedFirstLease(w, s);
      case Act(arn, action, clock, told) => StampedAct(w, arn, action, clock, told);
      case Reconcile(id, told) => StampedReconcile(w, id, told);
      case ReLease(id, told) => StampedReLease(w, id, told);
      case FailLaunch(_, _, _, _) => StampedFailLaunch(w, s);
    }
  }

  lemma {:induction false} StampedRun(w: World, steps: seq<Step>)
    requires LeaseInv(w) && Stamped(w) && NeverExpires(steps)
    ensures Stamped(Run(w, steps))
    decreases |steps|
  {
    if steps != [] {
      StampedRun(w, steps[..|steps| - 1]);
      LeaseInvRun(w, steps[..|steps| - 1]);
      StampedNext(Run(w, steps[..|steps| - 1]), steps[|steps| - 1]);
    }
  }

  /**
   In every run the row names the execution and attempt of the last write, and the
   evidence on which the core was flagged; there is evidence exactly when it is flagged.
   It shows the attempt, mode and owner of the last lease, the owner until its execution
   ends, and the stage that belongs to its status and mode.
   */
  lemma RowsAreStamped(w: World)
    requires LiveReachable(w) && w.row.Some?
    ensures StampedRow(w.row.value, w.log) && LeaseShown(w.row.value, w.log)
  {
    var key, decisionId, steps :| NeverExpires(steps) && w == Run(Init(key, decisionId), steps);
    StampedRun(Init(key, decisionId), steps);
  }

  /** A row whose launch failed still names the owner of its lease. */
  lemma FailedLaunchKeepsOwner(w: World)
    requires LiveReachable(w) && w.row.Some? && w.row.value.status.StartFailed?
    ensures LastLease(w.log).Some? && w.row.value.leaseOwner == Some(LastLease(w.log).value.owner)
  {
    RowsAreStamped(w);
  }
}
