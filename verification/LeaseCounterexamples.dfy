/** Runs that show what the lease protocol does not promise. */
module LeaseCounterexamples {
  import opened Options
  import opened LeaseRecord
  import opened LeaseTransitions
  import opened Verdicts
  import opened RecoveryJudgement
  import opened DecisionCore
  import opened LeaseProtocol
  import opened LeaseHistory
  import opened LeaseInvariants
  import opened LeaseTheorems
  import Json

  /** The names and times of a run; the first execution's deadline is one millisecond after `early`. */
  datatype Scene = Scene(key: string, decisionId: string, owner: string, arn: string, early: Clock, late: Clock)

  predicate Playable(c: Scene) {
    c.arn != "" && c.decisionId != "" && c.early.now + 1 < c.late.now
  }

  function FirstOf(c: Scene): Lease {
    Lease(1, c.owner, Normal)
  }

  function LeasedRow(c: Scene): Row {
    FirstRow(c.key, c.decisionId, c.owner, c.early, 1, 0)
  }

  function RunningRow(c: Scene): Row {
    UpdateEffect(InWorkflow(MarkRunning(1), c.arn, FirstOf(c), c.early), LeasedRow(c))
  }

  function StaleAction(): Action {
    MarkProcessingFailed(STALE_RUNNING_EXECUTION, false)
  }

  /** The execution's own failure write. */
  function OwnFailure(c: Scene): Event {
    Wrote(c.arn, 1, FailedWith(STALE_RUNNING_EXECUTION, false))
  }

  /** No failure of the first execution's own, and no core flag but its own. */
  ghost predicate Quiet(c: Scene, log: seq<Event>) {
    && OwnFailure(c) !in log
    && forall e :: e in log && e.Wrote? && e.target.CoreFlagged? ==> e.arn == c.arn
  }

  /** A reachable world that looks like this. */
  ghost predicate Shows(c: Scene, w: World, row: Row, core: Option<Core>, executions: map<string, Execution>) {
    && LiveReachable(w) && w.decisionId == c.decisionId && w.row == Some(row) && w.core == core
    && w.executions == executions && Quiet(c, w.log)
  }

  ghost predicate RequestAt(c: Scene, w: World, stage: Stage) {
    0 in w.requests && w.requests[0] == Request(c.owner, c.late, 1, stage)
  }

  lemma Play(w0: World, s: Step) returns (w: World)
    requires LiveReachable(w0) && !s.Expire?
    ensures LiveReachable(w) && w == Next(w0, s)
  {
    LiveStep(w0, s);
    w := Next(w0, s);
  }

  // ----- Steps the runs share -----------------------------------------------

  lemma Opening(c: Scene) returns (w: World)
    requires Playable(c)
    ensures Shows(c, w, LeasedRow(c), None, map[c.arn := Execution(FirstOf(c))]) && w.requests == map[]
  {
    w := LeaseFirst(c);
    w := Launch(c, w, LeasedRow(c), None, map[], c.arn, FirstOf(c));
  }

  lemma LeaseFirst(c: Scene) returns (w: World)
    ensures Shows(c, w, LeasedRow(c), None, map[]) && w.requests == map[] && LeaseIssued(w.log, FirstOf(c))
  {
    LiveInit(c.key, c.decisionId);
    w := Play(Init(c.key, c.decisionId), FirstLease(c.owner, c.early, 1, 0, true));
    assert w.log == [Leased(FirstOf(c), 0, true)] && Leased(FirstOf(c), 0, true) in w.log;
  }

  lemma Launch(
    c: Scene, w0: World, row: Row, core: Option<Core>, xs: map<string, Execution>, arn: string, lease: Lease)
    returns (w: World)
    requires Shows(c, w0, row, core, xs) && LeaseIssued(w0.log, lease) && arn != "" && arn !in xs
    ensures Shows(c, w, row, core, xs[arn := Execution(lease)]) && w.requests == w0.requests
  {
    w := Play(w0, Spawn(arn, lease));
  }

  lemma Enter(c: Scene) returns (w: World)
    requires Playable(c)
    ensures Shows(c, w, RunningRow(c), None, map[c.arn := Execution(FirstOf(c), true)]) && w.requests == map[]
  {
    w := Opening(c);
    w := Succeed(c, w, LeasedRow(c), None, map[c.arn := Execution(FirstOf(c))], c.arn, MarkRunning(1), c.early);
  }

  /** A guarded write that succeeds: an entry, or the first execution's flag. */
  lemma Succeed(
    c: Scene, w0: World, row: Row, core: Option<Core>, xs: map<string, Execution>, arn: string, a: Action,
    clock: Clock)
    returns (w: World)
    requires Shows(c, w0, row, core, xs) && arn in xs && Permitted(xs[arn], a)
    requires a.MarkRunning? || (a.MarkCoreCommitted? && arn == c.arn)
    requires GuardHolds(UpdateGuard(InWorkflow(a, arn, xs[arn].lease, clock)), row)
    ensures var row' := UpdateEffect(InWorkflow(a, arn, xs[arn].lease, clock), row);
      Shows(c, w, row', core, xs[arn := Learn(xs[arn], a)])
    ensures w.requests == w0.requests
  {
    w := Play(w0, Act(arn, a, clock, true));
  }

  /** The first execution runs, and its deadline has passed. */
  predicate Overdue(c: Scene, row: Row) {
    && row.status.Running? && row.executionArn == Some(c.arn) && row.attemptCount == 1
    && row.decisionId == c.decisionId && row.runningDeadlineAt == Some(c.early.now + 1)
  }

  /** A same-key request arrives after the deadline and sees a stale execution. */
  lemma Notice(c: Scene, w0: World, row: Row, core: Option<Core>, xs: map<string, Execution>) returns (w: World)
    requires Playable(c) && Overdue(c, row) && Shows(c, w0, row, core, xs) && w0.requests == map[]
    ensures Shows(c, w, row, core, xs) && RequestAt(c, w, NeedsGate(row))
  {
    w := Play(w0, Arrive(0, c.owner, c.late, 1));
    w := SeeStale(c, w, row, core, xs);
  }

  lemma SeeStale(c: Scene, w0: World, row: Row, core: Option<Core>, xs: map<string, Execution>) returns (w: World)
    requires Playable(c) && Overdue(c, row) && Shows(c, w0, row, core, xs) && RequestAt(c, w0, Arrived)
    ensures Shows(c, w, row, core, xs) && RequestAt(c, w, NeedsGate(row))
  {
    w := Play(w0, Look(0));
  }

  lemma Grade(c: Scene, w0: World, row: Row, core: Option<Core>, xs: map<string, Execution>) returns (w: World)
    requires Playable(c) && Overdue(c, row) && Shows(c, w0, row, core, xs) && RequestAt(c, w0, NeedsGate(row))
    ensures Shows(c, w, row, core, xs)
    ensures RequestAt(c, w, Reconciling(c.arn, 1, c.early.now + 1, row.coreCommitted || core.Some?))
  {
    w := GradeRow(c, w0, row, core, xs);
    w := GradeCore(c, w, row, core, xs);
  }

  lemma GradeRow(c: Scene, w0: World, row: Row, core: Option<Core>, xs: map<string, Execution>) returns (w: World)
    requires Shows(c, w0, row, core, xs) && RequestAt(c, w0, NeedsGate(row))
    ensures Shows(c, w, row, core, xs) && RequestAt(c, w, GateRowRead(row, Some(row)))
  {
    w := Play(w0, ReadGateRow(0));
  }

  lemma GradeCore(c: Scene, w0: World, row: Row, core: Option<Core>, xs: map<string, Execution>) returns (w: World)
    requires Playable(c) && Overdue(c, row) && Shows(c, w0, row, core, xs)
    requires RequestAt(c, w0, GateRowRead(row, Some(row)))
    ensures Shows(c, w, row, core, xs)
    ensures RequestAt(c, w, Reconciling(c.arn, 1, c.early.now + 1, row.coreCommitted || core.Some?))
  {
    w := Play(w0, ReadGateCore(0));
  }

  function ReconciledRow(c: Scene, row: Row, effective: bool): Row {
    UpdateEffect(ReconcileStaleRunning(c.arn, 1, c.early.now + 1, effective, c.late), row)
  }

  lemma ReconcileIt(c: Scene, w0: World, row: Row, core: Option<Core>, xs: map<string, Execution>, effective: bool)
    returns (w: World)
    requires Playable(c) && Overdue(c, row) && Shows(c, w0, row, core, xs)
    requires RequestAt(c, w0, Reconciling(c.arn, 1, c.early.now + 1, effective))
    ensures Shows(c, w, ReconciledRow(c, row, effective), core, xs)
    ensures RequestAt(c, w, Ready(FromProcessingFailed(effective), 1, Some(STALE_RUNNING_EXECUTION)))
  {
    w := Play(w0, Reconcile(0, true));
  }

  function ReLeasedRow(c: Scene, row: Row, effective: bool): Row {
    var u := ReacquireLease(FromProcessingFailed(effective), 1, c.owner, Some(STALE_RUNNING_EXECUTION), 1, c.late);
    UpdateEffect(u, ReconciledRow(c, row, effective))
  }

  lemma LeaseAgain(c: Scene, w0: World, row: Row, core: Option<Core>, xs: map<string, Execution>, effective: bool)
    returns (w: World)
    requires Playable(c) && Overdue(c, row) && Shows(c, w0, ReconciledRow(c, row, effective), core, xs)
    requires RequestAt(c, w0, Ready(FromProcessingFailed(effective), 1, Some(STALE_RUNNING_EXECUTION)))
    ensures Shows(c, w, ReLeasedRow(c, row, effective), core, xs)
    ensures LeaseIssued(w.log, Lease(2, c.owner, ModeOf(FromProcessingFailed(effective))))
  {
    w := Play(w0, ReLease(0, true));
    assert Leased(Lease(2, c.owner, ModeOf(FromProcessingFailed(effective))), 1, true) in w.log;
  }

  function Judgement(row: Row, core: Option<Core>): GateView {
    Judged(core.Some?, row.coreCommitted || core.Some?)
  }

  /** An execution asks the gate. */
  lemma Ask(c: Scene, w0: World, row: Row, core: Option<Core>, xs: map<string, Execution>, arn: string)
    returns (w: World)
    requires c.decisionId != "" && Shows(c, w0, row, core, xs) && arn in xs
    ensures Shows(c, w, row, core, xs[arn := xs[arn].(gate := Judgement(row, core))]) && w.requests == w0.requests
  {
    var seen := xs[arn := xs[arn].(gate := RowSeen(row.coreCommitted))];
    w := AskRow(c, w0, row, core, xs, arn);
    w := AskCore(c, w, row, core, seen, arn);
    assert seen[arn := seen[arn].(gate := Judgement(row, core))] == xs[arn := xs[arn].(gate := Judgement(row, core))];
  }

  lemma AskRow(c: Scene, w0: World, row: Row, core: Option<Core>, xs: map<string, Execution>, arn: string)
    returns (w: World)
    requires Shows(c, w0, row, core, xs) && arn in xs
    ensures Shows(c, w, row, core, xs[arn := xs[arn].(gate := RowSeen(row.coreCommitted))])
    ensures w.requests == w0.requests
  {
    w := Play(w0, SeeGateRow(arn));
  }

  lemma AskCore(c: Scene, w0: World, row: Row, core: Option<Core>, xs: map<string, Execution>, arn: string)
    returns (w: World)
    requires c.decisionId != "" && Shows(c, w0, row, core, xs)
    requires arn in xs && xs[arn].gate == RowSeen(row.coreCommitted)
    ensures Shows(c, w, row, core, xs[arn := xs[arn].(gate := Judgement(row, core))])
    ensures w.requests == w0.requests
  {
    w := Play(w0, SeeGateCore(arn));
  }

  /** A guarded write that fails its condition. */
  lemma Refuse(
    c: Scene, w0: World, row: Row, core: Option<Core>, xs: map<string, Execution>, arn: string, a: Action)
    returns (w: World)
    requires Shows(c, w0, row, core, xs) && arn in xs && Permitted(xs[arn], a)
    requires !GuardHolds(UpdateGuard(InWorkflow(a, arn, xs[arn].lease, c.late)), row)
    ensures Shows(c, w, row, core, xs[arn := xs[arn].(unconfirmed := xs[arn].unconfirmed + {a})])
  {
    w := Play(w0, Act(arn, a, c.late, true));
  }

  // ----- A failure confirmed by the reconciler's write ----------------------

  /** The execution asks the gate, which finds no core. */
  lemma AskGate(c: Scene) returns (w: World)
    requires Playable(c)
    ensures Shows(c, w, RunningRow(c), None, map[c.arn := Execution(FirstOf(c), true, gate := Judged(false, false))])
    ensures w.requests == map[]
  {
    w := Enter(c);
    w := Ask(c, w, RunningRow(c), None, map[c.arn := Execution(FirstOf(c), true)], c.arn);
  }

  function Reporting(c: Scene): Execution {
    Execution(FirstOf(c), true, gate := Judged(false, false), unconfirmed := {StaleAction()})
  }

  lemma ReportLate(c: Scene) returns (w: World)
    requires Playable(c)
    ensures Shows(c, w, ReconciledRow(c, RunningRow(c), false), None, map[c.arn := Reporting(c)])
  {
    var xs := map[c.arn := Execution(FirstOf(c), true, gate := Judged(false, false))];
    w := AskGate(c);
    w := Notice(c, w, RunningRow(c), None, xs);
    w := Grade(c, w, RunningRow(c), None, xs);
    w := ReconcileIt(c, w, RunningRow(c), None, xs, false);
    w := Refuse(c, w, ReconciledRow(c, RunningRow(c), false), None, xs, c.arn, StaleAction());
    assert w.executions[c.arn].unconfirmed == {StaleAction()};
    assert w.executions == map[c.arn := Reporting(c)];
  }

  /**
   A run in which an execution that reports STALE_RUNNING_EXECUTION is told ALREADY_APPLIED
   although it never wrote its failure: the reconciler did.
   */
  lemma StaleConfirmationMayBeAnothers(c: Scene) returns (w: World)
    requires Playable(c)
    ensures LiveReachable(w) && |w.log| > 0 && OwnFailure(c) !in w.log
    ensures w.log[|w.log| - 1] == Told(c.arn, 1, StaleAction(), AlreadyApplied)
  {
    w := ReportLate(c);
    w := Play(w, Confirm(c.arn, StaleAction(), c.late));
  }

  /** In every run a proceed verdict on a failure with this error is for the execution's own write. */
  ghost predicate ConfirmsOwnFailure(error: string) {
    forall w, k: nat {:trigger LiveReachable(w), w.log[k]} ::
      LiveReachable(w) && k < |w.log| && w.log[k].Told? && MayProceed(w.log[k].verdict)
      && w.log[k].action.MarkProcessingFailed? && w.log[k].action.lastError == error ==>
        Wrote(w.log[k].arn, w.log[k].attempt, FailedWith(error, false)) in w.log[..k]
  }

  /** The error code alone tells: every code but the reconciler's is confirmed by the execution's own write. */
  lemma ConfirmsOwnFailureIff(error: string)
    ensures ConfirmsOwnFailure(error) <==> error != STALE_RUNNING_EXECUTION
  {
    if error != STALE_RUNNING_EXECUTION {
      forall w, k: nat | LiveReachable(w) && k < |w.log| && w.log[k].Told? && MayProceed(w.log[k].verdict)
        && w.log[k].action.MarkProcessingFailed? && w.log[k].action.lastError == error
        ensures Wrote(w.log[k].arn, w.log[k].attempt, FailedWith(error, false)) in w.log[..k]
      {
        FailureConfirmationIsTrue(w, k);
      }
    } else {
      var c := Scene("key", "decision", "owner", "arn", Clock(0, ""), Clock(2, ""));
      var w := StaleConfirmationMayBeAnothers(c);
      var k := |w.log| - 1;
      assert w.log[k] == Told(c.arn, 1, StaleAction(), AlreadyApplied);
      assert OwnFailure(c) !in w.log[..k];
    }
  }

  function Stores(xs: map<string, Execution>, arn: string, core: Core, told: bool): map<string, Execution> {
    if told && arn in xs then xs[arn := xs[arn].(persisted := Some(Committed(core)))] else xs
  }

  lemma Store(c: Scene, core: Core, w0: World, row: Row, xs: map<string, Execution>, told: bool) returns (w: World)
    requires Shows(c, w0, row, None, xs) && core.input.decisionId == Json.Utf16(c.decisionId)
    requires c.arn in xs && xs[c.arn] == Execution(FirstOf(c), true)
    ensures Shows(c, w, row, Some(core), Stores(xs, c.arn, core, told)) && w.requests == w0.requests
  {
    w := Play(w0, PutCore(c.arn, core, told));
  }

  // ----- FULL_WORKFLOW although a core exists -------------------------------

  /**
   A run in which the core is stored after the gate looked for one: the new lease is
   FULL_WORKFLOW although the core exists.
   */
  lemma FullWorkflowDespiteCore(c: Scene, core: Core) returns (w: World)
    requires Playable(c) && core.input.decisionId == Json.Utf16(c.decisionId)
    ensures LiveReachable(w) && w.core == Some(core)
    ensures w.row.Some? && w.row.value.status.Starting? && w.row.value.recoveryMode.FullWorkflow?
  {
    var row, xs := RunningRow(c), map[c.arn := Execution(FirstOf(c), true)];
    w := StoreAfterGate(c, core);
    w := ReconcileIt(c, w, row, Some(core), xs, false);
    w := LeaseAgain(c, w, row, Some(core), xs, false);
  }

  lemma StoreAfterGate(c: Scene, core: Core) returns (w: World)
    requires Playable(c) && core.input.decisionId == Json.Utf16(c.decisionId)
    ensures Shows(c, w, RunningRow(c), Some(core), map[c.arn := Execution(FirstOf(c), true)])
    ensures RequestAt(c, w, Reconciling(c.arn, 1, c.early.now + 1, false))
  {
    var row, xs := RunningRow(c), map[c.arn := Execution(FirstOf(c), true)];
    w := Enter(c);
    w := Notice(c, w, row, None, xs);
    w := Grade(c, w, row, None, xs);
    w := Store(c, core, w, row, xs, false);
  }

  // ----- ALREADY_APPLIED for a flag that another execution set --------------

  function SecondArn(c: Scene): string {
    c.arn + "2"
  }

  function SecondOf(c: Scene): Lease {
    Lease(2, c.owner, EnrichmentOnly)
  }

  function FlaggedRow(c: Scene): Row {
    UpdateEffect(InWorkflow(MarkCoreCommitted(DecisionFnCommitted), c.arn, FirstOf(c), c.early), RunningRow(c))
  }

  function Done(c: Scene, core: Core): map<string, Execution> {
    map[c.arn := Execution(FirstOf(c), true, true, persisted := Some(Committed(core)))]
  }

  lemma CommitCore(c: Scene, core: Core) returns (w: World)
    requires Playable(c) && core.input.decisionId == Json.Utf16(c.decisionId)
    ensures Shows(c, w, FlaggedRow(c), Some(core), Done(c, core)) && w.requests == map[]
  {
    w := Enter(c);
    w := Store(c, core, w, RunningRow(c), map[c.arn := Execution(FirstOf(c), true)], true);
    var xs := map[c.arn := Execution(FirstOf(c), true, persisted := Some(Committed(core)))];
    w := Succeed(c, w, RunningRow(c), Some(core), xs, c.arn, MarkCoreCommitted(DecisionFnCommitted), c.early);
  }

  lemma RecoverCommitted(c: Scene, core: Core) returns (w: World)
    requires Playable(c) && core.input.decisionId == Json.Utf16(c.decisionId)
    ensures Shows(c, w, ReLeasedRow(c, FlaggedRow(c), true), Some(core), Done(c, core))
    ensures LeaseIssued(w.log, SecondOf(c))
  {
    var row := FlaggedRow(c);
    w := CommitCore(c, core);
    w := Notice(c, w, row, Some(core), Done(c, core));
    w := Grade(c, w, row, Some(core), Done(c, core));
    w := ReconcileIt(c, w, row, Some(core), Done(c, core), true);
    w := LeaseAgain(c, w, row, Some(core), Done(c, core), true);
  }

  /**
   A run in which the second launch fails: the row is graded FULL_WORKFLOW although the
   core exists and is flagged.
   */
  lemma FailedLaunchDespiteCore(c: Scene, core: Core) returns (w: World)
    requires Playable(c) && core.input.decisionId == Json.Utf16(c.decisionId)
    ensures LiveReachable(w) && w.core == Some(core) && w.row.Some? && w.row.value.coreCommitted
    ensures w.row.value.status.StartFailed? && w.row.value.recoveryStage.FullStage?
  {
    w := RecoverCommitted(c, core);
    w := Play(w, FailLaunch(SecondOf(c), "StateMachineDoesNotExist", true, c.late));
  }

  function SecondRunningRow(c: Scene): Row {
    UpdateEffect(InWorkflow(MarkRunning(1), SecondArn(c), SecondOf(c), c.late), ReLeasedRow(c, FlaggedRow(c), true))
  }

  function WithSecond(c: Scene, core: Core, x: Execution): map<string, Execution> {
    Done(c, core)[SecondArn(c) := x]
  }

  lemma EnterSecond(c: Scene, core: Core) returns (w: World)
    requires Playable(c) && core.input.decisionId == Json.Utf16(c.decisionId)
    ensures Shows(c, w, SecondRunningRow(c), Some(core), WithSecond(c, core, Execution(SecondOf(c), true)))
  {
    w := RecoverCommitted(c, core);
    assert |SecondArn(c)| != |c.arn|;
    var row, arn := ReLeasedRow(c, FlaggedRow(c), true), SecondArn(c);
    w := Launch(c, w, row, Some(core), Done(c, core), arn, SecondOf(c));
    w := Succeed(c, w, row, Some(core), WithSecond(c, core, Execution(SecondOf(c))), arn, MarkRunning(1), c.late);
    assert WithSecond(c, core, Execution(SecondOf(c)))[arn := Execution(SecondOf(c), true)]
        == WithSecond(c, core, Execution(SecondOf(c), true));
  }

  function GatedSecond(c: Scene): Execution {
    Execution(SecondOf(c), true, gate := Judged(true, true))
  }

  function FlagAction(): Action {
    MarkCoreCommitted(RecoveryGateCoreExists)
  }

  lemma RefuseSecond(c: Scene, core: Core) returns (w: World)
    requires Playable(c) && core.input.decisionId == Json.Utf16(c.decisionId)
    ensures var x := GatedSecond(c).(unconfirmed := {FlagAction()});
      Shows(c, w, SecondRunningRow(c), Some(core), WithSecond(c, core, x))
  {
    var row, arn := SecondRunningRow(c), SecondArn(c);
    w := EnterSecond(c, core);
    w := Ask(c, w, row, Some(core), WithSecond(c, core, Execution(SecondOf(c), true)), arn);
    assert w.executions == WithSecond(c, core, GatedSecond(c));
    w := Refuse(c, w, row, Some(core), WithSecond(c, core, GatedSecond(c)), arn, FlagAction());
    assert w.executions[arn].unconfirmed == {FlagAction()};
    assert w.executions == WithSecond(c, core, GatedSecond(c).(unconfirmed := {FlagAction()}));
  }

  /**
   A run in which an execution is told ALREADY_APPLIED for the core flag although it
   never wrote it: the execution of the attempt before did.
   */
  lemma CoreConfirmationMayBeAnothers(c: Scene, core: Core) returns (w: World)
    requires Playable(c) && core.input.decisionId == Json.Utf16(c.decisionId)
    ensures LiveReachable(w) && |w.log| > 0
    ensures w.log[|w.log| - 1] == Told(SecondArn(c), 2, FlagAction(), AlreadyApplied)
    ensures !FlaggedBy(w.log, SecondArn(c), 2)
  {
    w := RefuseSecond(c, core);
    w := Play(w, Confirm(SecondArn(c), FlagAction(), c.late));
    assert |SecondArn(c)| != |c.arn|;
  }
}
