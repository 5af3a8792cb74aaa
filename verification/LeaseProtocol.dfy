/**
 The lease and fencing protocol of one idempotency key as a state machine. Every
 table operation is one step, so anything may happen between a failed guarded write
 and the re-read that explains it. Responses may be lost, executions may be
 duplicated or arbitrarily late, and any actor may stop at any time.
 */
module LeaseProtocol {
  import opened Options
  import opened LeaseRecord
  import opened LeaseTransitions
  import opened Verdicts
  import opened RecoveryJudgement
  import opened DecisionCore
  import Json

  // ----- State --------------------------------------------------------------

  /** What a successful guarded write recorded for an execution. */
  datatype Target = Entered | CoreFlagged(evidence: Evidence) | Finished | FailedWith(error: string, reconciled: bool)

  /** The history. `told` is false when the response was lost. */
  datatype Event =
    | Leased(lease: Lease, observed: int, told: bool)
    | Wrote(arn: string, attempt: int, target: Target)
    | LaunchFailed(attempt: int)
    | Told(arn: string, attempt: int, action: Action, verdict: Verdict)
    | Stored(core: Core)
    | Pushed(arn: string, attempt: int, core: Core)
    | Looked(request: nat, triage: Triage)

  datatype GateView = NoGate | RowSeen(flag: bool) | Judged(coreExists: bool, effective: bool)

  /** A workflow execution: the lease from its input and what it has learnt so far. */
  datatype Execution = Execution(
    lease: Lease,
    entered: bool := false,
    flagged: bool := false,
    unconfirmed: set<Action> := {},
    computed: Option<Core> := None,
    persisted: Option<Persisted> := None,
    gate: GateView := NoGate)

  /** Where a same-key request is. */
  datatype Stage =
    | Arrived
    | NeedsGate(seen: Row)
    | GateRowRead(seen: Row, gateRow: Option<Row>)
    | Reconciling(arn: string, attempt: int, deadline: int, effective: bool)
    | Confirming(arn: string, attempt: int, deadline: int, effective: bool)
    | Ready(kind: LeaseKind, attempt: int, previousError: Option<string>)
    | Finished

  datatype Request = Request(owner: string, clock: Clock, ttl: int, stage: Stage)

  datatype World = World(
    key: string,
    decisionId: string,
    row: Option<Row>,
    core: Option<Core>,
    executions: map<string, Execution>,
    requests: map<nat, Request>,
    log: seq<Event>)

  function Init(key: string, decisionId: string): World {
    World(key, decisionId, None, None, map[], map[], [])
  }

  // ----- Steps --------------------------------------------------------------

  datatype Step =
    | FirstLease(owner: string, clock: Clock, ttl: int, expiresAt: int, told: bool)
    | Arrive(id: nat, owner: string, clock: Clock, ttl: int)
    | Look(id: nat)
    | ReadGateRow(id: nat)
    | ReadGateCore(id: nat)
    | Reconcile(id: nat, told: bool)
    | ConfirmReconcile(id: nat)
    | ReLease(id: nat, told: bool)
    | FailLaunch(lease: Lease, error: string, retryable: bool, clock: Clock)
    | Spawn(arn: string, lease: Lease)
    | Act(arn: string, action: Action, clock: Clock, told: bool)
    | Confirm(arn: string, action: Action, clock: Clock)
    | SeeGateRow(arn: string)
    | SeeGateCore(arn: string)
    | PutCore(arn: string, core: Core, told: bool)
    | RereadCore(arn: string)
    | Push(arn: string)
    | Expire

  function FirstRow(key: string, decisionId: string, owner: string, clock: Clock, ttl: int, expiresAt: int): Row {
    Row(key, decisionId, Starting, 1, Some(owner), Some(clock.now + ttl), None, true, None, None, None,
        None, None, None, None, None, false, NoStage, Normal, None, clock.display, clock.display, expiresAt)
  }

  predicate LeaseIssued(log: seq<Event>, lease: Lease) {
    exists e :: e in log && e.Leased? && e.lease == lease
  }

  /** The order the workflow definition imposes on an execution's own actions. */
  predicate Permitted(x: Execution, a: Action) {
    match a
    case MarkRunning(_) => true
    case MarkCoreCommitted(DecisionFnCommitted) =>
      x.entered && !x.lease.mode.EnrichmentOnly? && x.persisted.Some? && !x.persisted.value.IdentityConflict?
    case MarkCoreCommitted(RecoveryGateCoreExists) =>
      x.entered && x.lease.mode.EnrichmentOnly? && x.gate.Judged? && x.gate.coreExists
    case MarkCompleted => x.flagged
    case MarkProcessingFailed(error, effective) =>
      if error == CORE_IDENTITY_CONFLICT
      then effective && x.persisted.Some? && x.persisted.value.IdentityConflict?
      else x.gate.Judged? && x.gate.effective == effective
  }

  function TargetOf(a: Action): Target {
    match a
    case MarkRunning(_) => Entered
    case MarkCoreCommitted(evidence) => CoreFlagged(evidence)
    case MarkCompleted => Target.Finished
    case MarkProcessingFailed(error, _) => FailedWith(error, false)
  }

  function Learn(x: Execution, a: Action): Execution {
    match a
    case MarkRunning(_) => x.(entered := true)
    case MarkCoreCommitted(_) => x.(flagged := true)
    case _ => x
  }

  predicate Enabled(w: World, s: Step) {
    match s
    case FirstLease(_, _, _, _, _) => w.row.None?
    case Arrive(id, _, _, _) => id !in w.requests
    case Look(id) => id in w.requests && w.requests[id].stage.Arrived?
    case ReadGateRow(id) => id in w.requests && w.requests[id].stage.NeedsGate?
    case ReadGateCore(id) => id in w.requests && w.requests[id].stage.GateRowRead?
    case Reconcile(id, _) => id in w.requests && w.requests[id].stage.Reconciling?
    case ConfirmReconcile(id) => id in w.requests && w.requests[id].stage.Confirming?
    case ReLease(id, _) => id in w.requests && w.requests[id].stage.Ready?
    case FailLaunch(lease, _, _, _) => LeaseIssued(w.log, lease)
    case Spawn(arn, lease) => arn != "" && arn !in w.executions && LeaseIssued(w.log, lease)
    case Act(arn, action, _, _) => arn in w.executions && Permitted(w.executions[arn], action)
    case Confirm(arn, action, _) => arn in w.executions && action in w.executions[arn].unconfirmed
    case SeeGateRow(arn) => arn in w.executions
    case SeeGateCore(arn) => arn in w.executions && w.executions[arn].gate.RowSeen?
    case PutCore(arn, core, _) =>
      && arn in w.executions && w.executions[arn].entered && !w.executions[arn].lease.mode.EnrichmentOnly?
      && core.input.decisionId == Json.Utf16(w.decisionId)
    case RereadCore(arn) => arn in w.executions && w.executions[arn].computed.Some?
    case Push(arn) =>
      && arn in w.executions && w.executions[arn].flagged && !w.executions[arn].lease.mode.EnrichmentOnly?
      && w.executions[arn].persisted.Some? && !w.executions[arn].persisted.value.IdentityConflict?
    case Expire => w.row.Some?
  }

  function WithStage(w: World, id: nat, stage: Stage): World
    requires id in w.requests
  {
    w.(requests := w.requests[id := w.requests[id].(stage := stage)])
  }

  function WithExecution(w: World, arn: string, x: Execution): World {
    w.(executions := w.executions[arn := x])
  }

  function Logged(w: World, e: Event): World {
    w.(log := w.log + [e])
  }

  function AfterTriage(t: Triage, seen: Row): Stage {
    match t
    case Reply(_) => Stage.Finished
    case TakeLease(kind) => Ready(kind, seen.attemptCount, seen.lastError)
    case GradeByGate => NeedsGate(seen)
    case ReconcileStale => NeedsGate(seen)
  }

  function TriageOf(row: Option<Row>, now: int): Triage {
    if row.None? then Reply(KeyAbsent) else TriageRow(row.value, now)
  }

  function LookStep(w: World, id: nat): World
    requires Enabled(w, Look(id))
  {
    var t := TriageOf(w.row, w.requests[id].clock.now);
    Logged(WithStage(w, id, if w.row.None? then Stage.Finished else AfterTriage(t, w.row.value)), Looked(id, t))
  }

  /** After the gate: re-lease a failed row, reconcile a stale one, or give up. */
  function AfterGate(seen: Row, g: GateResult): Stage {
    if seen.status.ProcessingFailed? then
      Ready(FromProcessingFailed(g.effectiveCoreCommitted), seen.attemptCount, seen.lastError)
    else if g.expectedArn.None? || g.expectedAttempt.None? || g.observedDeadline.None? then Stage.Finished
    else Reconciling(g.expectedArn.value, g.expectedAttempt.value, g.observedDeadline.value, g.effectiveCoreCommitted)
  }

  function ReconcileStep(w: World, id: nat, told: bool): World
    requires Enabled(w, Reconcile(id, told))
  {
    var q := w.requests[id];
    var g := q.stage;
    var row' := Perform(w.row, ReconcileStaleRunning(g.arn, g.attempt, g.deadline, g.effective, q.clock));
    if row'.Some? then
      Logged(
        WithStage(w, id, if told then Ready(FromProcessingFailed(g.effective), g.attempt, row'.value.lastError)
                         else Stage.Finished).(row := row'),
        Wrote(g.arn, g.attempt, FailedWith(STALE_RUNNING_EXECUTION, true)))
    else WithStage(w, id, Confirming(g.arn, g.attempt, g.deadline, g.effective))
  }

  function ConfirmReconcileStep(w: World, id: nat): World
    requires Enabled(w, ConfirmReconcile(id))
  {
    var q := w.requests[id];
    var g := q.stage;
    var verdict := Classify(ReconcileStaleRunning(g.arn, g.attempt, g.deadline, g.effective, q.clock), w.row);
    WithStage(w, id,
      if !MayProceed(verdict) || w.row.None? then Stage.Finished
      else Ready(FromProcessingFailed(g.effective), g.attempt, w.row.value.lastError))
  }

  function ReLeaseStep(w: World, id: nat, told: bool): World
    requires Enabled(w, ReLease(id, told))
  {
    var q := w.requests[id];
    var g := q.stage;
    var row' := Perform(w.row, ReacquireLease(g.kind, g.attempt, q.owner, g.previousError, q.ttl, q.clock));
    if row'.Some? then
      Logged(WithStage(w, id, Stage.Finished).(row := row'),
             Leased(Lease(g.attempt + 1, q.owner, ModeOf(g.kind)), g.attempt, told))
    else WithStage(w, id, Stage.Finished)
  }

  function ActStep(w: World, arn: string, action: Action, clock: Clock, told: bool): World
    requires Enabled(w, Act(arn, action, clock, told))
  {
    var x := w.executions[arn];
    var row' := Perform(w.row, InWorkflow(action, arn, x.lease, clock));
    if row'.Some? then
      var w' := Logged(w.(row := row'), Wrote(arn, x.lease.attempt, TargetOf(action)));
      if told then
        Logged(WithExecution(w', arn, Learn(x, action)), Told(arn, x.lease.attempt, action, Applied))
      else w'
    else if told then WithExecution(w, arn, x.(unconfirmed := x.unconfirmed + {action}))
    else w
  }

  function ConfirmStep(w: World, arn: string, action: Action, clock: Clock): World
    requires Enabled(w, Confirm(arn, action, clock))
  {
    var x := w.executions[arn];
    var verdict := Classify(InWorkflow(action, arn, x.lease, clock), w.row);
    var x' := x.(unconfirmed := x.unconfirmed - {action});
    Logged(WithExecution(w, arn, if MayProceed(verdict) then Learn(x', action) else x'),
           Told(arn, x.lease.attempt, action, verdict))
  }

  function PutCoreStep(w: World, arn: string, core: Core, told: bool): World
    requires Enabled(w, PutCore(arn, core, told))
  {
    var x := w.executions[arn];
    if w.core.None? then
      Logged(WithExecution(w, arn, if told then x.(persisted := Some(Committed(core))) else x).(core := Some(core)),
             Stored(core))
    else if told then WithExecution(w, arn, x.(computed := Some(core)))
    else w
  }

  function Next(w: World, s: Step): World {
    if !Enabled(w, s) then w
    else
      match s
      case FirstLease(owner, clock, ttl, expiresAt, told) =>
        Logged(w.(row := Some(FirstRow(w.key, w.decisionId, owner, clock, ttl, expiresAt))),
               Leased(Lease(1, owner, Normal), 0, told))
      case Arrive(id, owner, clock, ttl) => w.(requests := w.requests[id := Request(owner, clock, ttl, Arrived)])
      case Look(id) => LookStep(w, id)
      case ReadGateRow(id) => WithStage(w, id, GateRowRead(w.requests[id].stage.seen, w.row))
      case ReadGateCore(id) =>
        var g := w.requests[id].stage;
        WithStage(w, id, AfterGate(g.seen, Judge(g.gateRow, Some(w.decisionId), w.core.Some?)))
      case Reconcile(id, told) => ReconcileStep(w, id, told)
      case ConfirmReconcile(id) => ConfirmReconcileStep(w, id)
      case ReLease(id, told) => ReLeaseStep(w, id, told)
      case FailLaunch(lease, error, retryable, clock) =>
        var row' := Perform(w.row, MarkStartFailed(lease, error, retryable, clock));
        if row'.Some? then Logged(w.(row := row'), LaunchFailed(lease.attempt)) else w
      case Spawn(arn, lease) => WithExecution(w, arn, Execution(lease))
      case Act(arn, action, clock, told) => ActStep(w, arn, action, clock, told)
      case Confirm(arn, action, clock) => ConfirmStep(w, arn, action, clock)
      case SeeGateRow(arn) =>
        WithExecution(w, arn, w.executions[arn].(gate := RowSeen(w.row.Some? && w.row.value.coreCommitted)))
      case SeeGateCore(arn) =>
        var x := w.executions[arn];
        var resolved := w.decisionId != "";
        WithExecution(w, arn, x.(gate := Judged(resolved && w.core.Some?, resolved && (x.gate.flag || w.core.Some?))))
      case PutCore(arn, core, told) => PutCoreStep(w, arn, core, told)
      case RereadCore(arn) =>
        var x := w.executions[arn];
        WithExecution(w, arn, x.(computed := None, persisted := Some(ClassifyReread(x.computed.value, w.core))))
      case Push(arn) =>
        var x := w.executions[arn];
        Logged(w, Pushed(arn, x.lease.attempt, x.persisted.value.core))
      case Expire => w.(row := None)
  }

  function Run(w: World, steps: seq<Step>): World
    decreases |steps|
  {
    if steps == [] then w else Next(Run(w, steps[..|steps| - 1]), steps[|steps| - 1])
  }

  /** No step deletes the row: the setting of the attempt-counting properties. */
  predicate NeverExpires(steps: seq<Step>) {
    forall s :: s in steps ==> !s.Expire?
  }
}
