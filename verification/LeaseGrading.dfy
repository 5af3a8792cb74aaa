/** When it is true that a row graded FULL_WORKFLOW has no core. */
module LeaseGrading {
  import opened Options
  import opened LeaseRecord
  import opened LeaseTransitions
  import opened DecisionCore
  import opened LeaseProtocol
  import opened LeaseHistory
  import opened LeaseInvariants
  import opened LeaseTheorems
  import opened LeaseCounterexamples
  import opened LeaseStamps
  import opened FreshIds
  import Json

  // ----- No core before the first entry -------------------------------------

  lemma CoreNeedsEntry(w: World)
    requires LiveReachable(w) && w.core.Some?
    ensures EnteredEver(w.log)
  {
    LiveReachableKeepsAll(w);
    var k :| 0 <= k < |w.log| && w.log[k] == Stored(w.core.value);
    assert LeaseJustified(w.log[..k], w.log[k]);
    var e :| e in w.log[..k] && e.Wrote? && e.target.Entered?;
    assert e in w.log;
  }

  predicate Unstarted(r: Row) {
    r.status.Starting? || r.status.StartFailed?
  }

  /** While the first attempt has not entered there is no core. */
  lemma FirstAttemptHasNoCore(w: World)
    requires LiveReachable(w) && w.row.Some? && Unstarted(w.row.value) && w.row.value.attemptCount == 1
    ensures w.core.None?
  {
    LiveReachableKeepsAll(w);
    if w.core.Some? {
      CoreNeedsEntry(w);
    }
  }

  lemma {:induction false} NothingWritten(log: seq<Event>)
    requires LastWrite(log).None?
    ensures forall e :: e in log ==> !e.Wrote?
  {
    if log != [] {
      NothingWritten(log[..|log| - 1]);
    }
  }

  /** A row on which no execution or reconciler has left its name has no core, whatever its attempt. */
  lemma UnnamedRowHasNoCore(w: World)
    requires LiveReachable(w) && w.row.Some? && w.row.value.transitionArn.None?
    ensures w.core.None?
  {
    RowsAreStamped(w);
    LastWriteIsIn(w.log);
    NothingWritten(w.log);
    if w.core.Some? {
      CoreNeedsEntry(w);
    }
  }

  // ----- Every later attempt may find one -----------------------------------

  /** A reachable row that waits for its execution, with its lease and a core. */
  ghost predicate WaitsWithCore(w: World, n: int) {
    && LiveReachable(w) && w.core.Some? && w.row.Some?
    && w.row.value.status.Starting? && w.row.value.attemptCount == n
    && w.row.value.leaseOwner.Some? && w.row.value.leaseExpiresAt.Some?
    && LeaseIssued(w.log, LeaseOf(w.row.value))
  }

  function LeaseOf(r: Row): Lease
    requires r.leaseOwner.Some?
  {
    Lease(r.attemptCount, r.leaseOwner.value, r.recoveryMode)
  }

  function LaunchFailure(r: Row): Step
    requires r.leaseOwner.Some?
  {
    FailLaunch(LeaseOf(r), "StateMachineDoesNotExist", true, Clock(0, ""))
  }

  /** The launch of a waiting row fails. */
  lemma FailWaiting(w0: World, n: int) returns (w: World)
    requires WaitsWithCore(w0, n)
    ensures w == Next(w0, LaunchFailure(w0.row.value)) && LiveReachable(w) && w.log != w0.log
    ensures w.core == w0.core && w.row.Some? && w.row.value.status.StartFailed? && w.row.value.attemptCount == n
  {
    w := Play(w0, LaunchFailure(w0.row.value));
  }

  /** A same-key request sees an unstarted row that it may lease again. */
  ghost predicate Seeks(w: World, id: nat, kind: LeaseKind, n: int) {
    && LiveReachable(w) && w.core.Some? && w.row.Some?
    && id in w.requests && w.requests[id].stage.Ready?
    && w.requests[id].stage.kind == kind && w.requests[id].stage.attempt == n
    && Perform(w.row, LeaseSought(w.requests[id])).Some?
  }

  lemma Ask(w0: World, kind: LeaseKind, clock: Clock) returns (w: World, id: nat)
    requires LiveReachable(w0) && w0.core.Some? && w0.row.Some? && Unstarted(w0.row.value)
    requires TriageRow(w0.row.value, clock.now) == TakeLease(kind)
    ensures Seeks(w, id, kind, w0.row.value.attemptCount) && w.row == w0.row
  {
    id := FreshId(w0.requests.Keys);
    w := Play(w0, Arrive(id, "commander", clock, 1));
    w := SeeUnstarted(w, id, kind);
  }

  lemma SeeUnstarted(w0: World, id: nat, kind: LeaseKind) returns (w: World)
    requires LiveReachable(w0) && w0.core.Some? && w0.row.Some? && Unstarted(w0.row.value)
    requires id in w0.requests && w0.requests[id].stage.Arrived?
    requires TriageRow(w0.row.value, w0.requests[id].clock.now) == TakeLease(kind)
    ensures Seeks(w, id, kind, w0.row.value.attemptCount) && w.row == w0.row
  {
    w := Play(w0, Look(id));
  }

  lemma Win(w0: World, id: nat, kind: LeaseKind, n: int) returns (w: World)
    requires Seeks(w0, id, kind, n)
    ensures w == Next(w0, ReLease(id, true)) && w.log != w0.log && WaitsWithCore(w, n + 1)
  {
    w := Play(w0, ReLease(id, true));
    assert Leased(LeaseOf(w.row.value), n, true) in w.log;
  }

  function AnyCore(decisionId: string): Core {
    Core(CoreInput(Json.Utf16(decisionId), [], [], [], [], None, 1, AnyFacts()), [])
  }

  function AnyFacts(): Facts {
    Facts(Json.Null, Json.Null, Json.Null, Json.Null, Json.Null, Json.Null, Json.Null, Json.Null, Json.Null, Json.Null,
          Json.Null, Json.Null, Json.Null, Json.Null, Json.Null, Json.Null, Json.Null, Json.Null, Json.Null, Json.Null)
  }

  lemma SecondWaits(c: Scene) returns (w: World)
    requires Playable(c)
    ensures WaitsWithCore(w, 2)
  {
    w := RecoverCommitted(c, AnyCore(c.decisionId));
    var r := ReLeasedRow(c, FlaggedRow(c), true);
    assert r.leaseOwner == Some(c.owner) && r.recoveryMode.EnrichmentOnly? && r.attemptCount == 2;
    assert LeaseOf(r) == SecondOf(c);
  }

  /** Every attempt after the first may wait although a core exists. */
  lemma {:induction false} WaitingWithCore(n: int) returns (w: World)
    requires n >= 2
    ensures WaitsWithCore(w, n)
  {
    if n == 2 {
      w := SecondWaits(Scene("key", "decision", "owner", "arn", Clock(0, ""), Clock(2, "")));
    } else {
      var w0 := WaitingWithCore(n - 1);
      var w1 := FailWaiting(w0, n - 1);
      var w2, id := Ask(w1, FromStartFailed, Clock(0, ""));
      w := Win(w2, id, FromStartFailed, n - 1);
    }
  }

  // ----- Exactly the first attempt ------------------------------------------

  ghost predicate FailsLaunchAt(w: World, s: Step, n: int) {
    LiveReachable(w) && s.FailLaunch? && s.lease.attempt == n && Next(w, s).log != w.log
  }

  /** In every run a failed launch of this attempt leaves a row without a core. */
  ghost predicate FailedLaunchMeansNoCore(n: int) {
    forall w, s :: FailsLaunchAt(w, s, n) ==> Next(w, s).core.None?
  }

  /** A failed launch means that no core exists exactly at the first attempt. */
  lemma FailedLaunchMeansNoCoreIff(n: int)
    requires n >= 1
    ensures FailedLaunchMeansNoCore(n) <==> n == 1
  {
    if n == 1 {
      forall w, s | FailsLaunchAt(w, s, n) ensures Next(w, s).core.None? {
        FirstAttemptHasNoCore(w);
      }
    } else {
      var w0 := WaitingWithCore(n);
      var w := FailWaiting(w0, n);
      assert FailsLaunchAt(w0, LaunchFailure(w0.row.value), n);
    }
  }

  ghost predicate LeasesAgainAt(w: World, id: nat, told: bool, kind: LeaseKind, n: int) {
    && LiveReachable(w) && Enabled(w, ReLease(id, told)) && Next(w, ReLease(id, told)).log != w.log
    && w.requests[id].stage.kind == kind && w.requests[id].stage.attempt == n
  }

  /** In every run a re-lease of this kind over this attempt finds no core. */
  ghost predicate ReLeaseMeansNoCore(kind: LeaseKind, n: int) {
    forall w, id, told :: LeasesAgainAt(w, id, told, kind, n) ==> Next(w, ReLease(id, told)).core.None?
  }

  /**
   A FULL_WORKFLOW lease taken without asking the gate, from a failed launch or an expired
   lease, means that no core exists exactly when it follows the first attempt.
   */
  lemma UngradedLeaseMeansNoCoreIff(kind: LeaseKind, n: int)
    requires n >= 1 && (kind.FromStartFailed? || kind.FromExpiredStarting?)
    ensures ReLeaseMeansNoCore(kind, n) <==> n == 1
  {
    if n == 1 {
      forall w, id, told | LeasesAgainAt(w, id, told, kind, n) ensures Next(w, ReLease(id, told)).core.None? {
        FirstAttemptHasNoCore(w);
      }
    } else {
      var w0 := WaitingWithCore(n);
      var w, id := SeekingWithCore(w0, kind, n);
      var w' := Win(w, id, kind, n);
      assert LeasesAgainAt(w, id, true, kind, n);
    }
  }

  lemma SeekingWithCore(w0: World, kind: LeaseKind, n: int) returns (w: World, id: nat)
    requires WaitsWithCore(w0, n) && (kind.FromStartFailed? || kind.FromExpiredStarting?)
    ensures Seeks(w, id, kind, n)
  {
    if kind.FromStartFailed? {
      var w1 := FailWaiting(w0, n);
      w, id := Ask(w1, kind, Clock(0, ""));
    } else {
      w, id := Ask(w0, kind, Clock(w0.row.value.leaseExpiresAt.value + 1, ""));
    }
  }

  // ----- Leases graded by the gate ------------------------------------------

  /** The request acts on the judgement that a core exists, or that none does. */
  predicate GradedAs(s: Stage, committed: bool) {
    match s
    case Reconciling(_, _, _, effective) => effective == committed
    case Confirming(_, _, _, effective) => effective == committed
    case Ready(kind, _, _) => kind == FromProcessingFailed(committed)
    case Finished => true
    case _ => false
  }

  /** What the gate finds when it reads the core; without a decision id it finds nothing. */
  predicate GateSees(w: World) {
    w.decisionId != "" && w.core.Some?
  }

  lemma GateGrades(w: World, id: nat)
    requires CoreInv(w) && Enabled(w, ReadGateCore(id))
    ensures var w' := Next(w, ReadGateCore(id));
      id in w'.requests && GradedAs(w'.requests[id].stage, GateSees(w)) && w'.core == w.core && w'.log == w.log
  {
    assert GradedTruly(w.requests[id].stage, w.core);
  }

  lemma GradeStays(w: World, s: Step, id: nat, committed: bool)
    requires id in w.requests && GradedAs(w.requests[id].stage, committed)
    ensures id in Next(w, s).requests && GradedAs(Next(w, s).requests[id].stage, committed)
  {
    if !IsRequestStep(s) {
      OtherStepsKeepRequests(w, s);
    }
  }

  lemma OtherStepsKeepRequests(w: World, s: Step)
    requires !IsRequestStep(s)
    ensures Next(w, s).requests == w.requests
  {
  }

  lemma {:induction false} GradeStaysInRun(w: World, after: seq<Step>, id: nat, committed: bool)
    requires id in w.requests && GradedAs(w.requests[id].stage, committed)
    ensures id in Run(w, after).requests && GradedAs(Run(w, after).requests[id].stage, committed)
    decreases |after|
  {
    if after != [] {
      GradeStaysInRun(w, after[..|after| - 1], id, committed);
      GradeStays(Run(w, after[..|after| - 1]), after[|after| - 1], id, committed);
    }
  }

  ghost predicate StoredBetween(log: seq<Event>, from: nat) {
    exists k :: from <= k < |log| && log[k].Stored?
  }

  /** A core that is missing appears exactly when one is stored. */
  lemma CoreAppearsIffStored(w: World, after: seq<Step>)
    requires CoreInv(w) && w.core.None?
    ensures Run(w, after).core.Some? <==> StoredBetween(Run(w, after).log, |w.log|)
  {
    var w' := Run(w, after);
    CoreInvRun(w, after);
    RunAppends(w, after);
    if w'.core.Some? {
      var k :| 0 <= k < |w'.log| && w'.log[k] == Stored(w'.core.value);
      assert Stored(w'.core.value) !in w.log;
    }
    if StoredBetween(w'.log, |w.log|) {
      var k :| |w.log| <= k < |w'.log| && w'.log[k].Stored?;
      assert w'.log[k] in w'.log;
    }
  }

  /**
   The lease that a request wins after asking the gate is ENRICHMENT_ONLY exactly when the
   gate found a core. When it is FULL_WORKFLOW it finds a core exactly when one was stored
   after the gate's read, or when the key has no decision id to look one up by.
   */
  lemma GradedLeaseFindsCoreIff(w: World, id: nat, after: seq<Step>, told: bool)
    requires Reachable(w) && Enabled(w, ReadGateCore(id))
    requires var w1 := Run(Next(w, ReadGateCore(id)), after);
      Enabled(w1, ReLease(id, told)) && Next(w1, ReLease(id, told)).log != w1.log
    ensures var w2 := Next(Run(Next(w, ReadGateCore(id)), after), ReLease(id, told));
      && w2.row.Some?
      && w2.row.value.recoveryMode == (if GateSees(w) then EnrichmentOnly else FullWorkflow)
      && (w2.row.value.recoveryMode.FullWorkflow? ==>
            (w2.core.Some? <==> StoredBetween(w2.log, |w.log|) || (w.core.Some? && w.decisionId == "")))
  {
    ReachableKeepsCore(w);
    var w0 := Next(w, ReadGateCore(id));
    GateGrades(w, id);
    CoreInvNext(w, ReadGateCore(id));
    GradeStaysInRun(w0, after, id, GateSees(w));
    assert (after + [ReLease(id, told)])[..|after|] == after;
    if w.core.None? {
      CoreAppearsIffStored(w0, after + [ReLease(id, told)]);
    } else {
      StoredCoreStays(w0, after + [ReLease(id, told)]);
    }
  }
}
