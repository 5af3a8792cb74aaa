/** What holds of every run of the lease protocol. */
module LeaseTheorems {
  import opened Options
  import opened LeaseRecord
  import opened LeaseTransitions
  import opened Verdicts
  import opened DecisionCore
  import opened LeaseProtocol
  import opened LeaseHistory
  import opened LeaseInvariants

  // ----- Runs ---------------------------------------------------------------

  lemma {:induction false} CoreInvRun(w: World, steps: seq<Step>)
    requires CoreInv(w)
    ensures CoreInv(Run(w, steps))
    decreases |steps|
  {
    if steps != [] {
      CoreInvRun(w, steps[..|steps| - 1]);
      CoreInvNext(Run(w, steps[..|steps| - 1]), steps[|steps| - 1]);
    }
  }

  lemma {:induction false} LeaseInvRun(w: World, steps: seq<Step>)
    requires LeaseInv(w) && NeverExpires(steps)
    ensures LeaseInv(Run(w, steps))
    decreases |steps|
  {
    if steps != [] {
      LeaseInvRun(w, steps[..|steps| - 1]);
      LeaseInvNext(Run(w, steps[..|steps| - 1]), steps[|steps| - 1]);
    }
  }

  /** A state some run leads to. */
  ghost predicate Reachable(w: World) {
    exists key, decisionId, steps :: w == Run(Init(key, decisionId), steps)
  }

  /** A state some run leads to in which the row never expires. */
  ghost predicate LiveReachable(w: World) {
    exists key, decisionId, steps :: NeverExpires(steps) && w == Run(Init(key, decisionId), steps)
  }

  lemma ReachableKeepsCore(w: World)
    requires Reachable(w)
    ensures CoreInv(w)
  {
    var key, decisionId, steps :| w == Run(Init(key, decisionId), steps);
    CoreInvInit(key, decisionId);
    CoreInvRun(Init(key, decisionId), steps);
  }

  lemma LiveReachableKeepsAll(w: World)
    requires LiveReachable(w)
    ensures CoreInv(w) && LeaseInv(w)
  {
    var key, decisionId, steps :| NeverExpires(steps) && w == Run(Init(key, decisionId), steps);
    CoreInvInit(key, decisionId);
    LeaseInvInit(key, decisionId);
    CoreInvRun(Init(key, decisionId), steps);
    LeaseInvRun(Init(key, decisionId), steps);
  }

  lemma LiveInit(key: string, decisionId: string)
    ensures LiveReachable(Init(key, decisionId))
  {
    assert NeverExpires([]) && Init(key, decisionId) == Run(Init(key, decisionId), []);
  }

  lemma LiveStep(w: World, s: Step)
    requires LiveReachable(w) && !s.Expire?
    ensures LiveReachable(Next(w, s))
  {
    var key, decisionId, steps :| NeverExpires(steps) && w == Run(Init(key, decisionId), steps);
    assert (steps + [s])[..|steps|] == steps;
    assert NeverExpires(steps + [s]);
    assert Next(w, s) == Run(Init(key, decisionId), steps + [s]);
  }

  lemma StepAppends(w: World, s: Step)
    ensures w.log <= Next(w, s).log
  {
  }

  lemma {:induction false} RunAppends(w: World, steps: seq<Step>)
    ensures w.log <= Run(w, steps).log
    decreases |steps|
  {
    if steps != [] {
      RunAppends(w, steps[..|steps| - 1]);
      StepAppends(Run(w, steps[..|steps| - 1]), steps[|steps| - 1]);
    }
  }

  lemma LeasedStays(log: seq<Event>, log': seq<Event>, n: int)
    requires log <= log' && LeasedAt(log, n)
    ensures LeasedAt(log', n)
  {
    var e :| e in log && e.Leased? && e.lease.attempt == n;
    assert e in log';
  }

  // ----- One execution per attempt ------------------------------------------

  /** The event shows execution `arn` acting on attempt `n`: a write, a proceed verdict or a push. */
  predicate ActsOn(e: Event, arn: string, n: int) {
    || (e.Wrote? && e.arn == arn && e.attempt == n)
    || (e.Told? && MayProceed(e.verdict) && e.arn == arn && e.attempt == n)
    || (e.Pushed? && e.arn == arn && e.attempt == n)
  }

  lemma ActorEntered(log: seq<Event>, k: nat, arn: string, n: int)
    requires LeaseSound(log) && k < |log| && ActsOn(log[k], arn, n)
    ensures Wrote(arn, n, Entered) in log
  {
    assert LeaseJustified(log[..k], log[k]);
  }

  lemma EntryIsFirst(log: seq<Event>, i: nat, j: nat)
    requires LeaseSound(log) && i < j < |log| && log[i].Wrote? && log[i].target.Entered?
    ensures !(log[j].Wrote? && log[j].target.Entered? && log[j].attempt == log[i].attempt)
  {
    assert LeaseJustified(log[..j], log[j]) && log[i] in log[..j];
  }

  /**
   In every interleaving, at most one execution ever writes, is let through or pushes
   for a given attempt.
   */
  lemma OneExecutionPerAttempt(w: World, i: nat, j: nat, arn: string, arn': string, n: int)
    requires LiveReachable(w) && i < |w.log| && j < |w.log|
    requires ActsOn(w.log[i], arn, n) && ActsOn(w.log[j], arn', n)
    ensures arn == arn'
  {
    LiveReachableKeepsAll(w);
    ActorEntered(w.log, i, arn, n);
    ActorEntered(w.log, j, arn', n);
    var p :| 0 <= p < |w.log| && w.log[p] == Wrote(arn, n, Entered);
    var q :| 0 <= q < |w.log| && w.log[q] == Wrote(arn', n, Entered);
    if p < q {
      EntryIsFirst(w.log, p, q);
    } else if q < p {
      EntryIsFirst(w.log, q, p);
    }
  }

  // ----- Permanent fencing --------------------------------------------------

  lemma AttemptNeverFalls(w: World, after: seq<Step>)
    requires LiveReachable(w) && NeverExpires(after) && w.row.Some?
    ensures LeaseInv(Run(w, after)) && CoreInv(Run(w, after))
    ensures Run(w, after).row.Some? && w.row.value.attemptCount <= Run(w, after).row.value.attemptCount
  {
    LiveReachableKeepsAll(w);
    LeaseInvRun(w, after);
    CoreInvRun(w, after);
    RunAppends(w, after);
    LeasedStays(w.log, Run(w, after).log, w.row.value.attemptCount);
  }

  /** The execution's action changes neither row nor history, and its re-read is classified as fenced. */
  ghost predicate Powerless(w: World, arn: string, action: Action, clock: Clock, told: bool)
    requires arn in w.executions
  {
    && Next(w, Act(arn, action, clock, told)).row == w.row && Next(w, Act(arn, action, clock, told)).log == w.log
    && Next(w, Confirm(arn, action, clock)).row == w.row
    && Classify(InWorkflow(action, arn, w.executions[arn].lease, clock), w.row).Fenced?
  }

  lemma StaleExecutionIsPowerless(w: World, arn: string, action: Action, clock: Clock, told: bool)
    requires w.row.Some? && arn in w.executions && w.executions[arn].lease.attempt < w.row.value.attemptCount
    ensures Powerless(w, arn, action, clock, told)
  {
  }

  /**
   Once the row has been leased above an attempt, in every continuation no execution of
   that attempt changes the row or is let through, whatever it tries.
   */
  lemma FencingIsPermanent(w: World, after: seq<Step>, arn: string, action: Action, clock: Clock, told: bool)
    requires LiveReachable(w) && NeverExpires(after) && w.row.Some?
    requires arn in Run(w, after).executions
    requires Run(w, after).executions[arn].lease.attempt < w.row.value.attemptCount
    ensures Powerless(Run(w, after), arn, action, clock, told)
  {
    AttemptNeverFalls(w, after);
    StaleExecutionIsPowerless(Run(w, after), arn, action, clock, told);
  }

  /** The same read off the history: after a lease, nothing is written or confirmed for an earlier attempt. */
  lemma NothingHappensBelowALease(w: World, i: nat, j: nat, n: nat)
    requires LiveReachable(w) && i < j < |w.log| && w.log[i].Leased? && n < w.log[i].lease.attempt
    ensures var e := w.log[j];
      && !(e.Wrote? && e.attempt == n) && !(e.LaunchFailed? && e.attempt == n)
      && !(e.Told? && MayProceed(e.verdict) && e.attempt == n)
  {
    LiveReachableKeepsAll(w);
    var past := w.log[..j];
    assert LeaseJustified(past, w.log[j]);
    assert w.log[i] in past && LeasedAt(past, w.log[i].lease.attempt);
    LeasesAreDense(w, j, w.log[i].lease.attempt, n);
  }

  /** Every prefix of the history has leased attempts 1, 2, ... without a gap. */
  lemma LeasesAreDense(w: World, j: nat, high: int, n: nat)
    requires LiveReachable(w) && j <= |w.log| && LeasedAt(w.log[..j], high) && n < high
    ensures LeasedAt(w.log[..j], n + 1)
  {
    LiveReachableKeepsAll(w);
    var past := w.log[..j];
    var e :| e in past && e.Leased? && e.lease.attempt == high;
    var k :| 0 <= k < j && past[k] == e;
    assert LeaseJustified(w.log[..k], w.log[k]);
    if n + 1 < high {
      LeasedStays(w.log[..k], past, n + 1);
    }
  }

  // ----- Lease conservation -------------------------------------------------

  /**
   The leases of a key carry attempts 1 to `attempt_count`, each exactly once and in
   order; each was won against the attempt just before it, so of any recoveries that
   observed the same attempt at most one won.
   */
  lemma LeasesAreConserved(w: World)
    requires LiveReachable(w)
    ensures forall n :: LeasedAt(w.log, n) <==> w.row.Some? && 1 <= n <= w.row.value.attemptCount
    ensures forall i, j :: 0 <= i < j < |w.log| && w.log[i].Leased? && w.log[j].Leased? ==>
      w.log[i].lease.attempt < w.log[j].lease.attempt && w.log[i].observed < w.log[j].observed
  {
    LiveReachableKeepsAll(w);
    forall i, j | 0 <= i < j < |w.log| && w.log[i].Leased? && w.log[j].Leased?
      ensures w.log[i].lease.attempt < w.log[j].lease.attempt && w.log[i].observed < w.log[j].observed
    {
      assert LeaseJustified(w.log[..i], w.log[i]);
      assert LeaseJustified(w.log[..j], w.log[j]) && w.log[i] in w.log[..j];
      assert LeasedAt(w.log[..j], w.log[i].lease.attempt);
    }
  }

  // ----- A confirmation is never false --------------------------------------

  /** `e` happened exactly once in the history, and before position `k`. */
  ghost predicate OnceBefore(log: seq<Event>, k: nat, e: Event) {
    exists j :: 0 <= j < k <= |log| && log[j] == e && forall i :: 0 <= i < |log| && log[i] == e ==> i == j
  }

  lemma ExitIsFirst(log: seq<Event>, i: nat, j: nat)
    requires LeaseSound(log) && i < j < |log| && log[i].Wrote? && IsExit(log[i].target)
    ensures !(log[j].Wrote? && IsExit(log[j].target) && log[j].attempt == log[i].attempt)
  {
    assert LeaseJustified(log[..j], log[j]) && log[i] in log[..j];
  }

  lemma WriteHappensOnce(log: seq<Event>, k: nat, e: Event)
    requires LeaseSound(log) && k <= |log| && e in log[..k] && e.Wrote? && !e.target.CoreFlagged?
    ensures OnceBefore(log, k, e)
  {
    var j :| 0 <= j < k && log[j] == e;
    forall i | 0 <= i < |log| && log[i] == e ensures i == j {
      if e.target.Entered? {
        if i < j { EntryIsFirst(log, i, j); } else if j < i { EntryIsFirst(log, j, i); }
      } else {
        if i < j { ExitIsFirst(log, i, j); } else if j < i { ExitIsFirst(log, j, i); }
      }
    }
  }

  /**
   A proceed verdict on MARK_RUNNING or MARK_COMPLETED means that exactly one earlier step
   was this very write by this very execution and attempt.
   */
  lemma ConfirmationIsTrue(w: World, k: nat)
    requires LiveReachable(w) && k < |w.log| && w.log[k].Told? && MayProceed(w.log[k].verdict)
    requires w.log[k].action.MarkRunning? || w.log[k].action.MarkCompleted?
    ensures var t := w.log[k]; OnceBefore(w.log, k, Wrote(t.arn, t.attempt, TargetOf(t.action)))
  {
    LiveReachableKeepsAll(w);
    var t := w.log[k];
    assert LeaseJustified(w.log[..k], t);
    WriteHappensOnce(w.log, k, Wrote(t.arn, t.attempt, TargetOf(t.action)));
  }

  /**
   The same for MARK_PROCESSING_FAILED, except that a failure reported with the error
   STALE_RUNNING_EXECUTION may be confirmed by the reconciler's write instead.
   */
  lemma FailureConfirmationIsTrue(w: World, k: nat)
    requires LiveReachable(w) && k < |w.log| && w.log[k].Told? && MayProceed(w.log[k].verdict)
    requires w.log[k].action.MarkProcessingFailed?
    ensures var t := w.log[k]; var error := t.action.lastError;
      || OnceBefore(w.log, k, Wrote(t.arn, t.attempt, FailedWith(error, false)))
      || (error == STALE_RUNNING_EXECUTION && t.verdict.AlreadyApplied?
          && OnceBefore(w.log, k, Wrote(t.arn, t.attempt, FailedWith(error, true))))
  {
    LiveReachableKeepsAll(w);
    var t := w.log[k];
    assert LeaseJustified(w.log[..k], t);
    if Wrote(t.arn, t.attempt, FailedWith(t.action.lastError, false)) in w.log[..k] {
      WriteHappensOnce(w.log, k, Wrote(t.arn, t.attempt, FailedWith(t.action.lastError, false)));
    } else {
      WriteHappensOnce(w.log, k, Wrote(t.arn, t.attempt, FailedWith(t.action.lastError, true)));
    }
  }

  /**
   A proceed verdict on MARK_PROCESSING_FAILED is for the execution's own write exactly
   when no reconciler ended this execution and attempt before.
   */
  lemma FailureConfirmationIsOwnIff(w: World, k: nat)
    requires LiveReachable(w) && k < |w.log| && w.log[k].Told? && MayProceed(w.log[k].verdict)
    requires w.log[k].action.MarkProcessingFailed?
    ensures var t := w.log[k]; var past := w.log[..k];
      Wrote(t.arn, t.attempt, FailedWith(t.action.lastError, false)) in past
      <==> Wrote(t.arn, t.attempt, FailedWith(STALE_RUNNING_EXECUTION, true)) !in past
  {
    LiveReachableKeepsAll(w);
    var t := w.log[k];
    var own := Wrote(t.arn, t.attempt, FailedWith(t.action.lastError, false));
    var reconciled := Wrote(t.arn, t.attempt, FailedWith(STALE_RUNNING_EXECUTION, true));
    assert LeaseJustified(w.log[..k], t);
    if own in w.log[..k] && reconciled in w.log[..k] {
      var i :| 0 <= i < k && w.log[i] == own;
      var j :| 0 <= j < k && w.log[j] == reconciled;
      OneExit(w.log, i, j);
    }
  }

  /** An attempt ends only once. */
  lemma OneExit(log: seq<Event>, i: nat, j: nat)
    requires LeaseSound(log) && i < |log| && j < |log| && log[i].Wrote? && log[j].Wrote?
    requires IsExit(log[i].target) && IsExit(log[j].target) && log[i].attempt == log[j].attempt
    ensures i == j
  {
    if i < j {
      ExitIsFirst(log, i, j);
    } else if j < i {
      ExitIsFirst(log, j, i);
    }
  }

  /** The core flag is written at most once in the life of a key, whoever is later told ALREADY_APPLIED. */
  lemma CoreIsFlaggedOnce(w: World, i: nat, j: nat)
    requires LiveReachable(w) && i < |w.log| && j < |w.log|
    requires w.log[i].Wrote? && w.log[i].target.CoreFlagged? && w.log[j].Wrote? && w.log[j].target.CoreFlagged?
    ensures i == j
  {
    LiveReachableKeepsAll(w);
    FlagIsFirst(w.log, if i < j then i else j, if i < j then j else i);
  }

  /** A proceed verdict on MARK_CORE_COMMITTED means an execution of this or an earlier attempt set the flag. */
  lemma CoreConfirmationIsTrue(w: World, k: nat)
    requires LiveReachable(w) && k < |w.log| && w.log[k].Told? && MayProceed(w.log[k].verdict)
    requires w.log[k].action.MarkCoreCommitted?
    ensures exists j ::
      0 <= j < k && w.log[j].Wrote? && w.log[j].target.CoreFlagged? && w.log[j].attempt <= w.log[k].attempt
  {
    LiveReachableKeepsAll(w);
    var past := w.log[..k];
    assert LeaseJustified(past, w.log[k]);
    var e :| e in past && e.Wrote? && e.target.CoreFlagged?;
    var j :| 0 <= j < k && w.log[j] == e;
    var n := w.log[k].attempt;
    assert LeaseJustified(w.log[..j], w.log[j]);
    if n < e.attempt {
      var p :| 0 <= p < k && w.log[p] == Wrote(w.log[k].arn, n, Entered);
      assert LeaseJustified(w.log[..p], w.log[p]);
      WritesArePositive(w, p);
      assert LeasedAt(w.log[..j], e.attempt);
      LeasesStayDense(w, j, k, e.attempt, n);
    }
  }

  ghost predicate FlaggedBy(log: seq<Event>, arn: string, attempt: int) {
    exists e :: e in log && e.Wrote? && e.target.CoreFlagged? && e.arn == arn && e.attempt == attempt
  }

  /** A flag set before an attempt was leased belongs to an earlier attempt, one set after it to that one or a later. */
  lemma FlagBelongsToItsLease(w: World, i: nat, j: nat)
    requires LiveReachable(w) && i < |w.log| && w.log[i].Leased?
    requires j < |w.log| && w.log[j].Wrote? && w.log[j].target.CoreFlagged?
    ensures i < j <==> w.log[j].attempt >= w.log[i].lease.attempt
  {
    LiveReachableKeepsAll(w);
    var n := w.log[j].attempt;
    WritesArePositive(w, j);
    assert LeaseJustified(w.log[..j], w.log[j]) && LeaseJustified(w.log[..i], w.log[i]);
    if i < j && n < w.log[i].lease.attempt {
      NothingHappensBelowALease(w, i, j, n);
    } else if j < i {
      LeasedStays(w.log[..j], w.log[..i], n);
    }
  }

  /**
   A proceed verdict on MARK_CORE_COMMITTED is for the execution's own write exactly when
   the flag was not yet set when its attempt was leased.
   */
  lemma CoreConfirmationIsOwnIff(w: World, i: nat, k: nat)
    requires LiveReachable(w) && i < |w.log| && k < |w.log| && w.log[i].Leased?
    requires w.log[k].Told? && MayProceed(w.log[k].verdict) && w.log[k].action.MarkCoreCommitted?
    requires w.log[i].lease.attempt == w.log[k].attempt
    ensures FlaggedBy(w.log[..k], w.log[k].arn, w.log[k].attempt) <==> !FlaggedIn(w.log[..i])
  {
    CoreConfirmationIsTrue(w, k);
    var j :| 0 <= j < k && w.log[j].Wrote? && w.log[j].target.CoreFlagged? && w.log[j].attempt <= w.log[k].attempt;
    FlagBelongsToItsLease(w, i, j);
    forall p | 0 <= p < |w.log| && w.log[p].Wrote? && w.log[p].target.CoreFlagged? ensures p == j {
      CoreIsFlaggedOnce(w, p, j);
    }
    if i < j {
      OneExecutionPerAttempt(w, j, k, w.log[j].arn, w.log[k].arn, w.log[k].attempt);
      assert w.log[j] in w.log[..k];
    } else {
      assert w.log[j] in w.log[..i];
    }
  }

  lemma LeasesStayDense(w: World, j: nat, k: nat, high: int, n: nat)
    requires LiveReachable(w) && j <= k <= |w.log| && LeasedAt(w.log[..j], high) && n < high
    ensures LeasedAt(w.log[..k], n + 1)
  {
    LeasesAreDense(w, j, high, n);
    LeasedStays(w.log[..j], w.log[..k], n + 1);
  }

  lemma WritesArePositive(w: World, p: nat)
    requires LiveReachable(w) && p < |w.log| && w.log[p].Wrote?
    ensures w.log[p].attempt >= 1
  {
    LiveReachableKeepsAll(w);
    assert w.log[p] in w.log;
  }

  lemma FlagIsFirst(log: seq<Event>, i: nat, j: nat)
    requires LeaseSound(log) && i <= j < |log| && log[i].Wrote? && log[i].target.CoreFlagged?
    ensures i < j ==> !(log[j].Wrote? && log[j].target.CoreFlagged?)
  {
    if i < j {
      assert LeaseJustified(log[..j], log[j]) && log[i] in log[..j];
    }
  }

  /** A conflict found after the execution was reconciled as stale is fenced, so it is not recorded as terminal. */
  lemma LateConflictIsNotRecorded(w: World, arn: string, x: Execution, effective: bool, clock: Clock)
    requires LiveReachable(w) && w.row.Some?
    requires Wrote(arn, x.lease.attempt, FailedWith(STALE_RUNNING_EXECUTION, true)) in w.log
    ensures var u := InWorkflow(MarkProcessingFailed(CORE_IDENTITY_CONFLICT, effective), arn, x.lease, clock);
      Perform(w.row, u).None? && Classify(u, w.row).Fenced?
  {
    LiveReachableKeepsAll(w);
  }

  // ----- The core -----------------------------------------------------------

  lemma {:induction false} StoredCoreStays(w: World, after: seq<Step>)
    requires w.core.Some?
    ensures Run(w, after).core == w.core
    decreases |after|
  {
    if after != [] {
      StoredCoreStays(w, after[..|after| - 1]);
    }
  }

  /** The core is written at most once, whatever leases, expiries and re-runs follow. */
  lemma CoreIsWrittenOnce(w: World, i: nat, j: nat)
    requires Reachable(w) && i < |w.log| && j < |w.log| && w.log[i].Stored? && w.log[j].Stored?
    ensures i == j && w.core == Some(w.log[i].core)
  {
    ReachableKeepsCore(w);
    assert w.log[i] in w.log;
    StoreIsFirst(w.log, if i < j then i else j, if i < j then j else i);
  }

  lemma StoreIsFirst(log: seq<Event>, i: nat, j: nat)
    requires CoreSound(log) && i <= j < |log| && log[i].Stored?
    ensures i < j ==> !log[j].Stored?
  {
    if i < j {
      assert CoreJustified(log[..j], log[j]) && log[i] in log[..j];
    }
  }

  /** Every announced core agrees in its five identity fields with the one that is stored, then and for ever. */
  lemma AnnouncedCoreIsStored(w: World, k: nat, after: seq<Step>)
    requires Reachable(w) && k < |w.log| && w.log[k].Pushed?
    ensures Run(w, after).core.Some? && SameIdentity(Run(w, after).core.value, w.log[k].core)
  {
    ReachableKeepsCore(w);
    assert CoreJustified(w.log[..k], w.log[k]);
    var p :| p in w.log[..k] && p.Stored? && SameIdentity(p.core, w.log[k].core);
    assert p in w.log;
    StoredCoreStays(w, after);
  }

  // ----- Flags --------------------------------------------------------------

  /**
   `completed` implies `core_committed`, which implies that the core exists; so do a
   lease and a stage of ENRICHMENT_ONLY.
   */
  lemma FlagsImplyCore(w: World)
    requires LiveReachable(w) && w.row.Some?
    ensures w.row.value.status.Completed? ==> w.row.value.coreCommitted
    ensures NeedsCore(w.row.value) ==> w.core.Some?
    ensures forall k :: 0 <= k < |w.log| && w.log[k].Leased? && w.log[k].lease.mode.EnrichmentOnly? ==>
      StoredIn(w.log[..k])
  {
    LiveReachableKeepsAll(w);
    forall k | 0 <= k < |w.log| && w.log[k].Leased? && w.log[k].lease.mode.EnrichmentOnly?
      ensures StoredIn(w.log[..k]) {
      assert CoreJustified(w.log[..k], w.log[k]);
    }
  }

  /** The flag survives every re-lease. */
  lemma CommittedStays(w: World, after: seq<Step>)
    requires LiveReachable(w) && NeverExpires(after) && w.row.Some? && w.row.value.coreCommitted
    ensures Run(w, after).row.Some? && Run(w, after).row.value.coreCommitted
  {
    AttemptNeverFalls(w, after);
    LiveReachableKeepsAll(w);
    RunAppends(w, after);
    var e :| e in w.log && e.Wrote? && e.target.CoreFlagged?;
    assert e in Run(w, after).log;
  }

  // ----- Routing ------------------------------------------------------------

  /** Once a same-key request is answered completed or terminal conflict, every later one gets that answer. */
  lemma TerminalRoutingIsStable(w: World, i: nat, j: nat)
    requires LiveReachable(w) && i < j < |w.log| && w.log[i].Looked? && w.log[j].Looked?
    requires IsTerminalReply(w.log[i].triage)
    ensures w.log[j].triage == w.log[i].triage
    ensures w.log[i].triage.answer.decisionId == w.decisionId
  {
    LiveReachableKeepsAll(w);
    assert LeaseJustified(w.log[..j], w.log[j]) && w.log[i] in w.log[..j];
    assert w.log[i] in w.log && TriageRow(w.row.value, 0) == w.log[i].triage;
  }

  /** On reachable failed rows the two halves of the router's terminal test agree. */
  lemma TerminalTestIsExact(w: World)
    requires LiveReachable(w) && w.row.Some? && w.row.value.status.ProcessingFailed?
    ensures w.row.value.lastError == Some(CORE_IDENTITY_CONFLICT) <==> !w.row.value.retryable
  {
    LiveReachableKeepsAll(w);
  }

  /**
   A re-lease is ENRICHMENT_ONLY exactly when it grades a failed row whose core is known to
   exist. A FULL_WORKFLOW lease may well follow a commit; it leaves the core as it was.
   */
  lemma ReLeaseMode(w: World, id: nat, told: bool)
    requires LiveReachable(w) && Enabled(w, ReLease(id, told))
    ensures var w' := Next(w, ReLease(id, told)); var kind := w.requests[id].stage.kind;
      && w'.core == w.core
      && (w'.log != w.log ==>
            && w'.row.Some? && (w'.row.value.recoveryMode.EnrichmentOnly? <==> kind == FromProcessingFailed(true))
            && (!w'.row.value.recoveryMode.EnrichmentOnly? ==> w'.row.value.recoveryMode.FullWorkflow?)
            && (w'.row.value.recoveryMode.EnrichmentOnly? ==> w.core.Some?))
  {
    LiveReachableKeepsAll(w);
    assert GradedTruly(w.requests[id].stage, w.core);
  }
}
