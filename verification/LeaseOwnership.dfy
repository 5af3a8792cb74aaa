/** An execution's name belongs to one attempt for ever, and what that means for its verdicts. */
module LeaseOwnership {
  import opened Options
  import opened LeaseRecord
  import opened LeaseTransitions
  import opened Verdicts
  import opened LeaseProtocol
  import opened LeaseHistory
  import opened LeaseInvariants
  import opened LeaseTheorems

  /** Whoever entered is a known execution of that attempt. */
  ghost predicate EntrantKnown(e: Event, executions: map<string, Execution>) {
    e.Wrote? && e.target.Entered? ==> e.arn in executions && executions[e.arn].lease.attempt == e.attempt
  }

  /** The only reasons for which an execution is ever fenced. */
  predicate FairVerdict(e: Event) {
    e.Told? && e.verdict.Fenced? ==>
      e.verdict == Fenced(DifferentExecution) || e.verdict == Fenced(TargetNotReached)
  }

  ghost predicate OwnershipInv(w: World) {
    forall e :: e in w.log ==> EntrantKnown(e, w.executions) && FairVerdict(e)
  }

  lemma ExecutionsStay(w: World, s: Step, arn: string)
    requires arn in w.executions
    ensures arn in Next(w, s).executions && Next(w, s).executions[arn].lease == w.executions[arn].lease
  {
  }

  /** The row is there and shows the execution's own attempt, if it shows its name. */
  lemma RowNamesOneAttempt(w: World, arn: string)
    requires LeaseInv(w) && OwnershipInv(w) && arn in w.executions
    ensures w.row.Some?
    ensures w.row.value.executionArn == Some(arn) ==> w.row.value.attemptCount == w.executions[arn].lease.attempt
  {
    RowPresent(w, arn);
    if w.row.value.executionArn == Some(arn) {
      assert EntrantKnown(Wrote(arn, w.row.value.attemptCount, Entered), w.executions);
    }
  }

  lemma ConfirmationsFair(w: World, s: Step, e: Event)
    requires LeaseInv(w) && OwnershipInv(w) && s.Confirm? && e in Next(w, s).log && e !in w.log
    ensures EntrantKnown(e, Next(w, s).executions) && FairVerdict(e)
  {
    RowNamesOneAttempt(w, s.arn);
  }

  lemma OtherEventsFair(w: World, s: Step, e: Event)
    requires !s.Expire? && !s.Confirm? && e in Next(w, s).log && e !in w.log
    ensures EntrantKnown(e, Next(w, s).executions) && FairVerdict(e)
  {
  }

  /** The events that one step adds. */
  lemma NewEventsFair(w: World, s: Step, e: Event)
    requires LeaseInv(w) && OwnershipInv(w) && !s.Expire? && e in Next(w, s).log && e !in w.log
    ensures EntrantKnown(e, Next(w, s).executions) && FairVerdict(e)
  {
    if s.Confirm? {
      ConfirmationsFair(w, s, e);
    } else {
      OtherEventsFair(w, s, e);
    }
  }

  lemma OwnershipNext(w: World, s: Step)
    requires LeaseInv(w) && OwnershipInv(w) && !s.Expire?
    ensures OwnershipInv(Next(w, s))
  {
    var w' := Next(w, s);
    forall e | e in w'.log ensures EntrantKnown(e, w'.executions) && FairVerdict(e) {
      if e in w.log {
        assert EntrantKnown(e, w.executions) && FairVerdict(e);
        if e.Wrote? && e.target.Entered? {
          ExecutionsStay(w, s, e.arn);
        }
      } else {
        NewEventsFair(w, s, e);
      }
    }
  }

  lemma {:induction false} OwnershipRun(w: World, steps: seq<Step>)
    requires LeaseInv(w) && OwnershipInv(w) && NeverExpires(steps)
    ensures OwnershipInv(Run(w, steps))
    decreases |steps|
  {
    if steps != [] {
      OwnershipRun(w, steps[..|steps| - 1]);
      LeaseInvRun(w, steps[..|steps| - 1]);
      OwnershipNext(Run(w, steps[..|steps| - 1]), steps[|steps| - 1]);
    }
  }

  lemma LiveOwnership(w: World)
    requires LiveReachable(w)
    ensures LeaseInv(w) && OwnershipInv(w)
  {
    var key, decisionId, steps :| NeverExpires(steps) && w == Run(Init(key, decisionId), steps);
    LeaseInvInit(key, decisionId);
    LeaseInvRun(Init(key, decisionId), steps);
    OwnershipRun(Init(key, decisionId), steps);
  }

  /**
   In every run without expiry, whenever a fenced execution is told why, it is because
   the row names another execution or none, or because the target was not reached: never a
   missing record and never another attempt under its own name.
   */
  lemma FencedForTwoReasonsOnly(w: World, k: nat)
    requires LiveReachable(w) && k < |w.log| && w.log[k].Told? && w.log[k].verdict.Fenced?
    ensures w.log[k].verdict == Fenced(DifferentExecution) || w.log[k].verdict == Fenced(TargetNotReached)
  {
    LiveOwnership(w);
    assert w.log[k] in w.log && FairVerdict(w.log[k]);
  }

  /** An execution whose attempt has been leased over is told DIFFERENT_EXECUTION, whatever it tries. */
  lemma SupersededIsDifferentExecution(w: World, arn: string, action: Action, clock: Clock)
    requires LiveReachable(w) && arn in w.executions && w.row.Some?
    requires w.executions[arn].lease.attempt < w.row.value.attemptCount
    ensures Classify(InWorkflow(action, arn, w.executions[arn].lease, clock), w.row) == Fenced(DifferentExecution)
  {
    LiveOwnership(w);
    RowNamesOneAttempt(w, arn);
  }
}
