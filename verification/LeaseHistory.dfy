/** What every event of a history owes to the events before it. */
module LeaseHistory {
  import opened Options
  import opened LeaseRecord
  import opened LeaseTransitions
  import opened Verdicts
  import opened DecisionCore
  import opened LeaseProtocol

  ghost predicate LeasedAt(log: seq<Event>, attempt: int) {
    exists e :: e in log && e.Leased? && e.lease.attempt == attempt
  }

  ghost predicate FlaggedIn(log: seq<Event>) {
    exists e :: e in log && e.Wrote? && e.target.CoreFlagged?
  }

  predicate IsExit(t: Target) {
    t.Finished? || t.FailedWith?
  }

  /** The execution that entered this attempt, if any, has been ended. */
  ghost predicate ExitedAt(log: seq<Event>, attempt: int) {
    exists e :: e in log && e.Wrote? && e.attempt == attempt && IsExit(e.target)
  }

  ghost predicate EnteredAt(log: seq<Event>, attempt: int) {
    exists e :: e in log && e.Wrote? && e.attempt == attempt && e.target.Entered?
  }

  ghost predicate EnteredEver(log: seq<Event>) {
    exists e :: e in log && e.Wrote? && e.target.Entered?
  }

  ghost predicate StoredIn(log: seq<Event>) {
    exists e :: e in log && e.Stored?
  }

  // ----- The core: holds in every run, even when the row expires ------------

  /** The core is stored once, and what is announced or relied on is the stored core. */
  ghost predicate CoreJustified(past: seq<Event>, e: Event) {
    match e
    case Stored(_) => !StoredIn(past)
    case Pushed(_, _, c) => exists p :: p in past && p.Stored? && SameIdentity(p.core, c)
    case Wrote(_, _, CoreFlagged(_)) => StoredIn(past)
    case Leased(lease, _, _) => lease.mode.EnrichmentOnly? ==> StoredIn(past)
    case _ => true
  }

  // ----- The lease: holds in every run in which the row does not expire -----

  /** The write that makes a proceed verdict on the action true. */
  ghost predicate Backed(past: seq<Event>, arn: string, attempt: int, a: Action, v: Verdict) {
    match a
    case MarkRunning(_) => Wrote(arn, attempt, Entered) in past
    case MarkCoreCommitted(_) => FlaggedIn(past)
    case MarkCompleted => Wrote(arn, attempt, Target.Finished) in past
    case MarkProcessingFailed(error, _) =>
      || Wrote(arn, attempt, FailedWith(error, false)) in past
      || (v.AlreadyApplied? && error == STALE_RUNNING_EXECUTION && Wrote(arn, attempt, FailedWith(error, true)) in past)
  }

  predicate IsTerminalReply(t: Triage) {
    t.Reply? && (t.answer.RespondCompleted? || t.answer.RespondTerminalConflict?)
  }

  ghost predicate LeaseJustified(past: seq<Event>, e: Event) {
    match e
    case Leased(lease, observed, _) =>
      observed == lease.attempt - 1 && forall n :: LeasedAt(past, n) <==> 1 <= n < lease.attempt
    case Wrote(arn, n, t) =>
      && LeasedAt(past, n) && !LeasedAt(past, n + 1)
      && (t.Entered? ==> !EnteredAt(past, n))
      && (!t.Entered? ==> Wrote(arn, n, Entered) in past && !ExitedAt(past, n))
      && (t.CoreFlagged? ==> !FlaggedIn(past))
      && (t.Finished? ==> FlaggedIn(past))
    case LaunchFailed(n) => LeasedAt(past, n) && !LeasedAt(past, n + 1) && !EnteredAt(past, n)
    case Told(arn, n, a, v) =>
      MayProceed(v) ==> Wrote(arn, n, Entered) in past && !LeasedAt(past, n + 1) && Backed(past, arn, n, a, v)
    case Pushed(arn, n, _) => Wrote(arn, n, Entered) in past && FlaggedIn(past)
    case Looked(_, t) => forall p :: p in past && p.Looked? && IsTerminalReply(p.triage) ==> t == p.triage
    case Stored(_) => EnteredEver(past)
  }

  // ----- Whole histories ----------------------------------------------------

  ghost predicate CoreSound(log: seq<Event>) {
    forall k :: 0 <= k < |log| ==> CoreJustified(log[..k], log[k])
  }

  ghost predicate LeaseSound(log: seq<Event>) {
    forall k :: 0 <= k < |log| ==> LeaseJustified(log[..k], log[k])
  }

  lemma CoreSoundGrows(log: seq<Event>, e: Event)
    requires CoreSound(log) && CoreJustified(log, e)
    ensures CoreSound(log + [e])
  {
    forall k | 0 <= k < |log + [e]| ensures CoreJustified((log + [e])[..k], (log + [e])[k]) {
      assert (log + [e])[..k] == log[..k];
    }
  }

  lemma LeaseSoundGrows(log: seq<Event>, e: Event)
    requires LeaseSound(log) && LeaseJustified(log, e)
    ensures LeaseSound(log + [e])
  {
    forall k | 0 <= k < |log + [e]| ensures LeaseJustified((log + [e])[..k], (log + [e])[k]) {
      assert (log + [e])[..k] == log[..k];
    }
  }
}
