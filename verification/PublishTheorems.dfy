/** What holds of every run of concurrent publish requests. */
module PublishTheorems {
  import opened Options
  import opened PublishRecords
  import opened PublishHandler
  import opened PublishProtocol

  ghost predicate Reachable(w: World) {
    exists decisionId, steps :: w == Run(Init(decisionId), steps)
  }

  lemma {:induction false} InvRun(w: World, steps: seq<Step>)
    requires Inv(w)
    ensures Inv(Run(w, steps))
    decreases |steps|
  {
    if steps != [] {
      InvRun(w, steps[..|steps| - 1]);
      InvNext(Run(w, steps[..|steps| - 1]), steps[|steps| - 1]);
    }
  }

  lemma ReachableInv(w: World)
    requires Reachable(w)
    ensures Inv(w)
  {
    var decisionId, steps :| w == Run(Init(decisionId), steps);
    InvInit(decisionId);
    InvRun(Init(decisionId), steps);
  }

  lemma ReachableStep(w: World, s: Step)
    requires Reachable(w)
    ensures Reachable(Next(w, s))
  {
    var decisionId, steps :| w == Run(Init(decisionId), steps);
    assert (steps + [s])[..|steps|] == steps;
    assert Next(w, s) == Run(Init(decisionId), steps + [s]);
  }

  // ----- At most once per approved version ------------------------------------

  /** Nothing is sent twice for the same version, and only for a version that was stored as approved. */
  lemma SentOncePerApprovedVersion(w: World, i: nat, j: nat)
    requires Reachable(w) && i < j < |w.log| && w.log[i].Sent? && w.log[j].Sent?
    ensures w.log[i].version != w.log[j].version
    ensures exists e :: e in w.log[..j] && e.Wrote? && e.record.version == w.log[j].version && e.record.state.Approved?
  {
    ReachableInv(w);
    assert Justified(w.log[..j], w.log[j]) && w.log[i] in w.log[..j];
  }

  function CountSent(log: seq<Event>): nat {
    if log == [] then 0 else CountSent(log[..|log| - 1]) + if log[|log| - 1].Sent? then 1 else 0
  }

  /** Dispatches that reached the public over at least one channel. */
  function CountAlerts(log: seq<Event>): nat {
    if log == [] then 0
    else
      var e := log[|log| - 1];
      CountAlerts(log[..|log| - 1]) + if e.Sent? && e.delivery.ReachesPublic() then 1 else 0
  }

  lemma {:induction false} AlertsAreSends(log: seq<Event>)
    ensures CountAlerts(log) <= CountSent(log)
  {
    if log != [] {
      AlertsAreSends(log[..|log| - 1]);
    }
  }

  function CountApprovals(trail: seq<AuditEntry>): nat {
    if trail == [] then 0 else CountApprovals(trail[..|trail| - 1]) + if trail[|trail| - 1].to.Approved? then 1 else 0
  }

  /** The versions something was sent for. */
  ghost function SentVersions(log: seq<Event>): set<nat> {
    set e | e in log && e.Sent? :: e.version
  }

  predicate ApprovedAt(trail: seq<AuditEntry>, v: nat) {
    1 <= v <= |trail| && trail[v - 1].to.Approved?
  }

  ghost function ApprovedVersions(trail: seq<AuditEntry>): set<nat> {
    set v: nat | v <= |trail| && ApprovedAt(trail, v) :: v
  }

  lemma {:induction false} SentVersionsCount(log: seq<Event>)
    requires SoundHistory(log)
    ensures |SentVersions(log)| == CountSent(log)
  {
    if log != [] {
      var front, e := log[..|log| - 1], log[|log| - 1];
      assert log == front + [e];
      forall k | 0 <= k < |front| ensures Justified(front[..k], front[k]) {
        assert front[..k] == log[..k];
        assert Justified(log[..k], log[k]);
      }
      SentVersionsCount(front);
      assert Justified(log[..|front|], log[|front|]);
      if e.Sent? {
        assert SentVersions(log) == SentVersions(front) + {e.version};
        assert e.version !in SentVersions(front);
      } else {
        assert SentVersions(log) == SentVersions(front);
      }
    }
  }

  lemma {:induction false} ApprovedVersionsCount(trail: seq<AuditEntry>)
    ensures |ApprovedVersions(trail)| == CountApprovals(trail)
  {
    if trail != [] {
      var front, e := trail[..|trail| - 1], trail[|trail| - 1];
      ApprovedVersionsCount(front);
      forall v: nat
        ensures v in ApprovedVersions(trail) <==> v in ApprovedVersions(front) || (v == |trail| && e.to.Approved?)
      {
        if 1 <= v <= |front| {
          assert trail[v - 1] == front[v - 1];
        }
        assert ApprovedAt(trail, v) <==> ApprovedAt(front, v) || (v == |trail| && e.to.Approved?);
      }
      if e.to.Approved? {
        assert ApprovedVersions(trail) == ApprovedVersions(front) + {|trail|};
        assert |trail| !in ApprovedVersions(front);
      } else {
        assert ApprovedVersions(trail) == ApprovedVersions(front);
      }
    }
  }

  lemma {:induction false} SmallerSet(a: set<nat>, b: set<nat>)
    requires a <= b
    ensures |a| <= |b|
  {
    if a != {} {
      var x :| x in a;
      SmallerSet(a - {x}, b - {x});
    }
  }

  /** An approved record's approval stands in every trail that extends its own. */
  lemma ApprovalStands(r: PublishRecord, current: Option<PublishRecord>)
    requires Precedes(r, current) && r.state.Approved?
    ensures r.version in ApprovedVersions(TrailOf(current))
  {
    var trail := TrailOf(current);
    assert trail[r.version - 1] == r.trail[r.version - 1] && ApprovedAt(trail, r.version);
  }

  /** What was sent was approved in the trail that is there now. */
  lemma SentWasApproved(w: World, v: nat)
    requires Inv(w) && v in SentVersions(w.log)
    ensures v in ApprovedVersions(TrailOf(w.record))
  {
    var e :| e in w.log && e.Sent? && e.version == v;
    var k :| 0 <= k < |w.log| && w.log[k] == e;
    assert Justified(w.log[..k], w.log[k]);
    var p :| p in w.log[..k] && p.Wrote? && p.record.version == v && p.record.state.Approved?;
    assert p in w.log;
    ApprovalStands(p.record, w.record);
  }

  /** Dispatches never outnumber the approvals the trail records. */
  lemma SendsNeverExceedApprovals(w: World)
    requires Reachable(w)
    ensures CountSent(w.log) <= CountApprovals(TrailOf(w.record))
  {
    ReachableInv(w);
    var trail := TrailOf(w.record);
    forall v | v in SentVersions(w.log) ensures v in ApprovedVersions(trail) {
      SentWasApproved(w, v);
    }
    SentVersionsCount(w.log);
    ApprovedVersionsCount(trail);
    SmallerSet(SentVersions(w.log), ApprovedVersions(trail));
  }

  /**
   A stored published record was written by the handler that sent it, under the claim of
   the version before, and names the channels that took the alert: all of them.
   */
  lemma PublisherHeldTheClaim(w: World, k: nat)
    requires Reachable(w) && k < |w.log| && w.log[k].Wrote? && w.log[k].record.state.Published?
    ensures var v := w.log[k].record.version - 1;
      && v in w.claims && w.claims[v] == w.log[k].author
      && SentInFull(w.log[..k], w.log[k].author, v, w.log[k].record.channels)
  {
    ReachableInv(w);
    assert Justified(w.log[..k], w.log[k]);
    var e :| e in w.log[..k] && e.Sent? && e.author == w.log[k].author && e.version == w.log[k].record.version - 1;
    assert e in w.log;
  }

  /** A handler's write is refused for its version exactly when a newer record was stored since its read. */
  lemma RefusedIffOvertaken(w: World, id: nat)
    requires Reachable(w) && id in w.handlers && w.handlers[id].stage.Writing?
    ensures var expected := w.handlers[id].stage.expected;
      && expected <= VersionOf(w.record)
      && (!LockHolds(w.record, expected) <==> expected < VersionOf(w.record))
  {
    ReachableInv(w);
    var h := w.handlers[id];
    assert HandlerOk(w, id, h);
    var seen :| WasStored(w.log, seen) && VersionOf(seen) == h.stage.expected && Extends(h.stage.next, seen);
    if seen.Some? {
      StoredPrecedes(w.record, w.log, seen.value);
    }
  }

  // ----- History ----------------------------------------------------------------

  /** Every stored record is sound, passes the integrity check and is extended by everything stored later. */
  lemma StoredRecordsGrow(w: World, i: nat, j: nat)
    requires Reachable(w) && i < j < |w.log| && w.log[i].Wrote? && w.log[j].Wrote?
    ensures SoundRecord(w.log[j].record) && Connected(w.log[j].record)
    ensures w.log[i].record.trail < w.log[j].record.trail && w.log[i].record.version < w.log[j].record.version
  {
    ReachableInv(w);
    LaterExtends(w.log, i, j);
    assert w.log[j] in w.log;
    SoundRecordsAreConnected(w.log[j].record);
  }

  lemma {:induction false} LastExtends(log: seq<Event>, i: nat)
    requires SoundHistory(log) && i < |log| && log[i].Wrote?
    ensures LastWritten(log).Some? && SoundRecord(LastWritten(log).value) && SoundRecord(log[i].record)
    ensures log[i].record.trail <= LastWritten(log).value.trail
    decreases |log|
  {
    var n := |log| - 1;
    assert Justified(log[..n], log[n]);
    if i < n {
      PrefixSound(log, n);
      assert log[..n][i] == log[i];
      LastExtends(log[..n], i);
    }
  }

  lemma PrefixSound(log: seq<Event>, n: nat)
    requires SoundHistory(log) && n <= |log|
    ensures SoundHistory(log[..n])
  {
    forall k | 0 <= k < n ensures Justified(log[..n][..k], log[..n][k]) {
      assert log[..n][..k] == log[..k];
      assert Justified(log[..k], log[k]);
    }
  }

  lemma LaterExtends(log: seq<Event>, i: nat, j: nat)
    requires SoundHistory(log) && i < j < |log| && log[i].Wrote? && log[j].Wrote?
    ensures log[i].record.trail < log[j].record.trail && log[i].record.version < log[j].record.version
  {
    PrefixSound(log, j);
    assert log[..j][i] == log[i];
    LastExtends(log[..j], i);
    assert Justified(log[..j], log[j]);
  }

  /** A decision is published at most once, and then for good. */
  lemma PublishedIsFinal(w: World, i: nat, j: nat)
    requires Reachable(w) && i < j < |w.log| && w.log[i].Wrote? && w.log[j].Wrote?
    ensures !w.log[i].record.state.Published?
  {
    ReachableInv(w);
    LaterExtends(w.log, i, j);
    assert w.log[i] in w.log && w.log[j] in w.log;
    var r, s := w.log[i].record, w.log[j].record;
    NothingFollowsPublished(s.trail, |r.trail| - 1);
    assert s.trail[|r.trail| - 1] == r.trail[|r.trail| - 1];
  }

  /** The approver shown by a published record is the actor of the latest approval in its trail. */
  lemma PublishedShowsApprover(w: World, k: nat)
    requires Reachable(w) && k < |w.log| && w.log[k].Wrote? && w.log[k].record.state.Published?
    ensures w.log[k].record.trail != []
    ensures w.log[k].record.approvedBy == LatestApprover(w.log[k].record.trail)
    ensures w.log[k].record.publishedBy == Some(w.log[k].record.trail[|w.log[k].record.trail| - 1].actor)
  {
    ReachableInv(w);
    assert w.log[k] in w.log;
  }

  // ----- Recoverability -----------------------------------------------------------

  /** The requests that lead to publication, given whether the approved version's claim is used up. */
  function RecoveryPlan(state: Option<PublishState>, claimed: bool): seq<PublishState> {
    match state
    case None => [Draft, Approved, Published]
    case Some(Draft) => [Approved, Published]
    case Some(Approved) => if claimed then [PublishFailed, Approved, Published] else [Published]
    case Some(PublishFailed) => [Approved, Published]
    case Some(Published) => []
  }

  /** Requests handled one after the other, with working channels and a ready alert. */
  function HandleAll(
    decisionId: string, existing: Option<PublishRecord>, claims: set<nat>, targets: seq<PublishState>, actor: string,
    reason: string, now: string, d: Delivery): Option<PublishRecord>
    decreases |targets|
  {
    if targets == [] then existing
    else
      var req := PublishRequest(actor, Some(targets[0]), Some(reason), now);
      var o := HandleOutcome(decisionId, existing, VersionOf(existing) in claims, req, CoreStatus(true, true), true, d);
      HandleAll(decisionId, o.record, if o.claims then claims + {VersionOf(existing)} else claims, targets[1..],
                actor, reason, now, d)
  }

  lemma OneRequest(
    decisionId: string, existing: Option<PublishRecord>, claims: set<nat>, targets: seq<PublishState>, actor: string,
    reason: string, now: string, d: Delivery)
    returns (next: PublishRecord)
    requires targets != [] && IsLegalTransition(StateOf(existing), targets[0]) && StateOf(existing) != Some(targets[0])
    requires d.Failure().None? && (targets[0].Published? ==> VersionOf(existing) !in claims)
    ensures next.state == targets[0] && next.version == VersionOf(existing) + 1
    ensures HandleAll(decisionId, existing, claims, targets, actor, reason, now, d)
         == HandleAll(decisionId, Some(next), if targets[0].Published? then claims + {VersionOf(existing)} else claims,
                      targets[1..], actor, reason, now, d)
  {
    var req := PublishRequest(actor, Some(targets[0]), Some(reason), now);
    var claimed := VersionOf(existing) in claims;
    next := HandleOutcome(decisionId, existing, claimed, req, CoreStatus(true, true), true, d).record.value;
  }

  /**
   From every reachable record that is not published, even one whose claim a stopped
   handler has used up, at most three undisturbed requests lead to publication.
   */
  lemma PublicationIsReachable(w: World, actor: string, reason: string, now: string, d: Delivery)
    requires Reachable(w) && StateOf(w.record) != Some(Published) && d.Failure().None?
    ensures var plan := RecoveryPlan(StateOf(w.record), VersionOf(w.record) in w.claims);
      && |plan| <= 3
      && StateOf(HandleAll(w.decisionId, w.record, w.claims.Keys, plan, actor, reason, now, d)) == Some(Published)
  {
    ReachableInv(w);
    var plan := RecoveryPlan(StateOf(w.record), VersionOf(w.record) in w.claims);
    PlanIsWalkable(StateOf(w.record), VersionOf(w.record) in w.claims);
    PlanPublishes(w.decisionId, w.record, w.claims.Keys, plan, actor, reason, now, d);
  }

  /** A plan is walked one legal step at a time. */
  predicate Walkable(state: Option<PublishState>, plan: seq<PublishState>)
    decreases |plan|
  {
    if plan == [] then state == Some(Published)
    else IsLegalTransition(state, plan[0]) && state != Some(plan[0]) && Walkable(Some(plan[0]), plan[1..])
  }

  lemma PlanIsWalkable(state: Option<PublishState>, claimed: bool)
    ensures Walkable(state, RecoveryPlan(state, claimed))
  {
    assert [Published][1..] == [];
    assert Walkable(Some(Approved), [Published]);
    assert [Approved, Published][1..] == [Published];
    assert [Draft, Approved, Published][1..] == [Approved, Published];
    assert [PublishFailed, Approved, Published][1..] == [Approved, Published];
  }

  lemma {:induction false} PlanPublishes(
    decisionId: string, existing: Option<PublishRecord>, claims: set<nat>, plan: seq<PublishState>, actor: string,
    reason: string, now: string, d: Delivery)
    requires d.Failure().None? && plan != [] && Walkable(StateOf(existing), plan)
    requires forall v :: v in claims ==> v <= VersionOf(existing)
    requires plan[0].Published? ==> VersionOf(existing) !in claims
    ensures StateOf(HandleAll(decisionId, existing, claims, plan, actor, reason, now, d)) == Some(Published)
    decreases |plan|
  {
    var next := OneRequest(decisionId, existing, claims, plan, actor, reason, now, d);
    if |plan| > 1 {
      assert !plan[0].Published?;
      PlanPublishes(decisionId, Some(next), claims, plan[1..], actor, reason, now, d);
    } else {
      assert plan[1..] == [];
    }
  }
}
