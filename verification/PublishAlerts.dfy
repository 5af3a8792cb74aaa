/** Exactly how often the public can be alerted, read off the stored trail. */
module PublishAlerts {
  import opened Options
  import opened PublishRecords
  import opened PublishHandler
  import opened PublishProtocol
  import opened PublishTheorems
  import opened PublishSequential
  import opened FreshIds

  /**
   A reachable state with this trail, in which every dispatch reached the public and the
   claim of the current version is free.
   */
  ghost predicate Carries(w: World, trail: seq<AuditEntry>, alerts: nat) {
    && Reachable(w) && TrailOf(w.record) == trail
    && CountAlerts(w.log) == alerts && CountSent(w.log) == alerts
    && forall v :: v in w.claims.Keys ==> v < |trail|
  }

  /** Where the trail leads, as the record shows it. */
  lemma TrailShowsState(w: World)
    requires Reachable(w)
    ensures SoundOrAbsent(w.record) && VersionOf(w.record) == |TrailOf(w.record)|
    ensures StateOf(w.record) == LedTo(TrailOf(w.record), |TrailOf(w.record)|)
  {
    ReachableInv(w);
  }

  /** The request that makes this entry. */
  function RequestFor(e: AuditEntry): PublishRequest {
    PublishRequest(e.actor, Some(e.to), Some("the operator says so"), e.at)
  }

  lemma EntryWritten(w: World, e: AuditEntry)
    requires VersionOf(w.record) == |TrailOf(w.record)| && StateOf(w.record) == e.from
    requires IsLegalTransition(e.from, e.to) && !e.to.Published?
    ensures var o := OutcomeOf(w, RequestFor(e), ALL_TOOK);
      TrailOf(o.record) == TrailOf(w.record) + [e] && !o.claims && !o.dispatches
  {
  }

  lemma EntryPublished(w: World, e: AuditEntry)
    requires VersionOf(w.record) == |TrailOf(w.record)| && StateOf(w.record) == e.from == Some(Approved)
    requires e.to.Published? && VersionOf(w.record) !in w.claims
    ensures var o := OutcomeOf(w, RequestFor(e), ALL_TOOK);
      TrailOf(o.record) == TrailOf(w.record) + [e] && o.claims && o.dispatches
  {
  }

  /** One undisturbed request adds the entry; publishing alerts the public. */
  lemma AddEntry(w0: World, e: AuditEntry) returns (w: World)
    requires Reachable(w0) && StateOf(w0.record) == e.from && IsLegalTransition(e.from, e.to)
    requires e.to.Published? ==> VersionOf(w0.record) !in w0.claims
    ensures Reachable(w) && TrailOf(w.record) == TrailOf(w0.record) + [e]
    ensures CountAlerts(w.log) == CountAlerts(w0.log) + if e.to.Published? then 1 else 0
    ensures CountSent(w.log) == CountSent(w0.log) + if e.to.Published? then 1 else 0
    ensures w.claims.Keys == w0.claims.Keys + if e.to.Published? then {VersionOf(w0.record)} else {}
  {
    TrailShowsState(w0);
    var id := FreshId(w0.handlers.Keys);
    if e.to.Published? {
      EntryPublished(w0, e);
    } else {
      EntryWritten(w0, e);
    }
    HandlerRefinesProtocol(w0, id, RequestFor(e), ALL_TOOK);
    w := Alone(w0, id, RequestFor(e), ALL_TOOK);
  }

  /** A handler alerts the public over every channel and stops before it writes. */
  lemma AlertAndStop(w0: World, actor: string) returns (w: World)
    requires Reachable(w0) && StateOf(w0.record) == Some(Approved) && VersionOf(w0.record) !in w0.claims
    ensures Reachable(w) && w.record == w0.record
    ensures CountAlerts(w.log) == CountAlerts(w0.log) + 1 && CountSent(w.log) == CountSent(w0.log) + 1
    ensures w.claims.Keys == w0.claims.Keys + {VersionOf(w0.record)}
  {
    TrailShowsState(w0);
    ReachableInv(w0);
    var id := FreshId(w0.handlers.Keys);
    var req := PublishRequest(actor, Some(Published), None, "");
    assert PlanRequest(w0.decisionId, w0.record, req).Dispatch?;
    FreshDispatchSent(w0, id, req, ALL_TOOK);
    AfterSendIsReachable(w0, id, req, ALL_TOOK);
    CountSentAppend(w0.log, Sent(id, VersionOf(w0.record), ALL_TOOK));
    w := AfterSend(AfterRead(w0, id, req), id, ALL_TOOK);
  }

  predicate EndsApproved(trail: seq<AuditEntry>) {
    trail != [] && trail[|trail| - 1].to.Approved?
  }

  lemma ChainFront(trail: seq<AuditEntry>)
    requires trail != [] && LegalChain(trail)
    ensures var n := |trail| - 1;
      && LegalChain(trail[..n])
      && trail[n].from == LedTo(trail[..n], n) && IsLegalTransition(trail[n].from, trail[n].to)
      && trail == trail[..n] + [trail[n]]
  {
    var n := |trail| - 1;
    assert trail[n].from == LedTo(trail, n);
    forall i | 0 <= i < n
      ensures trail[..n][i].from == LedTo(trail[..n], i) && IsLegalTransition(trail[..n][i].from, trail[..n][i].to)
    {
      assert trail[i].from == LedTo(trail, i);
    }
  }

  /** Every approval but the one in force can have alerted the public. */
  lemma {:induction false} TrailWithAlerts(decisionId: string, trail: seq<AuditEntry>) returns (w: World)
    requires LegalChain(trail)
    ensures Carries(w, trail, CountApprovals(if EndsApproved(trail) then trail[..|trail| - 1] else trail))
    decreases |trail|
  {
    if trail == [] {
      w := Init(decisionId);
      assert w == Run(Init(decisionId), []);
    } else {
      var front, e := trail[..|trail| - 1], trail[|trail| - 1];
      ChainFront(trail);
      w := TrailWithAlerts(decisionId, front);
      TrailShowsState(w);
      if e.to.PublishFailed? {
        w := AlertAndStop(w, e.actor);
      }
      w := AddEntry(w, e);
    }
  }

  /** Every legal trail has a run in which each of its approvals alerted the public. */
  lemma AlertsReachApprovals(decisionId: string, trail: seq<AuditEntry>) returns (w: World)
    requires LegalChain(trail)
    ensures Reachable(w) && TrailOf(w.record) == trail
    ensures CountAlerts(w.log) == CountSent(w.log) == CountApprovals(trail)
  {
    w := TrailWithAlerts(decisionId, trail);
    if EndsApproved(trail) {
      TrailShowsState(w);
      w := AlertAndStop(w, trail[|trail| - 1].actor);
    }
  }

  /** In every run that leads to this trail the public was alerted, and anything sent, at most `n` times. */
  ghost predicate AtMostAlerts(trail: seq<AuditEntry>, n: nat) {
    forall w :: Reachable(w) && TrailOf(w.record) == trail ==> CountAlerts(w.log) <= n && CountSent(w.log) <= n
  }

  /**
   The stored trail tells how often the public may have been alerted: at most `n` times
   exactly when it records at most `n` approvals.
   */
  lemma AtMostAlertsIff(trail: seq<AuditEntry>, n: nat)
    requires LegalChain(trail)
    ensures AtMostAlerts(trail, n) <==> CountApprovals(trail) <= n
  {
    if CountApprovals(trail) <= n {
      forall w | Reachable(w) && TrailOf(w.record) == trail ensures CountAlerts(w.log) <= n && CountSent(w.log) <= n {
        AlertsAreSends(w.log);
        SendsNeverExceedApprovals(w);
      }
    } else {
      var w := AlertsReachApprovals("decision", trail);
    }
  }

  /** The alert goes out at most once for a decision exactly when its trail records at most one approval. */
  lemma AtMostOneAlertIff(trail: seq<AuditEntry>)
    requires LegalChain(trail)
    ensures AtMostAlerts(trail, 1) <==> CountApprovals(trail) <= 1
  {
    AtMostAlertsIff(trail, 1);
  }

  // ----- Two alerts for one decision ------------------------------------------

  /** One approved version is dispatched while the SMS channel refuses: the public sees it, the record says failed. */
  lemma AlertPartly(w0: World) returns (w: World)
    requires Reachable(w0) && StateOf(w0.record) == Some(Approved) && VersionOf(w0.record) !in w0.claims
    ensures Reachable(w) && StateOf(w.record) == Some(PublishFailed)
    ensures CountAlerts(w.log) == CountAlerts(w0.log) + 1
    ensures VersionOf(w.record) == VersionOf(w0.record) + 1 && w.claims.Keys == w0.claims.Keys + {VersionOf(w0.record)}
  {
    TrailShowsState(w0);
    var id := FreshId(w0.handlers.Keys);
    var req, d := PublishRequest("commander", Some(Published), None, ""), Delivery(Took, Refused("throttled"));
    var o := OutcomeOf(w0, req, d);
    assert o.dispatches && o.claims && StateOf(o.record) == Some(PublishFailed);
    HandlerRefinesProtocol(w0, id, req, d);
    w := Alone(w0, id, req, d);
  }

  lemma AddStep(w0: World, to: PublishState) returns (w: World)
    requires Reachable(w0) && IsLegalTransition(StateOf(w0.record), to)
    requires forall v :: v in w0.claims.Keys ==> v < VersionOf(w0.record)
    ensures Reachable(w) && StateOf(w.record) == Some(to) && VersionOf(w.record) == VersionOf(w0.record) + 1
    ensures CountAlerts(w.log) == CountAlerts(w0.log) + if to.Published? then 1 else 0
    ensures forall v :: v in w.claims.Keys ==> v < VersionOf(w.record)
  {
    w := AddEntry(w0, AuditEntry("commander", StateOf(w0.record), to, ""));
    TrailShowsState(w0);
    TrailShowsState(w);
  }

  /**
   Without any crash: the SMS channel refuses once, the commander approves and publishes
   again, and the public is alerted twice for one decision.
   */
  lemma AlertedTwiceForOneDecision(decisionId: string) returns (w: World)
    ensures Reachable(w) && CountAlerts(w.log) == 2 && StateOf(w.record) == Some(Published)
  {
    w := Init(decisionId);
    assert w == Run(Init(decisionId), []);
    w := AddStep(w, Draft);
    w := AddStep(w, Approved);
    w := AlertPartly(w);
    w := AddStep(w, Approved);
    w := AddStep(w, Published);
  }
}
