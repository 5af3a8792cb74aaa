/** Requests handled one after the other are runs of the publish protocol. */
module PublishSequential {
  import opened Options
  import opened PublishRecords
  import opened PublishHandler
  import opened PublishProtocol
  import opened PublishTheorems

  /** One request from arrival to its end; a step it does not need is not enabled and does nothing. */
  ghost function Alone(w: World, id: nat, req: PublishRequest, d: Delivery): World {
    var w1 := Next(w, Arrive(id, req));
    var w2 := Next(w1, Read(id, w.record));
    var w3 := Next(w2, TakeClaim(id, true));
    var w4 := Next(w3, Send(id, d));
    Next(w4, WriteRecord(id))
  }

  function OutcomeOf(w: World, req: PublishRequest, d: Delivery): Outcome {
    HandleOutcome(w.decisionId, w.record, VersionOf(w.record) in w.claims, req, CoreStatus(true, true), true, d)
  }

  lemma CurrentWasStored(w: World)
    requires Inv(w)
    ensures WasStored(w.log, w.record)
  {
    LastIsIn(w.log);
  }

  lemma {:induction false} LastIsIn(log: seq<Event>)
    ensures WasStored(log, LastWritten(log))
  {
    if log != [] {
      if !log[|log| - 1].Wrote? {
        LastIsIn(log[..|log| - 1]);
        if LastWritten(log).Some? {
          var e :| e in log[..|log| - 1] && e.Wrote? && e.record == LastWritten(log).value;
          assert e in log;
        }
      } else {
        assert log[|log| - 1] in log;
      }
    }
  }

  lemma CountSentAppend(log: seq<Event>, e: Event)
    ensures CountSent(log + [e]) == CountSent(log) + if e.Sent? then 1 else 0
    ensures CountAlerts(log + [e]) == CountAlerts(log) + if e.Sent? && e.delivery.ReachesPublic() then 1 else 0
  {
    assert (log + [e])[..|log|] == log;
  }

  lemma ArriveAndRead(w: World, id: nat, req: PublishRequest)
    requires Inv(w) && id !in w.handlers
    ensures var w' := Next(Next(w, Arrive(id, req)), Read(id, w.record));
      && w'.record == w.record && w'.claims == w.claims && w'.log == w.log && w'.decisionId == w.decisionId
      && w'.handlers == w.handlers[id := Handler(req, AfterPlan(PlanRequest(w.decisionId, w.record, req), w.record))]
  {
    CurrentWasStored(w);
  }

  lemma ClaimAndSend(w: World, id: nat, req: PublishRequest, seen: PublishRecord, planned: PublishRecord, d: Delivery)
    requires id in w.handlers && w.handlers[id] == Handler(req, Claiming(seen, planned))
    ensures var w' := Next(Next(w, TakeClaim(id, true)), Send(id, d));
      && w'.record == w.record && w'.decisionId == w.decisionId && w'.handlers.Keys == w.handlers.Keys
      && id in w'.handlers
      && if seen.version in w.claims
         then w'.handlers[id].stage == Finished && w'.log == w.log && w'.claims == w.claims
         else w'.handlers[id].stage == Writing(DeliveredRecord(w.decisionId, seen, planned, req, d), seen.version)
              && w'.log == w.log + [Sent(id, seen.version, d)] && w'.claims == w.claims[seen.version := id]
  {
  }

  lemma NoClaimNoSend(w: World, id: nat, d: Delivery)
    requires id in w.handlers && !w.handlers[id].stage.Claiming? && !w.handlers[id].stage.Sending?
    ensures Next(Next(w, TakeClaim(id, true)), Send(id, d)) == w
  {
  }

  lemma FinalWrite(w: World, id: nat)
    requires id in w.handlers
    ensures var w' := Next(w, WriteRecord(id)); var g := w.handlers[id].stage;
      && w'.claims == w.claims && w'.decisionId == w.decisionId && w'.handlers.Keys == w.handlers.Keys
      && if g.Writing? && IsLegalTransition(LastStep(g.next), g.next.state) && LockHolds(w.record, g.expected)
         then w'.record == Some(g.next) && w'.log == w.log + [Wrote(g.next, id)]
         else w'.record == w.record && w'.log == w.log
  {
  }

  lemma AfterSendIsReachable(w: World, id: nat, req: PublishRequest, d: Delivery)
    requires Reachable(w)
    ensures Reachable(AfterSend(AfterRead(w, id, req), id, d))
  {
    var w2 := AfterRead(w, id, req);
    ReachableStep(w, Arrive(id, req));
    ReachableStep(Next(w, Arrive(id, req)), Read(id, w.record));
    ReachableStep(w2, TakeClaim(id, true));
    ReachableStep(Next(w2, TakeClaim(id, true)), Send(id, d));
  }

  lemma AloneIsReachable(w: World, id: nat, req: PublishRequest, d: Delivery)
    requires Reachable(w)
    ensures Reachable(Alone(w, id, req, d))
  {
    AfterSendIsReachable(w, id, req, d);
    ReachableStep(AfterSend(AfterRead(w, id, req), id, d), WriteRecord(id));
  }

  /** The state after the read, and after the claim and the send. */
  ghost function AfterRead(w: World, id: nat, req: PublishRequest): World {
    Next(Next(w, Arrive(id, req)), Read(id, w.record))
  }

  ghost function AfterSend(w: World, id: nat, d: Delivery): World {
    Next(Next(w, TakeClaim(id, true)), Send(id, d))
  }

  /** `w'` is what the outcome makes of `w`. */
  ghost predicate Follows(w: World, id: nat, o: Outcome, d: Delivery, w': World) {
    && w'.record == o.record && w'.decisionId == w.decisionId
    && w'.handlers.Keys == w.handlers.Keys + {id}
    && w'.claims.Keys == w.claims.Keys + (if o.claims then {VersionOf(w.record)} else {})
    && CountSent(w'.log) == CountSent(w.log) + (if o.dispatches then 1 else 0)
    && CountAlerts(w'.log) == CountAlerts(w.log) + if o.dispatches && d.ReachesPublic() then 1 else 0
  }

  lemma RespondFollows(w: World, id: nat, req: PublishRequest, d: Delivery)
    requires Inv(w) && id !in w.handlers && PlanRequest(w.decisionId, w.record, req).Respond?
    ensures Follows(w, id, OutcomeOf(w, req, d), d, Alone(w, id, req, d))
  {
    ArriveAndRead(w, id, req);
    NoClaimNoSend(AfterRead(w, id, req), id, d);
    FinalWrite(AfterRead(w, id, req), id);
  }

  lemma OwnLockHolds(record: Option<PublishRecord>)
    requires SoundOrAbsent(record)
    ensures LockHolds(record, VersionOf(record))
  {
  }

  lemma WriteFollows(w: World, id: nat, req: PublishRequest, d: Delivery)
    requires Inv(w) && id !in w.handlers && PlanRequest(w.decisionId, w.record, req).Write?
    ensures Follows(w, id, OutcomeOf(w, req, d), d, Alone(w, id, req, d))
  {
    ArriveAndRead(w, id, req);
    AppendedStepIsLegal(w.decisionId, w.record, req, d);
    OwnLockHolds(w.record);
    NoClaimNoSend(AfterRead(w, id, req), id, d);
    FinalWrite(AfterRead(w, id, req), id);
    CountSentAppend(w.log, Wrote(PlanRequest(w.decisionId, w.record, req).record, id));
  }

  lemma ClaimedDispatchFollows(w: World, id: nat, req: PublishRequest, d: Delivery)
    requires Inv(w) && id !in w.handlers && PlanRequest(w.decisionId, w.record, req).Dispatch?
    requires VersionOf(w.record) in w.claims
    ensures Follows(w, id, OutcomeOf(w, req, d), d, Alone(w, id, req, d))
  {
    var plan := PlanRequest(w.decisionId, w.record, req);
    var w2 := AfterRead(w, id, req);
    ArriveAndRead(w, id, req);
    ClaimAndSend(w2, id, req, plan.existing, plan.record, d);
    FinalWrite(AfterSend(w2, id, d), id);
  }

  /** The state after a fresh claim and its dispatch: all that is left is the write. */
  lemma FreshDispatchSent(w: World, id: nat, req: PublishRequest, d: Delivery)
    requires Inv(w) && id !in w.handlers && PlanRequest(w.decisionId, w.record, req).Dispatch?
    requires VersionOf(w.record) !in w.claims
    ensures var plan := PlanRequest(w.decisionId, w.record, req); var w' := AfterSend(AfterRead(w, id, req), id, d);
      var next := DeliveredRecord(w.decisionId, plan.existing, plan.record, req, d);
      && w'.record == w.record == Some(plan.existing) && w'.decisionId == w.decisionId && id in w'.handlers
      && w'.handlers.Keys == w.handlers.Keys + {id} && w'.claims.Keys == w.claims.Keys + {VersionOf(w.record)}
      && w'.handlers[id].stage == Writing(next, VersionOf(w.record))
      && w'.log == w.log + [Sent(id, VersionOf(w.record), d)]
  {
    var plan := PlanRequest(w.decisionId, w.record, req);
    ArriveAndRead(w, id, req);
    AppendedStepIsLegal(w.decisionId, w.record, req, d);
    ClaimAndSend(AfterRead(w, id, req), id, req, plan.existing, plan.record, d);
  }

  lemma FreshDispatchFollows(w: World, id: nat, req: PublishRequest, d: Delivery)
    requires Inv(w) && id !in w.handlers && PlanRequest(w.decisionId, w.record, req).Dispatch?
    requires VersionOf(w.record) !in w.claims
    ensures Follows(w, id, OutcomeOf(w, req, d), d, Alone(w, id, req, d))
  {
    var plan := PlanRequest(w.decisionId, w.record, req);
    FreshDispatchSent(w, id, req, d);
    AppendedStepIsLegal(w.decisionId, w.record, req, d);
    OwnLockHolds(w.record);
    var w4 := AfterSend(AfterRead(w, id, req), id, d);
    FinalWrite(w4, id);
    CountSentAppend(w.log, Sent(id, VersionOf(w.record), d));
    CountSentAppend(w4.log, Wrote(DeliveredRecord(w.decisionId, plan.existing, plan.record, req, d), id));
  }

  /** What one undisturbed request does in the protocol is what `HandleOutcome` says. */
  lemma HandlerRefinesProtocol(w: World, id: nat, req: PublishRequest, d: Delivery)
    requires Reachable(w) && id !in w.handlers
    ensures Reachable(Alone(w, id, req, d)) && Follows(w, id, OutcomeOf(w, req, d), d, Alone(w, id, req, d))
  {
    ReachableInv(w);
    AloneIsReachable(w, id, req, d);
    match PlanRequest(w.decisionId, w.record, req)
    case Respond(_) => RespondFollows(w, id, req, d);
    case Write(_) => WriteFollows(w, id, req, d);
    case Dispatch(_, _) =>
      if VersionOf(w.record) in w.claims {
        ClaimedDispatchFollows(w, id, req, d);
      } else {
        FreshDispatchFollows(w, id, req, d);
      }
  }

  // ----- Recovery is a run of the protocol --------------------------------------------

  /** Requests one after the other, each undisturbed, by the handlers `id`, `id + 1`, ... */
  ghost function AloneAll(
    w: World, id: nat, targets: seq<PublishState>, actor: string, reason: string, now: string, d: Delivery): World
    decreases |targets|
  {
    if targets == [] then w
    else
      AloneAll(Alone(w, id, NextRequest(targets, actor, reason, now), d), id + 1, targets[1..], actor, reason, now, d)
  }

  function NextRequest(targets: seq<PublishState>, actor: string, reason: string, now: string): PublishRequest
    requires targets != []
  {
    PublishRequest(actor, Some(targets[0]), Some(reason), now)
  }

  function ClaimsAfter(claims: set<nat>, existing: Option<PublishRecord>, o: Outcome): set<nat> {
    if o.claims then claims + {VersionOf(existing)} else claims
  }

  /** One request brings the protocol to where the rest of the requests go on. */
  lemma OneOfAll(
    w: World, id: nat, targets: seq<PublishState>, actor: string, reason: string, now: string, d: Delivery)
    requires Reachable(w) && targets != [] && forall h :: h in w.handlers.Keys ==> h < id
    ensures var w' := Alone(w, id, NextRequest(targets, actor, reason, now), d);
      && Reachable(w') && w'.decisionId == w.decisionId && (forall h :: h in w'.handlers.Keys ==> h < id + 1)
      && HandleAll(w.decisionId, w.record, w.claims.Keys, targets, actor, reason, now, d)
         == HandleAll(w.decisionId, w'.record, w'.claims.Keys, targets[1..], actor, reason, now, d)
  {
    var req := NextRequest(targets, actor, reason, now);
    HandlerRefinesProtocol(w, id, req, d);
    assert Alone(w, id, req, d).claims.Keys == ClaimsAfter(w.claims.Keys, w.record, OutcomeOf(w, req, d));
  }

  lemma {:induction false} AloneAllFollows(
    w: World, id: nat, targets: seq<PublishState>, actor: string, reason: string, now: string, d: Delivery)
    requires Reachable(w) && forall h :: h in w.handlers.Keys ==> h < id
    ensures var w' := AloneAll(w, id, targets, actor, reason, now, d);
      Reachable(w')
      && w'.record == HandleAll(w.decisionId, w.record, w.claims.Keys, targets, actor, reason, now, d)
    decreases |targets|
  {
    if targets != [] {
      OneOfAll(w, id, targets, actor, reason, now, d);
      AloneAllFollows(Alone(w, id, NextRequest(targets, actor, reason, now), d), id + 1, targets[1..], actor, reason,
        now, d);
    }
  }

  /** The requests that lead to publication are a run of the protocol, and at most three. */
  lemma PublicationRunExists(w: World, id: nat, actor: string, reason: string, now: string, d: Delivery)
    requires Reachable(w) && forall h :: h in w.handlers.Keys ==> h < id
    requires StateOf(w.record) != Some(Published) && d.Failure().None?
    ensures var plan := RecoveryPlan(StateOf(w.record), VersionOf(w.record) in w.claims);
      var w' := AloneAll(w, id, plan, actor, reason, now, d);
      |plan| <= 3 && Reachable(w') && StateOf(w'.record) == Some(Published)
  {
    var plan := RecoveryPlan(StateOf(w.record), VersionOf(w.record) in w.claims);
    PublicationIsReachable(w, actor, reason, now, d);
    AloneAllFollows(w, id, plan, actor, reason, now, d);
  }
}
