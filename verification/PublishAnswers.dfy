/** Which answer an undisturbed publish request gets, and what it leaves behind. */
module PublishAnswers {
  import opened Options
  import opened PublishRecords
  import opened PublishHandler

  /** The five steps a record may take. */
  predicate MayStep(state: Option<PublishState>, target: PublishState) {
    || (state == None && target == Draft)
    || (state == Some(Draft) && target == Approved)
    || (state == Some(Approved) && target == Published)
    || (state == Some(Approved) && target == PublishFailed)
    || (state == Some(PublishFailed) && target == Approved)
  }

  /** The request is taken to want this state: it names it, or names none and this is what comes next. */
  predicate Wants(state: Option<PublishState>, req: PublishRequest, target: PublishState) {
    || req.target == Some(target)
    || (req.target == None && ((state == None && target == Draft) || (state == Some(Draft) && target == Approved)
                               || (state == Some(Approved) && target == Published)))
  }

  /** What the request comes to, from the record it read. */
  lemma PlanIff(decisionId: string, existing: Option<PublishRecord>, req: PublishRequest)
    ensures var plan := PlanRequest(decisionId, existing, req); var state := StateOf(existing);
      && (plan == Respond(InvalidTargetState) <==>
            req.target == None && (state == Some(PublishFailed) || state == Some(Published)))
      && (plan.Respond? && plan.response.Unchanged? <==>
            existing.Some? && req.target == Some(existing.value.state))
      && (plan.Respond? && plan.response.Unchanged? ==> existing == Some(plan.response.record))
      && (plan == Respond(MissingFailureReason) <==>
            req.target == Some(PublishFailed) && req.reason == None && state != Some(PublishFailed))
      && (plan == Respond(IllegalTransition) <==>
            && req.target.Some? && req.target != state && !MayStep(state, req.target.value)
            && (req.target == Some(PublishFailed) ==> req.reason.Some?))
      && (plan.Dispatch? <==> Wants(state, req, Published) && state == Some(Approved))
      && (plan.Dispatch? ==> existing == Some(plan.existing))
      && (plan.Write? <==>
            exists target :: Wants(state, req, target) && MayStep(state, target) && target != Published
                             && (target == PublishFailed ==> req.reason.Some?))
      && (plan.Write? ==> Wants(state, req, plan.record.state))
  {
    var plan := PlanRequest(decisionId, existing, req);
    if plan.Write? {
      assert Wants(StateOf(existing), req, plan.record.state);
    }
  }

  /** What a stored next version shows: one more entry by this actor, and nothing of the old record but its trail. */
  predicate NextVersion(
    decisionId: string, existing: Option<PublishRecord>, req: PublishRequest, state: PublishState, r: PublishRecord)
  {
    && r.decisionId == decisionId && r.state == state && r.updatedAt == req.now
    && r.version == VersionOf(existing) + 1
    && r.trail == TrailOf(existing) + [AuditEntry(req.actor, StateOf(existing), state, req.now)]
    && (state == Approved ==> r.approvedBy == Some(req.actor))
    && (state == Published ==> r.publishedBy == Some(req.actor))
  }

  /** A planned record is the next version; a failure shows the reason that was given. */
  lemma WrittenShown(decisionId: string, existing: Option<PublishRecord>, req: PublishRequest)
    requires PlanRequest(decisionId, existing, req).Write?
    ensures var r := PlanRequest(decisionId, existing, req).record;
      NextVersion(decisionId, existing, req, r.state, r) && (r.state == PublishFailed ==> r.failureReason == req.reason)
  {
  }

  /** After a dispatch: published with the channels that took it, or failed with their refusals. */
  lemma DeliveredShown(
    decisionId: string, seen: PublishRecord, record: PublishRecord, req: PublishRequest, d: Delivery)
    requires PlanRequest(decisionId, Some(seen), req) == Dispatch(seen, record)
    ensures var r := DeliveredRecord(decisionId, seen, record, req, d);
      if d.cms.Took? && d.sms.Took?
      then NextVersion(decisionId, Some(seen), req, Published, r)
           && r.channels == ["CMS_MOCK", "SMS_MOCK", "COPY", "EXPORT_JSON"]
      else NextVersion(decisionId, Some(seen), req, PublishFailed, r) && r.failureReason == d.Failure()
  {
    DispatchFailsIffRefused(d);
  }

  /**
   Every answer with the exact condition for it, and what it does: only a request for
   publication of an approved record claims and sends, and only a stored record replaces
   the existing one.
   */
  lemma AnswerIff(
    decisionId: string, existing: Option<PublishRecord>, claimed: bool, req: PublishRequest, core: CoreStatus,
    alertReady: bool, d: Delivery)
    ensures
      var o := HandleOutcome(decisionId, existing, claimed, req, core, alertReady, d);
      var plan := PlanRequest(decisionId, existing, req);
      var ready := core.known && core.committed;
      && (o.response == DecisionNotFound <==> !core.known)
      && (o.response == DecisionNotReady <==> core.known && !core.committed)
      && (ready && plan.Respond? ==> o.response == plan.response)
      && (o.response == AlertNotReady <==> ready && plan.Dispatch? && !alertReady)
      && (o.response == DispatchAlreadyClaimed <==> ready && plan.Dispatch? && alertReady && claimed)
      && (o.claims <==> ready && plan.Dispatch? && alertReady && !claimed)
      && (o.dispatches <==> o.claims)
      && (o.response.DispatchFailed? <==> o.claims && (d.cms.Refused? || d.sms.Refused?))
      && (o.response.Stored? <==> (ready && plan.Write?) || (o.claims && d.cms.Took? && d.sms.Took?))
      && o.record == (if o.response.Stored? || o.response.DispatchFailed? then Some(o.response.record) else existing)
      && (ready && plan.Write? ==> o.response == Stored(plan.record))
      && (o.claims ==> o.response.record == DeliveredRecord(decisionId, plan.existing, plan.record, req, d))
  {
    var plan := PlanRequest(decisionId, existing, req);
    PlanIff(decisionId, existing, req);
    DispatchFailsIffRefused(d);
  }
}
