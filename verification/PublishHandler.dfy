/** One publish request: read, decide, claim, dispatch, write. */
module PublishHandler {
  import opened Options
  import opened Faults
  import opened PublishRecords

  datatype PublishRequest = PublishRequest(actor: string, target: Option<PublishState>, reason: Option<string>,
    now: string)

  // ----- Channels -------------------------------------------------------------

  datatype ChannelReply = Took | Refused(reason: string)

  /** What the two public channels did with the alert. */
  datatype Delivery = Delivery(cms: ChannelReply, sms: ChannelReply) {
    /** The copy text and the export are produced here and cannot fail. */
    function Succeeded(): seq<string> {
      (if cms.Took? then ["CMS_MOCK"] else []) + (if sms.Took? then ["SMS_MOCK"] else []) + ["COPY", "EXPORT_JSON"]
    }

    function Reasons(): seq<string> {
      (if cms.Took? then [] else ["CMS_MOCK: " + cms.reason]) + (if sms.Took? then [] else ["SMS_MOCK: " + sms.reason])
    }

    /** Any refusal fails the delivery, whatever else went out. */
    function Failure(): Option<string> {
      if cms.Took? && sms.Took? then None else Some(SOME_FAILED + JoinReasons(Reasons()))
    }

    predicate ReachesPublic() {
      cms.Took? || sms.Took?
    }
  }

  const ALL_TOOK := Delivery(Took, Took)

  function JoinReasons(reasons: seq<string>): string {
    if reasons == [] then ""
    else if |reasons| == 1 then reasons[0]
    else reasons[0] + "; " + JoinReasons(reasons[1..])
  }

  const ALL_FAILED := "所有發布通道均失敗："
  const SOME_FAILED := "部分發布通道失敗："

  /** Whether a dispatch counts as failed, and why. */
  function EvaluateChannelOutcome(succeeded: seq<string>, reasons: seq<string>, allowPartial: bool): Option<string> {
    if succeeded == [] then Some(ALL_FAILED + JoinReasons(reasons))
    else if !allowPartial && reasons != [] then Some(SOME_FAILED + JoinReasons(reasons))
    else None
  }

  /**
   The handler does not allow partial success: its dispatch fails exactly when a public
   channel refuses, although the other may have alerted the public. Were partial success
   allowed, no dispatch would ever fail, since two outputs always succeed.
   */
  lemma DispatchFailsIffRefused(d: Delivery)
    ensures EvaluateChannelOutcome(d.Succeeded(), d.Reasons(), false) == d.Failure()
    ensures d.Failure().Some? <==> d.cms.Refused? || d.sms.Refused?
    ensures EvaluateChannelOutcome(d.Succeeded(), d.Reasons(), true) == None
    ensures d.Failure().None? ==> d.Succeeded() == ["CMS_MOCK", "SMS_MOCK", "COPY", "EXPORT_JSON"]
    ensures d.Failure().Some? && d.ReachesPublic() <==> d.cms.Took? != d.sms.Took?
  {
    assert "COPY" in d.Succeeded();
  }

  /** A failure names the channels that refused, in the order they are used, with their reasons. */
  lemma FailureNamesRefusals(d: Delivery)
    ensures d.cms.Refused? && d.sms.Took? ==> d.Failure() == Some(SOME_FAILED + ("CMS_MOCK: " + d.cms.reason))
    ensures d.cms.Took? && d.sms.Refused? ==> d.Failure() == Some(SOME_FAILED + ("SMS_MOCK: " + d.sms.reason))
    ensures d.cms.Refused? && d.sms.Refused? ==>
      d.Failure() == Some(SOME_FAILED + (("CMS_MOCK: " + d.cms.reason) + "; " + ("SMS_MOCK: " + d.sms.reason)))
  {
    if d.cms.Refused? && d.sms.Refused? {
      var x, y := "CMS_MOCK: " + d.cms.reason, "SMS_MOCK: " + d.sms.reason;
      assert d.Reasons() == [x, y] && [x, y][1..] == [y];
      assert JoinReasons([x, y]) == x + "; " + JoinReasons([y]);
    }
  }

  datatype CoreStatus = CoreStatus(known: bool, committed: bool)

  datatype Response =
    | DecisionNotFound
    | DecisionNotReady
    | InvalidTargetState
    | Unchanged(record: PublishRecord)
    | Drifted(state: PublishState, version: nat)
    | MissingFailureReason
    | IllegalTransition
    | AlertNotReady
    | DispatchAlreadyClaimed
    | DispatchFailed(record: PublishRecord)
    | FailureNotRecorded
    | Stored(record: PublishRecord)
    | VersionConflict
    | InternalError

  // ----- Decisions taken from the record that was read ------------------------

  datatype Plan =
    | Respond(response: Response)
    | Write(record: PublishRecord)
    | Dispatch(existing: PublishRecord, record: PublishRecord)

  /** The target state is there already: nothing is done again. */
  function TargetReached(check: IdempotencyResult): Response
    requires !check.Proceed?
  {
    match check
    case AlreadyPublished(record) => Unchanged(record)
    case VersionDrift(state, version) => Drifted(state, version)
  }

  function PlanRequest(decisionId: string, existing: Option<PublishRecord>, req: PublishRequest): Plan {
    var target := if req.target.Some? then req.target else InferNextState(StateOf(existing));
    if target.None? then Respond(InvalidTargetState)
    else
      var check := CheckPublishIdempotency(existing, target.value, VersionOf(existing));
      if !check.Proceed? then Respond(TargetReached(check))
      else if target.value.PublishFailed? && req.reason.None? then Respond(MissingFailureReason)
      else if !IsLegalTransition(StateOf(existing), target.value) then Respond(IllegalTransition)
      else
        var record := AppendAuditEntry(decisionId, req.actor, existing, target.value, req.reason, req.now);
        if ShouldDispatch(check, target.value) && existing.Some? then Dispatch(existing.value, record)
        else Write(record)
  }

  /** What is written after the channels were used. */
  function DeliveredRecord(
    decisionId: string, existing: PublishRecord, record: PublishRecord, req: PublishRequest, d: Delivery
  ): PublishRecord
  {
    if d.Failure().None? then record.(channels := d.Succeeded())
    else AppendAuditEntry(decisionId, req.actor, Some(existing), PublishFailed, d.Failure(), req.now)
  }

  lemma WrittenIsSound(decisionId: string, existing: Option<PublishRecord>, req: PublishRequest)
    requires SoundOrAbsent(existing) && PlanRequest(decisionId, existing, req).Write?
    ensures var record := PlanRequest(decisionId, existing, req).record;
      && !record.state.Published? && SoundRecord(record)
      && record.trail[..|record.trail| - 1] == TrailOf(existing)
  {
    var record := PlanRequest(decisionId, existing, req).record;
    AppendIsSound(decisionId, req.actor, existing, record.state, req.reason, req.now, []);
  }

  lemma DeliveredIsSound(
    decisionId: string, seen: PublishRecord, record: PublishRecord, req: PublishRequest, d: Delivery)
    requires SoundRecord(seen) && PlanRequest(decisionId, Some(seen), req) == Dispatch(seen, record)
    ensures var next := DeliveredRecord(decisionId, seen, record, req, d);
      && seen.state.Approved? && SoundRecord(next) && next.trail[..|next.trail| - 1] == seen.trail
      && (next.state.Published? <==> d.Failure().None?) && (next.state.PublishFailed? <==> d.Failure().Some?)
  {
    if d.Failure().None? {
      AppendIsSound(decisionId, req.actor, Some(seen), Published, req.reason, req.now, d.Succeeded());
    } else {
      AppendIsSound(decisionId, req.actor, Some(seen), PublishFailed, d.Failure(), req.now, []);
    }
  }

  /** Only an approved record is dispatched, and every planned record is a sound next version. */
  lemma PlansAreSound(decisionId: string, existing: Option<PublishRecord>, req: PublishRequest, d: Delivery)
    requires SoundOrAbsent(existing)
    ensures var plan := PlanRequest(decisionId, existing, req);
      && (plan.Write? ==> !plan.record.state.Published? && SoundRecord(plan.record))
      && (plan.Write? ==> plan.record.trail[..|plan.record.trail| - 1] == TrailOf(existing))
      && (plan.Dispatch? ==>
            var next := DeliveredRecord(decisionId, plan.existing, plan.record, req, d);
            && existing == Some(plan.existing) && plan.existing.state.Approved?
            && SoundRecord(next) && next.trail[..|next.trail| - 1] == plan.existing.trail
            && (next.state.Published? <==> d.Failure().None?) && (next.state.PublishFailed? <==> d.Failure().Some?))
  {
    var plan := PlanRequest(decisionId, existing, req);
    if plan.Write? {
      WrittenIsSound(decisionId, existing, req);
    } else if plan.Dispatch? {
      DeliveredIsSound(decisionId, plan.existing, plan.record, req, d);
    }
  }

  // ----- What an undisturbed request does -------------------------------------

  datatype Outcome = Outcome(response: Response, record: Option<PublishRecord>, claims: bool, dispatches: bool)

  function HandleOutcome(
    decisionId: string, existing: Option<PublishRecord>, claimed: bool, req: PublishRequest, core: CoreStatus,
    alertReady: bool, d: Delivery): Outcome
  {
    if !core.known then Outcome(DecisionNotFound, existing, false, false)
    else if !core.committed then Outcome(DecisionNotReady, existing, false, false)
    else
      match PlanRequest(decisionId, existing, req)
      case Respond(response) => Outcome(response, existing, false, false)
      case Write(record) => Outcome(Stored(record), Some(record), false, false)
      case Dispatch(seen, record) =>
        if !alertReady then Outcome(AlertNotReady, existing, false, false)
        else if claimed then Outcome(DispatchAlreadyClaimed, existing, false, false)
        else
          var next := DeliveredRecord(decisionId, seen, record, req, d);
          Outcome(if d.Failure().None? then Stored(next) else DispatchFailed(next), Some(next), true, true)
  }

  // ----- The store ------------------------------------------------------------

  datatype WriteError = WriteConflict | WriteIllegal | WriteFault

  datatype Claim = Claim(decisionId: string, version: nat)

  /** A write finds the version it expects: no record at 0, that version otherwise. */
  predicate LockHolds(record: Option<PublishRecord>, expected: nat) {
    if expected == 0 then record.None? else record.Some? && record.value.version == expected
  }

  class PublishStore {
    var records: map<string, PublishRecord>
    var claims: set<Claim>
    var faults: seq<Fault>

    function RecordOf(decisionId: string): Option<PublishRecord>
      reads this
    {
      if decisionId in records then Some(records[decisionId]) else None
    }

    constructor (calls: seq<Fault>)
      ensures records == map[] && claims == {} && faults == calls
    {
      records, claims, faults := map[], {}, calls;
    }

    method NextFault() returns (f: Fault)
      modifies this`faults
      ensures f == FirstFault(old(faults)) && faults == LaterFaults(old(faults))
    {
      f := FirstFault(faults);
      faults := LaterFaults(faults);
    }

    method ReadPublishRecord(decisionId: string) returns (r: Result<Option<PublishRecord>, WriteError>)
      modifies this`faults
      ensures r == Heard(FirstFault(old(faults)), Ok(RecordOf(decisionId)), WriteFault)
        && faults == LaterFaults(old(faults))
    {
      var f := NextFault();
      r := Heard(f, Ok(RecordOf(decisionId)), WriteFault);
    }

    /** The dispatch claim of one version: the first caller gets it, for good. */
    method AcquirePublishDispatch(decisionId: string, version: nat) returns (r: Result<bool, WriteError>)
      modifies this`claims, this`faults
      ensures var c := Claim(decisionId, version); var f := FirstFault(old(faults));
        && faults == LaterFaults(old(faults))
        && claims == (if f.Unavailable? then old(claims) else old(claims) + {c})
        && r == Heard(f, Ok(c !in old(claims)), WriteFault)
    {
      var c := Claim(decisionId, version);
      var f := NextFault();
      var acquired := c !in claims;
      if !f.Unavailable? {
        claims := claims + {c};
      }
      r := Heard(f, Ok(acquired), WriteFault);
    }

    /** Insert at version 0, update under the version lock otherwise. */
    method ConditionalWrite(record: PublishRecord, expectedVersion: nat) returns (r: Result<PublishRecord, WriteError>)
      modifies this`records, this`faults
      ensures var existing := old(RecordOf(record.decisionId)); var f := FirstFault(old(faults));
        var holds := LockHolds(existing, expectedVersion);
        && faults == LaterFaults(old(faults))
        && records == (if f.Unavailable? || !holds then old(records) else old(records)[record.decisionId := record])
        && r == Heard(f, if holds then Ok(record) else Err(WriteConflict), WriteFault)
    {
      var id := record.decisionId;
      var f := NextFault();
      var holds := LockHolds(RecordOf(id), expectedVersion);
      if !f.Unavailable? && holds {
        records := records[id := record];
      }
      r := Heard(f, if holds then Ok(record) else Err(WriteConflict), WriteFault);
    }
  }

  function LastStep(record: PublishRecord): Option<PublishState> {
    if record.trail == [] then None else record.trail[|record.trail| - 1].from
  }

  /** The state machine's write: an illegal step never reaches the table. */
  method ApplyPublishTransition(store: PublishStore, record: PublishRecord, expectedVersion: nat)
    returns (r: Result<PublishRecord, WriteError>)
    modifies store`records, store`faults
    ensures !IsLegalTransition(LastStep(record), record.state) ==>
      r == Err(WriteIllegal) && store.records == old(store.records) && store.faults == old(store.faults)
    ensures IsLegalTransition(LastStep(record), record.state) ==>
      var existing := old(store.RecordOf(record.decisionId)); var f := FirstFault(old(store.faults));
      var holds := LockHolds(existing, expectedVersion);
      && store.faults == LaterFaults(old(store.faults))
      && store.records == (if f.Unavailable? || !holds then old(store.records)
                           else old(store.records)[record.decisionId := record])
      && r == Heard(f, if holds then Ok(record) else Err(WriteConflict), WriteFault)
  {
    if !IsLegalTransition(LastStep(record), record.state) {
      return Err(WriteIllegal);
    }
    r := store.ConditionalWrite(record, expectedVersion);
  }

  // ----- The handler ----------------------------------------------------------

  lemma AppendedStepIsLegal(decisionId: string, existing: Option<PublishRecord>, req: PublishRequest, d: Delivery)
    ensures var plan := PlanRequest(decisionId, existing, req);
      && (plan.Write? ==> IsLegalTransition(LastStep(plan.record), plan.record.state)
                          && plan.record.decisionId == decisionId)
      && (plan.Dispatch? ==>
            var next := DeliveredRecord(decisionId, plan.existing, plan.record, req, d);
            && IsLegalTransition(LastStep(next), next.state) && next.decisionId == decisionId
            && existing == Some(plan.existing))
  {
  }

  /** A record's version is its trail's length, so only an absent record has version 0. */
  predicate VersionsPositive(store: PublishStore)
    reads store
  {
    forall id :: id in store.records ==> store.records[id].version > 0
  }

  /** What is answered when the write is done, after a dispatch that failed or otherwise. */
  function WriteAnswer(written: Result<PublishRecord, WriteError>, dispatchFailed: bool): Response {
    match written
    case Ok(record) => if dispatchFailed then DispatchFailed(record) else Stored(record)
    case Err(e) =>
      if dispatchFailed then FailureNotRecorded
      else match e
        case WriteConflict => VersionConflict
        case WriteIllegal => IllegalTransition
        case WriteFault => InternalError
  }

  /** A failed dispatch is always told as one; otherwise each outcome of the write has its own answer. */
  lemma WriteAnswerIff(written: Result<PublishRecord, WriteError>, dispatchFailed: bool, r: PublishRecord)
    ensures var answer := WriteAnswer(written, dispatchFailed);
      && (answer == DispatchFailed(r) <==> dispatchFailed && written == Ok(r))
      && (answer == FailureNotRecorded <==> dispatchFailed && written.Err?)
      && (answer == Stored(r) <==> !dispatchFailed && written == Ok(r))
      && (answer == VersionConflict <==> !dispatchFailed && written == Err(WriteConflict))
      && (answer == IllegalTransition <==> !dispatchFailed && written == Err(WriteIllegal))
      && (answer == InternalError <==> !dispatchFailed && written == Err(WriteFault))
  {
  }

  /** The only record a request may leave in place of the existing one. */
  function NextRecord(decisionId: string, existing: Option<PublishRecord>, req: PublishRequest, d: Delivery)
    : Option<PublishRecord>
  {
    match PlanRequest(decisionId, existing, req)
    case Respond(_) => existing
    case Write(record) => Some(record)
    case Dispatch(seen, record) => Some(DeliveredRecord(decisionId, seen, record, req, d))
  }

  /** Claim, dispatch, write: the claim is taken before anything is sent. */
  method DispatchAndWrite(
    store: PublishStore, decisionId: string, req: PublishRequest, seen: PublishRecord, record: PublishRecord,
    d: Delivery)
    returns (r: Response, sent: bool)
    requires PlanRequest(decisionId, Some(seen), req) == Dispatch(seen, record)
    requires store.RecordOf(decisionId) == Some(seen) && seen.version > 0
    modifies store
    ensures r.Stored? || r.DispatchFailed? ==> sent && store.RecordOf(decisionId) == Some(r.record)
    ensures r == DispatchAlreadyClaimed ==> !sent && Claim(decisionId, seen.version) in old(store.claims)
    ensures sent && d.Failure().Some? <==> r.DispatchFailed? || r == FailureNotRecorded
    ensures sent ==> Claim(decisionId, seen.version) !in old(store.claims)
    ensures sent ==> Claim(decisionId, seen.version) in store.claims
    ensures store.claims == old(store.claims) || store.claims == old(store.claims) + {Claim(decisionId, seen.version)}
    ensures var next := DeliveredRecord(decisionId, seen, record, req, d);
      store.records == old(store.records) || (sent && store.records == old(store.records)[decisionId := next])
    ensures old(store.faults) == [] ==>
      var next := DeliveredRecord(decisionId, seen, record, req, d);
      var claimed := Claim(decisionId, seen.version) in old(store.claims);
      && sent == !claimed
      && store.claims == old(store.claims) + {Claim(decisionId, seen.version)}
      && store.RecordOf(decisionId) == Some(if claimed then seen else next)
      && r == if claimed then DispatchAlreadyClaimed
              else if d.Failure().None? then Stored(next) else DispatchFailed(next)
  {
    sent := false;
    var claim := store.AcquirePublishDispatch(decisionId, seen.version);
    if claim.Err? {
      return InternalError, false;
    }
    if !claim.value {
      return DispatchAlreadyClaimed, false;
    }
    sent := true;
    AppendedStepIsLegal(decisionId, Some(seen), req, d);
    var next := DeliveredRecord(decisionId, seen, record, req, d);
    var written := ApplyPublishTransition(store, next, seen.version);
    r := WriteAnswer(written, d.Failure().Some?);
  }

  /** A planned record that needs no dispatch is written under the version that was read. */
  method WritePlanned(
    store: PublishStore, decisionId: string, req: PublishRequest, existing: Option<PublishRecord>,
    record: PublishRecord)
    returns (r: Response)
    requires PlanRequest(decisionId, existing, req) == Write(record)
    requires store.RecordOf(decisionId) == existing && (existing.Some? ==> existing.value.version > 0)
    modifies store`records, store`faults
    ensures store.records == old(store.records) || store.records == old(store.records)[decisionId := record]
    ensures r == Stored(record) || r == InternalError
    ensures r == Stored(record) ==> store.records == old(store.records)[decisionId := record]
    ensures old(store.faults) == [] ==> r == Stored(record)
  {
    AppendedStepIsLegal(decisionId, existing, req, ALL_TOOK);
    var written := ApplyPublishTransition(store, record, VersionOf(existing));
    r := WriteAnswer(written, false);
  }

  /**
   The whole request. Something is sent only under a claim taken by this very request, and
   at most once; without faults it does exactly what `HandleOutcome` says.
   */
  method HandlePublish(
    store: PublishStore, decisionId: string, req: PublishRequest, core: CoreStatus, alertReady: bool, d: Delivery)
    returns (r: Response, sent: bool)
    requires VersionsPositive(store)
    modifies store
    ensures sent ==>
      var existing := old(store.RecordOf(decisionId));
      && existing.Some? && existing.value.state.Approved?
      && Claim(decisionId, existing.value.version) !in old(store.claims)
      && Claim(decisionId, existing.value.version) in store.claims
    ensures r.Stored? || r.DispatchFailed? ==> store.RecordOf(decisionId) == Some(r.record)
    ensures r == DispatchAlreadyClaimed ==>
      Claim(decisionId, VersionOf(old(store.RecordOf(decisionId)))) in old(store.claims)
    ensures sent && d.Failure().Some? <==> r.DispatchFailed? || r == FailureNotRecorded
    ensures r == InternalError ==> old(store.faults) != []
    ensures store.records - {decisionId} == old(store.records) - {decisionId}
    ensures store.claims <= old(store.claims) + {Claim(decisionId, VersionOf(old(store.RecordOf(decisionId))))}
    ensures store.RecordOf(decisionId) == old(store.RecordOf(decisionId))
      || store.RecordOf(decisionId) == NextRecord(decisionId, old(store.RecordOf(decisionId)), req, d)
    ensures (core.known && core.committed && req.target == Some(PublishFailed) && req.reason.None?
             && StateOf(old(store.RecordOf(decisionId))) != Some(PublishFailed)) ==>
      && !sent && store.records == old(store.records) && store.claims == old(store.claims)
      && (old(store.faults) == [] ==> r == MissingFailureReason)
    ensures old(store.faults) == [] ==>
      var existing := old(store.RecordOf(decisionId));
      var claimed := Claim(decisionId, VersionOf(existing)) in old(store.claims);
      var o := HandleOutcome(decisionId, existing, claimed, req, core, alertReady, d);
      && r == o.response && sent == o.dispatches && store.RecordOf(decisionId) == o.record
      && store.claims == old(store.claims) + (if o.claims then {Claim(decisionId, VersionOf(existing))} else {})
  {
    if !core.known {
      return DecisionNotFound, false;
    }
    if !core.committed {
      return DecisionNotReady, false;
    }
    var read := store.ReadPublishRecord(decisionId);
    if read.Err? {
      return InternalError, false;
    }
    match PlanRequest(decisionId, read.value, req)
    case Respond(response) =>
      return response, false;
    case Write(record) =>
      sent := false;
      r := WritePlanned(store, decisionId, req, read.value, record);
    case Dispatch(seen, record) =>
      if !alertReady {
        return AlertNotReady, false;
      }
      r, sent := DispatchAndWrite(store, decisionId, req, seen, record, d);
  }
}
