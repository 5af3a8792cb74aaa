/** Publish records, their transition table and their append-only audit trail. */
module PublishRecords {
  import opened Options

  datatype PublishState = Draft | Approved | Published | PublishFailed

  datatype AuditEntry = AuditEntry(actor: string, from: Option<PublishState>, to: PublishState, at: string)

  datatype PublishRecord = PublishRecord(
    decisionId: string,
    state: PublishState,
    channels: seq<string>,
    approvedBy: Option<string>,
    publishedBy: Option<string>,
    failureReason: Option<string>,
    trail: seq<AuditEntry>,
    version: nat,
    updatedAt: string)

  // ----- Transitions --------------------------------------------------------

  predicate IsLegalTransition(from: Option<PublishState>, to: PublishState) {
    match from
    case None => to.Draft?
    case Some(Draft) => to.Approved?
    case Some(Approved) => to.Published? || to.PublishFailed?
    case Some(PublishFailed) => to.Approved?
    case Some(Published) => false
  }

  /** The target when the request names none; recovery from a failure must be named. */
  function InferNextState(current: Option<PublishState>): Option<PublishState> {
    match current
    case None => Some(Draft)
    case Some(Draft) => Some(Approved)
    case Some(Approved) => Some(Published)
    case Some(PublishFailed) => None
    case Some(Published) => None
  }

  /** What is inferred is legal; nothing is inferred exactly for a failed or a published record. */
  lemma InferredTransitionIsLegal(current: Option<PublishState>)
    ensures InferNextState(current).Some? ==> IsLegalTransition(current, InferNextState(current).value)
    ensures InferNextState(current).None? <==> current == Some(PublishFailed) || current == Some(Published)
  {
  }

  // ----- Audit trail --------------------------------------------------------

  function StateOf(existing: Option<PublishRecord>): Option<PublishState> {
    if existing.Some? then Some(existing.value.state) else None
  }

  function VersionOf(existing: Option<PublishRecord>): nat {
    if existing.Some? then existing.value.version else 0
  }

  function TrailOf(existing: Option<PublishRecord>): seq<AuditEntry> {
    if existing.Some? then existing.value.trail else []
  }

  /** The next record: one more audit entry, one version up. */
  function AppendAuditEntry(
    decisionId: string, actor: string, existing: Option<PublishRecord>, target: PublishState,
    reason: Option<string>, now: string): PublishRecord
  {
    PublishRecord(
      decisionId,
      target,
      if existing.Some? then existing.value.channels else [],
      if target.Approved? then Some(actor)
      else if target.Published? then
        Some((if existing.Some? && existing.value.approvedBy.Some? then existing.value.approvedBy.value else actor))
      else None,
      if target.Published? then Some(actor) else None,
      if target.PublishFailed? then reason else None,
      TrailOf(existing) + [AuditEntry(actor, StateOf(existing), target, now)],
      VersionOf(existing) + 1,
      now)
  }

  /** Where the entries before position `i` led. */
  function LedTo(trail: seq<AuditEntry>, i: nat): Option<PublishState>
    requires i <= |trail|
  {
    if i == 0 then None else Some(trail[i - 1].to)
  }

  /** The trail starts from nothing and every entry takes a legal step from where the last one led. */
  predicate LegalChain(trail: seq<AuditEntry>) {
    forall i {:trigger LedTo(trail, i)} :: 0 <= i < |trail| ==>
      trail[i].from == LedTo(trail, i) && IsLegalTransition(trail[i].from, trail[i].to)
  }

  lemma ChainGrows(trail: seq<AuditEntry>, e: AuditEntry)
    requires LegalChain(trail) && e.from == LedTo(trail, |trail|) && IsLegalTransition(e.from, e.to)
    ensures LegalChain(trail + [e])
  {
    forall i | 0 <= i < |trail + [e]|
      ensures (trail + [e])[i].from == LedTo(trail + [e], i)
      ensures IsLegalTransition((trail + [e])[i].from, (trail + [e])[i].to)
    {
      if i < |trail| {
        assert (trail + [e])[i] == trail[i] && LedTo(trail + [e], i) == LedTo(trail, i);
      }
    }
  }

  /** The actor of the latest approval. */
  function LatestApprover(trail: seq<AuditEntry>): Option<string> {
    if trail == [] then None
    else if trail[|trail| - 1].to.Approved? then Some(trail[|trail| - 1].actor)
    else LatestApprover(trail[..|trail| - 1])
  }

  /** What every stored record satisfies. */
  predicate SoundRecord(r: PublishRecord) {
    && r.trail != [] && r.version == |r.trail| && LegalChain(r.trail)
    && r.trail[|r.trail| - 1].to == r.state
    && r.updatedAt == r.trail[|r.trail| - 1].at
    && r.approvedBy == (if r.state.Approved? || r.state.Published? then LatestApprover(r.trail) else None)
    && r.publishedBy == (if r.state.Published? then Some(r.trail[|r.trail| - 1].actor) else None)
    && (r.failureReason.Some? <==> r.state.PublishFailed?)
    && (!r.state.Published? ==> r.channels == [])
  }

  predicate SoundOrAbsent(r: Option<PublishRecord>) {
    r.Some? ==> SoundRecord(r.value)
  }

  lemma LatestApproverAppend(trail: seq<AuditEntry>, e: AuditEntry)
    ensures LatestApprover(trail + [e]) == if e.to.Approved? then Some(e.actor) else LatestApprover(trail)
  {
    assert (trail + [e])[..|trail|] == trail;
  }

  /** The trail with one more legal entry, and whose approval it then shows. */
  lemma TrailGrows(existing: Option<PublishRecord>, e: AuditEntry)
    requires SoundOrAbsent(existing) && e.from == StateOf(existing) && IsLegalTransition(e.from, e.to)
    ensures VersionOf(existing) == |TrailOf(existing)| && LegalChain(TrailOf(existing) + [e])
    ensures e.to.Approved? ==> LatestApprover(TrailOf(existing) + [e]) == Some(e.actor)
    ensures e.to.Published? ==>
      existing.Some? && LatestApprover(TrailOf(existing) + [e]) == existing.value.approvedBy
      && existing.value.approvedBy.Some?
    ensures existing.Some? ==> existing.value.channels == []
  {
    ChainGrows(TrailOf(existing), e);
    LatestApproverAppend(TrailOf(existing), e);
    if e.to.Published? {
      ApprovedHasApprover(existing.value);
    }
  }

  /** A record that shows its trail's last entry is sound. */
  lemma ShowsLastEntry(r: PublishRecord, trail: seq<AuditEntry>, e: AuditEntry, approver: Option<string>)
    requires r.trail == trail + [e] && LegalChain(r.trail) && r.version == |trail| + 1
    requires r.state == e.to && r.updatedAt == e.at
    requires e.to.Approved? || e.to.Published? ==> LatestApprover(r.trail) == approver
    requires r.approvedBy == if e.to.Approved? || e.to.Published? then approver else None
    requires r.publishedBy == if e.to.Published? then Some(e.actor) else None
    requires (r.failureReason.Some? <==> e.to.PublishFailed?) && (!e.to.Published? ==> r.channels == [])
    ensures SoundRecord(r)
  {
    assert r.trail[|r.trail| - 1] == e;
  }

  /** A legal step appended to a sound record is a sound record; a failure needs its reason. */
  lemma AppendIsSound(
    decisionId: string, actor: string, existing: Option<PublishRecord>, target: PublishState, reason: Option<string>,
    now: string, channels: seq<string>)
    requires SoundOrAbsent(existing) && IsLegalTransition(StateOf(existing), target)
    requires target.PublishFailed? ==> reason.Some?
    ensures SoundRecord(AppendAuditEntry(decisionId, actor, existing, target, reason, now)
                          .(channels := if target.Published? then channels else []))
    ensures !target.Published? ==> AppendAuditEntry(decisionId, actor, existing, target, reason, now).channels == []
  {
    var e := AuditEntry(actor, StateOf(existing), target, now);
    TrailGrows(existing, e);
    var approver := if target.Published? then existing.value.approvedBy else Some(actor);
    var r := AppendAuditEntry(decisionId, actor, existing, target, reason, now);
    ShowsLastEntry(r.(channels := if target.Published? then channels else []), TrailOf(existing), e, approver);
  }

  lemma ApprovedHasApprover(r: PublishRecord)
    requires SoundRecord(r) && r.state.Approved?
    ensures r.approvedBy == LatestApprover(r.trail) == Some(r.trail[|r.trail| - 1].actor)
  {
  }

  /** Nothing follows a published entry: it can only stand last, and so only once. */
  lemma NothingFollowsPublished(trail: seq<AuditEntry>, i: nat)
    requires LegalChain(trail) && i + 1 < |trail|
    ensures !trail[i].to.Published?
  {
    assert trail[i + 1].from == LedTo(trail, i + 1);
  }

  /** What the integrity check asks: the trail ends in the record's state and is connected. */
  predicate Connected(r: PublishRecord) {
    && r.trail != [] && r.trail[|r.trail| - 1].to == r.state
    && forall i :: 0 <= i < |r.trail| - 1 ==> r.trail[i + 1].from == Some(r.trail[i].to)
  }

  datatype TrailProblem = EmptyTrail | LastEntryDiffers | BrokenAt(index: nat)

  /** The integrity check; a broken chain is reported at its first break. */
  method ValidateAuditTrailIntegrity(r: PublishRecord) returns (problem: Option<TrailProblem>)
    ensures problem.None? <==> Connected(r)
    ensures problem == Some(EmptyTrail) <==> r.trail == []
    ensures problem == Some(LastEntryDiffers) <==> r.trail != [] && r.trail[|r.trail| - 1].to != r.state
    ensures problem.Some? && problem.value.BrokenAt? ==>
      var i := problem.value.index;
      && i + 1 < |r.trail| && r.trail[i + 1].from != Some(r.trail[i].to)
      && forall j :: 0 <= j < i ==> r.trail[j + 1].from == Some(r.trail[j].to)
  {
    if r.trail == [] {
      return Some(EmptyTrail);
    }
    if r.trail[|r.trail| - 1].to != r.state {
      return Some(LastEntryDiffers);
    }
    for i := 0 to |r.trail| - 1
      invariant forall j :: 0 <= j < i ==> r.trail[j + 1].from == Some(r.trail[j].to)
    {
      if r.trail[i + 1].from != Some(r.trail[i].to) {
        return Some(BrokenAt(i));
      }
    }
    problem := None;
  }

  /** Sound records pass the integrity check, but the check alone does not make a record sound. */
  lemma SoundRecordsAreConnected(r: PublishRecord)
    requires SoundRecord(r)
    ensures Connected(r)
  {
    forall i | 0 <= i < |r.trail| - 1 ensures r.trail[i + 1].from == Some(r.trail[i].to) {
      assert r.trail[i + 1].from == LedTo(r.trail, i + 1);
    }
  }

  // ----- Idempotency --------------------------------------------------------

  datatype IdempotencyResult =
    | Proceed
    | AlreadyPublished(record: PublishRecord)
    | VersionDrift(state: PublishState, version: nat)

  function CheckPublishIdempotency(existing: Option<PublishRecord>, target: PublishState, expectedVersion: nat)
    : IdempotencyResult
  {
    if existing.None? || existing.value.state != target then Proceed
    else if existing.value.version == expectedVersion then AlreadyPublished(existing.value)
    else VersionDrift(existing.value.state, existing.value.version)
  }

  /** A record in the target state is a retry at the version that was read and a drift at any other. */
  lemma TargetReachedIff(
    existing: Option<PublishRecord>, target: PublishState, expected: nat, r: PublishRecord, s: PublishState, n: nat)
    ensures CheckPublishIdempotency(existing, target, expected) == AlreadyPublished(r) <==>
      existing == Some(r) && r.state == target && r.version == expected
    ensures CheckPublishIdempotency(existing, target, expected) == VersionDrift(s, n) <==>
      existing.Some? && existing.value.state == target == s && existing.value.version == n != expected
  {
  }

  /** Checked against its own version, a record never drifts: the target is reached or the request proceeds. */
  lemma OwnVersionNeverDrifts(existing: Option<PublishRecord>, target: PublishState)
    ensures !CheckPublishIdempotency(existing, target, VersionOf(existing)).VersionDrift?
    ensures CheckPublishIdempotency(existing, target, VersionOf(existing)).Proceed? <==>
      StateOf(existing) != Some(target)
  {
  }

  predicate ShouldDispatch(check: IdempotencyResult, target: PublishState) {
    check.Proceed? && target.Published?
  }
}
