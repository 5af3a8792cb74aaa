/**
 Concurrent publish requests for one decision as a state machine. Reads may return any
 record that was ever stored, responses may be lost, and a handler may stop anywhere.
 */
module PublishProtocol {
  import opened Options
  import opened PublishRecords
  import opened PublishHandler

  datatype Stage =
    | Arrived
    | Claiming(seen: PublishRecord, planned: PublishRecord)
    | Sending(seen: PublishRecord, planned: PublishRecord)
    | Writing(next: PublishRecord, expected: nat)
    | Finished

  datatype Handler = Handler(req: PublishRequest, stage: Stage)

  datatype Event =
    | Wrote(record: PublishRecord, author: nat)
    | Sent(author: nat, version: nat, delivery: Delivery)

  datatype World = World(
    decisionId: string,
    record: Option<PublishRecord>,
    claims: map<nat, nat>,
    handlers: map<nat, Handler>,
    log: seq<Event>)

  function Init(decisionId: string): World {
    World(decisionId, None, map[], map[], [])
  }

  datatype Step =
    | Arrive(id: nat, req: PublishRequest)
    | Read(id: nat, seen: Option<PublishRecord>)
    | TakeClaim(id: nat, told: bool)
    | Send(id: nat, delivery: Delivery)
    | WriteRecord(id: nat)

  /** The record was stored at some time, or nothing was. */
  ghost predicate WasStored(log: seq<Event>, seen: Option<PublishRecord>) {
    seen.Some? ==> exists e :: e in log && e.Wrote? && e.record == seen.value
  }

  ghost predicate Enabled(w: World, s: Step) {
    match s
    case Arrive(id, _) => id !in w.handlers
    case Read(id, seen) => id in w.handlers && w.handlers[id].stage.Arrived? && WasStored(w.log, seen)
    case TakeClaim(id, _) => id in w.handlers && w.handlers[id].stage.Claiming?
    case Send(id, _) => id in w.handlers && w.handlers[id].stage.Sending?
    case WriteRecord(id) => id in w.handlers && w.handlers[id].stage.Writing?
  }

  function WithStage(w: World, id: nat, stage: Stage): World
    requires id in w.handlers
  {
    w.(handlers := w.handlers[id := w.handlers[id].(stage := stage)])
  }

  function AfterPlan(plan: Plan, seen: Option<PublishRecord>): Stage {
    match plan
    case Respond(_) => Finished
    case Write(record) => Writing(record, VersionOf(seen))
    case Dispatch(existing, record) => Claiming(existing, record)
  }

  ghost function Next(w: World, s: Step): World {
    if !Enabled(w, s) then w
    else
      match s
      case Arrive(id, req) => w.(handlers := w.handlers[id := Handler(req, Arrived)])
      case Read(id, seen) =>
        WithStage(w, id, AfterPlan(PlanRequest(w.decisionId, seen, w.handlers[id].req), seen))
      case TakeClaim(id, told) =>
        var g := w.handlers[id].stage;
        if g.seen.version in w.claims then WithStage(w, id, Finished)
        else
          var stage := if told then Sending(g.seen, g.planned) else Finished;
          WithStage(w, id, stage).(claims := w.claims[g.seen.version := id])
      case Send(id, delivery) =>
        var h := w.handlers[id];
        var next := DeliveredRecord(w.decisionId, h.stage.seen, h.stage.planned, h.req, delivery);
        var e := Sent(id, h.stage.seen.version, delivery);
        WithStage(w, id, Writing(next, h.stage.seen.version)).(log := w.log + [e])
      case WriteRecord(id) =>
        var g := w.handlers[id].stage;
        if IsLegalTransition(LastStep(g.next), g.next.state) && LockHolds(w.record, g.expected) then
          WithStage(w, id, Finished).(record := Some(g.next), log := w.log + [Wrote(g.next, id)])
        else WithStage(w, id, Finished)
  }

  ghost function Run(w: World, steps: seq<Step>): World
    decreases |steps|
  {
    if steps == [] then w else Next(Run(w, steps[..|steps| - 1]), steps[|steps| - 1])
  }

  // ----- Histories ------------------------------------------------------------

  /** The record that was stored last. */
  function LastWritten(log: seq<Event>): Option<PublishRecord> {
    if log == [] then None
    else if log[|log| - 1].Wrote? then Some(log[|log| - 1].record)
    else LastWritten(log[..|log| - 1])
  }

  predicate Extends(r: PublishRecord, previous: Option<PublishRecord>) {
    SoundRecord(r) && r.trail[..|r.trail| - 1] == TrailOf(previous)
  }

  /** The author dispatched this version and every channel took it. */
  ghost predicate SentInFull(log: seq<Event>, author: nat, version: nat, channels: seq<string>) {
    exists e :: e in log && e.Sent? && e.author == author && e.version == version
      && e.delivery.Failure().None? && e.delivery.Succeeded() == channels
  }

  ghost predicate Justified(past: seq<Event>, e: Event) {
    match e
    case Wrote(r, author) =>
      Extends(r, LastWritten(past)) && (r.state.Published? ==> SentInFull(past, author, r.version - 1, r.channels))
    case Sent(_, v, _) =>
      && (forall p :: p in past && p.Sent? ==> p.version != v)
      && (exists p :: p in past && p.Wrote? && p.record.version == v && p.record.state.Approved?)
  }

  ghost predicate SoundHistory(log: seq<Event>) {
    forall k {:trigger Justified(log[..k], log[k])} :: 0 <= k < |log| ==> Justified(log[..k], log[k])
  }

  lemma HistoryGrows(log: seq<Event>, e: Event)
    requires SoundHistory(log) && Justified(log, e)
    ensures SoundHistory(log + [e])
  {
    forall k | 0 <= k < |log + [e]| ensures Justified((log + [e])[..k], (log + [e])[k]) {
      assert (log + [e])[..k] == log[..k];
    }
  }

  // ----- Invariant ------------------------------------------------------------

  /** An earlier record's trail is a prefix of the current one; at the same version it is the same record. */
  predicate Precedes(r: PublishRecord, current: Option<PublishRecord>) {
    && SoundRecord(r) && current.Some? && r.version <= current.value.version && r.trail <= current.value.trail
    && (r.version == current.value.version ==> current == Some(r))
  }

  ghost predicate HandlerOk(w: World, id: nat, h: Handler) {
    match h.stage
    case Claiming(seen, planned) =>
      WasStored(w.log, Some(seen)) && PlanRequest(w.decisionId, Some(seen), h.req) == Dispatch(seen, planned)
    case Sending(seen, planned) =>
      && WasStored(w.log, Some(seen)) && PlanRequest(w.decisionId, Some(seen), h.req) == Dispatch(seen, planned)
      && seen.version in w.claims && w.claims[seen.version] == id
      && (forall e :: e in w.log && e.Sent? ==> e.version != seen.version)
    case Writing(next, expected) =>
      && (exists seen :: WasStored(w.log, seen) && VersionOf(seen) == expected && Extends(next, seen))
      && (next.state.Published? ==> SentInFull(w.log, id, expected, next.channels))
    case _ => true
  }

  ghost predicate RecordInv(record: Option<PublishRecord>, log: seq<Event>) {
    && SoundHistory(log)
    && record == LastWritten(log)
    && SoundOrAbsent(record)
    && (forall e :: e in log && e.Wrote? ==> Precedes(e.record, record))
  }

  ghost predicate ClaimInv(record: Option<PublishRecord>, claims: map<nat, nat>, log: seq<Event>) {
    && (forall e :: e in log && e.Sent? ==> e.version in claims && claims[e.version] == e.author)
    && (forall v :: v in claims ==> 1 <= v <= VersionOf(record))
  }

  ghost predicate HandlersOk(w: World) {
    forall id :: id in w.handlers ==> HandlerOk(w, id, w.handlers[id])
  }

  ghost predicate Inv(w: World) {
    RecordInv(w.record, w.log) && ClaimInv(w.record, w.claims, w.log) && HandlersOk(w)
  }

  lemma InvInit(decisionId: string)
    ensures Inv(Init(decisionId))
  {
  }

  lemma StoredStays(log: seq<Event>, seen: Option<PublishRecord>, e: Event)
    requires WasStored(log, seen)
    ensures WasStored(log + [e], seen)
  {
    if seen.Some? {
      var p :| p in log && p.Wrote? && p.record == seen.value;
      assert p in log + [e];
    }
  }

  lemma SentInFullStays(log: seq<Event>, author: nat, version: nat, channels: seq<string>, e: Event)
    requires SentInFull(log, author, version, channels)
    ensures SentInFull(log + [e], author, version, channels)
  {
    var p :| p in log && p.Sent? && p.author == author && p.version == version
      && p.delivery.Failure().None? && p.delivery.Succeeded() == channels;
    assert p in log + [e];
  }

  lemma StoredPrecedes(record: Option<PublishRecord>, log: seq<Event>, seen: PublishRecord)
    requires RecordInv(record, log) && WasStored(log, Some(seen))
    ensures Precedes(seen, record) && seen.version >= 1
  {
  }

  /** More history leaves a handler's beliefs true, unless another sends under its claim. */
  lemma HandlerStaysOk(w: World, w': World, id: nat, h: Handler, e: Event)
    requires HandlerOk(w, id, h) && w'.decisionId == w.decisionId && w'.log == w.log + [e] && w'.claims == w.claims
    requires e.Sent? ==> e.version in w.claims && w.claims[e.version] != id
    ensures HandlerOk(w', id, h)
  {
    match h.stage
    case Claiming(seen, _) => StoredStays(w.log, Some(seen), e);
    case Sending(seen, _) => StoredStays(w.log, Some(seen), e);
    case Writing(next, expected) =>
      var seen :| WasStored(w.log, seen) && VersionOf(seen) == expected && Extends(next, seen);
      StoredStays(w.log, seen, e);
      if next.state.Published? {
        SentInFullStays(w.log, id, expected, next.channels, e);
      }
    case _ =>
  }

  /** A new claim takes nothing from a handler. */
  lemma HandlerKeepsClaim(w: World, w': World, id: nat, h: Handler, v: nat, author: nat)
    requires HandlerOk(w, id, h) && w'.decisionId == w.decisionId && w'.log == w.log
    requires v !in w.claims && w'.claims == w.claims[v := author]
    ensures HandlerOk(w', id, h)
  {
  }

  lemma SameHandlerOk(w: World, w': World, id: nat, h: Handler)
    requires HandlerOk(w, id, h) && w'.decisionId == w.decisionId && w'.log == w.log && w'.claims == w.claims
    ensures HandlerOk(w', id, h)
  {
  }

  /** Only one handler moves and it is fine in its new stage. */
  lemma OneHandlerMoves(w: World, w': World, id: nat)
    requires HandlersOk(w) && w'.decisionId == w.decisionId && w'.log == w.log && w'.claims == w.claims
    requires id in w'.handlers && HandlerOk(w', id, w'.handlers[id])
    requires forall k :: k in w'.handlers && k != id ==> k in w.handlers && w'.handlers[k] == w.handlers[k]
    ensures HandlersOk(w')
  {
    forall k | k in w'.handlers && k != id ensures HandlerOk(w', k, w'.handlers[k]) {
      SameHandlerOk(w, w', k, w.handlers[k]);
    }
  }

  lemma InvArrive(w: World, s: Step)
    requires Inv(w) && s.Arrive? && Enabled(w, s)
    ensures Inv(Next(w, s))
  {
    OneHandlerMoves(w, Next(w, s), s.id);
  }

  lemma PlannedStageOk(w: World, id: nat, req: PublishRequest, seen: Option<PublishRecord>)
    requires RecordInv(w.record, w.log) && WasStored(w.log, seen)
    ensures HandlerOk(w, id, Handler(req, AfterPlan(PlanRequest(w.decisionId, seen, req), seen)))
  {
    if seen.Some? {
      StoredPrecedes(w.record, w.log, seen.value);
    }
    PlansAreSound(w.decisionId, seen, req, ALL_TOOK);
  }

  lemma InvRead(w: World, s: Step)
    requires Inv(w) && s.Read? && Enabled(w, s)
    ensures Inv(Next(w, s))
  {
    var req := w.handlers[s.id].req;
    PlannedStageOk(w, s.id, req, s.seen);
    var w' := Next(w, s);
    SameHandlerOk(w, w', s.id, Handler(req, AfterPlan(PlanRequest(w.decisionId, s.seen, req), s.seen)));
    OneHandlerMoves(w, w', s.id);
  }

  lemma ClaimAdded(record: Option<PublishRecord>, claims: map<nat, nat>, log: seq<Event>, v: nat, author: nat)
    requires ClaimInv(record, claims, log) && v !in claims && 1 <= v <= VersionOf(record)
    ensures ClaimInv(record, claims[v := author], log)
    ensures forall e :: e in log && e.Sent? ==> e.version != v
  {
  }

  lemma InvTakeClaim(w: World, s: Step)
    requires Inv(w) && s.TakeClaim? && Enabled(w, s)
    ensures Inv(Next(w, s))
  {
    var w' := Next(w, s);
    var v := w.handlers[s.id].stage.seen.version;
    if v in w.claims {
      OneHandlerMoves(w, w', s.id);
    } else {
      StoredPrecedes(w.record, w.log, w.handlers[s.id].stage.seen);
      ClaimAdded(w.record, w.claims, w.log, v, s.id);
      forall k | k in w'.handlers && k != s.id ensures HandlerOk(w', k, w'.handlers[k]) {
        HandlerKeepsClaim(w, w', k, w.handlers[k], v, s.id);
      }
    }
  }

  lemma SentRecorded(w: World, e: Event)
    requires RecordInv(w.record, w.log) && ClaimInv(w.record, w.claims, w.log)
    requires e.Sent? && Justified(w.log, e) && e.version in w.claims && w.claims[e.version] == e.author
    ensures RecordInv(w.record, w.log + [e])
    ensures ClaimInv(w.record, w.claims, w.log + [e])
  {
    HistoryGrows(w.log, e);
    assert (w.log + [e])[..|w.log|] == w.log;
  }

  /** The stage after sending: the record to write extends the approved record that was read. */
  lemma SentStageOk(w: World, id: nat, h: Handler, d: Delivery)
    requires RecordInv(w.record, w.log) && HandlerOk(w, id, h) && h.stage.Sending?
    ensures Justified(w.log, Sent(id, h.stage.seen.version, d))
    ensures var next := DeliveredRecord(w.decisionId, h.stage.seen, h.stage.planned, h.req, d);
      && Extends(next, Some(h.stage.seen))
      && (next.state.Published? ==> d.Failure().None? && next.channels == d.Succeeded())
  {
    PlansAreSound(w.decisionId, Some(h.stage.seen), h.req, d);
    StoredPrecedes(w.record, w.log, h.stage.seen);
    var e :| e in w.log && e.Wrote? && e.record == h.stage.seen;
  }

  lemma InvSend(w: World, s: Step)
    requires Inv(w) && s.Send? && Enabled(w, s)
    ensures Inv(Next(w, s))
  {
    var h := w.handlers[s.id];
    SentStageOk(w, s.id, h, s.delivery);
    SentRecorded(w, Sent(s.id, h.stage.seen.version, s.delivery));
    OwnWriteOk(w, Next(w, s), s.id, h, s.delivery);
    OthersOkAfterSend(w, s);
  }

  lemma OthersOkAfterSend(w: World, s: Step)
    requires HandlersOk(w) && s.Send? && Enabled(w, s)
    ensures var w' := Next(w, s); forall k :: k in w'.handlers && k != s.id ==> HandlerOk(w', k, w'.handlers[k])
  {
    var w' := Next(w, s);
    var h := w.handlers[s.id];
    assert HandlerOk(w, s.id, h);
    forall k | k in w'.handlers && k != s.id ensures HandlerOk(w', k, w'.handlers[k]) {
      HandlerStaysOk(w, w', k, w.handlers[k], Sent(s.id, h.stage.seen.version, s.delivery));
    }
  }

  /** The write that is left to the sender is fine. */
  lemma OwnWriteOk(w: World, w': World, id: nat, h: Handler, d: Delivery)
    requires RecordInv(w.record, w.log) && HandlerOk(w, id, h) && h.stage.Sending?
    requires w'.decisionId == w.decisionId && w'.log == w.log + [Sent(id, h.stage.seen.version, d)]
    ensures var next := DeliveredRecord(w.decisionId, h.stage.seen, h.stage.planned, h.req, d);
      HandlerOk(w', id, h.(stage := Writing(next, h.stage.seen.version)))
  {
    var e := Sent(id, h.stage.seen.version, d);
    SentStageOk(w, id, h, d);
    StoredStays(w.log, Some(h.stage.seen), e);
    assert VersionOf(Some(h.stage.seen)) == h.stage.seen.version && e in w'.log;
  }

  /** Under the lock, the record that was read is the record that is there. */
  lemma LockMeansCurrent(w: World, id: nat, h: Handler)
    requires RecordInv(w.record, w.log) && HandlerOk(w, id, h)
    requires h.stage.Writing? && LockHolds(w.record, h.stage.expected)
    ensures Extends(h.stage.next, w.record)
    ensures h.stage.next.version == h.stage.expected + 1
  {
    var seen :| WasStored(w.log, seen) && VersionOf(seen) == h.stage.expected && Extends(h.stage.next, seen);
    if seen.Some? {
      StoredPrecedes(w.record, w.log, seen.value);
    }
  }

  lemma PrecedesNext(r: PublishRecord, current: Option<PublishRecord>, next: PublishRecord)
    requires Precedes(r, current) && Extends(next, current) && SoundOrAbsent(current)
    ensures Precedes(r, Some(next))
  {
    assert next.trail[..|next.trail| - 1] == current.value.trail;
  }

  lemma WriteRecorded(record: Option<PublishRecord>, log: seq<Event>, next: PublishRecord, author: nat)
    requires RecordInv(record, log) && Extends(next, record) && Justified(log, Wrote(next, author))
    ensures RecordInv(Some(next), log + [Wrote(next, author)])
  {
    var e := Wrote(next, author);
    HistoryGrows(log, e);
    assert (log + [e])[..|log|] == log;
    forall p | p in log + [e] && p.Wrote? ensures Precedes(p.record, Some(next)) {
      if p in log {
        PrecedesNext(p.record, record, next);
      }
    }
  }

  lemma ClaimsOutlast(record: Option<PublishRecord>, claims: map<nat, nat>, log: seq<Event>, next: PublishRecord,
    author: nat)
    requires ClaimInv(record, claims, log) && VersionOf(record) <= next.version
    ensures ClaimInv(Some(next), claims, log + [Wrote(next, author)])
  {
  }

  lemma InvWrite(w: World, s: Step)
    requires Inv(w) && s.WriteRecord? && Enabled(w, s)
    ensures Inv(Next(w, s))
  {
    var w' := Next(w, s);
    var h := w.handlers[s.id];
    if IsLegalTransition(LastStep(h.stage.next), h.stage.next.state) && LockHolds(w.record, h.stage.expected) {
      LockMeansCurrent(w, s.id, h);
      WriteRecorded(w.record, w.log, h.stage.next, s.id);
      ClaimsOutlast(w.record, w.claims, w.log, h.stage.next, s.id);
      forall k | k in w'.handlers && k != s.id ensures HandlerOk(w', k, w'.handlers[k]) {
        HandlerStaysOk(w, w', k, w.handlers[k], Wrote(h.stage.next, s.id));
      }
    } else {
      OneHandlerMoves(w, w', s.id);
    }
  }

  lemma InvNext(w: World, s: Step)
    requires Inv(w)
    ensures Inv(Next(w, s))
  {
    if Enabled(w, s) {
      match s
      case Arrive(_, _) => InvArrive(w, s);
      case Read(_, _) => InvRead(w, s);
      case TakeClaim(_, _) => InvTakeClaim(w, s);
      case Send(_, _) => InvSend(w, s);
      case WriteRecord(_) => InvWrite(w, s);
    }
  }
}
