/** Every stored record is what its author's request and its author's dispatch say. */
module PublishAuthors {
  import opened Options
  import opened PublishRecords
  import opened PublishHandler
  import opened PublishProtocol
  import opened PublishTheorems
  import opened PublishAnswers

  /** The author's dispatch of the version before was refused, for this reason. */
  ghost predicate RefusedFor(log: seq<Event>, author: nat, version: nat, reason: Option<string>) {
    exists e :: e in log && e.Sent? && e.author == author && e.version == version
      && (e.delivery.cms.Refused? || e.delivery.sms.Refused?) && e.delivery.Failure() == reason
  }

  /**
   The record shows the request's actor and time, and the state the request wants; or it
   shows that publication, which the request wanted, was refused by a channel.
   */
  ghost predicate MadeBy(decisionId: string, log: seq<Event>, author: nat, req: PublishRequest, r: PublishRecord) {
    && r.decisionId == decisionId && r.updatedAt == req.now && r.trail != []
    && (var e := r.trail[|r.trail| - 1];
        && e.actor == req.actor && e.at == req.now && e.to == r.state
        && (|| (Wants(e.from, req, r.state) && r.failureReason == if r.state == PublishFailed then req.reason else None)
            || (Wants(e.from, req, Published) && r.state == PublishFailed && r.version >= 1
                && RefusedFor(log, author, r.version - 1, r.failureReason))))
  }

  ghost predicate StageMade(w: World, id: nat) {
    id in w.handlers
    && (w.handlers[id].stage.Writing? ==>
          MadeBy(w.decisionId, w.log, id, w.handlers[id].req, w.handlers[id].stage.next))
  }

  ghost predicate EventMade(w: World, e: Event) {
    e.Wrote? ==> e.author in w.handlers && MadeBy(w.decisionId, w.log, e.author, w.handlers[e.author].req, e.record)
  }

  ghost predicate AuthorInv(w: World) {
    (forall id :: id in w.handlers ==> StageMade(w, id)) && (forall e :: e in w.log ==> EventMade(w, e))
  }

  lemma MadeStays(decisionId: string, log: seq<Event>, author: nat, req: PublishRequest, r: PublishRecord, e: Event)
    requires MadeBy(decisionId, log, author, req, r)
    ensures MadeBy(decisionId, log + [e], author, req, r)
  {
    if r.version >= 1 && RefusedFor(log, author, r.version - 1, r.failureReason) {
      var p :| p in log && p.Sent? && p.author == author && p.version == r.version - 1
        && (p.delivery.cms.Refused? || p.delivery.sms.Refused?) && p.delivery.Failure() == r.failureReason;
      assert p in log + [e];
    }
  }

  /** Requests never change, and history only grows. */
  ghost predicate Continues(w: World, w': World) {
    && w'.decisionId == w.decisionId
    && (w'.log == w.log || exists e :: w'.log == w.log + [e])
    && (forall id :: id in w.handlers ==> id in w'.handlers && w'.handlers[id].req == w.handlers[id].req)
  }

  lemma MadeContinues(w: World, w': World, author: nat, req: PublishRequest, r: PublishRecord)
    requires Continues(w, w') && MadeBy(w.decisionId, w.log, author, req, r)
    ensures MadeBy(w'.decisionId, w'.log, author, req, r)
  {
    if w'.log != w.log {
      var e :| w'.log == w.log + [e];
      MadeStays(w.decisionId, w.log, author, req, r, e);
    }
  }

  lemma EventsStayMade(w: World, w': World)
    requires AuthorInv(w) && Continues(w, w')
    ensures forall e :: e in w.log ==> EventMade(w', e)
  {
    forall e | e in w.log && e.Wrote? ensures EventMade(w', e) {
      assert EventMade(w, e);
      MadeContinues(w, w', e.author, w.handlers[e.author].req, e.record);
    }
  }

  /** Only the handler that moves can have something new to write. */
  lemma OthersStayMade(w: World, w': World, id: nat)
    requires AuthorInv(w) && Continues(w, w')
    requires forall k :: k in w'.handlers && k != id ==> k in w.handlers && w'.handlers[k] == w.handlers[k]
    ensures forall k :: k in w'.handlers && k != id ==> StageMade(w', k)
  {
    forall k | k in w'.handlers && k != id ensures StageMade(w', k) {
      assert StageMade(w, k);
      if w.handlers[k].stage.Writing? {
        MadeContinues(w, w', k, w.handlers[k].req, w.handlers[k].stage.next);
      }
    }
  }

  lemma PlannedIsMade(decisionId: string, log: seq<Event>, id: nat, seen: Option<PublishRecord>, req: PublishRequest)
    requires PlanRequest(decisionId, seen, req).Write?
    ensures MadeBy(decisionId, log, id, req, PlanRequest(decisionId, seen, req).record)
  {
    PlanIff(decisionId, seen, req);
    WrittenShown(decisionId, seen, req);
  }

  lemma DeliveredIsMade(w: World, id: nat, h: Handler, d: Delivery)
    requires HandlerOk(w, id, h) && h.stage.Sending?
    ensures var seen := h.stage.seen;
      MadeBy(w.decisionId, w.log + [Sent(id, seen.version, d)], id, h.req,
             DeliveredRecord(w.decisionId, seen, h.stage.planned, h.req, d))
  {
    var seen := h.stage.seen;
    var e := Sent(id, seen.version, d);
    PlanIff(w.decisionId, Some(seen), h.req);
    DeliveredShown(w.decisionId, seen, h.stage.planned, h.req, d);
    DispatchFailsIffRefused(d);
    assert e in w.log + [e];
  }

  lemma StepContinues(w: World, s: Step)
    requires Enabled(w, s)
    ensures var w' := Next(w, s);
      && Continues(w, w')
      && forall k :: k in w'.handlers && k != s.id ==> k in w.handlers && w'.handlers[k] == w.handlers[k]
  {
  }

  /** The handler that moves has something new to write only after its read or its dispatch. */
  lemma MoverStaysMade(w: World, s: Step)
    requires HandlersOk(w) && AuthorInv(w) && Enabled(w, s)
    ensures StageMade(Next(w, s), s.id)
  {
    match s
    case Arrive(_, _) =>
    case Read(id, seen) =>
      if PlanRequest(w.decisionId, seen, w.handlers[id].req).Write? {
        PlannedIsMade(w.decisionId, w.log, id, seen, w.handlers[id].req);
      }
    case TakeClaim(_, _) =>
    case Send(id, d) =>
      assert HandlerOk(w, id, w.handlers[id]);
      DeliveredIsMade(w, id, w.handlers[id], d);
    case WriteRecord(_) =>
  }

  /** What a handler writes was made for its request. */
  lemma WrittenIsMade(w: World, s: Step)
    requires AuthorInv(w) && s.WriteRecord? && Enabled(w, s) && Continues(w, Next(w, s))
    ensures EventMade(Next(w, s), Wrote(w.handlers[s.id].stage.next, s.id))
  {
    assert StageMade(w, s.id);
    MadeContinues(w, Next(w, s), s.id, w.handlers[s.id].req, w.handlers[s.id].stage.next);
  }

  lemma AuthorInvNext(w: World, s: Step)
    requires Inv(w) && AuthorInv(w)
    ensures AuthorInv(Next(w, s))
  {
    if Enabled(w, s) {
      var w' := Next(w, s);
      StepContinues(w, s);
      EventsStayMade(w, w');
      OthersStayMade(w, w', s.id);
      MoverStaysMade(w, s);
      if s.WriteRecord? {
        WrittenIsMade(w, s);
      }
      NewEventsMade(w, s);
    }
  }

  lemma NewEventsMade(w: World, s: Step)
    requires Enabled(w, s) && forall e :: e in w.log ==> EventMade(Next(w, s), e)
    requires s.WriteRecord? ==> EventMade(Next(w, s), Wrote(w.handlers[s.id].stage.next, s.id))
    ensures forall e :: e in Next(w, s).log ==> EventMade(Next(w, s), e)
  {
  }

  lemma {:induction false} AuthorInvRun(decisionId: string, steps: seq<Step>)
    ensures AuthorInv(Run(Init(decisionId), steps))
    decreases |steps|
  {
    if steps != [] {
      var front := steps[..|steps| - 1];
      AuthorInvRun(decisionId, front);
      InvInit(decisionId);
      InvRun(Init(decisionId), front);
      AuthorInvNext(Run(Init(decisionId), front), steps[|steps| - 1]);
    }
  }

  /**
   In every run a stored record shows what its author asked for, in the author's name and at
   the author's time. It has a failure reason exactly when it is failed: the one the request
   gave, or the refusals of the channels that the author itself used.
   */
  lemma StoredRecordsFollowRequests(w: World, k: nat)
    requires Reachable(w) && k < |w.log| && w.log[k].Wrote?
    ensures var r := w.log[k].record; var author := w.log[k].author;
      && author in w.handlers && MadeBy(w.decisionId, w.log, author, w.handlers[author].req, r)
      && (r.failureReason.Some? <==> r.state == PublishFailed)
  {
    ReachableInv(w);
    var decisionId, steps :| w == Run(Init(decisionId), steps);
    AuthorInvRun(decisionId, steps);
    assert EventMade(w, w.log[k]);
    assert w.log[k] in w.log;
  }
}
