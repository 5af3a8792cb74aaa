/** Announcing a committed decision: the gate, the event and its delivery. */
module FastPath {
  import opened Options
  import opened Json
  import opened Canonical
  import opened DecisionCore
  import opened Verdicts

  const SEPARATOR: CodeUnit := 0x7C
  const FAST_PATH_READY: Text := Ascii("decision.fast_path_ready")

  /** How an integer is printed: no separator in it. */
  predicate IsPrinted(t: Text) {
    SEPARATOR !in t
  }

  function ReadyEventId(decisionId: Text, show: int -> Text, version: int): Text {
    decisionId + [SEPARATOR] + FAST_PATH_READY + [SEPARATOR] + show(version)
  }

  lemma LongerTailClashes(a: Text, s: Text, b: Text, t: Text)
    requires IsPrinted(t) && |s| < |t|
    ensures a + [SEPARATOR] + s != b + [SEPARATOR] + t
  {
    SeparatorAt(a, s);
    if |a + [SEPARATOR] + s| == |b + [SEPARATOR] + t| {
      NoSeparatorAfter(b, t, |a|);
    }
  }

  /** Texts without a separator after the last one are told apart, and so is what stands before. */
  lemma LastSeparator(a: Text, s: Text, b: Text, t: Text)
    requires IsPrinted(s) && IsPrinted(t) && a + [SEPARATOR] + s == b + [SEPARATOR] + t
    ensures a == b && s == t
  {
    var x, y := a + [SEPARATOR] + s, b + [SEPARATOR] + t;
    if |s| < |t| {
      LongerTailClashes(a, s, b, t);
    } else if |t| < |s| {
      LongerTailClashes(b, t, a, s);
    }
    assert a == x[..|a|] && b == y[..|b|];
    assert s == x[|a| + 1..] && t == y[|b| + 1..];
  }

  lemma SeparatorAt(a: Text, s: Text)
    ensures (a + [SEPARATOR] + s)[|a|] == SEPARATOR
  {
  }

  lemma NoSeparatorAfter(b: Text, t: Text, k: nat)
    requires IsPrinted(t) && |b| < k < |b| + 1 + |t|
    ensures (b + [SEPARATOR] + t)[k] != SEPARATOR
  {
    assert (b + [SEPARATOR] + t)[k] == t[k - |b| - 1];
  }

  lemma SameEnd(a: Text, b: Text, s: Text)
    requires a + s == b + s
    ensures a == b
  {
    assert a == (a + s)[..|a|] && b == (b + s)[..|b|];
  }

  /** Different numbers are printed differently. */
  ghost predicate TellsApart(show: int -> Text) {
    forall m, n :: show(m) == show(n) ==> m == n
  }

  /** The event id, by which receivers drop duplicates, names one decision and one version. */
  lemma ReadyEventIdsAgreeIff(d: Text, v: int, e: Text, w: int, show: int -> Text)
    requires IsPrinted(show(v)) && IsPrinted(show(w))
    ensures ReadyEventId(d, show, v) == ReadyEventId(e, show, w) <==> d == e && show(v) == show(w)
    ensures TellsApart(show) ==> (ReadyEventId(d, show, v) == ReadyEventId(e, show, w) <==> d == e && v == w)
  {
    if ReadyEventId(d, show, v) == ReadyEventId(e, show, w) {
      LastSeparator(d + [SEPARATOR] + FAST_PATH_READY, show(v), e + [SEPARATOR] + FAST_PATH_READY, show(w));
      assert d + ([SEPARATOR] + FAST_PATH_READY) == d + [SEPARATOR] + FAST_PATH_READY;
      assert e + ([SEPARATOR] + FAST_PATH_READY) == e + [SEPARATOR] + FAST_PATH_READY;
      SameEnd(d, e, [SEPARATOR] + FAST_PATH_READY);
    }
  }

  datatype FastPathEvent = FastPathEvent(
    readyEventId: Text, decisionId: Text, traceId: Text, coreVersion: int, sourceManifestHash: Text,
    policyVersion: Option<Text>, provisional: Js, occurredAt: Js, triggeredArticles: Js, appliedFormulaArticles: Js,
    primaryEvacuation: Js, secondaryEvacuation: Js, eteMinutes: Js, multilingualRequired: Js, cmsCoreText: Js)

  const ETE_MINUTES: Text := Ascii("ete_minutes")

  /** The value of a key, undefined when there is none. */
  function Lookup(fields: seq<Field>, key: Text): Js {
    if fields == [] then Undefined else if fields[0].key == key then fields[0].value else Lookup(fields[1..], key)
  }

  /** The estimate's minutes; null without an estimate or without minutes. */
  function EteMinutes(ete: Js): Js {
    var minutes := if ete.Obj? then Lookup(ete.fields, ETE_MINUTES) else Undefined;
    if minutes.Undefined? then Null else minutes
  }

  lemma {:induction false} LookupFinds(fields: seq<Field>, key: Text, v: Js)
    requires DistinctKeys(fields)
    ensures Field(key, v) in fields ==> Lookup(fields, key) == v
    ensures (forall f :: f in fields ==> f.key != key) ==> Lookup(fields, key) == Undefined
  {
    if fields != [] {
      LookupFinds(fields[1..], key, v);
    }
  }

  /** An estimate shows its minutes; without one, or when they are undefined, the event shows null. */
  lemma EteMinutesShown(ete: Js, v: Js)
    requires ete.Obj? ==> DistinctKeys(ete.fields)
    ensures ete.Obj? && Field(ETE_MINUTES, v) in ete.fields ==> EteMinutes(ete) == if v.Undefined? then Null else v
    ensures !ete.Obj? || (forall f :: f in ete.fields ==> f.key != ETE_MINUTES) ==> EteMinutes(ete) == Null
  {
    if ete.Obj? {
      LookupFinds(ete.fields, ETE_MINUTES, v);
    }
  }

  function BuildFastPathReadyEvent(core: Core, traceId: Text, policyVersion: Option<Text>, show: int -> Text)
    : FastPathEvent
  {
    var c := core.input;
    FastPathEvent(
      ReadyEventId(c.decisionId, show, c.version), c.decisionId, traceId, c.version,
      c.sourceManifestHash, policyVersion, c.facts.provisional, c.facts.occurredAt,
      c.facts.triggeredArticles, c.facts.appliedFormulaArticles,
      c.facts.primaryEvacuation, c.facts.secondaryEvacuation, EteMinutes(c.facts.ete),
      c.facts.multilingualRequired, c.facts.cmsCoreText)
  }

  /** The event shows the core as it was committed: every field is that of the core, or of the request's trace. */
  lemma ReadyEventShowsCore(core: Core, traceId: Text, policyVersion: Option<Text>, show: int -> Text)
    ensures var e := BuildFastPathReadyEvent(core, traceId, policyVersion, show); var c := core.input;
      && e.readyEventId == c.decisionId + Ascii("|") + Ascii("decision.fast_path_ready") + Ascii("|") + show(c.version)
      && e.decisionId == c.decisionId && e.traceId == traceId && e.coreVersion == c.version
      && e.sourceManifestHash == c.sourceManifestHash && e.policyVersion == policyVersion
      && e.provisional == c.facts.provisional && e.occurredAt == c.facts.occurredAt
      && e.triggeredArticles == c.facts.triggeredArticles
      && e.appliedFormulaArticles == c.facts.appliedFormulaArticles
      && e.primaryEvacuation == c.facts.primaryEvacuation && e.secondaryEvacuation == c.facts.secondaryEvacuation
      && e.multilingualRequired == c.facts.multilingualRequired && e.cmsCoreText == c.facts.cmsCoreText
      && e.eteMinutes == EteMinutes(c.facts.ete)
  {
    assert Ascii("|") == [SEPARATOR];
  }

  datatype Post = Delivered | Gone | Failed

  /** The connections that gave one of these answers, in order. */
  function Those(connections: seq<string>, answer: string -> Post, posts: set<Post>): seq<string> {
    if connections == [] then []
    else
      var c := connections[|connections| - 1];
      Those(connections[..|connections| - 1], answer, posts) + if answer(c) in posts then [c] else []
  }

  lemma ThoseAppend(connections: seq<string>, c: string, answer: string -> Post, posts: set<Post>)
    ensures Those(connections + [c], answer, posts)
      == Those(connections, answer, posts) + if answer(c) in posts then [c] else []
  {
    assert (connections + [c])[..|connections|] == connections;
  }

  lemma {:induction false} ThoseMembers(connections: seq<string>, answer: string -> Post, posts: set<Post>)
    ensures forall c :: c in Those(connections, answer, posts) <==> c in connections && answer(c) in posts
  {
    if connections != [] {
      var front, last := connections[..|connections| - 1], connections[|connections| - 1];
      ThoseMembers(front, answer, posts);
      assert forall c :: c in connections <==> c in front || c == last;
    }
  }

  datatype PublishResult =
    PublishResult(event: FastPathEvent, delivered: nat, stale: seq<string>, failures: seq<string>)

  datatype AnnounceError = GateNotSatisfied(verdict: Verdict) | ListingFailed(reason: string)

  class Publisher {
    /** Every attempt to post, in order. */
    var posted: seq<(string, FastPathEvent)>

    constructor ()
      ensures posted == []
    {
      posted := [];
    }

    /** Every connection is tried once, whatever the others did. */
    method PostToAll(event: FastPathEvent, connections: seq<string>, answer: string -> Post)
      returns (delivered: nat, stale: seq<string>, failures: seq<string>)
      modifies this
      ensures posted
        == old(posted) + seq(|connections|, i requires 0 <= i < |connections| => (connections[i], event))
      ensures delivered == |Those(connections, answer, {Delivered})|
      ensures failures == Those(connections, answer, {Gone, Failed})
      ensures stale == Those(connections, answer, {Gone})
      ensures delivered + |failures| == |connections|
    {
      delivered, stale, failures := 0, [], [];
      for i := 0 to |connections|
        invariant posted == old(posted) + seq(i, j requires 0 <= j < i => (connections[j], event))
        invariant delivered == |Those(connections[..i], answer, {Delivered})| && delivered + |failures| == i
        invariant failures == Those(connections[..i], answer, {Gone, Failed})
        invariant stale == Those(connections[..i], answer, {Gone})
      {
        var c := connections[i];
        posted := posted + [(c, event)];
        match answer(c) {
          case Delivered => delivered := delivered + 1;
          case Gone => stale, failures := stale + [c], failures + [c];
          case Failed => failures := failures + [c];
        }
        assert connections[..i + 1] == connections[..i] + [c];
        ThoseAppend(connections[..i], c, answer, {Delivered});
        ThoseAppend(connections[..i], c, answer, {Gone, Failed});
        ThoseAppend(connections[..i], c, answer, {Gone});
      }
      assert connections[..|connections|] == connections;
    }

    /**
     A fenced execution announces nothing, and nothing is posted when the connections cannot
     be listed. Otherwise every connection is tried exactly once with the same event, and a
     connection that fails stops no other.
     */
    method PublishFastPathReady(
      gate: Verdict, core: Core, traceId: Text, policyVersion: Option<Text>, show: int -> Text,
      listed: Result<seq<string>, string>, answer: string -> Post)
      returns (r: Result<PublishResult, AnnounceError>)
      modifies this
      ensures !MayProceed(gate) ==> r == Err(GateNotSatisfied(gate)) && posted == old(posted)
      ensures MayProceed(gate) && listed.Err? ==> r == Err(ListingFailed(listed.error)) && posted == old(posted)
      ensures MayProceed(gate) && listed.Ok? ==>
        var event := BuildFastPathReadyEvent(core, traceId, policyVersion, show); var connections := listed.value;
        && r.Ok? && r.value.event == event
        && posted == old(posted) + seq(|connections|, i requires 0 <= i < |connections| => (connections[i], event))
        && r.value.delivered == |Those(connections, answer, {Delivered})|
        && r.value.failures == Those(connections, answer, {Gone, Failed})
        && r.value.stale == Those(connections, answer, {Gone})
        && r.value.delivered + |r.value.failures| == |connections|
        && (forall c :: c in r.value.failures <==> c in connections && !answer(c).Delivered?)
        && (forall c :: c in r.value.stale <==> c in connections && answer(c).Gone?)
    {
      if !MayProceed(gate) {
        return Err(GateNotSatisfied(gate));
      }
      if listed.Err? {
        return Err(ListingFailed(listed.error));
      }
      var event := BuildFastPathReadyEvent(core, traceId, policyVersion, show);
      var delivered, stale, failures := PostToAll(event, listed.value, answer);
      ThoseMembers(listed.value, answer, {Gone, Failed});
      ThoseMembers(listed.value, answer, {Gone});
      r := Ok(PublishResult(event, delivered, stale, failures));
    }
  }
}
