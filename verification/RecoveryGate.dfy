/** The recovery judgement that strongly consistent reads lead to. */
module RecoveryJudgement {
  import opened Options
  import opened LeaseRecord

  datatype GateResult = GateResult(
    recordExists: bool,
    coreExists: bool,
    coreCommitted: bool,
    effectiveCoreCommitted: bool,
    recommendedMode: RecoveryMode,
    expectedArn: Option<string>,
    expectedAttempt: Option<int>,
    observedDeadline: Option<int>)

  /** Without a decision id nothing can be judged. */
  const UNRESOLVABLE: GateResult := GateResult(false, false, false, false, FullWorkflow, None, None, None)

  /** The decision id asked for, or else the row's. */
  function ResolveDecisionId(row: Option<Row>, requested: Option<string>): string {
    if requested.Some? then requested.value else if row.Some? then row.value.decisionId else ""
  }

  /** The judgement from the row read first and the core read after it. */
  function Judge(row: Option<Row>, requested: Option<string>, coreExists: bool): GateResult {
    var flag := row.Some? && row.value.coreCommitted;
    if ResolveDecisionId(row, requested) == "" then UNRESOLVABLE
    else
      GateResult(
        row.Some?, coreExists, flag, flag || coreExists,
        if flag || coreExists then EnrichmentOnly else FullWorkflow,
        if row.Some? then row.value.executionArn else None,
        if row.Some? then Some(row.value.attemptCount) else None,
        if row.Some? then row.value.runningDeadlineAt else None)
  }
}

/** The recovery gate: it reads and judges. */
module RecoveryGate {
  import opened Options
  import opened Faults
  import opened LeaseRecord
  import opened Expressions
  import opened IdempotencyRepository
  import opened RecoveryJudgement
  import opened DecisionCoreRepository
  import Json

  // ----- Narratives ---------------------------------------------------------

  /** The type of a narrative item; a table may hold types nothing requires. */
  datatype NarrativeType = ReportText | PublicAlertText | ExplanationText | OtherText(name: string)

  const REQUIRED_NARRATIVES: seq<NarrativeType> := [ReportText, PublicAlertText, ExplanationText]

  /** What the narrative table answers for a decision: the items' types, or None when the query fails. */
  type NarrativeQuery = string -> Option<seq<NarrativeType>>

  /** The required types that are, or are not, among those present. */
  function Required(types: seq<NarrativeType>, present: set<NarrativeType>, wanted: bool): seq<NarrativeType> {
    if types == [] then []
    else (if (types[0] in present) == wanted then [types[0]] else []) + Required(types[1..], present, wanted)
  }

  function Rank(t: NarrativeType): nat {
    match t
    case ReportText => 0
    case PublicAlertText => 1
    case ExplanationText => 2
    case OtherText(_) => 3
  }

  predicate InOrder(types: seq<NarrativeType>) {
    forall i, j :: 0 <= i < j < |types| ==> Rank(types[i]) < Rank(types[j])
  }

  lemma {:induction false} RequiredSplits(types: seq<NarrativeType>, present: set<NarrativeType>)
    requires InOrder(types)
    ensures var existing, missing := Required(types, present, true), Required(types, present, false);
      && (forall t :: t in existing <==> t in types && t in present)
      && (forall t :: t in missing <==> t in types && t !in present)
      && |existing| + |missing| == |types| && InOrder(existing) && InOrder(missing)
  {
    if types != [] {
      RequiredSplits(types[1..], present);
      HeadComesFirst(types, Required(types[1..], present, true));
      HeadComesFirst(types, Required(types[1..], present, false));
    }
  }

  lemma HeadComesFirst(types: seq<NarrativeType>, some: seq<NarrativeType>)
    requires types != [] && InOrder(types) && InOrder(some) && forall t :: t in some ==> t in types[1..]
    ensures InOrder([types[0]] + some)
  {
    forall k | 0 <= k < |some| ensures Rank(types[0]) < Rank(some[k]) {
      assert some[k] in types[1..];
    }
  }

  /** The gate's whole answer: the judgement, the decision it is for, and the narratives there are and lack. */
  datatype GateReport = GateReport(
    judgement: GateResult, decisionId: string, existing: seq<NarrativeType>, missing: seq<NarrativeType>)

  /** What is present, as a set: items come in any order and may repeat a type. */
  function PresentTypes(items: seq<NarrativeType>): set<NarrativeType> {
    set t | t in items
  }

  /** The required narratives are split exactly into existing and missing, each in the required order. */
  ghost predicate SplitsNarratives(
    items: seq<NarrativeType>, existing: seq<NarrativeType>, missing: seq<NarrativeType>)
  {
    && (forall t :: t in existing <==> t in REQUIRED_NARRATIVES && t in items)
    && (forall t :: t in missing <==> t in REQUIRED_NARRATIVES && t !in items)
    && |existing| + |missing| == 3
    && InOrder(existing) && InOrder(missing)
  }

  /** The gate reads and never writes; a failed read is an error, not a judgement. */
  method EvaluateRecoveryGate(
    repository: Repository, cores: CoreRepository, narratives: NarrativeQuery, key: string,
    requested: Option<string>)
    returns (r: Result<GateReport, StoreError>)
    requires repository.Valid() && cores.Valid()
    modifies repository`faults, cores`faults
    ensures repository.Valid() && cores.Valid()
    ensures key == "" ==> r == Err(Usage(EmptyKey)) && repository.faults == old(repository.faults)
    ensures r.Ok? ==>
      var row := repository.RowOf(key); var id := ResolveDecisionId(row, requested);
      && r.value.judgement == Judge(row, requested, cores.CoreOf(Json.Utf16(id)).Some?) && r.value.decisionId == id
      && (id == "" ==> r.value.existing == [] && r.value.missing == [])
      && (id != "" ==> narratives(id).Some?
                       && SplitsNarratives(narratives(id).value, r.value.existing, r.value.missing))
    ensures r.Ok? && r.value.decisionId == "" ==>
      r.value.judgement == GateResult(false, false, false, false, FullWorkflow, None, None, None)
    ensures r.Ok? && r.value.decisionId != "" ==>
      var g := r.value.judgement; var row := repository.RowOf(key);
      && r.value.decisionId == (if requested.Some? then requested.value else row.value.decisionId)
      && (g.recordExists <==> key in repository.rows)
      && (g.coreExists <==> Json.Utf16(r.value.decisionId) in cores.cores)
      && (g.coreCommitted <==> row.Some? && row.value.coreCommitted)
      && (g.effectiveCoreCommitted <==> g.coreExists || g.coreCommitted)
      && g.recommendedMode == (if g.effectiveCoreCommitted then EnrichmentOnly else FullWorkflow)
      && (row.Some? ==> g.expectedArn == row.value.executionArn && g.expectedAttempt == Some(row.value.attemptCount)
                        && g.observedDeadline == row.value.runningDeadlineAt)
      && (row.None? ==> g.expectedArn == None && g.expectedAttempt == None && g.observedDeadline == None)
    ensures old(repository.faults) == [] ==> repository.faults == []
    ensures old(cores.faults) == [] ==> cores.faults == []
    ensures key != "" && old(repository.faults) == [] && old(cores.faults) == [] ==>
      var id := ResolveDecisionId(old(repository.RowOf(key)), requested);
      id == "" || narratives(id).Some? ==> r.Ok?
    ensures key != "" && r.Err? ==> r.error == ServiceFault
  {
    var row := repository.GetConsistent(key);
    if row.Err? {
      return Err(row.error);
    }
    var id := ResolveDecisionId(row.value, requested);
    if id == "" {
      return Ok(GateReport(UNRESOLVABLE, "", [], []));
    }
    IdIsNotEmpty(id);
    var core := cores.GetConsistent(Json.Utf16(id));
    if core.Err? || narratives(id).None? {
      return Err(ServiceFault);
    }
    var present := PresentTypes(narratives(id).value);
    RequiredSplits(REQUIRED_NARRATIVES, present);
    r := Ok(GateReport(
      Judge(row.value, requested, core.value.Some?), id,
      Required(REQUIRED_NARRATIVES, present, true), Required(REQUIRED_NARRATIVES, present, false)));
  }

  lemma IdIsNotEmpty(id: string)
    requires id != ""
    ensures Json.Utf16(id) != []
  {
  }
}
