/** The decision core: built once, stored at most once, and compared by five identity fields. */
module DecisionCore {
  import opened Options
  import opened Json
  import opened Canonical
  import opened CanonicalForm

  /** The deterministic facts of a decision; an optional fact may be undefined. */
  datatype Facts = Facts(
    eventId: Js,
    occurredAt: Js,
    eventFacts: Js,
    triggeredArticles: Js,
    appliedFormulaArticles: Js,
    invokedProcedures: Js,
    art1Measures: Js,
    classifications: Js,
    incidentAnchor: Js,
    primaryEvacuation: Js,
    secondaryEvacuation: Js,
    excludedCandidates: Js,
    affectedIntersectionScope: Js,
    ete: Js,
    multilingualRequired: Js,
    multilingualScope: Js,
    evidence: Js,
    policy: Js,
    cmsCoreText: Js,
    provisional: Js)

  /** What identifies a decision, what only describes one execution, and the facts. */
  datatype CoreInput = CoreInput(
    decisionId: Text,
    idempotencyKey: Text,
    sourceManifestHash: Text,
    schemaVersion: Text,
    injectionRunId: Text,
    workflowExecutionName: Option<Text>,
    version: int,
    facts: Facts)

  datatype Core = Core(input: CoreInput, coreHash: Text)

  // ----- Canonical payload --------------------------------------------------

  const PAYLOAD_NAMES: seq<string> := [
    "decision_id", "idempotency_key", "source_manifest_hash", "schema_version",
    "event_id", "occurred_at", "event_facts", "triggered_articles",
    "applied_formula_articles", "invoked_procedures", "art1_measures", "classifications",
    "incident_anchor", "primary_evacuation", "secondary_evacuation", "excluded_candidates",
    "affected_intersection_scope", "ete", "multilingual_required", "multilingual_scope",
    "evidence", "policy", "cms_core_text", "provisional"]

  function PayloadValues(c: CoreInput): (values: seq<Js>)
    ensures |values| == 24
  {
    [Str(c.decisionId), Str(c.idempotencyKey), Str(c.sourceManifestHash), Str(c.schemaVersion),
     c.facts.eventId, c.facts.occurredAt, c.facts.eventFacts, c.facts.triggeredArticles,
     c.facts.appliedFormulaArticles, c.facts.invokedProcedures, c.facts.art1Measures, c.facts.classifications,
     c.facts.incidentAnchor, c.facts.primaryEvacuation, c.facts.secondaryEvacuation, c.facts.excludedCandidates,
     c.facts.affectedIntersectionScope, c.facts.ete, c.facts.multilingualRequired, c.facts.multilingualScope,
     c.facts.evidence, c.facts.policy, c.facts.cmsCoreText, c.facts.provisional]
  }

  function PayloadKey(i: nat): Text
    requires i < 24
  {
    Ascii(PAYLOAD_NAMES[i])
  }

  function PayloadFields(c: CoreInput): seq<Field> {
    seq(24, i requires 0 <= i < 24 => Field(PayloadKey(i), PayloadValues(c)[i]))
  }

  function Payload(c: CoreInput): Js {
    Obj(PayloadFields(c))
  }

  /** Names that differ in length, or in their first or third letter. */
  predicate Apart(s: string, t: string) {
    |s| >= 3 && |t| >= 3 && (|s| != |t| || s[0] != t[0] || s[2] != t[2])
  }

  lemma NamesApart(i: nat, j: nat)
    requires i < j < 24
    ensures Apart(PAYLOAD_NAMES[i], PAYLOAD_NAMES[j])
  {
  }

  lemma NamesAreAscii(i: nat)
    requires i < 24
    ensures |PAYLOAD_NAMES[i]| >= 3 && PAYLOAD_NAMES[i][0] < 128 as char && PAYLOAD_NAMES[i][2] < 128 as char
  {
  }

  lemma AsciiKeepsApart(s: string, t: string)
    requires Apart(s, t) && s[0] < 128 as char && s[2] < 128 as char && t[0] < 128 as char && t[2] < 128 as char
    ensures Ascii(s) != Ascii(t)
  {
    if |s| == |t| {
      assert Ascii(s)[0] != Ascii(t)[0] || Ascii(s)[2] != Ascii(t)[2];
    }
  }

  lemma PayloadKeysDiffer(i: nat, j: nat)
    requires i < j < 24
    ensures PayloadKey(i) != PayloadKey(j)
  {
    NamesApart(i, j);
    NamesAreAscii(i);
    NamesAreAscii(j);
    AsciiKeepsApart(PAYLOAD_NAMES[i], PAYLOAD_NAMES[j]);
  }

  // ----- Fields that stand in the same order --------------------------------

  lemma {:induction false} MatchedKey(fs: seq<Field>, gs: seq<Field>, g: Field)
    requires SameFields(fs, gs) && g in gs
    ensures exists f :: f in fs && f.key == g.key
  {
    if fs != [] {
      var j :| 0 <= j < |gs| && gs[j].key == fs[0].key
        && Equivalent(fs[0].value, gs[j].value, IsSetLike(fs[0].key)) && SameFields(fs[1..], Without(gs, j));
      if g == gs[j] {
        assert fs[0] in fs;
      } else {
        assert g in Without(gs, j);
        MatchedKey(fs[1..], Without(gs, j), g);
      }
    }
  }

  lemma DefinedCons(fs: seq<Field>)
    requires fs != []
    ensures Defined(fs) == if fs[0].value.Undefined? then Defined(fs[1..]) else [fs[0]] + Defined(fs[1..])
  {
  }

  /** No defined field of the rest has the key of the head. */
  lemma HeadKeyIsGone(fs: seq<Field>, k: Text, x: Field)
    requires fs != [] && DistinctKeys(fs) && k == fs[0].key && x in Defined(fs[1..])
    ensures x.key != k
  {
    DefinedIsPart(fs[1..], x);
  }

  predicate Aligned(fs: seq<Field>, gs: seq<Field>) {
    |fs| == |gs| && forall i :: 0 <= i < |fs| ==> fs[i].key == gs[i].key
  }

  ghost predicate Pointwise(fs: seq<Field>, gs: seq<Field>)
    requires |fs| == |gs|
  {
    forall i :: 0 <= i < |fs| ==> Equivalent(fs[i].value, gs[i].value, IsSetLike(fs[i].key))
  }

  lemma PointwiseCons(fs: seq<Field>, gs: seq<Field>)
    requires |fs| == |gs| && fs != []
    ensures Pointwise(fs, gs) <==>
      Equivalent(fs[0].value, gs[0].value, IsSetLike(fs[0].key)) && Pointwise(fs[1..], gs[1..])
  {
    if Equivalent(fs[0].value, gs[0].value, IsSetLike(fs[0].key)) && Pointwise(fs[1..], gs[1..]) {
      forall i | 0 <= i < |fs| ensures Equivalent(fs[i].value, gs[i].value, IsSetLike(fs[i].key)) {
        if i > 0 {
          assert fs[i] == fs[1..][i - 1] && gs[i] == gs[1..][i - 1];
        }
      }
    }
    if Pointwise(fs, gs) {
      forall i | 0 <= i < |fs[1..]| ensures Equivalent(fs[1..][i].value, gs[1..][i].value, IsSetLike(fs[1..][i].key)) {
        assert fs[i + 1] == fs[1..][i] && gs[i + 1] == gs[1..][i];
      }
    }
  }

  /** Both heads are defined: they can only match each other. */
  lemma HeadsMatch(fs: seq<Field>, gs: seq<Field>)
    requires fs != [] && Aligned(fs, gs) && DistinctKeys(gs)
    requires !fs[0].value.Undefined? && !gs[0].value.Undefined?
    ensures SameFields(Defined(fs), Defined(gs)) <==>
      Equivalent(fs[0].value, gs[0].value, IsSetLike(fs[0].key)) && SameFields(Defined(fs[1..]), Defined(gs[1..]))
  {
    var ds, es := Defined(fs), Defined(gs);
    DefinedCons(fs);
    DefinedCons(gs);
    assert ds[1..] == Defined(fs[1..]) && Without(es, 0) == Defined(gs[1..]);
    if SameFields(ds, es) {
      var j :| 0 <= j < |es| && es[j].key == ds[0].key
        && Equivalent(ds[0].value, es[j].value, IsSetLike(ds[0].key)) && SameFields(ds[1..], Without(es, j));
      if j > 0 {
        assert es[j] == Defined(gs[1..])[j - 1];
        HeadKeyIsGone(gs, gs[0].key, es[j]);
      }
    }
  }

  /** Exactly one of the heads is undefined: no match. */
  lemma HeadsDiffer(fs: seq<Field>, gs: seq<Field>)
    requires fs != [] && Aligned(fs, gs) && DistinctKeys(fs) && DistinctKeys(gs)
    requires fs[0].value.Undefined? != gs[0].value.Undefined?
    ensures !SameFields(Defined(fs), Defined(gs))
    ensures !Equivalent(fs[0].value, gs[0].value, IsSetLike(fs[0].key))
  {
    DefinedCons(fs);
    DefinedCons(gs);
    if SameFields(Defined(fs), Defined(gs)) {
      if gs[0].value.Undefined? {
        var j :| 0 <= j < |Defined(gs)| && Defined(gs)[j].key == fs[0].key;
        HeadKeyIsGone(gs, gs[0].key, Defined(gs)[j]);
      } else {
        assert gs[0] in Defined(gs);
        MatchedKey(Defined(fs), Defined(gs), gs[0]);
        var f :| f in Defined(fs) && f.key == gs[0].key;
        HeadKeyIsGone(fs, fs[0].key, f);
      }
    }
  }

  lemma {:induction false} AlignedFields(fs: seq<Field>, gs: seq<Field>)
    requires Aligned(fs, gs) && DistinctKeys(fs) && DistinctKeys(gs)
    ensures SameFields(Defined(fs), Defined(gs)) <==> Pointwise(fs, gs)
  {
    if fs != [] {
      PointwiseCons(fs, gs);
      AlignedFields(fs[1..], gs[1..]);
      if fs[0].value.Undefined? != gs[0].value.Undefined? {
        HeadsDiffer(fs, gs);
      } else if fs[0].value.Undefined? {
        DefinedCons(fs);
        DefinedCons(gs);
      } else {
        HeadsMatch(fs, gs);
      }
    }
  }

  // ----- Building -----------------------------------------------------------

  const SEVEN: Js := Num(Finite([0x37]))

  datatype BuildError = ArticleSevenTriggered | NotSerializable

  predicate TriggersSeven(f: Facts) {
    f.triggeredArticles.Arr? && SEVEN in f.triggeredArticles.items
  }

  /** Article 7 is never a triggered article; the hash covers the payload and nothing else. */
  function BuildDecisionCore(input: CoreInput, hash: Text -> Text): Result<Core, BuildError> {
    var text := Serialize(Payload(input), false);
    if TriggersSeven(input.facts) then Err(ArticleSevenTriggered)
    else if text.None? then Err(NotSerializable)
    else Ok(Core(input, hash(text.value)))
  }

  /** All facts are well-formed JavaScript values. */
  ghost predicate WellFormedFacts(c: CoreInput) {
    && WellFormed(c.facts.eventId)
    && WellFormed(c.facts.occurredAt)
    && WellFormed(c.facts.eventFacts)
    && WellFormed(c.facts.triggeredArticles)
    && WellFormed(c.facts.appliedFormulaArticles)
    && WellFormed(c.facts.invokedProcedures)
    && WellFormed(c.facts.art1Measures)
    && WellFormed(c.facts.classifications)
    && WellFormed(c.facts.incidentAnchor)
    && WellFormed(c.facts.primaryEvacuation)
    && WellFormed(c.facts.secondaryEvacuation)
    && WellFormed(c.facts.excludedCandidates)
    && WellFormed(c.facts.affectedIntersectionScope)
    && WellFormed(c.facts.ete)
    && WellFormed(c.facts.multilingualRequired)
    && WellFormed(c.facts.multilingualScope)
    && WellFormed(c.facts.evidence)
    && WellFormed(c.facts.policy)
    && WellFormed(c.facts.cmsCoreText)
    && WellFormed(c.facts.provisional)
  }

  /** The same decision: equal texts, and equal facts, five of which are sets of values in any order. */
  ghost predicate EquivalentPayloads(c: CoreInput, d: CoreInput) {
    && c.decisionId == d.decisionId
    && c.idempotencyKey == d.idempotencyKey
    && c.sourceManifestHash == d.sourceManifestHash
    && c.schemaVersion == d.schemaVersion
    && Equivalent(c.facts.eventId, d.facts.eventId, false)
    && Equivalent(c.facts.occurredAt, d.facts.occurredAt, false)
    && Equivalent(c.facts.eventFacts, d.facts.eventFacts, false)
    && Equivalent(c.facts.triggeredArticles, d.facts.triggeredArticles, true)
    && Equivalent(c.facts.appliedFormulaArticles, d.facts.appliedFormulaArticles, true)
    && Equivalent(c.facts.invokedProcedures, d.facts.invokedProcedures, true)
    && Equivalent(c.facts.art1Measures, d.facts.art1Measures, false)
    && Equivalent(c.facts.classifications, d.facts.classifications, true)
    && Equivalent(c.facts.incidentAnchor, d.facts.incidentAnchor, false)
    && Equivalent(c.facts.primaryEvacuation, d.facts.primaryEvacuation, false)
    && Equivalent(c.facts.secondaryEvacuation, d.facts.secondaryEvacuation, false)
    && Equivalent(c.facts.excludedCandidates, d.facts.excludedCandidates, true)
    && Equivalent(c.facts.affectedIntersectionScope, d.facts.affectedIntersectionScope, false)
    && Equivalent(c.facts.ete, d.facts.ete, false)
    && Equivalent(c.facts.multilingualRequired, d.facts.multilingualRequired, false)
    && Equivalent(c.facts.multilingualScope, d.facts.multilingualScope, false)
    && Equivalent(c.facts.evidence, d.facts.evidence, false)
    && Equivalent(c.facts.policy, d.facts.policy, false)
    && Equivalent(c.facts.cmsCoreText, d.facts.cmsCoreText, false)
    && Equivalent(c.facts.provisional, d.facts.provisional, false)
  }

  /** The same canonical fact under one payload key. */
  ghost predicate EquivalentAt(c: CoreInput, d: CoreInput, i: nat)
    requires i < 24
  {
    Equivalent(PayloadValues(c)[i], PayloadValues(d)[i], IsSetLike(PayloadKey(i)))
  }

  lemma OtherLength(i: nat)
    requires i < 24
    ensures |PAYLOAD_NAMES[i]| != |"languages"| && |PAYLOAD_NAMES[i]| != |"stations_in_scope"|
  {
  }

  lemma NotSetLikeKey(i: nat)
    requires i < 24 && i !in {7, 8, 9, 11, 15}
    ensures !IsSetLike(PayloadKey(i))
  {
    OtherLength(i);
    forall j | j in {7, 8, 9, 11, 15} ensures PayloadKey(i) != PayloadKey(j) {
      if i < j {
        PayloadKeysDiffer(i, j);
      } else {
        PayloadKeysDiffer(j, i);
      }
    }
    assert PayloadKey(i) != PayloadKey(7) && PayloadKey(i) != PayloadKey(8) && PayloadKey(i) != PayloadKey(9)
      && PayloadKey(i) != PayloadKey(11) && PayloadKey(i) != PayloadKey(15);
  }

  lemma SetLikeKey(i: nat)
    requires i < 24
    ensures IsSetLike(PayloadKey(i)) <==> i in {7, 8, 9, 11, 15}
  {
    if i !in {7, 8, 9, 11, 15} {
      NotSetLikeKey(i);
    }
  }

  /** The same facts, position by position. */
  ghost predicate SameValues(c: CoreInput, d: CoreInput) {
    var v, w := PayloadValues(c), PayloadValues(d);
    forall i :: 0 <= i < 24 ==> Equivalent(v[i], w[i], i in {7, 8, 9, 11, 15})
  }

  lemma NamesByValue(c: CoreInput, d: CoreInput)
    requires SameValues(c, d)
    ensures EquivalentPayloads(c, d)
  {
    var v, w := PayloadValues(c), PayloadValues(d);
    assert Equivalent(v[0], w[0], false) && Equivalent(v[1], w[1], false);
    assert Equivalent(v[2], w[2], false) && Equivalent(v[3], w[3], false);
    assert Equivalent(v[0], w[0], false) && Equivalent(v[1], w[1], false);
    assert Equivalent(v[2], w[2], false) && Equivalent(v[3], w[3], false);
    assert Equivalent(v[4], w[4], false) && Equivalent(v[5], w[5], false);
    assert Equivalent(v[6], w[6], false) && Equivalent(v[7], w[7], true);
    assert Equivalent(v[8], w[8], true) && Equivalent(v[9], w[9], true);
    assert Equivalent(v[10], w[10], false) && Equivalent(v[11], w[11], true);
    assert Equivalent(v[12], w[12], false) && Equivalent(v[13], w[13], false);
    assert Equivalent(v[14], w[14], false) && Equivalent(v[15], w[15], true);
    assert Equivalent(v[16], w[16], false) && Equivalent(v[17], w[17], false);
    assert Equivalent(v[18], w[18], false) && Equivalent(v[19], w[19], false);
    assert Equivalent(v[20], w[20], false) && Equivalent(v[21], w[21], false);
    assert Equivalent(v[22], w[22], false) && Equivalent(v[23], w[23], false);
  }

  lemma LowValueByName(c: CoreInput, d: CoreInput, i: nat)
    requires EquivalentPayloads(c, d) && i < 12
    ensures Equivalent(PayloadValues(c)[i], PayloadValues(d)[i], i in {7, 8, 9, 11})
  {
  }

  lemma HighValueByName(c: CoreInput, d: CoreInput, i: nat)
    requires EquivalentPayloads(c, d) && 12 <= i < 24
    ensures Equivalent(PayloadValues(c)[i], PayloadValues(d)[i], i == 15)
  {
  }

  lemma ValuesByName(c: CoreInput, d: CoreInput)
    requires EquivalentPayloads(c, d)
    ensures SameValues(c, d)
  {
    var v, w := PayloadValues(c), PayloadValues(d);
    forall i | 0 <= i < 24 ensures Equivalent(v[i], w[i], i in {7, 8, 9, 11, 15}) {
      if i < 12 {
        LowValueByName(c, d, i);
      } else {
        HighValueByName(c, d, i);
      }
    }
  }

  lemma EquivalentByKey(c: CoreInput, d: CoreInput)
    ensures EquivalentPayloads(c, d) <==> forall i :: 0 <= i < 24 ==> EquivalentAt(c, d, i)
  {
    if EquivalentPayloads(c, d) {
      ValuesByName(c, d);
    }
    forall i | 0 <= i < 24
      ensures EquivalentAt(c, d, i)
        <==> Equivalent(PayloadValues(c)[i], PayloadValues(d)[i], i in {7, 8, 9, 11, 15})
    {
      SetLikeKey(i);
    }
    if SameValues(c, d) {
      NamesByValue(c, d);
    }
  }

  lemma PayloadKeysDistinct(c: CoreInput)
    ensures DistinctKeys(PayloadFields(c))
  {
    var fs := PayloadFields(c);
    forall i, j | 0 <= i < j < |fs| ensures fs[i].key != fs[j].key {
      PayloadKeysDiffer(i, j);
    }
  }

  lemma ValuesWellFormed(c: CoreInput, i: nat)
    requires WellFormedFacts(c) && i < 24
    ensures WellFormed(PayloadValues(c)[i])
  {
  }

  lemma PayloadIsWellFormed(c: CoreInput)
    requires WellFormedFacts(c)
    ensures WellFormed(Payload(c))
  {
    var fs := PayloadFields(c);
    PayloadKeysDistinct(c);
    forall f | f in fs ensures WellFormed(f.value) {
      var i :| 0 <= i < |fs| && fs[i] == f;
      ValuesWellFormed(c, i);
    }
    AllWellFormedFields(fs);
  }

  lemma PayloadEquivalence(c: CoreInput, d: CoreInput)
    ensures Equivalent(Payload(c), Payload(d), false) <==> EquivalentPayloads(c, d)
  {
    PayloadKeysDistinct(c);
    PayloadKeysDistinct(d);
    var fs, gs := PayloadFields(c), PayloadFields(d);
    AlignedFields(fs, gs);
    DefinedSize(fs);
    EquivalentByKey(c, d);
    if Pointwise(fs, gs) {
      forall i | 0 <= i < 24 ensures EquivalentAt(c, d, i) {
        assert Equivalent(fs[i].value, gs[i].value, IsSetLike(fs[i].key));
      }
    }
    if EquivalentPayloads(c, d) {
      forall i | 0 <= i < |fs| ensures Equivalent(fs[i].value, gs[i].value, IsSetLike(fs[i].key)) {
        assert EquivalentAt(c, d, i);
      }
    }
  }

  // ----- Identity -----------------------------------------------------------

  datatype IdentityField =
    DecisionIdField | IdempotencyKeyField | SourceManifestHashField | CoreHashField | SchemaVersionField

  const CORE_IDENTITY_FIELDS: seq<IdentityField> :=
    [DecisionIdField, IdempotencyKeyField, SourceManifestHashField, CoreHashField, SchemaVersionField]

  function IdentityValue(c: Core, f: IdentityField): Text {
    match f
    case DecisionIdField => c.input.decisionId
    case IdempotencyKeyField => c.input.idempotencyKey
    case SourceManifestHashField => c.input.sourceManifestHash
    case CoreHashField => c.coreHash
    case SchemaVersionField => c.input.schemaVersion
  }

  /** The two cores agree on all five identity fields. */
  predicate SameIdentity(c: Core, d: Core) {
    && c.input.decisionId == d.input.decisionId
    && c.input.idempotencyKey == d.input.idempotencyKey
    && c.input.sourceManifestHash == d.input.sourceManifestHash
    && c.coreHash == d.coreHash
    && c.input.schemaVersion == d.input.schemaVersion
  }

  datatype Mismatch = Mismatch(field: IdentityField, expected: Text, actual: Text)

  /** The mismatches among the given fields, in their order. */
  function Mismatches(computed: Core, stored: Core, fields: seq<IdentityField>): seq<Mismatch> {
    if fields == [] then []
    else
      var rest := Mismatches(computed, stored, fields[..|fields| - 1]);
      var f := fields[|fields| - 1];
      var expected, actual := IdentityValue(computed, f), IdentityValue(stored, f);
      if expected != actual then rest + [Mismatch(f, expected, actual)] else rest
  }

  lemma {:induction false} MismatchesAreDifferences(computed: Core, stored: Core, fields: seq<IdentityField>)
    ensures var ms := Mismatches(computed, stored, fields);
      && (ms == [] <==> forall f :: f in fields ==> IdentityValue(computed, f) == IdentityValue(stored, f))
      && (forall m :: m in ms ==> m.field in fields && m.expected != m.actual)
      && (forall m :: m in ms ==>
            m.expected == IdentityValue(computed, m.field) && m.actual == IdentityValue(stored, m.field))
  {
    if fields != [] {
      MismatchesAreDifferences(computed, stored, fields[..|fields| - 1]);
      assert fields == fields[..|fields| - 1] + [fields[|fields| - 1]];
    }
  }

  /** Compares the five fields one by one; no mismatch exactly when the identity is the same. */
  method ClassifyCoreIdentity(computed: Core, stored: Core) returns (same: bool, mismatches: seq<Mismatch>)
    ensures same <==> SameIdentity(computed, stored)
    ensures mismatches == Mismatches(computed, stored, CORE_IDENTITY_FIELDS)
    ensures same <==> mismatches == []
  {
    mismatches := [];
    for i := 0 to |CORE_IDENTITY_FIELDS|
      invariant mismatches == Mismatches(computed, stored, CORE_IDENTITY_FIELDS[..i])
    {
      var f := CORE_IDENTITY_FIELDS[i];
      var expected, actual := IdentityValue(computed, f), IdentityValue(stored, f);
      if expected != actual {
        mismatches := mismatches + [Mismatch(f, expected, actual)];
      }
      assert CORE_IDENTITY_FIELDS[..i + 1][..i] == CORE_IDENTITY_FIELDS[..i];
    }
    assert CORE_IDENTITY_FIELDS[..|CORE_IDENTITY_FIELDS|] == CORE_IDENTITY_FIELDS;
    same := mismatches == [];
    NoMismatchMeansSame(computed, stored);
  }

  lemma NoMismatchMeansSame(computed: Core, stored: Core)
    ensures Mismatches(computed, stored, CORE_IDENTITY_FIELDS) == [] <==> SameIdentity(computed, stored)
  {
    MismatchesAreDifferences(computed, stored, CORE_IDENTITY_FIELDS);
    var fs := CORE_IDENTITY_FIELDS;
    assert fs[0] in fs && fs[1] in fs && fs[2] in fs && fs[3] in fs && fs[4] in fs;
  }

  datatype Persisted =
    | Committed(core: Core)
    | AlreadyCommittedSame(core: Core)
    | IdentityConflict(stored: Core, mismatches: seq<Mismatch>)

  const ABSENT: Text := Ascii("<absent on consistent read>")

  /** The answer when the conditional insert found the key taken, from the strongly consistent re-read. */
  function ClassifyReread(computed: Core, stored: Option<Core>): Persisted {
    if stored.None? then
      IdentityConflict(computed, [Mismatch(DecisionIdField, computed.input.decisionId, ABSENT)])
    else if SameIdentity(computed, stored.value) then AlreadyCommittedSame(stored.value)
    else IdentityConflict(stored.value, Mismatches(computed, stored.value, CORE_IDENTITY_FIELDS))
  }

  // ----- Retry or conflict --------------------------------------------------

  /** The two texts, at least, do not collide. */
  predicate NoCollision(hash: Text -> Text, s: Text, t: Text) {
    hash(s) == hash(t) ==> s == t
  }

  /**
   Two built cores have the same identity exactly when their canonical facts are
   equivalent, whatever the execution they were built in.
   */
  lemma RetryIffEquivalent(i: CoreInput, j: CoreInput, hash: Text -> Text)
    requires WellFormedFacts(i) && WellFormedFacts(j)
    requires BuildDecisionCore(i, hash).Ok? && BuildDecisionCore(j, hash).Ok?
    requires NoCollision(hash, Serialize(Payload(i), false).value, Serialize(Payload(j), false).value)
    ensures SameIdentity(BuildDecisionCore(i, hash).value, BuildDecisionCore(j, hash).value) <==>
      EquivalentPayloads(i, j)
  {
    PayloadIsWellFormed(i);
    PayloadIsWellFormed(j);
    SameTextIffEquivalent(Payload(i), Payload(j), false);
    PayloadEquivalence(i, j);
  }

  /** Rebuilding the same facts in another execution is a retry of the same decision. */
  lemma OtherExecutionIsRetry(
    i: CoreInput, injectionRunId: Text, workflowExecutionName: Option<Text>, version: int, hash: Text -> Text)
    requires BuildDecisionCore(i, hash).Ok?
    ensures
      var j := i.(injectionRunId := injectionRunId, workflowExecutionName := workflowExecutionName, version := version);
      && BuildDecisionCore(j, hash).Ok?
      && ClassifyReread(BuildDecisionCore(j, hash).value, Some(BuildDecisionCore(i, hash).value))
         == AlreadyCommittedSame(BuildDecisionCore(i, hash).value)
  {
    var j := i.(injectionRunId := injectionRunId, workflowExecutionName := workflowExecutionName, version := version);
    assert PayloadValues(j) == PayloadValues(i);
    assert forall k :: 0 <= k < 24 ==> PayloadFields(j)[k] == PayloadFields(i)[k];
    assert PayloadFields(j) == PayloadFields(i);
  }
}
