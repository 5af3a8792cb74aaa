/** What is hashed, when a core can be built, and which differences a conflict reports. */
module DecisionCoreLaws {
  import opened Options
  import opened Json
  import opened Canonical
  import opened CanonicalForm
  import opened DecisionCore

  // ----- The allowlist -----------------------------------------------------------

  /** The payload has this field. */
  predicate Hashed(c: CoreInput, name: string, v: Js) {
    Field(Ascii(name), v) in Payload(c).fields
  }

  lemma HashedAt(c: CoreInput, i: nat)
    requires i < 24
    ensures Hashed(c, PAYLOAD_NAMES[i], PayloadValues(c)[i])
  {
    assert PayloadFields(c)[i] in PayloadFields(c);
  }

  lemma IdentityIsHashed(c: CoreInput)
    ensures Hashed(c, "decision_id", Str(c.decisionId))
    ensures Hashed(c, "idempotency_key", Str(c.idempotencyKey))
    ensures Hashed(c, "source_manifest_hash", Str(c.sourceManifestHash))
    ensures Hashed(c, "schema_version", Str(c.schemaVersion))
  {
    HashedAt(c, 0);
    HashedAt(c, 1);
    HashedAt(c, 2);
    HashedAt(c, 3);
  }

  lemma IncidentIsHashed(c: CoreInput)
    ensures Hashed(c, "event_id", c.facts.eventId)
    ensures Hashed(c, "occurred_at", c.facts.occurredAt)
    ensures Hashed(c, "event_facts", c.facts.eventFacts)
  {
    HashedAt(c, 4);
    HashedAt(c, 5);
    HashedAt(c, 6);
  }

  lemma SopIsHashed(c: CoreInput)
    ensures Hashed(c, "triggered_articles", c.facts.triggeredArticles)
    ensures Hashed(c, "applied_formula_articles", c.facts.appliedFormulaArticles)
    ensures Hashed(c, "invoked_procedures", c.facts.invokedProcedures)
    ensures Hashed(c, "art1_measures", c.facts.art1Measures)
    ensures Hashed(c, "classifications", c.facts.classifications)
  {
    HashedAt(c, 7);
    HashedAt(c, 8);
    HashedAt(c, 9);
    HashedAt(c, 10);
    HashedAt(c, 11);
  }

  lemma EvacuationIsHashed(c: CoreInput)
    ensures Hashed(c, "incident_anchor", c.facts.incidentAnchor)
    ensures Hashed(c, "primary_evacuation", c.facts.primaryEvacuation)
    ensures Hashed(c, "secondary_evacuation", c.facts.secondaryEvacuation)
    ensures Hashed(c, "excluded_candidates", c.facts.excludedCandidates)
    ensures Hashed(c, "affected_intersection_scope", c.facts.affectedIntersectionScope)
  {
    HashedAt(c, 12);
    HashedAt(c, 13);
    HashedAt(c, 14);
    HashedAt(c, 15);
    HashedAt(c, 16);
  }

  lemma PresentationIsHashed(c: CoreInput)
    ensures Hashed(c, "ete", c.facts.ete)
    ensures Hashed(c, "multilingual_required", c.facts.multilingualRequired)
    ensures Hashed(c, "multilingual_scope", c.facts.multilingualScope)
    ensures Hashed(c, "evidence", c.facts.evidence)
    ensures Hashed(c, "policy", c.facts.policy)
    ensures Hashed(c, "cms_core_text", c.facts.cmsCoreText)
    ensures Hashed(c, "provisional", c.facts.provisional)
  {
    HashedAt(c, 17);
    HashedAt(c, 18);
    HashedAt(c, 19);
    HashedAt(c, 20);
    HashedAt(c, 21);
    HashedAt(c, 22);
    HashedAt(c, 23);
  }

  /** And nothing else is: no field about the execution or the version has room among the 24. */
  lemma NothingElseIsHashed(c: CoreInput)
    ensures |Payload(c).fields| == 24 && DistinctKeys(Payload(c).fields)
  {
    PayloadKeysDistinct(c);
  }

  // ----- When a core can be built --------------------------------------------------

  /** What may stand under a key: nothing, or a value that can be serialized. */
  ghost predicate Accepted(v: Js) {
    v.Undefined? || Supported(v)
  }

  ghost predicate AcceptedFacts(c: CoreInput) {
    && Accepted(c.facts.eventId)
    && Accepted(c.facts.occurredAt)
    && Accepted(c.facts.eventFacts)
    && Accepted(c.facts.triggeredArticles)
    && Accepted(c.facts.appliedFormulaArticles)
    && Accepted(c.facts.invokedProcedures)
    && Accepted(c.facts.art1Measures)
    && Accepted(c.facts.classifications)
    && Accepted(c.facts.incidentAnchor)
    && Accepted(c.facts.primaryEvacuation)
    && Accepted(c.facts.secondaryEvacuation)
    && Accepted(c.facts.excludedCandidates)
    && Accepted(c.facts.affectedIntersectionScope)
    && Accepted(c.facts.ete)
    && Accepted(c.facts.multilingualRequired)
    && Accepted(c.facts.multilingualScope)
    && Accepted(c.facts.evidence)
    && Accepted(c.facts.policy)
    && Accepted(c.facts.cmsCoreText)
    && Accepted(c.facts.provisional)
  }

  lemma {:induction false} AcceptedFields(fs: seq<Field>)
    ensures SupportedFields(fs) <==> forall f :: f in fs ==> Accepted(f.value)
  {
    if fs != [] {
      AcceptedFields(fs[1..]);
      assert forall f :: f in fs <==> f == fs[0] || f in fs[1..];
    }
  }

  lemma AcceptedByName(c: CoreInput)
    ensures AcceptedFacts(c) <==> forall i :: 0 <= i < 24 ==> Accepted(PayloadValues(c)[i])
  {
    var v := PayloadValues(c);
    if forall i :: 0 <= i < 24 ==> Accepted(v[i]) {
      assert Accepted(v[4]) && Accepted(v[5]) && Accepted(v[6]) && Accepted(v[7]);
      assert Accepted(v[8]) && Accepted(v[9]) && Accepted(v[10]) && Accepted(v[11]);
      assert Accepted(v[12]) && Accepted(v[13]) && Accepted(v[14]) && Accepted(v[15]);
      assert Accepted(v[16]) && Accepted(v[17]) && Accepted(v[18]) && Accepted(v[19]);
      assert Accepted(v[20]) && Accepted(v[21]) && Accepted(v[22]) && Accepted(v[23]);
    }
  }

  lemma PayloadAcceptedIff(c: CoreInput)
    ensures Serialize(Payload(c), false).Some? <==> AcceptedFacts(c)
  {
    var fs := PayloadFields(c);
    SerializesIffSupported(Payload(c), false);
    AcceptedFields(fs);
    AcceptedByName(c);
    if forall f :: f in fs ==> Accepted(f.value) {
      forall i | 0 <= i < 24 ensures Accepted(PayloadValues(c)[i]) {
        assert fs[i] in fs;
      }
    }
  }

  /** Article 7 among the triggered articles and a fact without a canonical text: nothing else stops a build. */
  lemma BuildSucceedsIff(c: CoreInput, hash: Text -> Text)
    ensures
      var r := BuildDecisionCore(c, hash);
      var seven := c.facts.triggeredArticles.Arr? && Num(Finite(Ascii("7"))) in c.facts.triggeredArticles.items;
      && (r == Err(ArticleSevenTriggered) <==> seven)
      && (r.Ok? <==> !seven && AcceptedFacts(c))
      && (r.Ok? ==> r.value.input == c && r.value.coreHash == hash(Serialize(Payload(c), false).value))
  {
    PayloadAcceptedIff(c);
    assert Ascii("7") == [0x37];
  }

  // ----- Which differences are reported -----------------------------------------------

  function Difference(field: IdentityField, computed: Text, stored: Text): seq<Mismatch> {
    if computed == stored then [] else [Mismatch(field, computed, stored)]
  }

  /** Each of the five fields is reported exactly when the two cores differ in it, in this order. */
  lemma MismatchesListed(computed: Core, stored: Core)
    ensures Mismatches(computed, stored, CORE_IDENTITY_FIELDS)
      == Difference(DecisionIdField, computed.input.decisionId, stored.input.decisionId)
         + Difference(IdempotencyKeyField, computed.input.idempotencyKey, stored.input.idempotencyKey)
         + Difference(SourceManifestHashField, computed.input.sourceManifestHash, stored.input.sourceManifestHash)
         + Difference(CoreHashField, computed.coreHash, stored.coreHash)
         + Difference(SchemaVersionField, computed.input.schemaVersion, stored.input.schemaVersion)
  {
    var fs := CORE_IDENTITY_FIELDS;
    MismatchStep(computed, stored, 5);
    MismatchStep(computed, stored, 4);
    MismatchStep(computed, stored, 3);
    MismatchStep(computed, stored, 2);
    MismatchStep(computed, stored, 1);
    assert fs[..5] == fs && fs[..0] == [];
  }

  lemma MismatchStep(computed: Core, stored: Core, n: nat)
    requires 1 <= n <= 5
    ensures var fs := CORE_IDENTITY_FIELDS; var f := fs[n - 1];
      Mismatches(computed, stored, fs[..n])
        == Mismatches(computed, stored, fs[..n - 1])
           + Difference(f, IdentityValue(computed, f), IdentityValue(stored, f))
  {
    assert CORE_IDENTITY_FIELDS[..n][..n - 1] == CORE_IDENTITY_FIELDS[..n - 1];
  }

  /** A taken id is a retry exactly for the stored identity; a core that is not found is a conflict over its id. */
  lemma RereadIff(computed: Core, stored: Option<Core>)
    ensures var r := ClassifyReread(computed, stored);
      && (r.AlreadyCommittedSame? <==> stored.Some? && SameIdentity(computed, stored.value))
      && (r.AlreadyCommittedSame? ==> Some(r.core) == stored)
      && (r.IdentityConflict? <==> stored.None? || !SameIdentity(computed, stored.value))
      && (r.IdentityConflict? && stored.Some? ==>
            Some(r.stored) == stored && r.mismatches == Mismatches(computed, stored.value, CORE_IDENTITY_FIELDS) != [])
      && (r.IdentityConflict? && stored.None? ==>
            r.mismatches
            == [Mismatch(DecisionIdField, computed.input.decisionId, Ascii("<absent on consistent read>"))])
  {
    if stored.Some? {
      NoMismatchMeansSame(computed, stored.value);
    }
  }

  // ----- Which arrays are sets -----------------------------------------------------------

  /** An object with one array of two elements. */
  function Pair(key: Text, a: Js, b: Js): Js {
    Obj([Field(key, Arr([a, b]))])
  }

  lemma EquivalentSelf(v: Js)
    requires WellFormed(v) && Supported(v)
    ensures Equivalent(v, v, false)
  {
    SerializesIffSupported(v, false);
    SameTextIffEquivalent(v, v, false);
  }

  lemma SwappedInOrder(a: Js, b: Js)
    ensures SameInOrder([a, b], [b, a]) <==> Equivalent(a, b, false) && Equivalent(b, a, false)
  {
    assert [a, b][1..] == [b] && [b, a][1..] == [a];
    assert [b][1..] == [] && [a][1..] == [];
    assert SameInOrder([a, b], [b, a]) <==> Equivalent(a, b, false) && SameInOrder([b], [a]);
    assert SameInOrder([b], [a]) <==> Equivalent(b, a, false);
  }

  lemma SwappedInSomeOrder(a: Js, b: Js)
    requires Equivalent(a, a, false) && Equivalent(b, b, false)
    ensures SameInSomeOrder([a, b], [b, a])
  {
    assert [a, b][1..] == [b] && Without([b, a], 1) == [b];
    assert [b][1..] == [] && Without([b], 0) == [];
    assert SameInSomeOrder([b], [b]);
    assert [b, a][1] == a;
  }

  lemma SingleField(k: Text, v: Js, w: Js)
    requires !v.Undefined? && !w.Undefined?
    ensures Equivalent(Obj([Field(k, v)]), Obj([Field(k, w)]), false) <==> Equivalent(v, w, IsSetLike(k))
  {
    var fs, gs := [Field(k, v)], [Field(k, w)];
    DefinedCons(fs);
    DefinedCons(gs);
    assert fs[1..] == [] && gs[1..] == [] && Without(gs, 0) == [];
    assert Defined(fs) == fs && Defined(gs) == gs;
    DefinedSize(fs);
    assert SameFields([], []);
    if Equivalent(v, w, IsSetLike(k)) {
      assert gs[0].key == k && SameFields(fs[1..], Without(gs, 0));
    }
  }

  /**
   The canonical text forgets the order of two different elements exactly under the seven
   keys that name sets.
   */
  lemma OrderForgottenIff(key: Text, a: Js, b: Js)
    requires WellFormed(a) && WellFormed(b) && Supported(a) && Supported(b) && !Equivalent(a, b, false)
    ensures Serialize(Pair(key, a, b), false) == Serialize(Pair(key, b, a), false) <==>
      key in [Ascii("triggered_articles"), Ascii("applied_formula_articles"), Ascii("invoked_procedures"),
              Ascii("languages"), Ascii("stations_in_scope"), Ascii("classifications"),
              Ascii("excluded_candidates")]
  {
    EquivalentSelf(a);
    EquivalentSelf(b);
    SwappedInOrder(a, b);
    SwappedInSomeOrder(a, b);
    SingleField(key, Arr([a, b]), Arr([b, a]));
    PairIsFine(key, a, b);
    PairIsFine(key, b, a);
    SameTextIffEquivalent(Pair(key, a, b), Pair(key, b, a), false);
  }

  lemma PairIsFine(key: Text, a: Js, b: Js)
    requires WellFormed(a) && WellFormed(b) && Supported(a) && Supported(b)
    ensures WellFormed(Pair(key, a, b)) && Serialize(Pair(key, a, b), false).Some?
  {
    assert [a, b][1..] == [b] && [b][1..] == [];
    var fs := [Field(key, Arr([a, b]))];
    assert fs[1..] == [];
    assert WellFormedItems([b]) && SupportedItems([b]);
    assert WellFormed(Arr([a, b])) && Supported(Arr([a, b]));
    assert WellFormedFields(fs) && SupportedFields(fs);
    SerializesIffSupported(Pair(key, a, b), false);
  }
}
