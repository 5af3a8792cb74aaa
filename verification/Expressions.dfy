/**
 The small compiler from a declarative guard and mutation to a conditional update
 command: attribute names are aliased, values are numbered, and the command is
 given the meaning the table service gives it.
 */
module Expressions {
  import opened Options
  import opened LeaseRecord

  // ----- Stored items -----------------------------------------------------

  datatype Attribute =
    | AKey | ADecisionId | AStatus | AAttemptCount | ALeaseOwner | ALeaseExpiresAt | ALastError
    | ARetryable | AExecutionArn | AStartedAt | ADeadline | ACompletedArn | ACompletedAttempt
    | ATransitionArn | ATransitionAttempt | AEvidence | ACoreCommitted | AStage | AMode
    | APreviousError | ACreatedAt | AUpdatedAt | AExpiresAt

  /** An attribute value; VNull is the stored null, which differs from an absent attribute. */
  datatype Value =
    | VNull
    | VText(text: string)
    | VNumber(number: int)
    | VBool(flag: bool)
    | VStatus(status: Status)
    | VMode(mode: RecoveryMode)
    | VStage(stage: RecoveryStage)
    | VEvidence(evidence: Evidence)

  type Item = map<Attribute, Value>

  predicate Nullable(a: Attribute) {
    a.ALeaseOwner? || a.ALeaseExpiresAt? || a.ALastError? || a.APreviousError? || a.AExecutionArn?
    || a.AStartedAt? || a.ADeadline? || a.ACompletedArn? || a.ACompletedAttempt? || a.ATransitionArn?
    || a.ATransitionAttempt? || a.AEvidence?
  }

  datatype Kind = KText | KNumber | KBool | KStatus | KMode | KStage | KEvidence

  function KindOf(a: Attribute): Kind {
    match a
    case AStatus => KStatus
    case AMode => KMode
    case AStage => KStage
    case AEvidence => KEvidence
    case ARetryable => KBool
    case ACoreCommitted => KBool
    case AAttemptCount => KNumber
    case ALeaseExpiresAt => KNumber
    case AStartedAt => KNumber
    case ADeadline => KNumber
    case ACompletedAttempt => KNumber
    case ATransitionAttempt => KNumber
    case AExpiresAt => KNumber
    case _ => KText
  }

  predicate HasKind(v: Value, k: Kind) {
    match k
    case KText => v.VText?
    case KNumber => v.VNumber?
    case KBool => v.VBool?
    case KStatus => v.VStatus?
    case KMode => v.VMode?
    case KStage => v.VStage?
    case KEvidence => v.VEvidence?
  }

  predicate HasType(a: Attribute, v: Value) {
    HasKind(v, KindOf(a)) || (Nullable(a) && v.VNull?)
  }

  /** An item whose attributes have their declared types; only nullable ones may be absent. */
  ghost predicate Typed(item: Item) {
    && (forall a :: a in item ==> HasType(a, item[a]))
    && (forall a :: !Nullable(a) ==> a in item)
  }

  function TextOf(item: Item, a: Attribute): Option<string> {
    if a in item && item[a].VText? then Some(item[a].text) else None
  }

  function NumberOf(item: Item, a: Attribute): Option<int> {
    if a in item && item[a].VNumber? then Some(item[a].number) else None
  }

  function EvidenceOf(item: Item): Option<Evidence> {
    if AEvidence in item && item[AEvidence].VEvidence? then Some(item[AEvidence].evidence) else None
  }

  // The non-nullable columns; the defaults are never read from a typed item.

  function GetText(item: Item, a: Attribute): string {
    TextOf(item, a).GetOr("")
  }

  function GetNumber(item: Item, a: Attribute): int {
    NumberOf(item, a).GetOr(0)
  }

  function GetFlag(item: Item, a: Attribute): bool {
    a in item && item[a].VBool? && item[a].flag
  }

  function GetStatus(item: Item): Status {
    if AStatus in item && item[AStatus].VStatus? then item[AStatus].status else Starting
  }

  function GetMode(item: Item): RecoveryMode {
    if AMode in item && item[AMode].VMode? then item[AMode].mode else Normal
  }

  function GetStage(item: Item): RecoveryStage {
    if AStage in item && item[AStage].VStage? then item[AStage].stage else NoStage
  }

  /** The record a reader gets: an absent nullable attribute reads as null. */
  function View(item: Item): Row {
    Row(
      GetText(item, AKey),
      GetText(item, ADecisionId),
      GetStatus(item),
      GetNumber(item, AAttemptCount),
      TextOf(item, ALeaseOwner),
      NumberOf(item, ALeaseExpiresAt),
      TextOf(item, ALastError),
      GetFlag(item, ARetryable),
      TextOf(item, AExecutionArn),
      NumberOf(item, AStartedAt),
      NumberOf(item, ADeadline),
      TextOf(item, ACompletedArn),
      NumberOf(item, ACompletedAttempt),
      TextOf(item, ATransitionArn),
      NumberOf(item, ATransitionAttempt),
      EvidenceOf(item),
      GetFlag(item, ACoreCommitted),
      GetStage(item),
      GetMode(item),
      TextOf(item, APreviousError),
      GetText(item, ACreatedAt),
      GetText(item, AUpdatedAt),
      GetNumber(item, AExpiresAt))
  }

  function TextValue(o: Option<string>): Value {
    if o.Some? then VText(o.value) else VNull
  }

  function NumberValue(o: Option<int>): Value {
    if o.Some? then VNumber(o.value) else VNull
  }

  function TextField(r: Row, a: Attribute): Option<string> {
    match a
    case AKey => Some(r.idempotencyKey)
    case ADecisionId => Some(r.decisionId)
    case ALeaseOwner => r.leaseOwner
    case ALastError => r.lastError
    case AExecutionArn => r.executionArn
    case ACompletedArn => r.completedArn
    case ATransitionArn => r.transitionArn
    case APreviousError => r.previousLastError
    case ACreatedAt => Some(r.createdAt)
    case _ => Some(r.updatedAt)
  }

  function NumberField(r: Row, a: Attribute): Option<int> {
    match a
    case AAttemptCount => Some(r.attemptCount)
    case ALeaseExpiresAt => r.leaseExpiresAt
    case AStartedAt => r.runningStartedAt
    case ADeadline => r.runningDeadlineAt
    case ACompletedAttempt => r.completedAttempt
    case ATransitionAttempt => r.transitionAttempt
    case _ => Some(r.expiresAt)
  }

  /** The value a Put of the record stores under an attribute: nulls are stored as nulls. */
  function FieldValue(r: Row, a: Attribute): Value {
    match KindOf(a)
    case KText => TextValue(TextField(r, a))
    case KNumber => NumberValue(NumberField(r, a))
    case KBool => VBool(if a.ARetryable? then r.retryable else r.coreCommitted)
    case KStatus => VStatus(r.status)
    case KMode => VMode(r.recoveryMode)
    case KStage => VStage(r.recoveryStage)
    case KEvidence => if r.evidence.Some? then VEvidence(r.evidence.value) else VNull
  }

  function ItemOf(r: Row): (item: Item)
    ensures forall a :: a in item && item[a] == FieldValue(r, a)
  {
    map a: Attribute | true :: FieldValue(r, a)
  }

  lemma FieldValueHasType(r: Row, a: Attribute)
    ensures HasType(a, FieldValue(r, a))
  {
  }

  lemma TextReadsBack(r: Row, a: Attribute)
    requires KindOf(a) == KText
    ensures TextOf(ItemOf(r), a) == TextField(r, a)
  {
  }

  lemma NumberReadsBack(r: Row, a: Attribute)
    requires KindOf(a) == KNumber
    ensures NumberOf(ItemOf(r), a) == NumberField(r, a)
  {
  }

  ghost predicate TextColumnsAgree(item: Item, r: Row) {
    && TextOf(item, AKey) == Some(r.idempotencyKey) && TextOf(item, ADecisionId) == Some(r.decisionId)
    && TextOf(item, ALeaseOwner) == r.leaseOwner && TextOf(item, ALastError) == r.lastError
    && TextOf(item, AExecutionArn) == r.executionArn && TextOf(item, ACompletedArn) == r.completedArn
    && TextOf(item, ATransitionArn) == r.transitionArn && TextOf(item, APreviousError) == r.previousLastError
    && TextOf(item, ACreatedAt) == Some(r.createdAt) && TextOf(item, AUpdatedAt) == Some(r.updatedAt)
  }

  ghost predicate NumberColumnsAgree(item: Item, r: Row) {
    && NumberOf(item, AAttemptCount) == Some(r.attemptCount) && NumberOf(item, ALeaseExpiresAt) == r.leaseExpiresAt
    && NumberOf(item, AStartedAt) == r.runningStartedAt && NumberOf(item, ADeadline) == r.runningDeadlineAt
    && NumberOf(item, ACompletedAttempt) == r.completedAttempt
    && NumberOf(item, ATransitionAttempt) == r.transitionAttempt && NumberOf(item, AExpiresAt) == Some(r.expiresAt)
  }

  ghost predicate OtherColumnsAgree(item: Item, r: Row) {
    && GetStatus(item) == r.status && GetMode(item) == r.recoveryMode && GetStage(item) == r.recoveryStage
    && EvidenceOf(item) == r.evidence
    && GetFlag(item, ARetryable) == r.retryable && GetFlag(item, ACoreCommitted) == r.coreCommitted
  }

  /** A record is determined by what its columns read. */
  lemma ColumnsDetermineView(item: Item, r: Row)
    requires TextColumnsAgree(item, r) && NumberColumnsAgree(item, r)
    requires OtherColumnsAgree(item, r)
    ensures View(item) == r
  {
  }

  lemma PutIsTyped(r: Row)
    ensures Typed(ItemOf(r))
  {
    forall a: Attribute ensures HasType(a, FieldValue(r, a)) {
      FieldValueHasType(r, a);
    }
  }

  lemma LeaseTextColumns(item: Item, r: Row)
    requires forall a :: KindOf(a) == KText ==> TextOf(item, a) == TextField(r, a)
    ensures TextOf(item, AKey) == Some(r.idempotencyKey) && TextOf(item, ADecisionId) == Some(r.decisionId)
    ensures TextOf(item, ALeaseOwner) == r.leaseOwner && TextOf(item, ALastError) == r.lastError
    ensures TextOf(item, APreviousError) == r.previousLastError
  {
  }

  lemma ExecutionTextColumns(item: Item, r: Row)
    requires forall a :: KindOf(a) == KText ==> TextOf(item, a) == TextField(r, a)
    ensures TextOf(item, AExecutionArn) == r.executionArn && TextOf(item, ACompletedArn) == r.completedArn
    ensures TextOf(item, ATransitionArn) == r.transitionArn
    ensures TextOf(item, ACreatedAt) == Some(r.createdAt) && TextOf(item, AUpdatedAt) == Some(r.updatedAt)
  {
  }

  lemma NumberColumns(item: Item, r: Row)
    requires forall a :: KindOf(a) == KNumber ==> NumberOf(item, a) == NumberField(r, a)
    ensures NumberColumnsAgree(item, r)
  {
  }

  lemma PutTextColumns(r: Row)
    ensures TextColumnsAgree(ItemOf(r), r)
  {
    forall a: Attribute | KindOf(a) == KText ensures TextOf(ItemOf(r), a) == TextField(r, a) {
      TextReadsBack(r, a);
    }
    LeaseTextColumns(ItemOf(r), r);
    ExecutionTextColumns(ItemOf(r), r);
  }

  lemma PutNumberColumns(r: Row)
    ensures NumberColumnsAgree(ItemOf(r), r)
  {
    forall a: Attribute | KindOf(a) == KNumber ensures NumberOf(ItemOf(r), a) == NumberField(r, a) {
      NumberReadsBack(r, a);
    }
    NumberColumns(ItemOf(r), r);
  }

  lemma PutOtherColumns(r: Row)
    ensures OtherColumnsAgree(ItemOf(r), r)
  {
  }

  /** Storing a record and reading it back gives the record. */
  lemma PutThenRead(r: Row)
    ensures Typed(ItemOf(r)) && View(ItemOf(r)) == r
  {
    PutIsTyped(r);
    PutTextColumns(r);
    PutNumberColumns(r);
    PutOtherColumns(r);
    ColumnsDetermineView(ItemOf(r), r);
  }

  // ----- Declarative mutations --------------------------------------------

  /** The SET part: a field left at None is an undefined entry, Some(None) assigns null. */
  datatype Fields = Fields(
    idempotencyKey: Option<string> := None,
    decisionId: Option<string> := None,
    status: Option<Status> := None,
    attemptCount: Option<int> := None,
    leaseOwner: Option<Option<string>> := None,
    leaseExpiresAt: Option<Option<int>> := None,
    lastError: Option<Option<string>> := None,
    retryable: Option<bool> := None,
    executionArn: Option<Option<string>> := None,
    runningStartedAt: Option<Option<int>> := None,
    runningDeadlineAt: Option<Option<int>> := None,
    completedArn: Option<Option<string>> := None,
    completedAttempt: Option<Option<int>> := None,
    transitionArn: Option<Option<string>> := None,
    transitionAttempt: Option<Option<int>> := None,
    evidence: Option<Option<Evidence>> := None,
    coreCommitted: Option<bool> := None,
    recoveryStage: Option<RecoveryStage> := None,
    recoveryMode: Option<RecoveryMode> := None,
    previousLastError: Option<Option<string>> := None,
    createdAt: Option<string> := None,
    updatedAt: Option<string> := None,
    expiresAt: Option<int> := None)

  datatype Mutation = Mutation(assign: Fields, remove: seq<Attribute> := [], increment: Option<int> := None)

  /** A non-nullable setting seen as a setting of a nullable column. */
  function Present<T>(o: Option<T>): Option<Option<T>> {
    if o.Some? then Some(Some(o.value)) else None
  }

  function TextSetting(f: Fields, a: Attribute): Option<Option<string>> {
    match a
    case AKey => Present(f.idempotencyKey)
    case ADecisionId => Present(f.decisionId)
    case ALeaseOwner => f.leaseOwner
    case ALastError => f.lastError
    case AExecutionArn => f.executionArn
    case ACompletedArn => f.completedArn
    case ATransitionArn => f.transitionArn
    case APreviousError => f.previousLastError
    case ACreatedAt => Present(f.createdAt)
    case _ => Present(f.updatedAt)
  }

  function NumberSetting(f: Fields, a: Attribute): Option<Option<int>> {
    match a
    case AAttemptCount => Present(f.attemptCount)
    case ALeaseExpiresAt => f.leaseExpiresAt
    case AStartedAt => f.runningStartedAt
    case ADeadline => f.runningDeadlineAt
    case ACompletedAttempt => f.completedAttempt
    case ATransitionAttempt => f.transitionAttempt
    case _ => Present(f.expiresAt)
  }

  function MapSome<S, T>(o: Option<S>, f: S -> T): Option<T> {
    if o.Some? then Some(f(o.value)) else None
  }

  function EvidenceValue(o: Option<Evidence>): Value {
    if o.Some? then VEvidence(o.value) else VNull
  }

  /** The value a SET entry assigns, if it is defined. */
  function Entry(f: Fields, a: Attribute): Option<Value> {
    match KindOf(a)
    case KText => MapSome(TextSetting(f, a), TextValue)
    case KNumber => MapSome(NumberSetting(f, a), NumberValue)
    case KBool => MapSome(if a.ARetryable? then f.retryable else f.coreCommitted, (b: bool) => VBool(b))
    case KStatus => MapSome(f.status, (s: Status) => VStatus(s))
    case KMode => MapSome(f.recoveryMode, (m: RecoveryMode) => VMode(m))
    case KStage => MapSome(f.recoveryStage, (g: RecoveryStage) => VStage(g))
    case KEvidence => MapSome(f.evidence, EvidenceValue)
  }

  function Assigned(m: Mutation): map<Attribute, Value> {
    map a: Attribute | Entry(m.assign, a).Some? :: Entry(m.assign, a).value
  }

  /** Only nullable attributes may be cleared. */
  ghost predicate ClearsNullables(m: Mutation) {
    forall a :: a in m.remove ==> Nullable(a)
  }

  /** What a mutation means, attribute by attribute, with no order between its clauses. */
  function Mutated(m: Mutation, item: Item): Item {
    map a | a in item.Keys + Assigned(m).Keys && a !in m.remove ::
      if a in Assigned(m) then Assigned(m)[a]
      else if a == AAttemptCount && m.increment.Some? then VNumber(GetNumber(item, a) + m.increment.value)
      else item[a]
  }

  lemma EntryHasType(f: Fields, a: Attribute)
    requires Entry(f, a).Some?
    ensures HasType(a, Entry(f, a).value)
  {
  }

  lemma MutatedIsTyped(m: Mutation, item: Item)
    requires Typed(item) && ClearsNullables(m)
    ensures Typed(Mutated(m, item))
  {
    forall a | a in Mutated(m, item) ensures HasType(a, Mutated(m, item)[a]) {
      if a in Assigned(m) {
        EntryHasType(m.assign, a);
      }
    }
  }

  datatype UsageError =
    | EmptyKey
    | EmptyMutation
    | WritesPartitionKey
    | SetsAndIncrements
    | WritesAndRemoves
    | EmptyStatusList
    | EmptyGuard
    | BadRecoveryInput
    | BadFencing

  function WrittenAttributes(m: Mutation): set<Attribute> {
    Assigned(m).Keys + if m.increment.Some? then {AAttemptCount} else {}
  }

  function MutationProblem(m: Mutation): Option<UsageError> {
    if WrittenAttributes(m) == {} && m.remove == [] then Some(EmptyMutation)
    else if AKey in WrittenAttributes(m) then Some(WritesPartitionKey)
    else if AAttemptCount in Assigned(m) && m.increment.Some? then Some(SetsAndIncrements)
    else if exists a :: a in m.remove && a in WrittenAttributes(m) then Some(WritesAndRemoves)
    else None
  }

  function GuardProblem(g: Guard): Option<UsageError> {
    if g.status == StatusIn([]) then Some(EmptyStatusList)
    else if GuardIsEmpty(g) then Some(EmptyGuard)
    else None
  }

  /** Each usage error of a mutation, and when it is the one reported. */
  lemma MutationProblemIff(m: Mutation)
    ensures var both := m.assign.attemptCount.Some? && m.increment.Some?;
      var problem := MutationProblem(m);
      && (problem == Some(EmptyMutation) <==>
            (forall a :: Entry(m.assign, a) == None) && m.increment == None && m.remove == [])
      && (problem == Some(WritesPartitionKey) <==> m.assign.idempotencyKey.Some?)
      && (problem == Some(SetsAndIncrements) <==> m.assign.idempotencyKey == None && both)
      && (problem == Some(WritesAndRemoves) <==>
            && m.assign.idempotencyKey == None && !both
            && exists a :: a in m.remove && (Entry(m.assign, a).Some? || (a == AAttemptCount && m.increment.Some?)))
      && (problem.Some? ==> problem.value in {EmptyMutation, WritesPartitionKey, SetsAndIncrements, WritesAndRemoves})
  {
    assert m.assign.idempotencyKey.Some? <==> Entry(m.assign, AKey).Some?;
    assert m.assign.attemptCount.Some? <==> Entry(m.assign, AAttemptCount).Some?;
    assert forall a :: a in Assigned(m) <==> Entry(m.assign, a).Some?;
    if forall a :: Entry(m.assign, a) == None {
      assert Assigned(m).Keys == {};
    }
  }

  // ----- Generated commands and their meaning -----------------------------

  /** Name and value placeholders are `#n<i>` and `:v<i>`; here just their numbers. */
  datatype Term =
    | Exists(name: nat)
    | Equals(name: nat, val: nat)
    | OneOf(name: nat, vals: seq<nat>)
    | Less(name: nat, val: nat)

  datatype Clause =
    | Assign(name: nat, val: nat)
    | Add(name: nat, base: nat, val: nat)

  datatype Command = Command(
    condition: seq<Term>,
    sets: seq<Clause>,
    removes: seq<nat>,
    names: map<nat, Attribute>,
    values: map<nat, Value>)

  /** A term with its placeholders looked up. */
  datatype Test =
    | IsPresent(attribute: Attribute)
    | IsEqual(attribute: Attribute, operand: Value)
    | IsOneOf(attribute: Attribute, operands: seq<Value>)
    | IsLess(attribute: Attribute, operand: Value)

  predicate TestHolds(t: Test, item: Item) {
    t.attribute in item
    && match t
       case IsPresent(_) => true
       case IsEqual(a, v) => item[a] == v
       case IsOneOf(a, vs) => item[a] in vs
       case IsLess(a, v) => item[a].VNumber? && v.VNumber? && item[a].number < v.number
  }

  predicate AllHold(ts: seq<Test>, item: Item) {
    forall t :: t in ts ==> TestHolds(t, item)
  }

  function ResolveTerm(t: Term, names: map<nat, Attribute>, values: map<nat, Value>): Option<Test> {
    if t.name !in names then None
    else
      match t
      case Exists(n) => Some(IsPresent(names[n]))
      case Equals(n, v) => if v in values then Some(IsEqual(names[n], values[v])) else None
      case OneOf(n, vs) =>
        if forall v :: v in vs ==> v in values
        then Some(IsOneOf(names[n], seq(|vs|, i requires 0 <= i < |vs| => values[vs[i]])))
        else None
      case Less(n, v) => if v in values then Some(IsLess(names[n], values[v])) else None
  }

  datatype Source = FromValue(v: Value) | FromSum(base: Attribute, v: Value)

  function ResolveClause(c: Clause, names: map<nat, Attribute>, values: map<nat, Value>)
    : Option<(Attribute, Source)>
  {
    if c.name !in names || c.val !in values then None
    else
      match c
      case Assign(n, v) => Some((names[n], FromValue(values[v])))
      case Add(n, b, v) => if b in names then Some((names[n], FromSum(names[b], values[v]))) else None
  }

  function ResolveTerms(ts: seq<Term>, names: map<nat, Attribute>, values: map<nat, Value>): Option<seq<Test>> {
    if ts == [] then Some([])
    else
      var first, rest := ResolveTerm(ts[0], names, values), ResolveTerms(ts[1..], names, values);
      if first.Some? && rest.Some? then Some([first.value] + rest.value) else None
  }

  function ResolveClauses(cs: seq<Clause>, names: map<nat, Attribute>, values: map<nat, Value>)
    : Option<seq<(Attribute, Source)>>
  {
    if cs == [] then Some([])
    else
      var first, rest := ResolveClause(cs[0], names, values), ResolveClauses(cs[1..], names, values);
      if first.Some? && rest.Some? then Some([first.value] + rest.value) else None
  }

  function ResolveNames(rs: seq<nat>, names: map<nat, Attribute>): Option<seq<Attribute>> {
    if forall i :: 0 <= i < |rs| ==> rs[i] in names
    then Some(seq(|rs|, i requires 0 <= i < |rs| => names[rs[i]]))
    else None
  }

  /** The terms stand for exactly these tests, every placeholder being defined. */
  ghost predicate TermsDenote(ts: seq<Term>, tests: seq<Test>, names: map<nat, Attribute>, values: map<nat, Value>) {
    && |ts| == |tests|
    && forall i :: 0 <= i < |ts| ==> ResolveTerm(ts[i], names, values) == Some(tests[i])
  }

  ghost predicate ClausesDenote(
    cs: seq<Clause>, ps: seq<(Attribute, Source)>, names: map<nat, Attribute>, values: map<nat, Value>)
  {
    && |cs| == |ps|
    && forall i :: 0 <= i < |cs| ==> ResolveClause(cs[i], names, values) == Some(ps[i])
  }

  ghost predicate RemovesDenote(rs: seq<nat>, attributes: seq<Attribute>, names: map<nat, Attribute>) {
    && |rs| == |attributes|
    && forall i :: 0 <= i < |rs| ==> rs[i] in names && names[rs[i]] == attributes[i]
  }

  lemma NamesResolve(rs: seq<nat>, attributes: seq<Attribute>, names: map<nat, Attribute>)
    requires RemovesDenote(rs, attributes, names)
    ensures ResolveNames(rs, names) == Some(attributes)
  {
    assert seq(|rs|, i requires 0 <= i < |rs| => names[rs[i]]) == attributes;
  }

  lemma {:induction false} TermsResolve(
    ts: seq<Term>, tests: seq<Test>, names: map<nat, Attribute>, values: map<nat, Value>)
    requires TermsDenote(ts, tests, names, values)
    ensures ResolveTerms(ts, names, values) == Some(tests)
  {
    if ts != [] {
      TermsResolve(ts[1..], tests[1..], names, values);
      assert ResolveTerm(ts[0], names, values) == Some(tests[0]);
      assert tests == [tests[0]] + tests[1..];
    }
  }

  lemma {:induction false} ClausesResolve(
    cs: seq<Clause>, ps: seq<(Attribute, Source)>, names: map<nat, Attribute>, values: map<nat, Value>)
    requires ClausesDenote(cs, ps, names, values)
    ensures ResolveClauses(cs, names, values) == Some(ps)
  {
    if cs != [] {
      ClausesResolve(cs[1..], ps[1..], names, values);
      assert ResolveClause(cs[0], names, values) == Some(ps[0]);
      assert ps == [ps[0]] + ps[1..];
    }
  }

  function SetMap(ps: seq<(Attribute, Source)>): map<Attribute, Source> {
    if ps == [] then map[] else SetMap(ps[..|ps| - 1])[ps[|ps| - 1].0 := ps[|ps| - 1].1]
  }

  function Targets(ps: seq<(Attribute, Source)>): seq<Attribute> {
    seq(|ps|, i requires 0 <= i < |ps| => ps[i].0)
  }

  predicate Distinct<T(==)>(s: seq<T>) {
    forall i, j :: 0 <= i < j < |s| ==> s[i] != s[j]
  }

  datatype ServiceError = ConditionalCheckFailed | ValidationException

  predicate CanEvaluate(s: Source, item: Item) {
    s.FromSum? ==> s.base in item && item[s.base].VNumber? && s.v.VNumber?
  }

  function Evaluate(s: Source, item: Item): Value
    requires CanEvaluate(s, item)
  {
    match s
    case FromValue(v) => v
    case FromSum(b, v) => VNumber(item[b].number + v.number)
  }

  function Written(m: map<Attribute, Source>, removes: seq<Attribute>, item: Item): Item
    requires forall a :: a in m ==> CanEvaluate(m[a], item)
  {
    map a | a in item.Keys + m.Keys && a !in removes :: if a in m then Evaluate(m[a], item) else item[a]
  }

  /**
   The table service: overlapping document paths are rejected before anything is
   looked at, right-hand sides read the item as it was, and a failed condition
   changes nothing.
   */
  function Execute(tests: seq<Test>, ps: seq<(Attribute, Source)>, removes: seq<Attribute>, stored: Option<Item>)
    : Result<Item, ServiceError>
  {
    var item := if stored.Some? then stored.value else map[];
    var m := SetMap(ps);
    if !Distinct(Targets(ps) + removes) then Err(ValidationException)
    else if !AllHold(tests, item) then Err(ConditionalCheckFailed)
    else if exists a :: a in m && !CanEvaluate(m[a], item) then Err(ValidationException)
    else Ok(Written(m, removes, item))
  }

  /** The service's reply to a command, an undefined placeholder being invalid. */
  function Respond(cmd: Command, stored: Option<Item>): Result<Item, ServiceError> {
    var tests := ResolveTerms(cmd.condition, cmd.names, cmd.values);
    var ps := ResolveClauses(cmd.sets, cmd.names, cmd.values);
    var removes := ResolveNames(cmd.removes, cmd.names);
    if tests.None? || ps.None? || removes.None? then Err(ValidationException)
    else Execute(tests.value, ps.value, removes.value, stored)
  }

  // ----- What the compiler must produce -----------------------------------

  function TextTest(a: Attribute, o: Option<string>): seq<Test> {
    if o.Some? then [IsEqual(a, VText(o.value))] else []
  }

  function NumberTest(a: Attribute, o: Option<int>): seq<Test> {
    if o.Some? then [IsEqual(a, VNumber(o.value))] else []
  }

  function BoolTest(a: Attribute, o: Option<bool>): seq<Test> {
    if o.Some? then [IsEqual(a, VBool(o.value))] else []
  }

  function ModeTest(o: Option<RecoveryMode>): seq<Test> {
    if o.Some? then [IsEqual(AMode, VMode(o.value))] else []
  }

  function BeforeTest(a: Attribute, o: Option<int>): seq<Test> {
    if o.Some? then [IsLess(a, VNumber(o.value))] else []
  }

  function StatusTest(g: StatusGuard): seq<Test> {
    match g
    case AnyStatus => []
    case StatusIs(s) => [IsEqual(AStatus, VStatus(s))]
    case StatusIn(ss) => [IsOneOf(AStatus, seq(|ss|, i requires 0 <= i < |ss| => VStatus(ss[i])))]
  }

  function GuardTests(g: Guard): seq<Test> {
    StatusTest(g.status)
    + TextTest(ALeaseOwner, g.leaseOwner)
    + NumberTest(AAttemptCount, g.attemptCount)
    + ModeTest(g.recoveryMode)
    + TextTest(AExecutionArn, g.executionArn)
    + BoolTest(ACoreCommitted, g.coreCommitted)
    + BoolTest(ARetryable, g.retryable)
    + NumberTest(ADeadline, g.deadline)
    + BeforeTest(ADeadline, g.deadlineBefore)
    + BeforeTest(ALeaseExpiresAt, g.leaseExpiresBefore)
  }

  lemma AllHoldAppend(s: seq<Test>, t: seq<Test>, item: Item)
    ensures AllHold(s + t, item) <==> AllHold(s, item) && AllHold(t, item)
  {
    forall x | x in s || x in t ensures x in s + t {
    }
  }

  /** An equality test on an attribute of a text column is an equality with its value. */
  lemma EqualityMeaning(a: Attribute, v: Value, item: Item)
    ensures AllHold([IsEqual(a, v)], item) <==> a in item && item[a] == v
  {
    assert IsEqual(a, v) in [IsEqual(a, v)];
  }

  lemma BeforeMeaning(a: Attribute, o: Option<int>, item: Item)
    ensures AllHold(BeforeTest(a, o), item)
            <==> (o.Some? ==> NumberOf(item, a).Some? && NumberOf(item, a).value < o.value)
  {
    if o.Some? {
      assert IsLess(a, VNumber(o.value)) in BeforeTest(a, o);
    }
  }

  lemma StatusTestMeaning(g: StatusGuard, item: Item)
    requires AStatus in item && item[AStatus].VStatus?
    ensures AllHold(StatusTest(g), item) <==> StatusAllowed(g, GetStatus(item))
  {
    match g
    case AnyStatus =>
    case StatusIs(s) => EqualityMeaning(AStatus, VStatus(s), item);
    case StatusIn(ss) =>
      var vs := seq(|ss|, i requires 0 <= i < |ss| => VStatus(ss[i]));
      assert IsOneOf(AStatus, vs) in StatusTest(g);
      if item[AStatus].status in ss {
        var i :| 0 <= i < |ss| && ss[i] == item[AStatus].status;
        assert vs[i] == item[AStatus];
      }
  }

  /** Every test generated for the guard holds of the item, listed by guard field. */
  ghost predicate EachHolds(g: Guard, item: Item) {
    && AllHold(StatusTest(g.status), item)
    && AllHold(TextTest(ALeaseOwner, g.leaseOwner), item)
    && AllHold(NumberTest(AAttemptCount, g.attemptCount), item)
    && AllHold(ModeTest(g.recoveryMode), item)
    && AllHold(TextTest(AExecutionArn, g.executionArn), item)
    && AllHold(BoolTest(ACoreCommitted, g.coreCommitted), item)
    && AllHold(BoolTest(ARetryable, g.retryable), item)
    && AllHold(NumberTest(ADeadline, g.deadline), item)
    && AllHold(BeforeTest(ADeadline, g.deadlineBefore), item)
    && AllHold(BeforeTest(ALeaseExpiresAt, g.leaseExpiresBefore), item)
  }

  lemma GuardTestsHoldTogether(g: Guard, item: Item)
    ensures AllHold(GuardTests(g), item) <==> EachHolds(g, item)
  {
    var t1 := StatusTest(g.status);
    var t2 := t1 + TextTest(ALeaseOwner, g.leaseOwner);
    var t3 := t2 + NumberTest(AAttemptCount, g.attemptCount);
    var t4 := t3 + ModeTest(g.recoveryMode);
    var t5 := t4 + TextTest(AExecutionArn, g.executionArn);
    var t6 := t5 + BoolTest(ACoreCommitted, g.coreCommitted);
    var t7 := t6 + BoolTest(ARetryable, g.retryable);
    var t8 := t7 + NumberTest(ADeadline, g.deadline);
    var t9 := t8 + BeforeTest(ADeadline, g.deadlineBefore);
    assert GuardTests(g) == t9 + BeforeTest(ALeaseExpiresAt, g.leaseExpiresBefore);
    AllHoldAppend(t1, TextTest(ALeaseOwner, g.leaseOwner), item);
    AllHoldAppend(t2, NumberTest(AAttemptCount, g.attemptCount), item);
    AllHoldAppend(t3, ModeTest(g.recoveryMode), item);
    AllHoldAppend(t4, TextTest(AExecutionArn, g.executionArn), item);
    AllHoldAppend(t5, BoolTest(ACoreCommitted, g.coreCommitted), item);
    AllHoldAppend(t6, BoolTest(ARetryable, g.retryable), item);
    AllHoldAppend(t7, NumberTest(ADeadline, g.deadline), item);
    AllHoldAppend(t8, BeforeTest(ADeadline, g.deadlineBefore), item);
    AllHoldAppend(t9, BeforeTest(ALeaseExpiresAt, g.leaseExpiresBefore), item);
  }

  /** The generated tests hold of an item exactly when the guard holds of its record. */
  lemma GuardTestsMeaning(g: Guard, item: Item)
    requires Typed(item)
    ensures AllHold(GuardTests(g), item) <==> GuardHolds(g, View(item))
  {
    GuardTestsHoldTogether(g, item);
    TypedColumns(item);
    StatusTestMeaning(g.status, item);
    TextTestMeaning(ALeaseOwner, g.leaseOwner, item);
    NumberTestMeaning(AAttemptCount, g.attemptCount, item);
    ModeTestMeaning(g.recoveryMode, item);
    TextTestMeaning(AExecutionArn, g.executionArn, item);
    BoolTestMeaning(ACoreCommitted, g.coreCommitted, item);
    BoolTestMeaning(ARetryable, g.retryable, item);
    NumberTestMeaning(ADeadline, g.deadline, item);
    BeforeMeaning(ADeadline, g.deadlineBefore, item);
    BeforeMeaning(ALeaseExpiresAt, g.leaseExpiresBefore, item);
  }

  lemma TypedColumns(item: Item)
    requires Typed(item)
    ensures AStatus in item && item[AStatus].VStatus?
    ensures AMode in item && item[AMode].VMode?
    ensures ACoreCommitted in item && item[ACoreCommitted].VBool?
    ensures ARetryable in item && item[ARetryable].VBool?
    ensures AAttemptCount in item && item[AAttemptCount].VNumber?
    ensures AKey in item && item[AKey].VText?
  {
  }

  lemma TextTestMeaning(a: Attribute, o: Option<string>, item: Item)
    ensures AllHold(TextTest(a, o), item) <==> (o.Some? ==> TextOf(item, a) == o)
  {
    if o.Some? { EqualityMeaning(a, VText(o.value), item); }
  }

  lemma NumberTestMeaning(a: Attribute, o: Option<int>, item: Item)
    ensures AllHold(NumberTest(a, o), item) <==> (o.Some? ==> NumberOf(item, a) == o)
  {
    if o.Some? { EqualityMeaning(a, VNumber(o.value), item); }
  }

  lemma BoolTestMeaning(a: Attribute, o: Option<bool>, item: Item)
    requires a in item && item[a].VBool?
    ensures AllHold(BoolTest(a, o), item) <==> (o.Some? ==> GetFlag(item, a) == o.value)
  {
    if o.Some? { EqualityMeaning(a, VBool(o.value), item); }
  }

  lemma ModeTestMeaning(o: Option<RecoveryMode>, item: Item)
    requires AMode in item && item[AMode].VMode?
    ensures AllHold(ModeTest(o), item) <==> (o.Some? ==> GetMode(item) == o.value)
  {
    if o.Some? { EqualityMeaning(AMode, VMode(o.value), item); }
  }
}
