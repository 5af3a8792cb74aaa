/** The imperative builder that compiles a guard and a mutation, and why it preserves their meaning. */
module ExpressionBuilder {
  import opened Options
  import opened LeaseRecord
  import opened Expressions

  ghost predicate Extends<K, V>(m: map<K, V>, n: map<K, V>) {
    forall k :: k in m ==> k in n && n[k] == m[k]
  }

  /** Allocates name and value placeholders: one per attribute, a fresh one per value. */
  class ExpressionPlaceholders {
    var nameByAttribute: map<Attribute, nat>
    var valueByPlaceholder: map<nat, Value>
    var valueSeq: nat
    /** The inverse of `nameByAttribute`. */
    ghost var names: map<nat, Attribute>

    ghost predicate Valid()
      reads this
    {
      && (forall a :: a in nameByAttribute ==>
            nameByAttribute[a] < |nameByAttribute| && nameByAttribute[a] in names && names[nameByAttribute[a]] == a)
      && (forall n :: n in names ==> names[n] in nameByAttribute && nameByAttribute[names[n]] == n)
      && (forall v :: v in valueByPlaceholder ==> v < valueSeq)
    }

    constructor ()
      ensures Valid() && names == map[] && valueByPlaceholder == map[]
    {
      nameByAttribute, valueByPlaceholder, valueSeq, names := map[], map[], 0, map[];
    }

    method Name(attribute: Attribute) returns (placeholder: nat)
      requires Valid()
      modifies this
      ensures Valid() && Extends(old(names), names) && valueByPlaceholder == old(valueByPlaceholder)
      ensures placeholder in names && names[placeholder] == attribute
    {
      if attribute in nameByAttribute {
        return nameByAttribute[attribute];
      }
      placeholder := |nameByAttribute|;
      nameByAttribute := nameByAttribute[attribute := placeholder];
      names := names[placeholder := attribute];
    }

    method Value(v: Value) returns (placeholder: nat)
      requires Valid()
      modifies this
      ensures Valid() && names == old(names)
      ensures Extends(old(valueByPlaceholder), valueByPlaceholder)
      ensures placeholder in valueByPlaceholder && valueByPlaceholder[placeholder] == v
    {
      placeholder := valueSeq;
      valueByPlaceholder := valueByPlaceholder[placeholder := v];
      valueSeq := valueSeq + 1;
    }

    /** The alias table handed to the service. */
    method NameTable() returns (out: map<nat, Attribute>)
      requires Valid()
      ensures out == names
    {
      out := map[];
      var todo := nameByAttribute.Keys;
      while todo != {}
        invariant todo <= nameByAttribute.Keys
        invariant forall n :: n in out <==> n in names && names[n] !in todo
        invariant forall n :: n in out ==> out[n] == names[n]
      {
        var a :| a in todo;
        out := out[nameByAttribute[a] := a];
        todo := todo - {a};
      }
    }
  }

  // ----- Meaning survives the allocation of further placeholders -----------

  lemma TermsDenoteLonger(
    ts: seq<Term>, tests: seq<Test>,
    n: map<nat, Attribute>, v: map<nat, Value>, n': map<nat, Attribute>, v': map<nat, Value>)
    requires TermsDenote(ts, tests, n, v) && Extends(n, n') && Extends(v, v')
    ensures TermsDenote(ts, tests, n', v')
  {
    forall i | 0 <= i < |ts| ensures ResolveTerm(ts[i], n', v') == Some(tests[i]) {
      assert ResolveTerm(ts[i], n, v) == Some(tests[i]);
      match ts[i]
      case Exists(_) =>
      case Equals(_, _) =>
      case Less(_, _) =>
      case OneOf(_, vs) =>
        assert seq(|vs|, j requires 0 <= j < |vs| => v'[vs[j]]) == seq(|vs|, j requires 0 <= j < |vs| => v[vs[j]]);
    }
  }

  lemma ClausesDenoteLonger(
    cs: seq<Clause>, ps: seq<(Attribute, Source)>,
    n: map<nat, Attribute>, v: map<nat, Value>, n': map<nat, Attribute>, v': map<nat, Value>)
    requires ClausesDenote(cs, ps, n, v) && Extends(n, n') && Extends(v, v')
    ensures ClausesDenote(cs, ps, n', v')
  {
    forall i | 0 <= i < |cs| ensures ResolveClause(cs[i], n', v') == Some(ps[i]) {
      assert ResolveClause(cs[i], n, v) == Some(ps[i]);
    }
  }

  // ----- buildGuardConditions ----------------------------------------------

  /** Appends `attribute = value` when the guard field is given. */
  method PushEquals(
    ph: ExpressionPlaceholders, conditions: seq<Term>, ghost tests: seq<Test>, attribute: Attribute, v: Option<Value>)
    returns (out: seq<Term>)
    requires ph.Valid() && TermsDenote(conditions, tests, ph.names, ph.valueByPlaceholder)
    modifies ph
    ensures ph.Valid()
    ensures TermsDenote(out, tests + if v.Some? then [IsEqual(attribute, v.value)] else [],
                        ph.names, ph.valueByPlaceholder)
    ensures |out| == |conditions| + if v.Some? then 1 else 0
  {
    out := conditions;
    if v.Some? {
      var n := ph.Name(attribute);
      var p := ph.Value(v.value);
      out := conditions + [Equals(n, p)];
      TermsDenoteLonger(conditions, tests, old(ph.names), old(ph.valueByPlaceholder),
                        ph.names, ph.valueByPlaceholder);
    } else {
      assert tests + [] == tests;
    }
  }

  /** Appends `attribute < value` when the guard field is given. */
  method PushLess(
    ph: ExpressionPlaceholders, conditions: seq<Term>, ghost tests: seq<Test>, attribute: Attribute, v: Option<int>)
    returns (out: seq<Term>)
    requires ph.Valid() && TermsDenote(conditions, tests, ph.names, ph.valueByPlaceholder)
    modifies ph
    ensures ph.Valid()
    ensures TermsDenote(out, tests + BeforeTest(attribute, v), ph.names, ph.valueByPlaceholder)
    ensures |out| == |conditions| + if v.Some? then 1 else 0
  {
    out := conditions;
    if v.Some? {
      var n := ph.Name(attribute);
      var p := ph.Value(VNumber(v.value));
      out := conditions + [Less(n, p)];
      TermsDenoteLonger(conditions, tests, old(ph.names), old(ph.valueByPlaceholder),
                        ph.names, ph.valueByPlaceholder);
    } else {
      assert tests + [] == tests;
    }
  }

  /** One value placeholder per allowed status. */
  method PushStatusValues(ph: ExpressionPlaceholders, ss: seq<Status>) returns (vs: seq<nat>)
    requires ph.Valid()
    modifies ph
    ensures ph.Valid() && ph.names == old(ph.names) && |vs| == |ss|
    ensures forall j :: 0 <= j < |ss| ==>
      vs[j] in ph.valueByPlaceholder && ph.valueByPlaceholder[vs[j]] == VStatus(ss[j])
  {
    vs := [];
    for i := 0 to |ss|
      invariant ph.Valid() && ph.names == old(ph.names) && |vs| == i
      invariant forall j :: 0 <= j < i ==>
        vs[j] in ph.valueByPlaceholder && ph.valueByPlaceholder[vs[j]] == VStatus(ss[j])
    {
      var p := ph.Value(VStatus(ss[i]));
      vs := vs + [p];
    }
  }

  lemma OneOfResolves(n: nat, vs: seq<nat>, ss: seq<Status>, names: map<nat, Attribute>, values: map<nat, Value>)
    requires n in names && names[n] == AStatus && |vs| == |ss|
    requires forall j :: 0 <= j < |ss| ==> vs[j] in values && values[vs[j]] == VStatus(ss[j])
    ensures TermsDenote([OneOf(n, vs)], StatusTest(StatusIn(ss)), names, values)
  {
    assert seq(|vs|, i requires 0 <= i < |vs| => values[vs[i]])
        == seq(|ss|, i requires 0 <= i < |ss| => VStatus(ss[i]));
  }

  method PushStatus(ph: ExpressionPlaceholders, g: StatusGuard) returns (out: seq<Term>)
    requires ph.Valid() && g != StatusIn([])
    modifies ph
    ensures ph.Valid() && TermsDenote(out, StatusTest(g), ph.names, ph.valueByPlaceholder)
    ensures |out| == if g.AnyStatus? then 0 else 1
  {
    match g
    case AnyStatus => out := [];
    case StatusIs(s) =>
      out := PushEquals(ph, [], [], AStatus, Some(VStatus(s)));
    case StatusIn(ss) =>
      var vs := PushStatusValues(ph, ss);
      var n := ph.Name(AStatus);
      out := [OneOf(n, vs)];
      OneOfResolves(n, vs, ss, ph.names, ph.valueByPlaceholder);
  }

  /** The conditions on who holds the row. */
  method BuildFencingConditions(ph: ExpressionPlaceholders, g: Guard) returns (out: seq<Term>)
    requires ph.Valid() && g.status != StatusIn([])
    modifies ph
    ensures ph.Valid()
    ensures TermsDenote(out, StatusTest(g.status) + TextTest(ALeaseOwner, g.leaseOwner)
                             + NumberTest(AAttemptCount, g.attemptCount) + ModeTest(g.recoveryMode)
                             + TextTest(AExecutionArn, g.executionArn), ph.names, ph.valueByPlaceholder)
    ensures out == [] <==> g.status.AnyStatus? && g.leaseOwner.None? && g.attemptCount.None?
                           && g.recoveryMode.None? && g.executionArn.None?
  {
    out := PushStatus(ph, g.status);
    ghost var tests := StatusTest(g.status);
    out := PushEquals(ph, out, tests, ALeaseOwner, MapSome(g.leaseOwner, (s: string) => VText(s)));
    tests := tests + TextTest(ALeaseOwner, g.leaseOwner);
    out := PushEquals(ph, out, tests, AAttemptCount, MapSome(g.attemptCount, (n: int) => VNumber(n)));
    tests := tests + NumberTest(AAttemptCount, g.attemptCount);
    out := PushEquals(ph, out, tests, AMode, MapSome(g.recoveryMode, (m: RecoveryMode) => VMode(m)));
    tests := tests + ModeTest(g.recoveryMode);
    out := PushEquals(ph, out, tests, AExecutionArn, MapSome(g.executionArn, (s: string) => VText(s)));
  }

  /** The guard's conditions in source order; the ensures says what they test. */
  method BuildGuardConditions(ph: ExpressionPlaceholders, g: Guard) returns (out: seq<Term>)
    requires ph.Valid() && g.status != StatusIn([])
    modifies ph
    ensures ph.Valid() && TermsDenote(out, GuardTests(g), ph.names, ph.valueByPlaceholder)
    ensures out == [] <==> GuardIsEmpty(g)
  {
    out := BuildFencingConditions(ph, g);
    ghost var tests := StatusTest(g.status) + TextTest(ALeaseOwner, g.leaseOwner)
                       + NumberTest(AAttemptCount, g.attemptCount) + ModeTest(g.recoveryMode)
                       + TextTest(AExecutionArn, g.executionArn);
    out := PushEquals(ph, out, tests, ACoreCommitted, MapSome(g.coreCommitted, (b: bool) => VBool(b)));
    tests := tests + BoolTest(ACoreCommitted, g.coreCommitted);
    out := PushEquals(ph, out, tests, ARetryable, MapSome(g.retryable, (b: bool) => VBool(b)));
    tests := tests + BoolTest(ARetryable, g.retryable);
    out := PushEquals(ph, out, tests, ADeadline, MapSome(g.deadline, (n: int) => VNumber(n)));
    tests := tests + NumberTest(ADeadline, g.deadline);
    out := PushLess(ph, out, tests, ADeadline, g.deadlineBefore);
    tests := tests + BeforeTest(ADeadline, g.deadlineBefore);
    out := PushLess(ph, out, tests, ALeaseExpiresAt, g.leaseExpiresBefore);
  }

  // ----- The update expression ---------------------------------------------

  /** The SET pairs say exactly what the mutation writes. */
  ghost predicate WritesMutation(ps: seq<(Attribute, Source)>, m: Mutation) {
    && Distinct(Targets(ps))
    && (forall a :: a in SetMap(ps) <==> a in WrittenAttributes(m))
    && (forall a :: a in Assigned(m) && a in SetMap(ps) ==> SetMap(ps)[a] == FromValue(Assigned(m)[a]))
    && (m.increment.Some? && AAttemptCount in SetMap(ps) ==>
          SetMap(ps)[AAttemptCount] == FromSum(AAttemptCount, VNumber(m.increment.value)))
  }

  lemma SetMapAppend(ps: seq<(Attribute, Source)>, p: (Attribute, Source))
    ensures SetMap(ps + [p]) == SetMap(ps)[p.0 := p.1]
  {
    assert (ps + [p])[..|ps|] == ps;
  }

  lemma SetMapKeys(ps: seq<(Attribute, Source)>, a: Attribute)
    ensures a in SetMap(ps) <==> a in Targets(ps)
  {
    if ps != [] {
      var front := ps[..|ps| - 1];
      SetMapKeys(front, a);
      assert ps == front + [ps[|ps| - 1]];
      assert Targets(ps) == Targets(front) + [ps[|ps| - 1].0];
    }
  }

  lemma TargetsAppend(ps: seq<(Attribute, Source)>, p: (Attribute, Source))
    requires Distinct(Targets(ps)) && p.0 !in SetMap(ps)
    ensures Distinct(Targets(ps + [p]))
  {
    SetMapKeys(ps, p.0);
    assert Targets(ps + [p]) == Targets(ps) + [p.0];
  }

  /** `SET target = value`. */
  method PushAssign(
    ph: ExpressionPlaceholders, clauses: seq<Clause>, ghost ps: seq<(Attribute, Source)>, a: Attribute, value: Value)
    returns (out: seq<Clause>)
    requires ph.Valid() && ClausesDenote(clauses, ps, ph.names, ph.valueByPlaceholder)
    modifies ph
    ensures ph.Valid() && Extends(old(ph.names), ph.names)
    ensures Extends(old(ph.valueByPlaceholder), ph.valueByPlaceholder)
    ensures ClausesDenote(out, ps + [(a, FromValue(value))], ph.names, ph.valueByPlaceholder)
  {
    ghost var n0, v0 := ph.names, ph.valueByPlaceholder;
    var n := ph.Name(a);
    var v := ph.Value(value);
    ClausesDenoteLonger(clauses, ps, n0, v0, ph.names, ph.valueByPlaceholder);
    out := clauses + [Assign(n, v)];
  }

  /** `SET target = target + value`. */
  method PushIncrement(
    ph: ExpressionPlaceholders, clauses: seq<Clause>, ghost ps: seq<(Attribute, Source)>, a: Attribute, amount: int)
    returns (out: seq<Clause>)
    requires ph.Valid() && ClausesDenote(clauses, ps, ph.names, ph.valueByPlaceholder)
    modifies ph
    ensures ph.Valid() && Extends(old(ph.names), ph.names)
    ensures Extends(old(ph.valueByPlaceholder), ph.valueByPlaceholder)
    ensures ClausesDenote(out, ps + [(a, FromSum(a, VNumber(amount)))], ph.names, ph.valueByPlaceholder)
  {
    ghost var n0, v0 := ph.names, ph.valueByPlaceholder;
    var n := ph.Name(a);
    var v := ph.Value(VNumber(amount));
    ClausesDenoteLonger(clauses, ps, n0, v0, ph.names, ph.valueByPlaceholder);
    out := clauses + [Add(n, n, v)];
  }

  /** SET clauses for the defined entries, taken in an arbitrary order, then the increment. */
  method BuildSetClauses(ph: ExpressionPlaceholders, m: Mutation)
    returns (out: seq<Clause>, ghost ps: seq<(Attribute, Source)>)
    requires ph.Valid() && MutationProblem(m).None?
    modifies ph
    ensures ph.Valid() && Extends(old(ph.names), ph.names)
    ensures Extends(old(ph.valueByPlaceholder), ph.valueByPlaceholder)
    ensures ClausesDenote(out, ps, ph.names, ph.valueByPlaceholder) && WritesMutation(ps, m)
  {
    out, ps := [], [];
    var entries := Assigned(m);
    var todo := entries.Keys;
    while todo != {}
      invariant todo <= entries.Keys
      invariant ph.Valid() && Extends(old(ph.names), ph.names)
      invariant Extends(old(ph.valueByPlaceholder), ph.valueByPlaceholder)
      invariant ClausesDenote(out, ps, ph.names, ph.valueByPlaceholder)
      invariant Distinct(Targets(ps))
      invariant forall a :: a in SetMap(ps) <==> a in entries && a !in todo
      invariant forall a :: a in SetMap(ps) ==> SetMap(ps)[a] == FromValue(entries[a])
    {
      var a :| a in todo;
      out := PushAssign(ph, out, ps, a, entries[a]);
      SetMapAppend(ps, (a, FromValue(entries[a])));
      TargetsAppend(ps, (a, FromValue(entries[a])));
      ps := ps + [(a, FromValue(entries[a]))];
      todo := todo - {a};
    }
    if m.increment.Some? {
      out := PushIncrement(ph, out, ps, AAttemptCount, m.increment.value);
      SetMapAppend(ps, (AAttemptCount, FromSum(AAttemptCount, VNumber(m.increment.value))));
      TargetsAppend(ps, (AAttemptCount, FromSum(AAttemptCount, VNumber(m.increment.value))));
      ps := ps + [(AAttemptCount, FromSum(AAttemptCount, VNumber(m.increment.value)))];
    }
  }

  method BuildRemoveClauses(ph: ExpressionPlaceholders, remove: seq<Attribute>) returns (out: seq<nat>)
    requires ph.Valid()
    modifies ph
    ensures ph.Valid() && Extends(old(ph.names), ph.names) && ph.valueByPlaceholder == old(ph.valueByPlaceholder)
    ensures RemovesDenote(out, remove, ph.names)
  {
    out := [];
    for i := 0 to |remove|
      invariant ph.Valid() && Extends(old(ph.names), ph.names) && ph.valueByPlaceholder == old(ph.valueByPlaceholder)
      invariant RemovesDenote(out, remove[..i], ph.names)
    {
      var n := ph.Name(remove[i]);
      out := out + [n];
      assert remove[..i + 1] == remove[..i] + [remove[i]];
    }
    assert remove[..|remove|] == remove;
  }

  /** What `cmd` must denote for a guard and a mutation. */
  ghost predicate Compiled(cmd: Command, g: Guard, m: Mutation) {
    exists ps ::
      && TermsDenote(cmd.condition, [IsPresent(AKey)] + GuardTests(g), cmd.names, cmd.values)
      && ClausesDenote(cmd.sets, ps, cmd.names, cmd.values) && WritesMutation(ps, m)
      && RemovesDenote(cmd.removes, m.remove, cmd.names)
  }

  /** The finished command denotes what its parts denoted when they were built. */
  lemma PartsCompile(
    cmd: Command, g: Guard, m: Mutation, key: nat, conditions: seq<Term>, ps: seq<(Attribute, Source)>,
    n0: map<nat, Attribute>, v0: map<nat, Value>, n1: map<nat, Attribute>, v1: map<nat, Value>)
    requires TermsDenote(conditions, GuardTests(g), n0, v0) && Extends(n0, cmd.names) && Extends(v0, cmd.values)
    requires ClausesDenote(cmd.sets, ps, n1, v1) && Extends(n1, cmd.names) && Extends(v1, cmd.values)
    requires WritesMutation(ps, m) && RemovesDenote(cmd.removes, m.remove, cmd.names)
    requires key in cmd.names && cmd.names[key] == AKey && cmd.condition == [Exists(key)] + conditions
    ensures Compiled(cmd, g, m)
  {
    TermsDenoteLonger(conditions, GuardTests(g), n0, v0, cmd.names, cmd.values);
    ClausesDenoteLonger(cmd.sets, ps, n1, v1, cmd.names, cmd.values);
    PresenceFirst(key, conditions, GuardTests(g), cmd.names, cmd.values);
  }

  lemma PresenceFirst(key: nat, ts: seq<Term>, tests: seq<Test>, names: map<nat, Attribute>, values: map<nat, Value>)
    requires TermsDenote(ts, tests, names, values) && key in names && names[key] == AKey
    ensures TermsDenote([Exists(key)] + ts, [IsPresent(AKey)] + tests, names, values)
  {
  }

  /** The parts of the command for a usable guard and mutation. */
  method Assemble(ph: ExpressionPlaceholders, guardConditions: seq<Term>, g: Guard, m: Mutation) returns (cmd: Command)
    requires ph.Valid() && MutationProblem(m).None?
    requires TermsDenote(guardConditions, GuardTests(g), ph.names, ph.valueByPlaceholder)
    modifies ph
    ensures Compiled(cmd, g, m)
  {
    ghost var n0, v0 := ph.names, ph.valueByPlaceholder;
    var setClauses, ps := BuildSetClauses(ph, m);
    ghost var n1, v1 := ph.names, ph.valueByPlaceholder;
    var removeClauses := BuildRemoveClauses(ph, m.remove);
    var key := ph.Name(AKey);
    var names := ph.NameTable();
    cmd := Command([Exists(key)] + guardConditions, setClauses, removeClauses, names, ph.valueByPlaceholder);
    PartsCompile(cmd, g, m, key, guardConditions, ps, n0, v0, n1, v1);
  }

  /** The command for one conditional update, or why the call can never be correct. */
  method Compile(g: Guard, m: Mutation) returns (r: Result<Command, UsageError>)
    ensures MutationProblem(m).Some? ==> r == Err(MutationProblem(m).value)
    ensures MutationProblem(m).None? && GuardProblem(g).Some? ==> r == Err(GuardProblem(g).value)
    ensures MutationProblem(m).None? && GuardProblem(g).None? ==> r.Ok? && Compiled(r.value, g, m)
  {
    var problem := MutationProblem(m);
    if problem.Some? {
      return Err(problem.value);
    }
    if g.status == StatusIn([]) {
      return Err(EmptyStatusList);
    }
    var ph := new ExpressionPlaceholders();
    var guardConditions := BuildGuardConditions(ph, g);
    if guardConditions == [] {
      return Err(EmptyGuard);
    }
    var cmd := Assemble(ph, guardConditions, g, m);
    r := Ok(cmd);
  }

  // ----- Compilation preserves meaning --------------------------------------

  /** The reply the declarative guard and mutation call for. */
  ghost function Expected(g: Guard, m: Mutation, item: Item): Result<Item, ServiceError> {
    if !Distinct(m.remove) then Err(ValidationException)
    else if !GuardHolds(g, View(item)) then Err(ConditionalCheckFailed)
    else Ok(Mutated(m, item))
  }

  lemma PathsOverlap(ps: seq<(Attribute, Source)>, m: Mutation)
    requires WritesMutation(ps, m) && MutationProblem(m).None?
    ensures Distinct(Targets(ps) + m.remove) <==> Distinct(m.remove)
  {
    var paths := Targets(ps) + m.remove;
    forall i, j | 0 <= i < |ps| <= j < |paths| ensures paths[i] != paths[j] {
      assert paths[i] in Targets(ps);
      SetMapKeys(ps, paths[i]);
      assert paths[j] in m.remove;
    }
    forall i, j | 0 <= i < j < |m.remove| ensures paths[|ps| + i] == m.remove[i] && paths[|ps| + j] == m.remove[j] {
    }
  }

  lemma WrittenIsMutated(s: map<Attribute, Source>, m: Mutation, item: Item)
    requires MutationProblem(m).None? && AAttemptCount in item && item[AAttemptCount].VNumber?
    requires forall a :: a in s <==> a in WrittenAttributes(m)
    requires forall a :: a in Assigned(m) && a in s ==> s[a] == FromValue(Assigned(m)[a])
    requires m.increment.Some? && AAttemptCount in s ==>
               s[AAttemptCount] == FromSum(AAttemptCount, VNumber(m.increment.value))
    ensures forall a :: a in s ==> CanEvaluate(s[a], item)
    ensures Written(s, m.remove, item) == Mutated(m, item)
  {
  }

  /** Executing what the mutation denotes is the mutation. */
  lemma ExecuteMeaning(ps: seq<(Attribute, Source)>, g: Guard, m: Mutation, item: Item)
    requires WritesMutation(ps, m) && MutationProblem(m).None? && Typed(item)
    ensures Execute([IsPresent(AKey)] + GuardTests(g), ps, m.remove, Some(item)) == Expected(g, m, item)
  {
    PathsOverlap(ps, m);
    TypedColumns(item);
    WrittenIsMutated(SetMap(ps), m, item);
    GuardTestsMeaning(g, item);
    AllHoldAppend([IsPresent(AKey)], GuardTests(g), item);
  }

  lemma ResponseExecutes(cmd: Command, g: Guard, m: Mutation, stored: Option<Item>)
    returns (ps: seq<(Attribute, Source)>)
    requires Compiled(cmd, g, m)
    ensures WritesMutation(ps, m)
    ensures Respond(cmd, stored) == Execute([IsPresent(AKey)] + GuardTests(g), ps, m.remove, stored)
  {
    var tests := [IsPresent(AKey)] + GuardTests(g);
    ps :| TermsDenote(cmd.condition, tests, cmd.names, cmd.values)
      && ClausesDenote(cmd.sets, ps, cmd.names, cmd.values) && WritesMutation(ps, m)
      && RemovesDenote(cmd.removes, m.remove, cmd.names);
    TermsResolve(cmd.condition, tests, cmd.names, cmd.values);
    ClausesResolve(cmd.sets, ps, cmd.names, cmd.values);
    NamesResolve(cmd.removes, m.remove, cmd.names);
  }

  /**
   The service's reply to the generated command is, on every stored record, the one the
   guard and the mutation call for.
   */
  lemma CompilationPreservesMeaning(cmd: Command, g: Guard, m: Mutation, item: Item)
    requires Compiled(cmd, g, m) && MutationProblem(m).None? && Typed(item)
    ensures Respond(cmd, Some(item)) == Expected(g, m, item)
  {
    var ps := ResponseExecutes(cmd, g, m, Some(item));
    ExecuteMeaning(ps, g, m, item);
  }

  /** An update of a missing key fails its condition: it never upserts a partial record. */
  lemma NeverUpserts(cmd: Command, g: Guard, m: Mutation)
    requires Compiled(cmd, g, m) && MutationProblem(m).None?
    ensures Respond(cmd, None) == Err(if Distinct(m.remove) then ConditionalCheckFailed else ValidationException)
  {
    var ps := ResponseExecutes(cmd, g, m, None);
    PathsOverlap(ps, m);
    var tests := [IsPresent(AKey)] + GuardTests(g);
    assert tests[0] == IsPresent(AKey) && tests[0] in tests;
  }
}
