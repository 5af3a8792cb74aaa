/** The repository of idempotency records over one table of stored items. */
module IdempotencyRepository {
  import opened Options
  import opened Faults
  import opened LeaseRecord
  import opened Expressions
  import opened ExpressionBuilder
  import opened LeaseTransitions

  datatype StoreError = Usage(usage: UsageError) | ConditionFailed | ServiceFault

  /** Why a conditional update is refused before any network call. */
  function UpdateProblem(key: string, g: Guard, m: Mutation): Option<UsageError> {
    if key == "" then Some(EmptyKey)
    else if MutationProblem(m).Some? then MutationProblem(m)
    else GuardProblem(g)
  }

  /** The stored item reads as this record. */
  ghost predicate Represents(item: Item, row: Row) {
    Typed(item) && View(item) == row
  }

  class Repository {
    /** The table. */
    var items: map<string, Item>
    /** The faults of the calls to come; calls beyond them are healthy. */
    var faults: seq<Fault>
    /** What a strongly consistent read of each key returns. */
    ghost var rows: map<string, Row>

    ghost predicate Valid()
      reads this
    {
      && items.Keys == rows.Keys && "" !in rows
      && (forall k {:trigger Represents(items[k], rows[k])} :: k in rows ==> Represents(items[k], rows[k]))
      && (forall k :: k in rows ==> rows[k].idempotencyKey == k)
    }

    ghost function RowOf(key: string): Option<Row>
      reads this
    {
      if key in rows then Some(rows[key]) else None
    }

    constructor (calls: seq<Fault>)
      ensures Valid() && rows == map[] && faults == calls
    {
      items, faults, rows := map[], calls, map[];
    }

    method NextFault() returns (f: Fault)
      modifies this`faults
      ensures f == FirstFault(old(faults)) && faults == LaterFaults(old(faults))
    {
      f := FirstFault(faults);
      faults := LaterFaults(faults);
    }

    /** The table's atomic write of one item. */
    method Store(key: string, item: Item, ghost row: Row)
      requires Valid() && Represents(item, row) && key != "" && row.idempotencyKey == key
      modifies this`items, this`rows
      ensures Valid() && rows == old(rows)[key := row]
    {
      items := items[key := item];
      rows := rows[key := row];
    }

    /** The record stored under a key, as the client unmarshals it. */
    method Read(key: string) returns (row: Option<Row>)
      requires Valid()
      ensures row == RowOf(key)
    {
      if key in items {
        assert Represents(items[key], rows[key]);
        return Some(View(items[key]));
      }
      row := None;
    }

    /** Inserts a record whose key is new. */
    method ConditionalPutNew(record: Row) returns (r: Result<Row, StoreError>)
      requires Valid()
      modifies this
      ensures Valid()
      ensures record.idempotencyKey == "" ==> r == Err(Usage(EmptyKey)) && rows == old(rows) && faults == old(faults)
      ensures record.idempotencyKey != "" ==>
        var f := FirstFault(old(faults)); var taken := record.idempotencyKey in old(rows);
        && faults == LaterFaults(old(faults))
        && rows == (if f.Unavailable? || taken then old(rows) else old(rows)[record.idempotencyKey := record])
        && r == Heard(f, if taken then Err(ConditionFailed) else Ok(record), ServiceFault)
    {
      if record.idempotencyKey == "" {
        return Err(Usage(EmptyKey));
      }
      var f := NextFault();
      var taken := record.idempotencyKey in items;
      if !f.Unavailable? && !taken {
        var item := NewItem(record);
        Store(record.idempotencyKey, item, record);
      }
      r := Heard(f, if taken then Err(ConditionFailed) else Ok(record), ServiceFault);
    }

    /** The guarded write: compile, send, and read the new record back. */
    method ConditionalUpdateState(key: string, g: Guard, m: Mutation) returns (r: Result<Row, StoreError>)
      requires Valid() && ClearsNullables(m)
      modifies this
      ensures Valid()
      ensures key == "" ==> r == Err(Usage(EmptyKey)) && rows == old(rows) && faults == old(faults)
      ensures UpdateProblem(key, g, m).Some? ==>
        r == Err(Usage(UpdateProblem(key, g, m).value)) && rows == old(rows) && faults == old(faults)
      ensures UpdateProblem(key, g, m).None? ==>
        var f := FirstFault(old(faults)); var before := old(RowOf(key));
        var holds := Distinct(m.remove) && before.Some? && GuardHolds(g, before.value);
        && faults == LaterFaults(old(faults))
        && rows == (if f.Unavailable? || !holds then old(rows) else old(rows)[key := ApplyToRow(m, before.value)])
        && r == Heard(f, if holds then Ok(ApplyToRow(m, before.value))
                         else Err(if Distinct(m.remove) then ConditionFailed else ServiceFault), ServiceFault)
    {
      if key == "" {
        return Err(Usage(EmptyKey));
      }
      var compiled := Compile(g, m);
      if compiled.Err? {
        return Err(Usage(compiled.error));
      }
      var f := NextFault();
      var stored := if key in items then Some(items[key]) else None;
      var reply, row := Send(compiled.value, g, m, stored, RowOf(key));
      if !f.Unavailable? && reply.Ok? {
        Store(key, reply.value, row);
      }
      var refusal := if reply.Err? && reply.error.ConditionalCheckFailed? then ConditionFailed else ServiceFault;
      r := Heard(f, if reply.Ok? then Ok(View(reply.value)) else Err(refusal), ServiceFault);
    }

    /** One of the table's updates; `Perform` says what it does to the record. */
    method Transition(key: string, u: Update) returns (r: Result<Row, StoreError>)
      requires Valid()
      modifies this
      ensures Valid()
      ensures key == "" ==> r == Err(Usage(EmptyKey)) && rows == old(rows) && faults == old(faults)
      ensures key != "" ==>
        var f := FirstFault(old(faults)); var after := Perform(old(RowOf(key)), u);
        && faults == LaterFaults(old(faults))
        && rows == (if f.Unavailable? || after.None? then old(rows) else old(rows)[key := after.value])
        && r == Heard(f, if after.Some? then Ok(after.value) else Err(ConditionFailed), ServiceFault)
    {
      UpdatesAreUsable(u);
      if key in rows {
        EffectAppliesMutation(u, rows[key]);
      }
      r := ConditionalUpdateState(key, UpdateGuard(u), UpdateMutation(u));
    }

    /** The strongly consistent read; a fault is never reported as an absent key. */
    method GetConsistent(key: string) returns (r: Result<Option<Row>, StoreError>)
      requires Valid()
      modifies this`faults
      ensures Valid()
      ensures key == "" ==> r == Err(Usage(EmptyKey)) && faults == old(faults)
      ensures key != "" ==> faults == LaterFaults(old(faults))
      ensures key != "" ==> r == Heard(FirstFault(old(faults)), Ok(RowOf(key)), ServiceFault)
    {
      if key == "" {
        return Err(Usage(EmptyKey));
      }
      var f := NextFault();
      var row := Read(key);
      r := Heard(f, Ok(row), ServiceFault);
    }
  }

  method NewItem(record: Row) returns (item: Item)
    ensures Represents(item, record)
  {
    PutThenRead(record);
    item := ItemOf(record);
  }

  lemma MutationKeepsKey(m: Mutation, r: Row)
    requires MutationProblem(m).None?
    ensures ApplyToRow(m, r).idempotencyKey == r.idempotencyKey
  {
    assert AKey !in Assigned(m) && Entry(m.assign, AKey).None?;
  }

  /** On a stored record the reply is the mutated record, or the failed condition. */
  lemma ReplyOnRecord(cmd: Command, g: Guard, m: Mutation, item: Item, before: Row)
    requires Compiled(cmd, g, m) && MutationProblem(m).None? && ClearsNullables(m) && Represents(item, before)
    ensures var reply := Respond(cmd, Some(item)); var holds := Distinct(m.remove) && GuardHolds(g, before);
      && (reply.Ok? <==> holds)
      && (reply.Ok? ==> Represents(reply.value, ApplyToRow(m, before)))
      && (reply.Err? ==> reply.error == if Distinct(m.remove) then ConditionalCheckFailed else ValidationException)
  {
    CompilationPreservesMeaning(cmd, g, m, item);
    MutationOnRecord(m, item);
  }

  /** The service's reply to the compiled update, in terms of records. */
  method Send(cmd: Command, ghost g: Guard, ghost m: Mutation, stored: Option<Item>, ghost before: Option<Row>)
    returns (reply: Result<Item, ServiceError>, ghost row: Row)
    requires Compiled(cmd, g, m) && MutationProblem(m).None? && ClearsNullables(m)
    requires stored.Some? <==> before.Some?
    requires stored.Some? ==> Represents(stored.value, before.value)
    ensures reply.Ok? <==> Distinct(m.remove) && before.Some? && GuardHolds(g, before.value)
    ensures reply.Ok? ==> row == ApplyToRow(m, before.value) && Represents(reply.value, row)
    ensures reply.Ok? ==> row.idempotencyKey == before.value.idempotencyKey
    ensures reply.Err? ==> reply.error == if Distinct(m.remove) then ConditionalCheckFailed else ValidationException
  {
    reply := Respond(cmd, stored);
    if stored.Some? {
      row := ApplyToRow(m, before.value);
      ReplyOnRecord(cmd, g, m, stored.value, before.value);
      MutationKeepsKey(m, before.value);
    } else {
      NeverUpserts(cmd, g, m);
      row := *;
    }
  }
}
