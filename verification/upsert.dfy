/**
  `upsert(entity, ...uniqueFields)`: look a row up by the named fields, then
  update it when one exists and create one otherwise.
 */
module Upserts {
  import opened Wrappers
  import opened Values
  import opened Errors
  import opened Decorators
  import opened Entities
  import opened Client
  import opened Find
  import opened Writes

  /** `uniqueFields.map(f => `${f} = $${f}`).join(' AND ')`: `id` gets no special treatment here. */
  function LookupConditions(fields: seq<string>): string {
    Join(seq(|fields|, i requires 0 <= i < |fields| => PlainCondition(fields[i])), " AND ")
  }

  /**
    `SELECT * FROM ${table} WHERE ${conditions} LIMIT 1`. Without an `id`
    among the named fields, it is the very query `findUnique` would send.
   */
  function LookupQuery(table: string, fields: seq<string>): (r: string)
    ensures "id" !in fields ==> r == UniqueQuery(table, fields)
  {
    assert "id" !in fields ==>
             (seq(|fields|, i requires 0 <= i < |fields| => PlainCondition(fields[i]))
              == seq(|fields|, i requires 0 <= i < |fields| => Condition(fields[i])));
    "SELECT * FROM " + table + " WHERE " + LookupConditions(fields) + " LIMIT 1"
  }

  /** With `id` named, the lookup compares `id` as a plain column, unlike `findUnique`. */
  lemma LookupQueryDiffersOnId(table: string)
    ensures LookupQuery(table, ["id"]) == "SELECT * FROM " + table + " WHERE id = $id LIMIT 1"
    ensures LookupQuery(table, ["id"]) != UniqueQuery(table, ["id"])
  {
    var plain := "SELECT * FROM " + table + " WHERE " + "id = $id" + " LIMIT 1";
    var special := "SELECT * FROM " + table + " WHERE " + IdCondition + " LIMIT 1";
    assert |plain| != |special|;
  }

  /**
    `Object.fromEntries(uniqueFields.map(f => [f, entity[f]]))`: each named
    field bound to the entity's current value; nothing else, not even `table`.
   */
  function LookupParams(fields: Object, names: seq<string>): (r: Object)
    ensures forall k :: Lookup(r, k) == if k in names then Some(Get(fields, k)) else None
  {
    var entries := seq(|names|, i requires 0 <= i < |names| => Entry(names[i], Get(fields, names[i])));
    forall k
      ensures Lookup(entries, k) == if k in names then Some(Get(fields, k)) else None
    {
      LookupUniform(entries, k, Get(fields, k));
      if k in names {
        var i :| 0 <= i < |names| && names[i] == k;
        assert entries[i].key == k;
      }
    }
    Assign([], entries)
  }

  /**
    `result[0].result?.[0]`: the lookup reads only the envelope shape; reading
    `[0]` of a nullish response or `.result` of a nullish first statement throws.
   */
  function ExistingRow(response: Value): (r: Result<Value, Error>)
    ensures Nullish(response) || Nullish(At(response, 0)) <==> r.Err?
    ensures r.Ok? ==> r.value == At(Member(At(response, 0), "result"), 0)
  {
    if Nullish(response) then Err(TypeError("Cannot read properties of undefined (reading '0')"))
    else if Nullish(At(response, 0)) then Err(TypeError("Cannot read properties of undefined (reading 'result')"))
    else Ok(At(Member(At(response, 0), "result"), 0))
  }

  /**
    `upsert` as written. A found row's id is stored on the entity as its
    string form, which `update` then qualifies with the table a second time.
   */
  function Upsert(client: Option<Handle>, reg: Registry, e: Instance, names: seq<string>,
                  lookup: Reply, write: Reply): (r: Mutation)
    ensures client.None? ==> r == Mutation([], e, Some(NotConnected))
    ensures client.Some? && TableNameOf(reg, e.cls).Err? ==> r == Mutation([], e, Some(TableNameOf(reg, e.cls).error))
    ensures r.calls != [] ==>
              && client.Some? && TableNameOf(reg, e.cls).Ok?
              && r.calls[0] == Query(LookupQuery(TableNameOf(reg, e.cls).value, names), Some(LookupParams(e.fields, names)))
    ensures client.Some? && TableNameOf(reg, e.cls).Ok? ==> r.calls != []
    ensures r.calls != [] && lookup.Threw? ==> r == Mutation([r.calls[0]], e, Some(ClientError(lookup.message)))
    // a found row: the entity takes the row id's string form and is updated
    ensures r.calls != [] && lookup.Returned? && ExistingRow(lookup.value).Ok? && Truthy(ExistingRow(lookup.value).value)
            && !Nullish(Member(ExistingRow(lookup.value).value, "id")) ==>
              var e' := e.(fields := Put(e.fields, "id", Str(ToStr(Member(ExistingRow(lookup.value).value, "id")))));
              var u := Update(client, reg, e', write);
              r == Mutation([r.calls[0]] + u.calls, u.entity, u.error)
    // no row: the entity is created
    ensures r.calls != [] && lookup.Returned? && ExistingRow(lookup.value).Ok? && !Truthy(ExistingRow(lookup.value).value) ==>
              var c := Create(client, reg, e, write);
              r == Mutation([r.calls[0]] + c.calls, c.entity, c.error)
    // an unreadable reply, or a found row without an id, throws after the lookup alone
    ensures r.calls != [] && lookup.Returned?
            && (ExistingRow(lookup.value).Err?
                || (Truthy(ExistingRow(lookup.value).value) && Nullish(Member(ExistingRow(lookup.value).value, "id")))) ==>
              |r.calls| == 1 && r.entity == e && r.error.Some? && r.error.value.TypeError?
  {
    if client.None? then Mutation([], e, Some(NotConnected))
    else
      match TableNameOf(reg, e.cls)
      case Err(err) => Mutation([], e, Some(err))
      case Ok(table) =>
        var call := Query(LookupQuery(table, names), Some(LookupParams(e.fields, names)));
        match lookup
        case Threw(m) => Mutation([call], e, Some(ClientError(m)))
        case Returned(v) =>
          match ExistingRow(v)
          case Err(err) => Mutation([call], e, Some(err))
          case Ok(existing) =>
            if Truthy(existing) then
              var id := Member(existing, "id");
              if Nullish(id) then
                Mutation([call], e, Some(TypeError("Cannot read properties of undefined (reading 'toString')")))
              else
                var u := Update(client, reg, e.(fields := Put(e.fields, "id", Str(ToStr(id)))), write);
                Mutation([call] + u.calls, u.entity, u.error)
            else
              var c := Create(client, reg, e, write);
              Mutation([call] + c.calls, c.entity, c.error)
  }

  /** The envelope reply `[{ result: rows }]` of a single statement, the shape the lookup reads. */
  function Envelope(rows: seq<Value>): Value {
    Arr([Obj([Entry("result", Arr(rows))])])
  }

  /** The first row of an envelope is the row the lookup settles on. */
  lemma EnvelopeExistingRow(rows: seq<Value>)
    requires |rows| > 0
    ensures ExistingRow(Envelope(rows)) == Ok(rows[0])
  {
    assert At(Envelope(rows), 0) == Obj([Entry("result", Arr(rows))]);
    assert Member(At(Envelope(rows), 0), "result") == Arr(rows);
  }

  /**
    As written, the update never addresses the row the lookup found: a row
    with id `t:k` has its id turned into the string `"t:k"`, which `update`
    wraps again as the reference `(table, "t:k")`.
   */
  lemma UpsertUpdatesAnotherRecord(client: Option<Handle>, reg: Registry, e: Instance, names: seq<string>,
                                   row: Value, t: string, k: string, write: Reply)
    requires client.Some? && TableNameOf(reg, e.cls).Ok?
    requires row.Obj? && Member(row, "id") == RecordId(t, k)
    ensures var r := Upsert(client, reg, e, names, Returned(Envelope([row])), write);
            && |r.calls| == 2
            && r.calls[1] == UpdateRecord(RecordId(TableNameOf(reg, e.cls).value, t + ":" + k), ToJson(e.fields))
            && r.calls[1].ref != RecordId(t, k)
  {
    EnvelopeExistingRow([row]);
    var s := t + ":" + k;
    assert ToStr(Member(row, "id")) == s;
    UpdateWithId(client, reg, e, Str(s), write);
    assert |s| > |k|;
  }

  function ExampleUsers(): EntityClass {
    EntityClass(Metadata.ClassId(1), "User", Some("users"), [])
  }

  function ExampleRow(email: string): Value {
    Obj([Entry("id", RecordId("users", "abc")), Entry("email", Str(email))])
  }

  /** The example's row has the id `users:abc`. */
  lemma ExampleRowId(email: string)
    ensures Member(ExampleRow(email), "id") == RecordId("users", "abc")
  {
    var entries := [Entry("id", RecordId("users", "abc")), Entry("email", Str(email))];
    assert entries[..1] == [Entry("id", RecordId("users", "abc"))];
    assert Lookup(entries[..1], "id") == Some(RecordId("users", "abc"));
  }

  /** The example entity's payload is its email alone. */
  lemma ExamplePayload(email: string)
    ensures ToJson([Entry("email", Str(email))]) == [Entry("email", Str(email))]
  {
    assert [Entry("email", Str(email))][..0] == [];
  }

  /**
    An instance: with the row `users:abc` found by its email, the update goes
    to the record `users:⟨users:abc⟩` instead.
   */
  lemma UpsertUpdatesAnotherRecordExample(email: string)
    ensures var e := Instance(ExampleUsers(), [Entry("email", Str(email))]);
            var r := Upsert(Some(Handle(1, true)), map[], e, ["email"], Returned(Envelope([ExampleRow(email)])),
                            Returned(Undefined));
            |r.calls| == 2 && r.calls[1] == UpdateRecord(RecordId("users", "users:abc"), [Entry("email", Str(email))])
  {
    assert "users" + ":" + "abc" == "users:abc";
    var e := Instance(ExampleUsers(), [Entry("email", Str(email))]);
    ExampleRowId(email);
    assert TableNameOf(map[], ExampleUsers()) == Ok("users");
    UpsertUpdatesAnotherRecord(Some(Handle(1, true)), map[], e, ["email"], ExampleRow(email), "users", "abc",
                               Returned(Undefined));
    ExamplePayload(email);
  }

  /**
    The lookup reply is a list of statements, each the array of its rows (the
    shape `findUnique` reads), and its first row is one `findUnique` would
    return. As written, the lookup still finds nothing there.
   */
  lemma UpsertIgnoresStatementRows(client: Option<Handle>, reg: Registry, e: Instance, names: seq<string>,
                                   rows: seq<Value>, more: seq<Value>, write: Reply)
    requires client.Some? && TableNameOf(reg, e.cls).Ok?
    requires |rows| > 0 && Truthy(rows[0])
    ensures At(At(Arr([Arr(rows)] + more), 0), 0) == rows[0]
    ensures var r := Upsert(client, reg, e, names, Returned(Arr([Arr(rows)] + more)), write);
            |r.calls| == 2 && r.calls[1] == CreateRecord(TableNameOf(reg, e.cls).value, ToJson(e.fields))
  {
    StatementRowsHaveNoEnvelope(rows, more);
  }

  /** A statement-array reply has no `result` member to read, so the lookup settles on no row. */
  lemma StatementRowsHaveNoEnvelope(rows: seq<Value>, more: seq<Value>)
    ensures ExistingRow(Arr([Arr(rows)] + more)) == Ok(Undefined)
  {
    assert At(Arr([Arr(rows)] + more), 0) == Arr(rows);
    NoNamedMemberOnArrays(rows, "result");
    assert At(Undefined, 0) == Undefined;
  }

  /** The row the lookup settles on, read as `findUnique` reads it: `result?.[0]?.[0]`. */
  function FirstRow(response: Value): Value {
    At(At(response, 0), 0)
  }

  /**
    `upsert` with both lookups repaired: the found row is read where
    `findUnique` reads it, and its id is kept as the record reference it is
    (`entity.id = existing.id`), so that `update` addresses that very record.
   */
  function UpsertIntended(client: Option<Handle>, reg: Registry, e: Instance, names: seq<string>,
                          lookup: Reply, write: Reply): (r: Mutation)
    ensures client.None? ==> r == Mutation([], e, Some(NotConnected))
    ensures client.Some? && TableNameOf(reg, e.cls).Err? ==> r == Mutation([], e, Some(TableNameOf(reg, e.cls).error))
    ensures r.calls != [] ==>
              && client.Some? && TableNameOf(reg, e.cls).Ok?
              && r.calls[0] == Query(LookupQuery(TableNameOf(reg, e.cls).value, names), Some(LookupParams(e.fields, names)))
    ensures client.Some? && TableNameOf(reg, e.cls).Ok? ==> r.calls != []
    ensures r.calls != [] && lookup.Threw? ==> r == Mutation([r.calls[0]], e, Some(ClientError(lookup.message)))
    // a reply with no first row: the entity is created
    ensures r.calls != [] && lookup.Returned? && !Truthy(FirstRow(lookup.value)) ==>
              var c := Create(client, reg, e, write);
              r == Mutation([r.calls[0]] + c.calls, c.entity, c.error)
    // a found row is updated exactly when it carries an id
    ensures r.calls != [] && lookup.Returned? ==>
              ((|r.calls| == 2 && r.calls[1].UpdateRecord?) <==>
                 Truthy(FirstRow(lookup.value)) && Truthy(Member(FirstRow(lookup.value), "id")))
    // a found row is handed to `update` with its id kept as it is, and `update` decides the outcome
    ensures r.calls != [] && lookup.Returned? && Truthy(FirstRow(lookup.value)) ==>
              var u := Update(client, reg, e.(fields := Put(e.fields, "id", Member(FirstRow(lookup.value), "id"))), write);
              r == Mutation([r.calls[0]] + u.calls, u.entity, u.error)
    // a found row without an id reaches `update`, whose id guard rejects it: nothing is created,
    // and the entity keeps the falsy id it was given
    ensures r.calls != [] && lookup.Returned? && Truthy(FirstRow(lookup.value))
            && !Truthy(Member(FirstRow(lookup.value), "id")) ==>
              && |r.calls| == 1 && r.error == Some(UpdateWithoutId)
              && r.entity == e.(fields := Put(e.fields, "id", Member(FirstRow(lookup.value), "id")))
  {
    if client.None? then Mutation([], e, Some(NotConnected))
    else
      match TableNameOf(reg, e.cls)
      case Err(err) => Mutation([], e, Some(err))
      case Ok(table) =>
        var call := Query(LookupQuery(table, names), Some(LookupParams(e.fields, names)));
        match lookup
        case Threw(m) => Mutation([call], e, Some(ClientError(m)))
        case Returned(v) =>
          var existing := FirstRow(v);
          if Truthy(existing) then
            var u := Update(client, reg, e.(fields := Put(e.fields, "id", Member(existing, "id"))), write);
            Mutation([call] + u.calls, u.entity, u.error)
          else
            var c := Create(client, reg, e, write);
            Mutation([call] + c.calls, c.entity, c.error)
  }

  /**
    Corrected, a found row whose id is a record reference is updated under
    exactly that reference, with the entity's payload, and the record returned
    by the update is merged back.
   */
  lemma UpsertIntendedUpdatesFoundRecord(client: Option<Handle>, reg: Registry, e: Instance, names: seq<string>,
                                         v: Value, write: Reply)
    requires client.Some? && TableNameOf(reg, e.cls).Ok?
    requires Truthy(FirstRow(v)) && Member(FirstRow(v), "id").RecordId?
    ensures var found := Member(FirstRow(v), "id");
            var r := UpsertIntended(client, reg, e, names, Returned(v), write);
            && |r.calls| == 2
            && r.calls[1] == UpdateRecord(found, ToJson(e.fields))
            && (write.Threw? ==> r.error == Some(ClientError(write.message)))
            && (write.Returned? ==> MergedFrom(r.entity, e.(fields := Put(e.fields, "id", found)), write.value))
            && (write.Returned? ==>
                  r.error.None? && Get(r.entity.fields, "id") == (
                  if Has(OwnEntries(write.value), "id") then Get(OwnEntries(write.value), "id") else found))
  {
    UpdateWithId(client, reg, e, Member(FirstRow(v), "id"), write);
    UpdateWithIdOutcome(client, reg, e, Member(FirstRow(v), "id"), write);
  }

  /**
    Corrected, the statement-array reply of `UpsertIgnoresStatementRows` makes
    the upsert update the row `findUnique` would return.
   */
  lemma UpsertIntendedFindsStatementRows(client: Option<Handle>, reg: Registry, e: Instance, names: seq<string>,
                                         rows: seq<Value>, more: seq<Value>, write: Reply)
    requires client.Some? && TableNameOf(reg, e.cls).Ok?
    requires |rows| > 0 && Truthy(rows[0]) && Member(rows[0], "id").RecordId?
    ensures var r := UpsertIntended(client, reg, e, names, Returned(Arr([Arr(rows)] + more)), write);
            |r.calls| == 2 && r.calls[1] == UpdateRecord(Member(rows[0], "id"), ToJson(e.fields))
  {
    assert FirstRow(Arr([Arr(rows)] + more)) == rows[0];
    UpsertIntendedUpdatesFoundRecord(client, reg, e, names, Arr([Arr(rows)] + more), write);
  }
}
