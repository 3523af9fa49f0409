/**
  The query and hydration engine behind `findUnique`, `findMany` and
  `findAll`: a where-object becomes one equality condition per key, joined by
  AND, plus a parameter object; the rows of the first statement come back as
  fresh instances of the entity class.
 */
module Find {
  import opened Wrappers
  import opened Values
  import opened Errors
  import opened Decorators
  import opened Entities
  import opened Client

  /** The condition for `id`: the record is addressed by table and key rather than compared as a column. */
  const IdCondition := "id = type::thing($table, $id)"

  /** `f = $f`: the field compared with the same-named parameter. */
  function PlainCondition(field: string): string {
    field + " = $" + field
  }

  function Condition(field: string): string {
    if field == "id" then IdCondition else PlainCondition(field)
  }

  /**
    `whereFields.map(condition).join(' AND ')`: empty exactly when there are no
    where-fields, and led by the first field's condition.
   */
  function Conditions(fields: seq<string>): (r: string)
    ensures r == "" <==> fields == []
    ensures |fields| > 0 ==> Condition(fields[0]) <= r
    ensures |fields| == 1 ==> r == Condition(fields[0])
  {
    var parts := seq(|fields|, i requires 0 <= i < |fields| => Condition(fields[i]));
    assert |fields| > 0 ==> parts[0] == Condition(fields[0]) && |parts[0]| > 0;
    Join(parts, " AND ")
  }

  /** The conditions of two consecutive groups of where-fields are those of each group, in order, joined by AND. */
  lemma ConditionsAppend(a: seq<string>, b: seq<string>)
    requires |a| > 0 && |b| > 0
    ensures Conditions(a + b) == Conditions(a) + " AND " + Conditions(b)
  {
    var ca := seq(|a|, i requires 0 <= i < |a| => Condition(a[i]));
    var cb := seq(|b|, i requires 0 <= i < |b| => Condition(b[i]));
    assert seq(|a + b|, i requires 0 <= i < |a + b| => Condition((a + b)[i])) == ca + cb;
    JoinAppend(ca, cb, " AND ");
  }

  /** `SELECT * FROM ${table}`: the table name follows the fixed prefix and ends the query. */
  function AllQuery(table: string): (r: string)
    ensures |r| == 14 + |table| && r[..14] == "SELECT * FROM " && r[14..] == table
  {
    "SELECT * FROM " + table
  }

  /** The `findMany` query narrows the `findAll` scan of the same table by the where-conditions. */
  function ManyQuery(table: string, fields: seq<string>): (r: string)
    ensures r == AllQuery(table) + " WHERE " + Conditions(fields)
  {
    "SELECT * FROM " + table + " WHERE " + Conditions(fields)
  }

  /** The `findUnique` query is the `findMany` query for the same where-fields with `LIMIT 1` appended. */
  function UniqueQuery(table: string, fields: seq<string>): (r: string)
    ensures r == ManyQuery(table, fields) + " LIMIT 1"
  {
    "SELECT * FROM " + table + " WHERE " + Conditions(fields) + " LIMIT 1"
  }

  /** The bound value of a where-field: a structured `id` is bound as its local key, anything else as given. */
  function BindParam(field: string, v: Value): Value {
    if field == "id" && v.RecordId? then Str(v.key) else v
  }

  /** `whereFields.map(field => [field, bound value])`. */
  function BoundEntries(fields: seq<string>, where: Object): (r: Object)
    ensures |r| == |fields|
    ensures forall i :: 0 <= i < |r| ==> r[i] == Entry(fields[i], BindParam(fields[i], Get(where, fields[i])))
  {
    seq(|fields|, i requires 0 <= i < |fields| => Entry(fields[i], BindParam(fields[i], Get(where, fields[i]))))
  }

  /**
    `{ table, ...Object.fromEntries(bound entries) }`: `table` comes first,
    then one entry per where-field; a where-field named `table` replaces the
    table name in place.
   */
  function WhereParams(table: string, where: Object): (r: Object)
    ensures |r| > 0 && r[0].key == "table"
    ensures forall k :: Lookup(r, k) ==
              if Has(where, k) then Some(BindParam(k, Get(where, k)))
              else if k == "table" then Some(Str(table))
              else None
  {
    var entries := BoundEntries(Keys(where), where);
    forall k
      ensures Lookup(entries, k) == if Has(where, k) then Some(BindParam(k, Get(where, k))) else None
    {
      BoundEntriesLookup(where, k);
    }
    var head := [Entry("table", Str(table))];
    assert Keys(head) == ["table"];
    Assign(head, Assign([], entries))
  }

  /** Each where-key is bound once, to its own where-value; no other key is bound. */
  lemma BoundEntriesLookup(where: Object, k: string)
    ensures Lookup(BoundEntries(Keys(where), where), k)
         == if Has(where, k) then Some(BindParam(k, Get(where, k))) else None
  {
    var entries := BoundEntries(Keys(where), where);
    LookupUniform(entries, k, BindParam(k, Get(where, k)));
    if Has(where, k) {
      var i :| 0 <= i < |where| && where[i].key == k;
      assert entries[i].key == k;
    }
  }

  /** A field is usable by `findUnique` when the class's property map declares it `unique: true`. */
  predicate IsUnique(fields: map<string, FieldSpec>, f: string) {
    f in fields && fields[f].unique
  }

  /** The first where-field, in order, that is neither `id` nor declared unique. */
  function FirstNonUnique(props: map<string, FieldSpec>, fields: seq<string>): (r: Option<string>)
    ensures r.None? <==> forall i :: 0 <= i < |fields| ==> fields[i] == "id" || IsUnique(props, fields[i])
    ensures r.Some? ==> exists i :: 0 <= i < |fields| && fields[i] == r.value
                          && (forall j :: 0 <= j < i ==> fields[j] == "id" || IsUnique(props, fields[j]))
    ensures r.Some? ==> r.value != "id" && !IsUnique(props, r.value)
  {
    if fields == [] then None
    else if fields[0] != "id" && !IsUnique(props, fields[0]) then Some(fields[0])
    else
      var rest := FirstNonUnique(props, fields[1..]);
      assert forall i :: 1 <= i < |fields| ==> fields[1..][i - 1] == fields[i];
      rest
  }

  /** `inst` is a fresh instance of `cls` whose fields were overwritten by every own entry of `row`. */
  ghost predicate HydratedFrom(inst: Instance, cls: EntityClass, row: Value) {
    && inst.cls == cls
    && Keys(cls.blank) <= Keys(inst.fields)
    && forall k :: Lookup(inst.fields, k) ==
         if Has(OwnEntries(row), k) then Lookup(OwnEntries(row), k) else Lookup(cls.blank, k)
  }

  /** `Object.assign(new entityClass(), row)`. */
  function Hydrate(cls: EntityClass, row: Value): (r: Instance)
    ensures HydratedFrom(r, cls, row)
  {
    Instance(cls, Assign(cls.blank, OwnEntries(row)))
  }

  /** One hydrated instance per row, in row order. */
  ghost predicate HydratedAll(insts: seq<Instance>, cls: EntityClass, rows: seq<Value>) {
    |insts| == |rows| && forall i :: 0 <= i < |rows| ==> HydratedFrom(insts[i], cls, rows[i])
  }

  /**
    `if (!result?.[0]) return []; return result[0].map(hydrate)`: no first
    statement gives no instances; a first statement that is not an array has no
    `map` to call.
   */
  function RowsOf(cls: EntityClass, response: Value): (r: Result<seq<Instance>, Error>)
    ensures !Truthy(At(response, 0)) ==> r == Ok([])
    ensures Truthy(At(response, 0)) && At(response, 0).Arr? ==> r.Ok? && HydratedAll(r.value, cls, At(response, 0).items)
    ensures Truthy(At(response, 0)) && !At(response, 0).Arr? ==> r.Err? && r.error.TypeError?
  {
    var first := At(response, 0);
    if !Truthy(first) then Ok([])
    else if first.Arr? then Ok(seq(|first.items|, i requires 0 <= i < |first.items| => Hydrate(cls, first.items[i])))
    else Err(TypeError("result[0].map is not a function"))
  }

  /**
    `findUnique(entityClass, where)`. Checks, in order: a client is present;
    every where-field other than `id` is declared unique on the class; the table
    name resolves. Only then is one query issued. No first row of the first
    statement means no entity (`null`), not an error.
   */
  function FindUnique(client: Option<Handle>, reg: Registry, cls: EntityClass, where: Object, reply: Reply)
    : (r: Run<Option<Instance>>)
    ensures client.None? ==> r == Run([], Err(NotConnected))
    ensures client.Some? && FirstNonUnique(FieldsOf(reg, cls.id), Keys(where)).Some? ==>
              r == Run([], Err(NotUnique(FirstNonUnique(FieldsOf(reg, cls.id), Keys(where)).value)))
    // no query reaches the client with a field that is neither `id` nor unique
    ensures r.calls != [] ==>
              forall f :: f in Keys(where) && f != "id" ==> IsUnique(FieldsOf(reg, cls.id), f)
    ensures r.calls != [] ==>
              && client.Some? && TableNameOf(reg, cls).Ok?
              && r.calls == [Query(UniqueQuery(TableNameOf(reg, cls).value, Keys(where)),
                                   Some(WhereParams(TableNameOf(reg, cls).value, where)))]
    ensures r.calls == [] ==> r.result.Err?
    ensures client.Some? && FirstNonUnique(FieldsOf(reg, cls.id), Keys(where)).None? && TableNameOf(reg, cls).Ok? ==>
              r.calls != []
    ensures client.Some? && FirstNonUnique(FieldsOf(reg, cls.id), Keys(where)).None? && TableNameOf(reg, cls).Err? ==>
              r == Run([], Err(TableNameOf(reg, cls).error))
    ensures r.calls != [] && reply.Threw? ==> r.result == Err(ClientError(reply.message))
    ensures r.calls != [] && reply.Returned? ==> r.result.Ok?
    ensures r.result.Ok? ==> (r.result.value.None? <==> !Truthy(At(At(reply.value, 0), 0)))
    ensures r.result.Ok? && r.result.value.Some? ==> HydratedFrom(r.result.value.value, cls, At(At(reply.value, 0), 0))
  {
    if client.None? then Run([], Err(NotConnected))
    else
      var props := FieldsOf(reg, cls.id);
      var fields := Keys(where);
      match FirstNonUnique(props, fields)
      case Some(f) => Run([], Err(NotUnique(f)))
      case None =>
        match TableNameOf(reg, cls)
        case Err(e) => Run([], Err(e))
        case Ok(table) =>
          var call := Query(UniqueQuery(table, fields), Some(WhereParams(table, where)));
          match reply
          case Threw(m) => Run([call], Err(ClientError(m)))
          case Returned(v) =>
            var row := At(At(v, 0), 0);
            if !Truthy(row) then Run([call], Ok(None))
            else Run([call], Ok(Some(Hydrate(cls, row))))
  }

  /**
    `findMany(entityClass, where)`: no uniqueness check; the table name is
    resolved first; the query has no limit.
   */
  function FindMany(client: Option<Handle>, reg: Registry, cls: EntityClass, where: Object, reply: Reply)
    : (r: Run<seq<Instance>>)
    ensures client.None? ==> r == Run([], Err(NotConnected))
    ensures client.Some? && TableNameOf(reg, cls).Err? ==> r == Run([], Err(TableNameOf(reg, cls).error))
    ensures client.Some? && TableNameOf(reg, cls).Ok? ==>
              r.calls == [Query(ManyQuery(TableNameOf(reg, cls).value, Keys(where)),
                                Some(WhereParams(TableNameOf(reg, cls).value, where)))]
    ensures r.calls != [] && reply.Threw? ==> r.result == Err(ClientError(reply.message))
    ensures r.calls != [] && reply.Returned? ==> r.result == RowsOf(cls, reply.value)
  {
    if client.None? then Run([], Err(NotConnected))
    else
      match TableNameOf(reg, cls)
      case Err(e) => Run([], Err(e))
      case Ok(table) =>
        var call := Query(ManyQuery(table, Keys(where)), Some(WhereParams(table, where)));
        match reply
        case Threw(m) => Run([call], Err(ClientError(m)))
        case Returned(v) => Run([call], RowsOf(cls, v))
  }

  /** `findAll(entityClass)`: an unconditional scan of the table, sent without parameters. */
  function FindAll(client: Option<Handle>, reg: Registry, cls: EntityClass, reply: Reply): (r: Run<seq<Instance>>)
    ensures client.None? ==> r == Run([], Err(NotConnected))
    ensures client.Some? && TableNameOf(reg, cls).Err? ==> r == Run([], Err(TableNameOf(reg, cls).error))
    ensures client.Some? && TableNameOf(reg, cls).Ok? ==>
              r.calls == [Query(AllQuery(TableNameOf(reg, cls).value), None)]
    ensures r.calls != [] && reply.Threw? ==> r.result == Err(ClientError(reply.message))
    ensures r.calls != [] && reply.Returned? ==> r.result == RowsOf(cls, reply.value)
  {
    if client.None? then Run([], Err(NotConnected))
    else
      match TableNameOf(reg, cls)
      case Err(e) => Run([], Err(e))
      case Ok(table) =>
        var call := Query(AllQuery(table), None);
        match reply
        case Threw(m) => Run([call], Err(ClientError(m)))
        case Returned(v) => Run([call], RowsOf(cls, v))
  }

  /** `findUnique` rejects a non-unique where-field with a message that names it and says how to declare it. */
  lemma NotUniqueMessage(client: Option<Handle>, reg: Registry, cls: EntityClass, where: Object, reply: Reply)
    requires client.Some? && FirstNonUnique(FieldsOf(reg, cls.id), Keys(where)).Some?
    ensures Message(FindUnique(client, reg, cls, where, reply).result.error)
         == "Field " + FirstNonUnique(FieldsOf(reg, cls.id), Keys(where)).value
            + NotUniqueHint
  {
    var f := FirstNonUnique(FieldsOf(reg, cls.id), Keys(where)).value;
    assert FindUnique(client, reg, cls, where, reply).result.error == NotUnique(f);
  }
}
