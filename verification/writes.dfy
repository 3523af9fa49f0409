/**
  `create`, `update` and `delete`: each checks its guards in the source's order
  before any client call, sends the entity's `toJSON()` as the payload, and
  merges the record the client returns back onto the same entity object.
 */
module Writes {
  import opened Wrappers
  import opened Values
  import opened Errors
  import opened Decorators
  import opened Entities
  import opened Client

  /**
    `after` is `before` with every own entry of `record` written over it
    (`Object.assign(entity, record)`): the record's fields win, the others
    keep their values, and the existing fields keep their order.
   */
  ghost predicate MergedFrom(after: Instance, before: Instance, record: Value) {
    && after.cls == before.cls
    && Keys(before.fields) <= Keys(after.fields)
    && forall k :: Lookup(after.fields, k) ==
         if Has(OwnEntries(record), k) then Lookup(OwnEntries(record), k) else Lookup(before.fields, k)
  }

  /**
    `create(entity)`: checks the client, resolves the table, creates the
    record from the payload, and fails when the client returns no first
    record. On success `entity.id` is first set to the record id's string form
    and then, like every other field, overwritten by the record's own value.
   */
  function Create(client: Option<Handle>, reg: Registry, e: Instance, reply: Reply): (r: Mutation)
    ensures client.None? ==> r == Mutation([], e, Some(NotConnected))
    ensures client.Some? && TableNameOf(reg, e.cls).Err? ==> r == Mutation([], e, Some(TableNameOf(reg, e.cls).error))
    ensures r.calls != [] ==>
              && client.Some? && TableNameOf(reg, e.cls).Ok?
              && r.calls == [CreateRecord(TableNameOf(reg, e.cls).value, ToJson(e.fields))]
    ensures client.Some? && TableNameOf(reg, e.cls).Ok? ==> r.calls != []
    // the payload never carries the id
    ensures forall c :: c in r.calls ==> c.CreateRecord? && !Has(c.payload, "id")
    // a failed create leaves the entity as it was
    ensures r.error.Some? ==> r.entity == e
    ensures r.calls != [] && reply.Threw? ==> r.error == Some(ClientError(reply.message))
    // `result[0]` of a nullish reply throws before the record is checked
    ensures r.calls != [] && reply.Returned? && Nullish(reply.value) ==> r.error.Some? && r.error.value.TypeError?
    ensures r.error == Some(CreateFailed) <==>
              r.calls != [] && reply.Returned? && !Nullish(reply.value) && !Truthy(At(reply.value, 0))
    ensures r.error.None? ==>
              r.calls != [] && reply.Returned? && !Nullish(reply.value) && MergedFrom(r.entity, e, At(reply.value, 0))
    // a truthy first record succeeds exactly when it carries an id; without one, `record.id.toString()` throws
    ensures r.calls != [] && reply.Returned? && !Nullish(reply.value) && Truthy(At(reply.value, 0)) ==>
              (r.error.None? <==> !Nullish(Member(At(reply.value, 0), "id")))
    ensures r.calls != [] && reply.Returned? && !Nullish(reply.value) && Truthy(At(reply.value, 0))
            && Nullish(Member(At(reply.value, 0), "id")) ==>
              r.error.Some? && r.error.value.TypeError?
    // the id the entity ends with is the record's own id value, not its string form
    ensures r.error.None? ==> Get(r.entity.fields, "id") == Member(At(reply.value, 0), "id")
  {
    if client.None? then Mutation([], e, Some(NotConnected))
    else
      match TableNameOf(reg, e.cls)
      case Err(err) => Mutation([], e, Some(err))
      case Ok(table) =>
        var call := CreateRecord(table, ToJson(e.fields));
        match reply
        case Threw(m) => Mutation([call], e, Some(ClientError(m)))
        case Returned(v) =>
          if Nullish(v) then
            var shown := if v.Null? then "null" else "undefined";
            Mutation([call], e, Some(TypeError("Cannot read properties of " + shown + " (reading '0')")))
          else
            var record := At(v, 0);
            if !Truthy(record) then Mutation([call], e, Some(CreateFailed))
            else
              var id := Member(record, "id");
              if Nullish(id) then
                Mutation([call], e, Some(TypeError("Cannot read properties of undefined (reading 'toString')")))
              else
                var withId := Put(e.fields, "id", Str(ToStr(id)));
                Mutation([call], e.(fields := Assign(withId, OwnEntries(record))), None)
  }

  /** `typeof entity.id === 'string' ? new RecordId(tableName, entity.id) : entity.id`. */
  function RecordRef(table: string, id: Value): (r: Value)
    ensures id.Str? ==> r == RecordId(table, id.s)
    ensures !id.Str? ==> r == id
  {
    if id.Str? then RecordId(table, id.s) else id
  }

  /**
    `update(entity)`: checks the client, then the id, then resolves the table;
    a string id is qualified with the table, a structured one is sent as is.
    The returned record is merged onto the entity.
   */
  function Update(client: Option<Handle>, reg: Registry, e: Instance, reply: Reply): (r: Mutation)
    ensures client.None? ==> r == Mutation([], e, Some(NotConnected))
    ensures client.Some? && !Truthy(Get(e.fields, "id")) ==> r == Mutation([], e, Some(UpdateWithoutId))
    ensures client.Some? && Truthy(Get(e.fields, "id")) && TableNameOf(reg, e.cls).Err? ==>
              r == Mutation([], e, Some(TableNameOf(reg, e.cls).error))
    ensures r.calls != [] ==>
              && client.Some? && Truthy(Get(e.fields, "id")) && TableNameOf(reg, e.cls).Ok?
              && r.calls == [UpdateRecord(RecordRef(TableNameOf(reg, e.cls).value, Get(e.fields, "id")), ToJson(e.fields))]
    ensures client.Some? && Truthy(Get(e.fields, "id")) && TableNameOf(reg, e.cls).Ok? ==> r.calls != []
    ensures r.error.Some? ==> r.entity == e
    ensures r.calls != [] && reply.Threw? ==> r.error == Some(ClientError(reply.message))
    ensures r.calls != [] && reply.Returned? ==> r.error.None? && MergedFrom(r.entity, e, reply.value)
  {
    if client.None? then Mutation([], e, Some(NotConnected))
    else
      var id := Get(e.fields, "id");
      if !Truthy(id) then Mutation([], e, Some(UpdateWithoutId))
      else
        match TableNameOf(reg, e.cls)
        case Err(err) => Mutation([], e, Some(err))
        case Ok(table) =>
          var call := UpdateRecord(RecordRef(table, id), ToJson(e.fields));
          match reply
          case Threw(m) => Mutation([call], e, Some(ClientError(m)))
          case Returned(v) => Mutation([call], e.(fields := Assign(e.fields, OwnEntries(v))), None)
  }

  /**
    `delete_(entity)`: checks the client, then the id, and passes the id to
    the client unchanged; the entity object is never modified and nothing is
    returned.
   */
  function Delete(client: Option<Handle>, e: Instance, reply: Reply): (r: Run<()>)
    ensures client.None? ==> r == Run([], Err(NotConnected))
    ensures client.Some? && !Truthy(Get(e.fields, "id")) ==> r == Run([], Err(DeleteWithoutId))
    ensures client.Some? && Truthy(Get(e.fields, "id")) ==> r.calls == [DeleteRecord(Get(e.fields, "id"))]
    ensures r.calls != [] ==> (r.result.Ok? <==> reply.Returned?)
    ensures r.calls != [] && reply.Threw? ==> r.result == Err(ClientError(reply.message))
  {
    if client.None? then Run([], Err(NotConnected))
    else
      var id := Get(e.fields, "id");
      if !Truthy(id) then Run([], Err(DeleteWithoutId))
      else
        var call := DeleteRecord(id);
        match reply
        case Threw(m) => Run([call], Err(ClientError(m)))
        case Returned(_) => Run([call], Ok(()))
  }

  /**
    Giving an entity a truthy id and updating it: the call addresses that id
    (qualified when it is a string) with the entity's payload, which the id
    does not enter, and the id afterwards is the returned record's, if it has
    one, and the given id otherwise.
   */
  lemma UpdateWithId(client: Option<Handle>, reg: Registry, e: Instance, id: Value, reply: Reply)
    requires client.Some? && TableNameOf(reg, e.cls).Ok? && Truthy(id)
    ensures var u := Update(client, reg, e.(fields := Put(e.fields, "id", id)), reply);
            && u.calls == [UpdateRecord(RecordRef(TableNameOf(reg, e.cls).value, id), ToJson(e.fields))]
            && (reply.Returned? ==>
                  u.error.None? && Get(u.entity.fields, "id") == (
                  if Has(OwnEntries(reply.value), "id") then Get(OwnEntries(reply.value), "id") else id))
  {
    var e' := e.(fields := Put(e.fields, "id", id));
    assert Get(e'.fields, "id") == id;
    ToJsonIgnoresId(e.fields, id);
  }

  /**
    The texts the guards reject with: a missing client, then a missing id for
    `update` and `delete_`, and a create that returned no record.
   */
  lemma GuardMessages(reg: Registry, e: Instance, h: Handle, reply: Reply)
    ensures Message(Create(None, reg, e, reply).error.value) == "Not connected to SurrealDB"
    ensures !Truthy(Get(e.fields, "id")) ==>
              Message(Update(Some(h), reg, e, reply).error.value) == "Cannot update entity without ID"
    ensures !Truthy(Get(e.fields, "id")) ==>
              Message(Delete(Some(h), e, reply).result.error) == "Cannot delete entity without ID"
    ensures Create(Some(h), reg, e, reply).error == Some(CreateFailed) ==>
              Message(Create(Some(h), reg, e, reply).error.value) == "Failed to create record"
  {
  }

  /**
    `delete_` and `update` address a string id differently: `delete_` hands
    the bare string to the client, while `update` first qualifies it with the
    table as a record reference.
   */
  lemma DeleteSendsBareStringId(client: Option<Handle>, reg: Registry, e: Instance, s: string,
                                deleted: Reply, updated: Reply)
    requires client.Some? && TableNameOf(reg, e.cls).Ok? && Get(e.fields, "id") == Str(s) && s != ""
    ensures Delete(client, e, deleted).calls == [DeleteRecord(Str(s))]
    ensures Update(client, reg, e, updated).calls
         == [UpdateRecord(RecordId(TableNameOf(reg, e.cls).value, s), ToJson(e.fields))]
    ensures Delete(client, e, deleted).calls[0].ref != Update(client, reg, e, updated).calls[0].ref
  {
  }

  /** Updating an entity that was just given a truthy id: a thrown write is reported, a returned one is merged. */
  lemma UpdateWithIdOutcome(client: Option<Handle>, reg: Registry, e: Instance, id: Value, reply: Reply)
    requires client.Some? && TableNameOf(reg, e.cls).Ok? && Truthy(id)
    ensures var e' := e.(fields := Put(e.fields, "id", id));
            var u := Update(client, reg, e', reply);
            && (reply.Threw? ==> u.error == Some(ClientError(reply.message)))
            && (reply.Returned? ==> MergedFrom(u.entity, e', reply.value))
  {
    var e' := e.(fields := Put(e.fields, "id", id));
    assert Get(e'.fields, "id") == id;
  }
}
