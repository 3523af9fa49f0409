# SurrealORM core in Dafny

This project models the core of SurrealORM, a decorator-based ORM for SurrealDB, and proves properties of the model. The core has four parts:

- **The metadata registry** (`Metadata`). It is a store keyed by metadata key, target class and optional property key.
- **The declaration decorators** (`Decorators`). `@Entity` records a class's table. `@Property` merges one field's `{type, required, unique, index}` entry into the class's property map.
- **The `BaseEntity` contract** (`Entities`). This covers the inherited static `getTableName` and `getProperties`, and the instance's `toJSON`.
- **The operations of a `SurrealORM` object.** These are:
  - `findUnique`, `findMany` and `findAll` (`Find`);
  - `create`, `update` and `delete` (`Writes`);
  - `upsert` (`Upserts`);
  - the query method `raw` (`RawQuery`);
  - the connection state machine: constructor, `connect`, `disconnect`, `isConnected` and the object's own `raw` (`Connection`).

JavaScript values are modelled in `Values`:

- An object is the sequence of its own entries in key order. `Object.assign`, `toJSON`, spreads and `Object.fromEntries` all keep that order.
- `Lookup` reads a key.
- `Put` is the assignment `o[k] = v`.
- `Assign` is `Object.assign`.

Everything else in the core is written on top of these.

The database client is not modelled. Each operation receives:

- the client handle as it finds it (`this.client`, present or absent);
- the replies the client gives, as inputs (`Reply`: a returned value or a thrown message).

Each operation returns the client calls it issued, in order, together with its outcome. This is how the contracts can say that a guard fails "before any client call" (`calls == []`). It is also how they state exactly which query, parameters or payload reach the client.

Entity operations return a `Mutation`. It holds the entity object's state afterwards, because the source mutates the entity and resolves to that same object.

Three points of the code's behaviour shape the model:

- **Failures and the client.** Only a failing `connect` step or a failing `ping` in `isConnected` sets the client to `null`. A failing query, create, update or delete leaves the client in place, and so does a `disconnect` whose `close` throws.
- **`getTableName`.** It consults the metadata of `BaseEntity` itself, never the subclass it is called on, and its error names `BaseEntity` (src/entity.ts:19-22). The test suite expects the subclass's name (test/unit/entity.test.ts:12-19). It also overrides the method for its own entity class (test/test-helpers.ts:66-70). `EntityClass.staticTableName` models such an override, and `Entities.TableNameOf` performs the static dispatch. See the Findings.
- **Response shapes.** `findUnique`, `findMany` and `findAll` read the client's response as a list of statements, each an array of rows (`result[0][0]`). `upsert` reads it as a list of envelopes `{ result: rows }` (`result[0].result?.[0]`). The raw-query test shows the statement-array shape (test/unit/connection.test.ts:285-288). Under that shape the lookup in `upsert` never finds a row. See the Findings.

## Model

| member | source | states |
|---|---|---|
| Metadata.GetMetadata | src/metadata.ts:10-16 | Reading a slot never fails. It gives undefined exactly when nothing was written there, and otherwise the value stored there. |
| Metadata.DefineMetadata | src/metadata.ts:25-32 | After a write, the slot reads back the written value, and every other slot reads as before. |
| Metadata.LastWriteWins | test/unit/metadata.test.ts:34-40 | A second write to the same key and target replaces the first. |
| Metadata.ClassAndPropertySlotsIndependent | test/unit/metadata.test.ts:26-31 | Property-level and class-level metadata of the same key and target are stored apart. Writing one does not change the other. |
| Metadata.NeverDefinedReadsNone | test/unit/metadata.test.ts:60-63 | A key that was never defined reads as undefined on every target, without an error. |
| Decorators.Entity | src/decorators.ts:44-54 | `@Entity` stores `{table}` under the entity key. The table is the given one when non-empty. When the option is omitted or empty, it is the class name in lower case. No other slot changes. |
| Decorators.Property | src/decorators.ts:61-83 | `@Property` stores an entry for the field. Each flag is set exactly when the option gave it as `true`, because `??` supplies `false`. The type is the given one when non-empty, else the lower-cased design type, else undefined. Every other field's entry and every other slot are kept. |
| Decorators.EntityIdempotent | src/decorators.ts:46-52 | Applying `@Entity` twice with the same options leaves the store as one application does. |
| Decorators.PropertyKeepsEntityMetadata | src/decorators.ts:7-13 | Declaring a property never changes any class's entity metadata, because the two decorators use distinct keys. |
| Decorators.EntityKeepsFields | src/decorators.ts:44-54 | Declaring an entity never changes any class's property map. |
| Decorators.DecoratorsPreserveWellKeyed | src/decorators.ts:44-83 | After either decorator, the entity key still holds only tables and the property key still holds only field maps. |
| Entities.GetTableName | src/entity.ts:18-26 | It succeeds exactly when `BaseEntity` carries entity metadata, and then it returns that table. Otherwise the error names `BaseEntity`: "Entity BaseEntity is not decorated with @Entity". |
| Entities.TableNameOf | src/methods/create.ts:19 | `entity.constructor.getTableName()`: a class's own static override answers without consulting metadata. Without one, it succeeds exactly when `BaseEntity` carries entity metadata, and any failure names `BaseEntity`. |
| Entities.GetProperties | src/entity.ts:32-34 | It returns `BaseEntity`'s own field map, or the empty map when `BaseEntity` has none. |
| Entities.ToJson | src/entity.ts:40-48 | Every own key except `id` is present with its current value, shared rather than copied. `id` is never present, and nothing else is added. |
| Entities.ToJsonIdempotent | src/entity.ts:40-48 | Serialising a payload again gives the same payload. |
| Entities.ToJsonKeepsOrder | src/entity.ts:40-48 | The payload is exactly the entity's own entries other than `id`, in their original order, as a filter read from the front. |
| Entities.ToJsonIgnoresId | src/entity.ts:43 | Setting `entity.id`, to any value, leaves `toJSON()` unchanged. |
| Entities.OwnEntityDeclarationIgnored | src/entity.ts:19 | Without an override, a subclass's own `@Entity` does not change what `getTableName` answers for it. |
| Entities.SubclassPropertiesInvisible | src/entity.ts:33 | A subclass's own `@Property` does not change what the inherited `getProperties` answers. |
| Entities.DecoratedSubclassStillUndecorated | src/entity.ts:19-24 | In every store where `BaseEntity` carries no entity metadata, a subclass that declares its own `@Entity` and has no override still fails, and the error names `BaseEntity`. |
| Entities.GetTableNameIntended | test/unit/entity.test.ts:12-19 | The corrected lookup consults the calling class. It succeeds exactly when that class is decorated, and its error message names that class. |
| Entities.GetTableNameIntendedReadsOwnDeclaration | test/unit/entity.test.ts:7-19 | Corrected, a class answers with the table its own `@Entity` declared. An undecorated class is named in the error. |
| Find.Conditions | src/methods/find.ts:45-50 | The joined conditions are empty exactly when there are no where-fields, start with the first field's condition, and are that condition alone for one field. |
| Find.ConditionsAppend | src/methods/find.ts:45-50 | There is one condition per where-field, in order. Two groups of fields are joined by exactly one `AND`. |
| Find.AllQuery | src/methods/find.ts:173 | Definition of `SELECT * FROM <table>`: the table name follows the fixed prefix and ends the query. |
| Find.ManyQuery | src/methods/find.ts:117 | The `findMany` query is the `findAll` query of the same table narrowed by ` WHERE ` and the conditions. |
| Find.UniqueQuery | src/methods/find.ts:52 | The `findUnique` query is the `findMany` query with ` LIMIT 1` appended. |
| Find.WhereParams | src/methods/find.ts:55-73 | `table` comes first. Each where-field is bound to its value, and a record reference under `id` is bound to its local key. A where-field named `table` overrides the table. No other key is bound. |
| Find.FirstNonUnique | src/methods/find.ts:32-42 | It reports the first where-field, in order, that is neither `id` nor declared unique. It reports nothing exactly when every field is `id` or unique. |
| Find.Hydrate | src/methods/find.ts:85-87 | A fresh instance of the class whose fields are overwritten by every own entry of the row. Fields the row lacks keep their defaults. |
| Find.RowsOf | src/methods/find.ts:146-154 | A falsy first statement gives `[]`. A row array gives one hydrated instance per row, in order. Anything else is a TypeError. |
| Find.NotUniqueMessage | src/methods/find.ts:39-41 | A non-unique where-field is rejected with "Field <f> is not marked as unique. ...", naming the first such field. |
| Find.FindUnique | src/methods/find.ts:22-89 | Checks run in order: client, uniqueness, table; a failing table lookup passes its error through before any call. No query reaches the client with a field that is neither `id` nor unique. The query and parameters are exact. The result is null exactly when there is no first row of the first statement; otherwise it is that row hydrated. |
| Find.FindMany | src/methods/find.ts:99-155 | No uniqueness check is made. The query has no limit and carries the where-parameters. The result is the hydrated rows of the first statement. |
| Find.FindAll | src/methods/find.ts:164-185 | It sends `SELECT * FROM <table>` without parameters. The result is the hydrated rows of the first statement. |
| Writes.Create | src/methods/create.ts:11-27 | With no client it fails before any call. The one call is `create(table, toJSON())` with `BaseEntity`'s `toJSON`, so the payload has no `id`. A nullish reply is a TypeError at `result[0]`. A reply with no truthy first record, and only that, fails with "Failed to create record". A truthy record succeeds exactly when its `id` is not nullish; without one, `record.id.toString()` is a TypeError. A failure leaves the entity unchanged. On success, the record's fields overwrite the entity's and the others are kept. The final `id` is the record's own id. |
| Writes.RecordRef | src/methods/update.ts:26 | Definition of the record address: a string id is wrapped with the table, any other id is passed as it is. |
| Writes.Update | src/methods/update.ts:13-29 | Checks run in order: client, then a truthy `id`, then table. A string id is wrapped with the table and a structured id is passed unchanged. The payload is `toJSON()`. The returned record is merged onto the entity. |
| Writes.Delete | src/methods/delete.ts:10-22 | Checks run in order: client, then a truthy `id`. The id is passed to the client unchanged. The entity is not modified and nothing is returned. |
| Writes.DeleteSendsBareStringId | src/methods/delete.ts:22 | For a string id, `delete_` sends the bare string while `update` sends the table-qualified record reference (update.ts:26), so the two address different values. |
| Writes.GuardMessages | src/methods/create.ts:15-24 | The guards reject with "Not connected to SurrealDB", "Cannot update entity without ID" (update.ts:22), "Cannot delete entity without ID" (delete.ts:19) and "Failed to create record". |
| Upserts.LookupParams | src/methods/upsert.ts:24 | Each named field is bound to the entity's current value for it. Nothing else is bound, not even `table`. |
| Upserts.LookupQuery | src/methods/upsert.ts:22-23 | Without `id` among the named fields, the lookup is the query `findUnique` would send. |
| Upserts.LookupQueryDiffersOnId | src/methods/upsert.ts:22 | With `id` named, the lookup compares `id` as a plain column, unlike `findUnique`. |
| Upserts.ExistingRow | src/methods/upsert.ts:26-27 | The found row is read from the envelope shape only. Reading it from a nullish response or a nullish first statement is a TypeError. |
| Upserts.Upsert | src/methods/upsert.ts:12-35 | With no client it fails before any call. The first call is the lookup; a lookup that throws rejects with no further call. A found row's id is stored as its string form and the entity is updated. With no row, the entity is created. |
| Upserts.UpsertUpdatesAnotherRecord | src/methods/upsert.ts:29-31 | As written, a found row with id `t:k` is updated as the record `(table, "t:k")`, which is never the row that was found. |
| Upserts.UpsertUpdatesAnotherRecordExample | src/methods/upsert.ts:29-31 | Concretely: the row `users:abc` is found, and the update goes to `users:⟨users:abc⟩`. |
| Upserts.StatementRowsHaveNoEnvelope | src/methods/upsert.ts:26-27 | A statement-array reply has no `result` member, so the row read from it is `undefined`. |
| Upserts.UpsertIgnoresStatementRows | src/methods/upsert.ts:26-27 | As written, a statement-array reply whose first row `findUnique` would return still leads to a create. |
| Upserts.UpsertIntended | src/methods/upsert.ts:26-34 | Corrected upsert: a lookup that throws rejects with no further call. A truthy first row makes the outcome exactly that of `update` on the entity carrying the row's id as it is. It updates exactly when the first row of the first statement is truthy and carries an id. With no first row it creates. A found row without an id is handed to `update`, whose id guard rejects it after the lookup alone, and nothing is created. |
| Upserts.UpsertIntendedUpdatesFoundRecord | src/methods/upsert.ts:29-31 | Corrected, the update addresses the found record reference itself, with the entity's payload. A thrown write is reported as the client's error. A returned record is merged onto the entity carrying the found id: the record's fields win and the others are kept. |
| Upserts.UpsertIntendedFindsStatementRows | src/methods/upsert.ts:26-27 | Corrected, the statement-array reply leads to an update of the row `findUnique` would return. |
| RawQuery.Unwrap | src/methods/raw.ts:26-37 | A non-empty array whose truthy first element has a defined `result` gives that `result`. Any other non-empty array gives its first element. Anything else comes back as it is. |
| RawQuery.Raw | src/methods/raw.ts:14-38 | With no client it fails before any call. Query and parameters reach the client unchanged. The response is unwrapped. |
| RawQuery.UnwrapEnvelope | src/methods/raw.ts:26-31 | A statement envelope `[{ result: x }]` unwraps to `x`. |
| RawQuery.UnwrapStatementRows | src/methods/raw.ts:33 | A statement-array response unwraps to the first statement's rows. |
| RawQuery.UnwrapThenIndexIsFirstRow | src/methods/raw.ts:26-33 | Under either shape, the first element of the unwrapped value is the first row of the first statement. |
| Connection.New | src/connection.ts:62-66 | The constructor keeps the options, mirrors `database`, and holds a client that has not connected. |
| Connection.OrRoot | src/connection.ts:90-91 | Definition of `value \|\| "root"`: a missing or empty credential becomes `root`. |
| Connection.SigninFor | src/connection.ts:87-111 | `root` sends the user alone, `namespace` adds the namespace, and `database` adds namespace and database. Any other mode has no credentials. Username and password fall back to `root` when falsy. |
| Connection.Connect | src/connection.ts:77-127 | The mode defaults to `root`. A new client is opened, signed in and pointed at the namespace and database. Connect succeeds exactly when the mode is known and every step answers. Success leaves a connected handle. Any failure leaves no client and reports `ConnectFailed` with the cause. For each failing step, the calls issued up to and including that step and its message are stated exactly. |
| Connection.ConnectFailureMessage | src/connection.ts:123-125 | A failed connect rejects with "Failed to connect to SurrealDB: " followed by the message of the first step that threw, or "Invalid connection type". |
| Connection.ConnectGivesFreshClient | src/connection.ts:81 | A successful connect holds a client no earlier state of the object held. |
| Connection.Disconnect | src/connection.ts:137-142 | With a client, it closes the client and then drops it. A close that throws keeps the client. Without a client nothing happens. |
| Connection.DisconnectIdempotent | src/connection.ts:138 | A second `disconnect` after a successful one issues no call and changes nothing. |
| Connection.IsConnected | src/connection.ts:154-165 | It never rejects. It answers true exactly when a client is present and the ping succeeds. A failed ping drops the client. |
| Connection.FailedConnectThenNotConnected | src/connection.ts:123-126 | After a failed connect, `isConnected` answers false without any client call. |
| Connection.DisconnectThenNotConnected | test/unit/connection.test.ts:40-44 | After `disconnect`, `isConnected` answers false without any client call. |
| Connection.Raw | src/connection.ts:243-248 | The object's own `raw` checks the client and forwards the query. It returns the response without unwrapping it. |
| Connection.RawVariantsDiffer | src/connection.ts:243-248 | Both `raw`s issue the same call. On a statement-array response, the object's `raw` returns every statement and the query method's returns the first statement's rows. |
| Connection.NewObjectPassesGuard | test/unit/connection.test.ts:86-94 | A newly constructed object already holds a client. Before `connect`, the "not connected" guard therefore passes and the client's own error reaches the caller. |

## Left out

- **The database client.** It is not modelled: transport, authentication, query execution and the internals of `RecordId`. Its answers are inputs to each operation. Its replies do not depend on earlier calls.
- **async/await.** Each operation is a sequential function. A rejected promise is the `Err`/`error` part of the result.
- **The upsert race.** The race between the upsert lookup and the create is outside a sequential model.
- **The metadata prototype chain.** `reflect-metadata` walks the prototype chain, so a subclass inherits its parent's metadata. The model reads own metadata only. Two consequences follow:
  - `@Property` on a subclass of a decorated class does not mutate the parent's shared property map here.
  - `findUnique` reads the class's property map (src/methods/find.ts:32). For a subclass that declares no properties of its own, the source sees the parent's unique fields, but `Find.FindUnique` sees none. So `findUnique(TestUser, { email })` (test/unit/connection.test.ts:108) passes the uniqueness check in the source and is rejected with `NotUnique("email")` in the model.
- **Design types.** The emission of `design:type` is not modelled. The inferred type name is an optional input to `Decorators.Property`.
- **The `getProperties` override.** Test helpers override `getProperties` as well as `getTableName`. Only the `getTableName` override is modelled, because no operation in the core calls `getProperties`.
- Writes.Create / Writes.Update: instance `toJSON` overrides are not modelled. The payload is always `BaseEntity`'s `toJSON` (`Entities.ToJson`), while the program's tests override `toJSON` in `ComplexUser` and `RelatedUser` (test/unit/advanced.test.ts:25, 43). The contracts' "the payload has no `id`" holds only for classes that keep the inherited `toJSON`.
- **Unicode case mapping.** `toLowerCase` is modelled on ASCII letters only.
- **Key order.** JavaScript lists integer-like keys first, in numeric order, regardless of insertion order. Objects here keep insertion order for all keys.
- **Numbers.** Only integers are modelled: no floating point, `NaN` or `-0`. The record key of `RecordId` is a string here.
- **Records and arrays.** What `Object.assign` copies out of a record reference is modelled as its `tb` and `id` fields. An array's or a string's own entries are modelled as its index entries. The other own properties of client objects are not modelled.
- **TypeError texts.** The messages of JavaScript `TypeError`s, such as reading `.result` of `undefined` or calling `map` on a non-array, are approximations. Only the error kind is stated.
- **The `!this.client` re-check.** The check inside `connect` (src/connection.ts:114-116) cannot fire, because the client was just assigned. It is not modelled.
- **Logging.** `console.log` in `findUnique` and `findMany` is not modelled.
- **Other files.** These are not part of this model:
  - src/types.ts, which holds type aliases only;
  - src/index.ts and mod.ts, which only re-export;
  - the test scaffolding;
  - the build configuration.
- **SurrealQL.** The semantics of the generated query strings are not modelled. Escaping and injection are not covered.
- **Bound methods.** The methods bound on the `SurrealORM` object (`create`, `findUnique`, ...) are the `Find`, `Writes` and `Upserts` functions applied to the object's `client`. They change nothing else on the object.
- **Operations and `getTableName`.** The operations keep the as-written `Entities.TableNameOf`, which uses the static override or else `BaseEntity`'s metadata. `Entities.GetTableNameIntended` is stated beside it and is not substituted into them.

## Findings

| source | as written | input that shows it | evidently intended | confidence | as-written member | corrected member |
|---|---|---|---|---|---|---|
| src/methods/upsert.ts:30-31 | `entity.id = existing.id.toString()`, after which `update` wraps the string as `new RecordId(table, "t:k")` | a lookup that finds the row `users:abc` makes the update target `users:⟨users:abc⟩` | keep the structured id (`entity.id = existing.id`), so that `update` addresses the found record | high; not executed | Upserts.UpsertUpdatesAnotherRecord (instance: Upserts.UpsertUpdatesAnotherRecordExample) | Upserts.UpsertIntended (property: Upserts.UpsertIntendedUpdatesFoundRecord) |
| src/methods/upsert.ts:26-27 | the found row is read as `result[0].result?.[0]`, the envelope shape | the statement-array reply `[[row]]`, which `findUnique` reads and the raw-query test shows, yields no row, so every upsert creates | read `result?.[0]?.[0]`, as `findUnique` does | medium; not executed | Upserts.UpsertIgnoresStatementRows | Upserts.UpsertIntended (property: Upserts.UpsertIntendedFindsStatementRows) |
| src/entity.ts:19-22 | `getTableName` reads the metadata of `BaseEntity` and names `BaseEntity` | an undecorated subclass `UndecoratedEntity` gets "Entity BaseEntity is not decorated with @Entity", where the test expects its own name. A decorated subclass also fails | read the metadata of `this` and name `this.name` | high; not executed | Entities.DecoratedSubclassStillUndecorated | Entities.GetTableNameIntended (property: Entities.GetTableNameIntendedReadsOwnDeclaration) |
