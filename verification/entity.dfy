/**
  The base entity contract: the static table-name and property lookups that
  every entity class inherits from `BaseEntity`, and the instance's `toJSON`.
 */
module Entities {
  import opened Wrappers
  import opened Values
  import opened Errors
  import opened Metadata
  import opened Decorators

  /**
    An entity class as the operations use it: its identity in the metadata
    store, its `name`, the constant its own static `getTableName` returns when
    it overrides the inherited one, and the own fields `new C()` gives an
    instance.
   */
  datatype EntityClass = EntityClass(id: ClassId, name: string, staticTableName: Option<string>, blank: Object)

  /** An entity instance: its class (`entity.constructor`) and its own fields, `id` among them. */
  datatype Instance = Instance(cls: EntityClass, fields: Object)

  const BaseEntityId := ClassId(0)
  const BaseEntityName := "BaseEntity"

  /**
    The inherited static `BaseEntity.getTableName()`. It consults the entity
    metadata of `BaseEntity` itself, whichever subclass it is called on, and
    names `BaseEntity` in its error.
   */
  function GetTableName(reg: Registry): (r: Result<string, Error>)
    ensures r.Ok? <==> GetMetadata(reg, EntityMetadataKey, BaseEntityId, None).Some?
                       && GetMetadata(reg, EntityMetadataKey, BaseEntityId, None).value.TableMeta?
    ensures r.Ok? ==> GetMetadata(reg, EntityMetadataKey, BaseEntityId, None) == Some(TableMeta(r.value))
    ensures r.Err? ==> r.error == NotDecorated(BaseEntityName)
    ensures r.Err? ==> Message(r.error) == "Entity " + BaseEntityName + " is not decorated with @Entity"
  {
    var stored: Option<Meta> := GetMetadata(reg, EntityMetadataKey, BaseEntityId, None);
    match stored
    case Some(TableMeta(t)) => Ok(t)
    case _ => Err(NotDecorated(BaseEntityName))
  }

  /** `entity.constructor.getTableName()`: a class's own static override wins over the inherited lookup. */
  function TableNameOf(reg: Registry, cls: EntityClass): (r: Result<string, Error>)
    // an override answers without consulting any metadata
    ensures cls.staticTableName.Some? ==> r == Ok(cls.staticTableName.value)
    ensures r.Ok? <==> cls.staticTableName.Some?
                       || (GetMetadata(reg, EntityMetadataKey, BaseEntityId, None).Some?
                           && GetMetadata(reg, EntityMetadataKey, BaseEntityId, None).value.TableMeta?)
    ensures r.Ok? && cls.staticTableName.None? ==>
              GetMetadata(reg, EntityMetadataKey, BaseEntityId, None) == Some(TableMeta(r.value))
    ensures r.Err? ==> r.error == NotDecorated(BaseEntityName)
  {
    match cls.staticTableName
    case Some(t) => Ok(t)
    case None => GetTableName(reg)
  }

  /** The inherited static `BaseEntity.getProperties()`: `BaseEntity`'s own field map, or `{}`. */
  function GetProperties(reg: Registry): (r: map<string, FieldSpec>)
    ensures GetMetadata(reg, PropertyMetadataKey, BaseEntityId, None).None? ==> r == map[]
    ensures GetMetadata(reg, PropertyMetadataKey, BaseEntityId, None).Some?
            && GetMetadata(reg, PropertyMetadataKey, BaseEntityId, None).value.FieldsMeta? ==>
              r == GetMetadata(reg, PropertyMetadataKey, BaseEntityId, None).value.fields
  {
    FieldsOf(reg, BaseEntityId)
  }

  /**
    `entity.toJSON()`: every own field except `id`, in field order, each value
    copied as it is (nested objects are shared, not cloned).
   */
  function ToJson(fields: Object): (r: Object)
    ensures forall k :: Lookup(r, k) == if k == "id" then None else Lookup(fields, k)
    ensures !Has(r, "id")
    ensures forall i :: 0 <= i < |r| ==> r[i] in fields
    ensures |r| <= |fields|
  {
    if fields == [] then []
    else
      var last := fields[|fields| - 1];
      var init := fields[..|fields| - 1];
      assert forall i :: 0 <= i < |init| ==> init[i] == fields[i];
      var rest := ToJson(init);
      if last.key == "id" then rest
      else
        var r := rest + [last];
        assert r[..|r| - 1] == rest;
        r
  }

  /**
    The entries of `fields` other than `id`, kept in their order: a filter
    read from the front, independent of how `ToJson` walks from the back.
   */
  function WithoutId(fields: Object): Object {
    if fields == [] then []
    else (if fields[0].key == "id" then [] else [fields[0]]) + WithoutId(fields[1..])
  }

  /** Filtering an object with one more entry at the end filters that entry on its own. */
  lemma {:induction false} WithoutIdSnoc(fields: Object, last: Entry)
    ensures WithoutId(fields + [last]) == WithoutId(fields) + (if last.key == "id" then [] else [last])
  {
    if fields != [] {
      assert (fields + [last])[1..] == fields[1..] + [last];
      WithoutIdSnoc(fields[1..], last);
    }
  }

  /** The payload keeps the entity's field order: it is exactly its fields other than `id`, in order. */
  lemma {:induction false} ToJsonKeepsOrder(fields: Object)
    ensures ToJson(fields) == WithoutId(fields)
  {
    if fields != [] {
      var init := fields[..|fields| - 1];
      var last := fields[|fields| - 1];
      ToJsonKeepsOrder(init);
      assert fields == init + [last];
      WithoutIdSnoc(init, last);
    }
  }

  /**
    As written, declaring a subclass's own table does not change what the
    inherited `getTableName` answers for it: only `BaseEntity`'s entry counts.
   */
  lemma OwnEntityDeclarationIgnored(reg: Registry, options: EntityOptions, cls: EntityClass)
    requires cls.id != BaseEntityId && cls.staticTableName.None?
    ensures TableNameOf(Entity(reg, options, cls.id, cls.name), cls) == TableNameOf(reg, cls)
  {
  }

  /** Likewise, declaring a property on a subclass leaves the inherited `getProperties` answer as it was. */
  lemma SubclassPropertiesInvisible(reg: Registry, options: PropertyOptions, cls: EntityClass, field: string,
                                    designType: Option<string>)
    requires cls.id != BaseEntityId
    ensures GetProperties(Property(reg, options, cls.id, field, designType)) == GetProperties(reg)
  {
  }

  /**
    A decorated subclass that does not override `getTableName` still fails
    when `BaseEntity` carries no entity metadata, and the error names
    `BaseEntity` rather than the subclass.
   */
  lemma DecoratedSubclassStillUndecorated(reg: Registry, options: EntityOptions, cls: EntityClass)
    requires cls.id != BaseEntityId && cls.staticTableName.None?
    requires GetMetadata(reg, EntityMetadataKey, BaseEntityId, None).None?
    ensures TableNameOf(Entity(reg, options, cls.id, cls.name), cls) == Err(NotDecorated("BaseEntity"))
  {
  }

  /** A payload has no `id` left to drop: serialising it again gives it back unchanged. */
  lemma {:induction false} ToJsonIdempotent(fields: Object)
    ensures ToJson(ToJson(fields)) == ToJson(fields)
  {
    if fields != [] {
      var init := fields[..|fields| - 1];
      ToJsonIdempotent(init);
      var rest := ToJson(init);
      var last := fields[|fields| - 1];
      if last.key != "id" {
        var r := rest + [last];
        assert r[..|r| - 1] == rest;
      }
    }
  }

  /** Rewriting `id` in place does not change the payload. */
  lemma {:induction false} ToJsonOverwriteId(fields: Object, v: Value)
    ensures ToJson(Overwrite(fields, "id", v)) == ToJson(fields)
  {
    if fields != [] {
      var init := fields[..|fields| - 1];
      var last := fields[|fields| - 1];
      ToJsonOverwriteId(init, v);
      var o := Overwrite(fields, "id", v);
      assert o[..|o| - 1] == Overwrite(init, "id", v);
    }
  }

  /** Setting `entity.id`, to any value, leaves `toJSON()` as it was. */
  lemma ToJsonIgnoresId(fields: Object, v: Value)
    ensures ToJson(Put(fields, "id", v)) == ToJson(fields)
  {
    if Has(fields, "id") {
      ToJsonOverwriteId(fields, v);
    } else {
      var r := fields + [Entry("id", v)];
      assert r[..|r| - 1] == fields;
    }
  }

  /**
    `getTableName` as its callers expect it: the entity metadata of the class
    it is called on (`this`), and that class's name in the error.
   */
  function GetTableNameIntended(reg: Registry, cls: EntityClass): (r: Result<string, Error>)
    ensures r.Ok? <==> GetMetadata(reg, EntityMetadataKey, cls.id, None).Some?
                       && GetMetadata(reg, EntityMetadataKey, cls.id, None).value.TableMeta?
    ensures r.Ok? ==> GetMetadata(reg, EntityMetadataKey, cls.id, None) == Some(TableMeta(r.value))
    ensures r.Err? ==> r.error == NotDecorated(cls.name)
    ensures r.Err? ==> Message(r.error) == "Entity " + cls.name + " is not decorated with @Entity"
  {
    var stored: Option<Meta> := GetMetadata(reg, EntityMetadataKey, cls.id, None);
    match stored
    case Some(TableMeta(t)) => Ok(t)
    case _ => Err(NotDecorated(cls.name))
  }

  /**
    Corrected, a class answers with the table its own `@Entity` declared, and
    an undeclared class is named in the error.
   */
  lemma GetTableNameIntendedReadsOwnDeclaration(reg: Registry, options: EntityOptions, cls: EntityClass)
    ensures GetTableNameIntended(Entity(reg, options, cls.id, cls.name), cls) == Ok(TableName(options, cls.name))
    ensures GetTableNameIntended(map[], cls) == Err(NotDecorated(cls.name))
  {
  }
}
