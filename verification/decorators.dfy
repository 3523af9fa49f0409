/**
  The two declaration decorators. `@Entity` records a class's table under the
  entity key; `@Property` merges one field's flags into the class's property
  map under the property key. A decorator is modelled as the registry update
  it performs when applied to a class.
 */
module Decorators {
  import opened Wrappers
  import opened Values
  import opened Metadata

  const EntityMetadataKey := "surrealorm:entity"
  const PropertyMetadataKey := "surrealorm:property"

  /** `{ table?: string }`; `None` stands for an omitted option. */
  datatype EntityOptions = EntityOptions(table: Option<string>)

  /** `{ type?, required?, unique?, index? }`; `None` stands for an omitted (or null) option. */
  datatype PropertyOptions = PropertyOptions(
    typ: Option<string>,
    required: Option<bool>,
    unique: Option<bool>,
    index: Option<bool>)

  /** One field's entry in a class's property map; `typ` may be undefined. */
  datatype FieldSpec = FieldSpec(typ: Option<string>, required: bool, unique: bool, index: bool)

  /** What the decorators store: `{table}` under the entity key, the field map under the property key. */
  datatype Meta = TableMeta(table: string) | FieldsMeta(fields: map<string, FieldSpec>)

  type Registry = Store<Meta>

  /** Every entity slot holds a table and every class-level property slot holds a field map. */
  ghost predicate WellKeyed(reg: Registry) {
    forall s :: s in reg ==>
      && (s.key == EntityMetadataKey ==> reg[s].TableMeta?)
      && (s.key == PropertyMetadataKey ==> reg[s].FieldsMeta?)
  }

  /** `options.table || target.name.toLowerCase()`: an empty table name counts as omitted. */
  function TableName(options: EntityOptions, className: string): string {
    match options.table
    case Some(t) => if t != "" then t else Lower(className)
    case None => Lower(className)
  }

  /** `@Entity(options)` applied to the class `target` named `className`. */
  function Entity(reg: Registry, options: EntityOptions, target: ClassId, className: string): (r: Registry)
    ensures GetMetadata(r, EntityMetadataKey, target, None).Some?
    ensures options.table.Some? && options.table.value != "" ==>
              GetMetadata(r, EntityMetadataKey, target, None) == Some(TableMeta(options.table.value))
    ensures (options.table.None? || options.table == Some("")) ==>
              GetMetadata(r, EntityMetadataKey, target, None) == Some(TableMeta(Lower(className)))
    ensures UnchangedExcept(r, reg, Slot(EntityMetadataKey, target, None))
  {
    DefineMetadata(reg, EntityMetadataKey, TableMeta(TableName(options, className)), target, None)
  }

  /**
    The field map a class holds under the property key,
    `getMetadata(PROPERTY_METADATA_KEY, target) || {}`.
   */
  function FieldsOf(reg: Registry, target: ClassId): map<string, FieldSpec> {
    var stored: Option<Meta> := GetMetadata(reg, PropertyMetadataKey, target, None);
    match stored
    case Some(FieldsMeta(m)) => m
    case _ => map[]
  }

  /**
    The entry `@Property(options)` writes for a field whose emitted design
    type is named `designType` (`None` when no type was emitted).
   */
  function Spec(options: PropertyOptions, designType: Option<string>): FieldSpec {
    FieldSpec(
      if options.typ.Some? && options.typ.value != "" then options.typ
      else if designType.Some? then Some(Lower(designType.value)) else None,
      options.required.GetOr(false),
      options.unique.GetOr(false),
      options.index.GetOr(false))
  }

  /** `@Property(options)` applied to field `field` of the class `target`. */
  function Property(reg: Registry, options: PropertyOptions, target: ClassId, field: string,
                    designType: Option<string>): (r: Registry)
    ensures field in FieldsOf(r, target)
    // `??` defaults: a flag is set exactly when the option gave it as true
    ensures FieldsOf(r, target)[field].required <==> options.required == Some(true)
    ensures FieldsOf(r, target)[field].unique <==> options.unique == Some(true)
    ensures FieldsOf(r, target)[field].index <==> options.index == Some(true)
    // `type` is the given type when non-empty, else the lower-cased design type, else undefined
    ensures options.typ.Some? && options.typ.value != "" ==> FieldsOf(r, target)[field].typ == options.typ
    ensures (options.typ.None? || options.typ == Some("")) ==>
              FieldsOf(r, target)[field].typ == (if designType.Some? then Some(Lower(designType.value)) else None)
    // the other fields of the class keep their entries
    ensures forall f :: f != field ==> (f in FieldsOf(r, target) <==> f in FieldsOf(reg, target))
    ensures forall f :: f != field && f in FieldsOf(reg, target) ==> FieldsOf(r, target)[f] == FieldsOf(reg, target)[f]
    ensures UnchangedExcept(r, reg, Slot(PropertyMetadataKey, target, None))
  {
    var fields := FieldsOf(reg, target)[field := Spec(options, designType)];
    DefineMetadata(reg, PropertyMetadataKey, FieldsMeta(fields), target, None)
  }

  /** Re-applying `@Entity` with the same options to the same class changes nothing. */
  lemma EntityIdempotent(reg: Registry, options: EntityOptions, target: ClassId, className: string)
    ensures Entity(Entity(reg, options, target, className), options, target, className)
         == Entity(reg, options, target, className)
  {
  }

  /** Declaring a property never alters any class's entity metadata. */
  lemma PropertyKeepsEntityMetadata(reg: Registry, options: PropertyOptions, target: ClassId, field: string,
                                    designType: Option<string>, other: ClassId)
    ensures GetMetadata(Property(reg, options, target, field, designType), EntityMetadataKey, other, None)
         == GetMetadata(reg, EntityMetadataKey, other, None)
  {
  }

  /** Declaring an entity never alters any class's property map. */
  lemma EntityKeepsFields(reg: Registry, options: EntityOptions, target: ClassId, className: string, other: ClassId)
    ensures FieldsOf(Entity(reg, options, target, className), other) == FieldsOf(reg, other)
  {
  }

  /** Both decorators keep every slot holding the kind of value its key calls for. */
  lemma DecoratorsPreserveWellKeyed(reg: Registry, eo: EntityOptions, po: PropertyOptions, target: ClassId,
                                    className: string, field: string, designType: Option<string>)
    requires WellKeyed(reg)
    ensures WellKeyed(Entity(reg, eo, target, className))
    ensures WellKeyed(Property(reg, po, target, field, designType))
  {
  }
}
