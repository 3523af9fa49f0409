/**
  The process-wide metadata store: a value per (metadata key, target,
  optional property key). Class-level entries and property-level entries of
  the same target live in different slots.
 */
module Metadata {
  import opened Wrappers

  /** The identity of a target object (a class or a prototype). */
  datatype ClassId = ClassId(serial: nat)

  datatype Slot = Slot(key: string, target: ClassId, property: Option<string>)

  type Store<V> = map<Slot, V>

  /** `r` agrees with `store` on every slot except `slot`. */
  ghost predicate UnchangedExcept<V>(r: Store<V>, store: Store<V>, slot: Slot) {
    forall s :: s != slot ==> (s in r <==> s in store) && (s in r ==> r[s] == store[s])
  }

  /** `getMetadata(key, target, propertyKey)`: `None` models `undefined`, never an error. */
  function GetMetadata<V>(store: Store<V>, key: string, target: ClassId, property: Option<string>): (r: Option<V>)
    ensures r.None? <==> Slot(key, target, property) !in store
    ensures r.Some? ==> store[Slot(key, target, property)] == r.value
  {
    var slot := Slot(key, target, property);
    if slot in store then Some(store[slot]) else None
  }

  /** `defineMetadata(key, value, target, propertyKey)`: writes one slot, replacing what it held. */
  function DefineMetadata<V>(store: Store<V>, key: string, value: V, target: ClassId, property: Option<string>): (r: Store<V>)
    ensures GetMetadata(r, key, target, property) == Some(value)
    ensures UnchangedExcept(r, store, Slot(key, target, property))
  {
    store[Slot(key, target, property) := value]
  }

  /** The last of two writes to the same slot is the one that stays. */
  lemma LastWriteWins<V>(store: Store<V>, key: string, v1: V, v2: V, target: ClassId, property: Option<string>)
    ensures DefineMetadata(DefineMetadata(store, key, v1, target, property), key, v2, target, property)
         == DefineMetadata(store, key, v2, target, property)
  {
  }

  /** A property-level write leaves the class-level entry of the same key and target alone, and vice versa. */
  lemma ClassAndPropertySlotsIndependent<V>(store: Store<V>, key: string, v: V, target: ClassId, p: string)
    ensures GetMetadata(DefineMetadata(store, key, v, target, Some(p)), key, target, None)
         == GetMetadata(store, key, target, None)
    ensures GetMetadata(DefineMetadata(store, key, v, target, None), key, target, Some(p))
         == GetMetadata(store, key, target, Some(p))
  {
  }

  /** A key that no write ever used reads as `undefined` on every target. */
  lemma NeverDefinedReadsNone<V>(store: Store<V>, key: string, target: ClassId, property: Option<string>)
    requires forall s :: s in store ==> s.key != key
    ensures GetMetadata(store, key, target, property) == None
  {
  }
}
