/**
 * The table of strong associated objects. Associations made through
 * `objc_setAssociatedObject` are invisible in an object's ivars, so the
 * detector tracks, per object, the keys under which it holds a strong
 * association, and asks the runtime for the values when it walks the
 * object.
 */
module AssociationManager {
  import opened Wrappers
  import opened References

  /** An association key (a pointer value). */
  type Key = nat

  type Table = map<Address, set<Key>>

  /** `key` is tracked as a strong association of `obj`. */
  predicate Tracked(table: Table, obj: Address, key: Key) {
    obj in table && key in table[obj]
  }

  /** The table after the key is forgotten for the object; an object that ends with no key keeps its (empty) entry. */
  function ResetAtKey(table: Table, obj: Address, key: Key): Table {
    if obj in table then table[obj := table[obj] - {key}] else table
  }

  /** The table after a strong association is set; setting nothing resets the key. */
  function SetStrong(table: Table, obj: Address, key: Key, value: Option<Address>): Table {
    if value.None? then ResetAtKey(table, obj, key)
    else table[obj := (if obj in table then table[obj] else {}) + {key}]
  }

  /** The table after every association of the object is forgotten. */
  function RemoveAll(table: Table, obj: Address): Table {
    table - {obj}
  }

  /** The associated objects the runtime currently holds under the tracked keys; nothing when the object is untracked. */
  function AssociatedObjects(table: Table, obj: Address, getAssociatedObject: (Address, Key) -> Option<Address>): Option<set<Address>> {
    if obj !in table then None
    else Some(set k | k in table[obj] && getAssociatedObject(obj, k).Some? :: getAssociatedObject(obj, k).value)
  }

  /** After setting a value, the key is tracked; after setting nothing, it is not. Every other key and object is as before. */
  lemma SetStrongTracks(table: Table, obj: Address, key: Key, value: Option<Address>, o: Address, k: Key)
    ensures Tracked(SetStrong(table, obj, key, value), o, k) <==>
      if o == obj && k == key then value.Some? else Tracked(table, o, k)
  {
  }

  /** Resetting forgets exactly one key of one object. */
  lemma ResetForgetsOneKey(table: Table, obj: Address, key: Key, o: Address, k: Key)
    ensures Tracked(ResetAtKey(table, obj, key), o, k) <==> Tracked(table, o, k) && !(o == obj && k == key)
    ensures o != obj ==> (o in ResetAtKey(table, obj, key) <==> o in table)
  {
  }

  /** Removing forgets every key of the object and nothing of any other object. */
  lemma RemoveForgetsObject(table: Table, obj: Address, o: Address, k: Key)
    ensures !Tracked(RemoveAll(table, obj), obj, k)
    ensures o != obj ==> (Tracked(RemoveAll(table, obj), o, k) <==> Tracked(table, o, k))
    ensures obj !in RemoveAll(table, obj)
  {
  }

  /** No operation on one object changes another object's entry. */
  lemma OperationsAreLocal(table: Table, obj: Address, key: Key, value: Option<Address>, o: Address)
    requires o != obj
    ensures o in SetStrong(table, obj, key, value) <==> o in table
    ensures o in table ==> SetStrong(table, obj, key, value)[o] == table[o]
    ensures o in RemoveAll(table, obj) <==> o in table
    ensures o in table ==> RemoveAll(table, obj)[o] == table[o]
  {
  }

  /** Once a value is set for a key, the object's associations report it while the runtime still holds it. */
  lemma SetAssociationIsReported(table: Table, obj: Address, key: Key, value: Address,
                                 getAssociatedObject: (Address, Key) -> Option<Address>)
    requires getAssociatedObject(obj, key) == Some(value)
    ensures AssociatedObjects(SetStrong(table, obj, key, Some(value)), obj, getAssociatedObject).Some?
    ensures value in AssociatedObjects(SetStrong(table, obj, key, Some(value)), obj, getAssociatedObject).value
  {
    var t := SetStrong(table, obj, key, Some(value));
    assert key in t[obj];
  }

  /** The association table (one per process in the source). */
  class AssociationTable {
    var associationMap: Table

    constructor ()
      ensures associationMap == map[]
    {
      associationMap := map[];
    }

    method ResetAssociationAtKey(obj: Address, key: Key)
      modifies this
      ensures associationMap == ResetAtKey(old(associationMap), obj, key)
    {
      if obj in associationMap {
        associationMap := associationMap[obj := associationMap[obj] - {key}];
      }
    }

    method SetStrongAssociation(obj: Address, key: Key, value: Option<Address>)
      modifies this
      ensures associationMap == SetStrong(old(associationMap), obj, key, value)
    {
      if value.Some? {
        var keys := if obj in associationMap then associationMap[obj] else {};
        associationMap := associationMap[obj := keys + {key}];
      } else {
        ResetAssociationAtKey(obj, key);
      }
    }

    method RemoveAssociations(obj: Address)
      modifies this
      ensures associationMap == RemoveAll(old(associationMap), obj)
    {
      if obj in associationMap {
        associationMap := associationMap - {obj};
      }
    }

    /**
     * The objects associated with `obj` under its tracked keys, one per
     * key whose value is still set, in no particular order; nothing for an
     * object with no entry.
     */
    method Associations(obj: Address, getAssociatedObject: (Address, Key) -> Option<Address>)
      returns (result: Option<seq<Address>>)
      ensures result.None? <==> AssociatedObjects(associationMap, obj, getAssociatedObject).None?
      ensures result.Some? ==>
        && (set v | v in result.value) == AssociatedObjects(associationMap, obj, getAssociatedObject).value
        && |result.value| <= |associationMap[obj]|
    {
      if |associationMap| == 0 || obj !in associationMap {
        return None;
      }
      var keys := associationMap[obj];
      var remaining := keys;
      var values: seq<Address> := [];
      while remaining != {}
        invariant remaining <= keys
        invariant |values| + |remaining| <= |keys|
        invariant forall v :: v in values <==>
          exists k :: k in keys - remaining && getAssociatedObject(obj, k) == Some(v)
        decreases |remaining|
      {
        var k :| k in remaining;
        var value := getAssociatedObject(obj, k);
        if value.Some? {
          values := values + [value.value];
        }
        remaining := remaining - {k};
      }
      assert keys - remaining == keys;
      return Some(values);
    }
  }
}
