/**
 * A JavaScript object used as a dictionary with string keys (`layouts`,
 * `routeMap` in the route builder): `Object.keys` lists the keys in the
 * order they were first assigned, and assigning an existing key replaces
 * its value without moving it.
 */
module ObjectMaps {

  datatype ObjectMap<V> = ObjectMap(keys: seq<string>, entries: map<string, V>)

  /** Exactly the keys that have a value are listed. */
  ghost predicate WellFormed<V>(d: ObjectMap<V>) {
    forall k :: k in d.entries <==> k in d.keys
  }

  type Dict<V> = d: ObjectMap<V> | WellFormed(d) witness ObjectMap([], map[])

  /** Every key is listed once. */
  ghost predicate Distinct(keys: seq<string>) {
    forall i, j :: 0 <= i < j < |keys| ==> keys[i] != keys[j]
  }

  function Empty<V>(): (d: Dict<V>)
    ensures d.keys == [] && d.entries == map[]
  {
    ObjectMap([], map[])
  }

  /** `d[k] = v` */
  function Put<V>(d: Dict<V>, k: string, v: V): (r: Dict<V>)
    ensures r.entries == d.entries[k := v]
    ensures k in d.entries ==> r.keys == d.keys
    ensures k !in d.entries ==> r.keys == d.keys + [k]
  {
    if k in d.entries then ObjectMap(d.keys, d.entries[k := v])
    else ObjectMap(d.keys + [k], d.entries[k := v])
  }

  /** An assignment never lists a key twice. */
  lemma PutKeepsDistinct<V>(d: Dict<V>, k: string, v: V)
    requires Distinct(d.keys)
    ensures Distinct(Put(d, k, v).keys)
  {
    var r := Put(d, k, v);
    if k !in d.entries {
      forall i, j | 0 <= i < j < |r.keys| ensures r.keys[i] != r.keys[j] {
        if j == |d.keys| {
          assert r.keys[i] == d.keys[i];
        } else {
          assert r.keys[i] == d.keys[i] && r.keys[j] == d.keys[j];
        }
      }
    }
  }
}
