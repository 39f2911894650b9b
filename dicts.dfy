/**
 * Python dictionaries with string keys. Iteration order is insertion order,
 * and the code relies on it (first-match searches, the reference anchor,
 * drawing order), so a dictionary is its values plus the order of its keys.
 */
module Dicts {
  import opened Base

  datatype OMap<V> = OMap(keys: seq<string>, vals: map<string, V>) {

    /** Keys listed once each, and exactly the keys that have values. */
    ghost predicate Valid() {
      && (forall i, j :: 0 <= i < j < |keys| ==> keys[i] != keys[j])
      && (forall k :: k in vals <==> k in keys)
    }

    /** Every listed key has a value (half of `Valid`, checkable at run time). */
    predicate KeysMapped() {
      forall k :: k in keys ==> k in vals
    }

    /** `d.get(k)`. */
    function Get(k: string): Option<V> {
      if k in vals then Some(vals[k]) else None
    }

    /**
     * `d[k] = v`: a new key goes to the end of the order, an existing key
     * keeps its place and only its value changes.
     */
    function Put(k: string, v: V): (r: OMap<V>)
      ensures Valid() ==> r.Valid()
      ensures r.vals == vals[k := v]
      ensures keys <= r.keys
      ensures k in vals ==> r.keys == keys
    {
      if k in vals then OMap(keys, vals[k := v]) else OMap(keys + [k], vals[k := v])
    }
  }

  function Empty<V>(): (r: OMap<V>)
    ensures r.Valid()
  {
    OMap([], map[])
  }
}
