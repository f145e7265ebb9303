/**
 * Python's insertion-ordered dictionaries (`dict`, `OrderedDict`): a
 * sequence of keys in insertion order beside the key-value map.
 */
module OrderedMaps {

  datatype OrderedMap<K(==), V> = OrderedMap(keys: seq<K>, values: map<K, V>) {

    /** Keys are distinct and are exactly the keys of the map. */
    ghost predicate Valid() {
      && (forall i, j :: 0 <= i < j < |keys| ==> keys[i] != keys[j])
      && (forall k :: k in values ==> k in keys)
      && (forall k :: k in keys ==> k in values)
    }
  }

  function Empty<K(==), V>(): (r: OrderedMap<K, V>)
    ensures r.keys == [] && r.values == map[]
  {
    OrderedMap([], map[])
  }

  /** `d[k] = v`: a new key goes to the end, an existing key keeps its place and gets the new value. */
  function Put<K(==), V>(m: OrderedMap<K, V>, k: K, v: V): (r: OrderedMap<K, V>)
    ensures r.values == m.values[k := v]
    ensures k in m.values ==> r.keys == m.keys
    ensures k !in m.values ==> r.keys == m.keys + [k]
  {
    var keys := if k in m.values then m.keys else m.keys + [k];
    OrderedMap(keys, m.values[k := v])
  }

  /** The empty dictionary is well formed. */
  lemma EmptyValid<K, V>()
    ensures Empty<K, V>().Valid()
  {
  }

  /** Assignment keeps the keys distinct and in step with the map. */
  lemma PutValid<K, V>(m: OrderedMap<K, V>, k: K, v: V)
    requires m.Valid()
    ensures Put(m, k, v).Valid()
  {
    var r := Put(m, k, v);
    if k !in m.values {
      forall i, j | 0 <= i < j < |r.keys| ensures r.keys[i] != r.keys[j] {
        if j == |m.keys| {
          assert m.keys[i] in m.keys;
        }
      }
    }
  }
}
