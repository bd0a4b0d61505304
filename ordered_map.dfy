/** A JavaScript `Map`: keys iterate in order of first insertion, and `set` on an existing key
    replaces its value without moving it. */
module OrderedMaps {
  import opened Wrappers
  import opened Seqs

  datatype OrderedMap<K(==,!new), V> = OrderedMap(keys: seq<K>, entries: map<K, V>) {

    /** Keys are listed once each, and exactly the keys of `entries` are listed. */
    ghost predicate Valid() {
      Distinct(keys) && forall k :: k in entries <==> k in keys
    }

    /** `map.size` */
    function Size(): nat {
      |keys|
    }

    /** `map.get(k)` */
    function Get(k: K): Option<V> {
      if k in entries then Some(entries[k]) else None
    }

    /** `map.set(k, v)` */
    function Set(k: K, v: V): (m: OrderedMap<K, V>)
      requires Valid()
      ensures m.Valid()
      ensures m.Get(k) == Some(v)
      ensures forall k' :: k' != k ==> m.Get(k') == Get(k')
      ensures m.keys == if k in entries then keys else keys + [k]
    {
      OrderedMap(if k in entries then keys else keys + [k], entries[k := v])
    }
  }

  function Empty<K(==,!new), V>(): (m: OrderedMap<K, V>)
    ensures m.Valid() && m.Size() == 0
  {
    OrderedMap([], map[])
  }
}
