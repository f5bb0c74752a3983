/** Python dicts, which remember the order in which their keys were first inserted. */
module PyDict {

  ghost predicate Distinct<T>(s: seq<T>)
  {
    forall i, j :: 0 <= i < j < |s| ==> s[i] != s[j]
  }

  /** `keys` lists the keys in first-insertion order, `entries` maps each key to its value. */
  datatype Dict<K(!new), V> = Dict(keys: seq<K>, entries: map<K, V>)
  {
    ghost predicate Valid()
    {
      Distinct(keys) && forall k :: k in entries <==> k in keys
    }

    /** `d[k] = v`: a new key goes to the end of the order, an existing one keeps its place. */
    function Put(k: K, v: V): (d: Dict<K, V>)
      ensures d.entries == entries[k := v]
      ensures d.keys == if k in entries then keys else keys + [k]
    {
      Dict(if k in entries then keys else keys + [k], entries[k := v])
    }

    /** Storing a key that is not there yet appends it to the order, and keeps the order
        listing exactly the stored keys. */
    lemma PutNew(k: K, v: V)
      requires forall x :: x in entries <==> x in keys
      requires k !in entries
      ensures Put(k, v).keys == keys + [k]
      ensures forall x :: x in Put(k, v).entries <==> x in Put(k, v).keys
    {
    }

    /** Storing a key keeps the keys distinct and in step with the entries. */
    lemma PutKeepsValid(k: K, v: V)
      requires Valid()
      ensures Put(k, v).Valid()
    {
    }
  }

  function Empty<K(!new), V>(): (d: Dict<K, V>)
    ensures d.Valid() && d.keys == [] && d.entries == map[]
  {
    Dict([], map[])
  }
}
