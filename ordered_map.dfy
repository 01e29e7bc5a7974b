/**
 * A Python `dict` with string keys: a map together with the order in which its keys were
 * first inserted. Assigning to an existing key keeps its position; a new key goes last.
 */
module OrderedMap {
  import opened Wrappers

  datatype Dict<V> = Dict(keys: seq<string>, entries: map<string, V>) {

    /** The keys are distinct and are exactly the keys of the map. */
    ghost predicate Valid() {
      && (forall i, j :: 0 <= i < j < |keys| ==> keys[i] != keys[j])
      && (forall k :: k in entries <==> k in keys)
    }

    /** `d.get(k)`. */
    function Get(k: string): (r: Option<V>)
      ensures r.Some? <==> k in entries
      ensures r.Some? ==> r.value == entries[k]
    {
      if k in entries then Some(entries[k]) else None
    }

    /** `d[k] = v`. */
    function Put(k: string, v: V): (d: Dict<V>)
      requires Valid()
      ensures d.Valid()
      ensures d.entries == entries[k := v]
      ensures k in entries ==> d.keys == keys
      ensures k !in entries ==> d.keys == keys + [k]
    {
      Dict(if k in entries then keys else keys + [k], entries[k := v])
    }

    /** `list(d.values())`: the values in key order. */
    function Values(): (vs: seq<V>)
      requires Valid()
      ensures |vs| == |keys|
      ensures forall i :: 0 <= i < |keys| ==> vs[i] == entries[keys[i]]
    {
      seq(|keys|, i requires 0 <= i < |keys| => entries[keys[i]])
    }

    /** Assigning to the key at position `i` replaces the `i`-th value and no other. */
    lemma PutExistingValues(i: nat, v: V)
      requires Valid() && i < |keys|
      ensures Put(keys[i], v).Values() == Values()[i := v]
    {
      var d := Put(keys[i], v);
      forall j | 0 <= j < |keys| ensures d.Values()[j] == Values()[i := v][j] {
        if j != i {
          assert keys[j] != keys[i];
        }
      }
    }

    /** Assigning to a new key appends its value. */
    lemma PutNewValues(k: string, v: V)
      requires Valid() && k !in entries
      ensures Put(k, v).Values() == Values() + [v]
    {
      var d := Put(k, v);
      forall j | 0 <= j < |keys| ensures d.Values()[j] == (Values() + [v])[j] {
        assert keys[j] != k;
      }
    }
  }

  /** `{}`. */
  function Empty<V>(): (d: Dict<V>)
    ensures d.Valid() && d.keys == []
  {
    Dict([], map[])
  }
}
