/** An insertion-ordered dictionary: a JavaScript object with string keys or a Python
    `dict`. Iteration (`for…in`, `Object.entries`, `dict.items()`) follows `keys`;
    assigning to a present key keeps its position. */
module Dict {
  import opened Common

  datatype Dict<K(==,!new), V> = Dict(keys: seq<K>, vals: map<K, V>) {

    /** Keys are distinct and are exactly the domain of `vals`. */
    ghost predicate Valid() {
      (forall i, j | 0 <= i < j < |keys| :: keys[i] != keys[j]) &&
      (forall k :: k in vals <==> k in keys)
    }

    /** `d[k]`, or nothing when `k` is absent. */
    function Get(k: K): (r: Option<V>)
      ensures r.Some? <==> k in vals
      ensures r.Some? ==> r.value == vals[k]
    {
      if k in vals then Some(vals[k]) else None
    }

    /** `d[k] = v`: a new key goes last, a present key keeps its place. */
    function Put(k: K, v: V): (d: Dict<K, V>)
      requires Valid()
      ensures d.Valid()
      ensures d.vals == vals[k := v]
      ensures k in keys ==> d.keys == keys
      ensures k !in keys ==> d.keys == keys + [k]
    {
      if k in keys then Dict(keys, vals[k := v]) else Dict(keys + [k], vals[k := v])
    }

    /** Number of entries, `Object.keys(d).length` / `len(d)`. */
    function Size(): nat { |keys| }
  }

  function Empty<K(==,!new), V>(): (d: Dict<K, V>)
    ensures d.Valid() && d.keys == [] && d.vals == map[]
  {
    Dict([], map[])
  }

  /** Reading back a written key gives the written value; other keys are untouched. */
  lemma PutThenGet<K(!new), V>(d: Dict<K, V>, k: K, v: V, other: K)
    requires d.Valid()
    ensures d.Put(k, v).Get(k) == Some(v)
    ensures other != k ==> d.Put(k, v).Get(other) == d.Get(other)
    ensures d.Put(k, v).Size() == if d.Get(k).Some? then d.Size() else d.Size() + 1
  {
  }
}
