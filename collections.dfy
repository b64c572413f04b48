/** `Array.from(map.values())`, shared by both in-memory stores. */
module Collections {

  /** `values` lists the values of `m`, one per key: `keys` names the key each
      position came from, the keys are pairwise distinct and they are all the keys
      of `m`, so every entry appears exactly once. */
  ghost predicate ListsValues<K, V>(m: map<K, V>, values: seq<V>, keys: seq<K>)
  {
    && |values| == |keys| == |m|
    && (forall i, j :: 0 <= i < j < |keys| ==> keys[i] != keys[j])
    && (forall i :: 0 <= i < |keys| ==> keys[i] in m && values[i] == m[keys[i]])
    && (forall k :: k in m ==> k in keys)
  }

  /** The part of `ListsValues` that speaks of `values` alone: as many values
      as keys, each one stored in `m`, and every stored value among them. It
      ignores multiplicities (two keys sharing a value may be listed as one value
      twice and another once); `ListsValues` is the exact statement, and
      `ListsValuesHolds` derives this one from it. */
  ghost predicate HoldsValuesOf<K, V>(m: map<K, V>, values: seq<V>)
  {
    && |values| == |m|
    && (forall v :: v in values ==> v in m.Values)
    && (forall k :: k in m ==> m[k] in values)
  }

  lemma ListsValuesHolds<K, V>(m: map<K, V>, values: seq<V>, keys: seq<K>)
    requires ListsValues(m, values, keys)
    ensures HoldsValuesOf(m, values)
  {
    forall k | k in m
      ensures m[k] in values
    {
      var i :| 0 <= i < |keys| && keys[i] == k;
      assert values[i] == m[k];
    }
  }

  /** Collects the values of `m` in some order (the order of iteration is not
      modelled); the ghost `keys` records where each value came from. */
  method ValuesList<K, V>(m: map<K, V>) returns (values: seq<V>, ghost keys: seq<K>)
    ensures HoldsValuesOf(m, values)
    ensures ListsValues(m, values, keys)
  {
    var rest := m.Keys;
    values, keys := [], [];
    while rest != {}
      invariant rest <= m.Keys
      invariant |values| == |keys| && |keys| + |rest| == |m|
      invariant forall i, j :: 0 <= i < j < |keys| ==> keys[i] != keys[j]
      invariant forall i :: 0 <= i < |keys| ==> keys[i] in m && keys[i] !in rest && values[i] == m[keys[i]]
      invariant forall k :: k in m ==> k in rest || k in keys
      decreases rest
    {
      var k :| k in rest;
      values, keys := values + [m[k]], keys + [k];
      rest := rest - {k};
    }
    ListsValuesHolds(m, values, keys);
  }
}
