/** Python dicts: a mapping that remembers the order in which keys were first inserted. */
module PyDict {

  /** `keys` is the iteration order, `values` the mapping itself. */
  datatype Dict<K(==, !new), V> = Dict(keys: seq<K>, values: map<K, V>)
  {
    /** Every key of the mapping is listed exactly once. */
    ghost predicate Valid()
    {
      (forall i, j | 0 <= i < j < |keys| :: keys[i] != keys[j]) &&
      (forall k :: k in values <==> k in keys)
    }
  }

  function Empty<K(==, !new), V>(): (d: Dict<K, V>)
    ensures d.Valid() && d.keys == [] && d.values == map[]
  {
    Dict([], map[])
  }

  /** `d[k] = v`: a new key goes to the end of the order, an existing key keeps
      its place and only its value changes. */
  function Insert<K(==, !new), V>(d: Dict<K, V>, k: K, v: V): (r: Dict<K, V>)
    requires d.Valid()
    ensures r.Valid()
    ensures r.values == d.values[k := v]
    ensures k in d.values ==> r.keys == d.keys
    ensures k !in d.values ==> r.keys == d.keys + [k]
  {
    if k in d.values then Dict(d.keys, d.values[k := v]) else Dict(d.keys + [k], d.values[k := v])
  }

  /** The elements of s, each kept at its first occurrence. */
  function FirstOccurrences<K(==, !new)>(s: seq<K>): (r: seq<K>)
    ensures forall i, j | 0 <= i < j < |r| :: r[i] != r[j]
    ensures forall x :: x in r <==> x in s
  {
    if s == [] then []
    else
      var front := FirstOccurrences(s[..|s| - 1]);
      if s[|s| - 1] in front then front else front + [s[|s| - 1]]
  }

  /** len(d): a valid dict has exactly as many entries as keys in its order. */
  lemma Size<K(!new), V>(d: Dict<K, V>)
    requires d.Valid()
    ensures |d.values| == |d.keys|
  {
    DistinctCard(d.keys);
    assert d.values.Keys == set x | x in d.keys;
  }

  lemma {:induction false} DistinctCard<K(!new)>(s: seq<K>)
    requires forall i, j | 0 <= i < j < |s| :: s[i] != s[j]
    ensures |set x | x in s| == |s|
  {
    if s != [] {
      var front := s[..|s| - 1];
      DistinctCard(front);
      assert (set x | x in s) == (set x | x in front) + {s[|s| - 1]};
      assert s[|s| - 1] !in front;
    }
  }

  /** A sequence without repeats is its own list of first occurrences. */
  lemma {:induction false} FirstOccurrencesDistinct<K(!new)>(s: seq<K>)
    requires forall i, j | 0 <= i < j < |s| :: s[i] != s[j]
    ensures FirstOccurrences(s) == s
  {
    if s != [] {
      var front := s[..|s| - 1];
      FirstOccurrencesDistinct(front);
      assert s[|s| - 1] !in front;
      assert front + [s[|s| - 1]] == s;
    }
  }
}
