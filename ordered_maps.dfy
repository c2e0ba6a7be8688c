/** JavaScript's `Map`: a finite map that also remembers the order in which
    keys were first inserted, which is the order `forEach`, `values()` and
    `entries()` visit them. `set` on a present key keeps its position. */
module OrderedMaps {
  import opened Wrappers

  predicate Distinct<K(==, !new)>(s: seq<K>) {
    forall i, j :: 0 <= i < j < |s| ==> s[i] != s[j]
  }

  /** `s` with every occurrence of `k` removed. */
  function Without<K(==, !new)>(s: seq<K>, k: K): (r: seq<K>)
    ensures forall x :: x in r <==> x in s && x != k
  {
    if s == [] then []
    else
      assert forall x :: x in s <==> x == s[0] || x in s[1..];
      (if s[0] == k then [] else [s[0]]) + Without(s[1..], k)
  }

  lemma {:induction false} WithoutDistinct<K(!new)>(s: seq<K>, k: K)
    requires Distinct(s)
    ensures Distinct(Without(s, k))
  {
    if s != [] {
      var rest := Without(s[1..], k);
      WithoutDistinct(s[1..], k);
      if s[0] != k {
        var r := [s[0]] + rest;
        forall i, j | 0 <= i < j < |r| ensures r[i] != r[j] {
          if i == 0 {
            assert r[j] == rest[j - 1] && rest[j - 1] in s[1..];
            var m :| 0 <= m < |s[1..]| && s[1..][m] == r[j];
            assert s[m + 1] == r[j];
          } else {
            assert r[i] == rest[i - 1] && r[j] == rest[j - 1];
          }
        }
      }
    }
  }

  datatype OMap<K(==, !new), V> = OMap(keys: seq<K>, entries: map<K, V>) {

    /** The insertion order lists each present key exactly once. */
    ghost predicate Valid() {
      Distinct(keys) && forall k :: k in entries <==> k in keys
    }

    /** `map.get(k)`. */
    function Get(k: K): (r: Option<V>)
      ensures r.Some? <==> k in entries
      ensures r.Some? ==> r.value == entries[k]
    {
      if k in entries then Some(entries[k]) else None
    }

    /** `map.set(k, v)`: a new key goes last, a present key keeps its place. */
    function Put(k: K, v: V): (r: OMap<K, V>)
      requires Valid()
      ensures r.Valid()
      ensures r.entries == entries[k := v]
      ensures k in entries ==> r.keys == keys
      ensures k !in entries ==> r.keys == keys + [k]
    {
      if k in entries then OMap(keys, entries[k := v])
      else
        var ks := keys + [k];
        assert forall i :: 0 <= i < |keys| ==> ks[i] == keys[i];
        OMap(ks, entries[k := v])
    }

    /** `map.delete(k)`: the other keys keep their relative order. */
    function Remove(k: K): (r: OMap<K, V>)
      requires Valid()
      ensures r.Valid()
      ensures r.entries == entries - {k}
      ensures r.keys == Without(keys, k)
    {
      WithoutDistinct(keys, k);
      OMap(Without(keys, k), entries - {k})
    }

    /** `Array.from(map.values())`: the values in key order. */
    function Values(): (vs: seq<V>)
      requires Valid()
      ensures |vs| == |keys|
      ensures forall i :: 0 <= i < |keys| ==> keys[i] in entries && vs[i] == entries[keys[i]]
    {
      seq(|keys|, i requires 0 <= i < |keys| => entries[keys[i]])
    }
  }

  function Empty<K(==, !new), V>(): (m: OMap<K, V>)
    ensures m.Valid() && m.entries == map[] && m.keys == []
  {
    OMap([], map[])
  }

  /** A second `set` of the same key overrides the first. */
  lemma PutPut<K(!new), V>(m: OMap<K, V>, k: K, a: V, b: V)
    requires m.Valid()
    ensures m.Put(k, a).Put(k, b) == m.Put(k, b)
  {
    assert m.entries[k := a][k := b] == m.entries[k := b];
  }

  /** Updating a present key changes only that key's value. */
  lemma PutPresentKeepsOthers<K(!new), V>(m: OMap<K, V>, k: K, v: V, other: K)
    requires m.Valid() && k in m.entries && other != k
    ensures m.Put(k, v).Get(other) == m.Get(other)
    ensures m.Put(k, v).keys == m.keys
  {
  }
}
