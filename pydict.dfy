/** Python's `dict`: insertion-ordered keys, each mapped to one value. */
module PyDict {
  import opened Wrappers

  /** Sequence `s` with every occurrence of `k` taken out. */
  function Without<K(==,!new)>(s: seq<K>, k: K): (r: seq<K>)
    ensures forall x :: x in r <==> x in s && x != k
    ensures |r| <= |s|
  {
    if s == [] then [] else (if s[0] == k then [] else [s[0]]) + Without(s[1..], k)
  }

  predicate Distinct<K(==)>(s: seq<K>) {
    forall i, j :: 0 <= i < j < |s| ==> s[i] != s[j]
  }

  lemma {:induction false} WithoutDistinct<K(!new)>(s: seq<K>, k: K)
    requires Distinct(s)
    ensures Distinct(Without(s, k))
    ensures k in s ==> |Without(s, k)| == |s| - 1
    ensures s != [] && s[0] == k ==> Without(s, k) == s[1..]
  {
    if s != [] {
      WithoutDistinct(s[1..], k);
      if s[0] == k {
        assert k !in s[1..];
        WithoutNothing(s[1..], k);
      }
      var r := Without(s, k);
      forall i, j | 0 <= i < j < |r| ensures r[i] != r[j] {
        if s[0] != k && i == 0 {
          assert r[j] in s[1..];
        }
      }
    }
  }

  lemma {:induction false} WithoutNothing<K(!new)>(s: seq<K>, k: K)
    requires k !in s
    ensures Without(s, k) == s
  {
    if s != [] {
      WithoutNothing(s[1..], k);
    }
  }

  /** A dict: its keys in insertion order and the value stored under each. */
  datatype Dict<K(==,!new), V> = Dict(keys: seq<K>, values: map<K, V>) {
    ghost predicate Valid() {
      Distinct(keys) && forall k :: k in values <==> k in keys
    }

    /** `len(d)` */
    function Len(): nat {
      |keys|
    }

    /** `d.get(k)` */
    function Get(k: K): (r: Option<V>)
      ensures r.Some? <==> k in values
      ensures r.Some? ==> r.value == values[k]
    {
      if k in values then Some(values[k]) else None
    }

    /** `d[k] = v`: a new key is placed last, an existing key keeps its place. */
    function Put(k: K, v: V): (d: Dict<K, V>)
      ensures Valid() ==> d.Valid()
      ensures d.values == values[k := v]
      ensures Valid() && k in values ==> d.keys == keys
      ensures Valid() && k !in values ==> d.keys == keys + [k]
    {
      if k in values then Dict(keys, values[k := v]) else Dict(keys + [k], values[k := v])
    }

    /** `del d[k]` for a key that is present. */
    function Remove(k: K): (d: Dict<K, V>)
      requires Valid() && k in values
      ensures d.Valid() && d.Len() == Len() - 1
      ensures d.values == values - {k}
      ensures keys[0] == k ==> d.keys == keys[1..]
    {
      WithoutDistinct(keys, k);
      Dict(Without(keys, k), values - {k})
    }

    /** The dict left after deleting its `n` oldest keys. */
    function DropOldest(n: nat): (d: Dict<K, V>)
      requires Valid() && n <= Len()
      ensures d.Valid() && d.Len() == Len() - n
      ensures d.keys == keys[n..]
      ensures forall k :: k in d.values ==> k in values && d.values[k] == values[k]
    {
      var rest := keys[n..];
      Dict(rest, map k | k in rest :: values[k])
    }
  }

  function Empty<K(==,!new), V>(): (d: Dict<K, V>)
    ensures d.Valid() && d.Len() == 0
  {
    Dict([], map[])
  }

  /** Deleting the oldest keys one at a time, oldest first, is dropping them all at once. */
  lemma DropOneMore<K(!new), V>(d: Dict<K, V>, n: nat)
    requires d.Valid() && n < d.Len()
    ensures d.DropOldest(n).Remove(d.keys[n]) == d.DropOldest(n + 1)
  {
    var e := d.DropOldest(n);
    assert e.keys[0] == d.keys[n];
    assert d.keys[n] !in d.keys[n + 1..];
    assert e.Remove(d.keys[n]).keys == d.keys[n + 1..];
  }
}
