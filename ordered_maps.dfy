/**
 * A JavaScript `Map<number, V>` as the store uses it: `get`, `set`, `delete`
 * and `Array.from(m.values())`. Iteration follows insertion order, and `set`
 * on a key that is already present replaces the value in its old position.
 */
module OrderedMaps {
  import opened Wrappers

  /** `keys` lists the keys in insertion order; `entries` holds the values. */
  datatype OrderedMap<V> = OrderedMap(keys: seq<int>, entries: map<int, V>)
  {
    /** Every key is listed exactly once. */
    ghost predicate Valid()
    {
      (forall i, j :: 0 <= i < j < |keys| ==> keys[i] != keys[j]) &&
      (forall i :: 0 <= i < |keys| ==> keys[i] in entries) &&
      (forall k :: k in entries ==> k in keys)
    }

    /** `m.get(k)`: `undefined` (None) for an absent key. */
    function Get(k: int): Option<V>
    {
      if k in entries then Some(entries[k]) else None
    }

    /** `m.set(k, v)`: a new key goes last, an existing key keeps its place. */
    function Set(k: int, v: V): OrderedMap<V>
    {
      OrderedMap(if k in entries then keys else keys + [k], entries[k := v])
    }

    /** `m.delete(k)`: whether `k` was present, and the map without it. */
    function Delete(k: int): (bool, OrderedMap<V>)
    {
      (k in entries, OrderedMap(RemoveKey(keys, k), entries - {k}))
    }

    /** `Array.from(m.values())`. */
    function Values(): (r: seq<V>)
      requires Valid()
      ensures |r| == |keys|
      ensures forall i :: 0 <= i < |keys| ==> r[i] == entries[keys[i]]
    {
      seq(|keys|, i requires 0 <= i < |keys| => entries[keys[i]])
    }
  }

  /** `new Map()`. */
  function Empty<V>(): (m: OrderedMap<V>)
    ensures m.Valid()
    ensures forall k :: m.Get(k) == None
  {
    OrderedMap([], map[])
  }

  /** The keys with `k` taken out, the others in their order. */
  function RemoveKey(ks: seq<int>, k: int): (r: seq<int>)
    ensures forall x :: x in r <==> x in ks && x != k
    ensures |r| <= |ks|
  {
    if ks == [] then []
    else (if ks[0] == k then [] else [ks[0]]) + RemoveKey(ks[1..], k)
  }

  ghost predicate Distinct(ks: seq<int>)
  {
    forall i, j :: 0 <= i < j < |ks| ==> ks[i] != ks[j]
  }

  /** When `k` sits at index `i` of distinct keys, removing it is cutting out index `i`. */
  lemma {:induction false} RemoveKeyAt(ks: seq<int>, k: int, i: nat)
    requires Distinct(ks) && i < |ks| && ks[i] == k
    ensures RemoveKey(ks, k) == ks[..i] + ks[i + 1..]
  {
    if i == 0 {
      assert k !in ks[1..];
      RemoveAbsent(ks[1..], k);
    } else {
      RemoveKeyAt(ks[1..], k, i - 1);
      assert ks[..i] == [ks[0]] + ks[1..][..i - 1];
      assert ks[i + 1..] == ks[1..][i..];
    }
  }

  lemma {:induction false} RemoveAbsent(ks: seq<int>, k: int)
    requires k !in ks
    ensures RemoveKey(ks, k) == ks
  {
    if ks != [] {
      RemoveAbsent(ks[1..], k);
      assert ks == [ks[0]] + ks[1..];
    }
  }

  /** `set` keeps the map well formed; the key it sets reads back, the others are untouched. */
  lemma SetGet<V>(m: OrderedMap<V>, k: int, v: V)
    requires m.Valid()
    ensures m.Set(k, v).Valid()
    ensures m.Set(k, v).Get(k) == Some(v)
    ensures forall k' :: k' != k ==> m.Set(k, v).Get(k') == m.Get(k')
  {
  }

  /** `set` on a present key replaces its value in place: same order, same length. */
  lemma SetExistingValues<V>(m: OrderedMap<V>, k: int, v: V)
    requires m.Valid() && k in m.entries
    ensures m.Set(k, v).Valid()
    ensures m.Set(k, v).keys == m.keys
    ensures forall i :: 0 <= i < |m.keys| ==>
      m.Set(k, v).Values()[i] == if m.keys[i] == k then v else m.Values()[i]
  {
  }

  /** `set` on an absent key appends its value to the iteration order. */
  lemma SetNewValues<V>(m: OrderedMap<V>, k: int, v: V)
    requires m.Valid() && k !in m.entries
    ensures m.Set(k, v).Valid()
    ensures m.Set(k, v).Values() == m.Values() + [v]
  {
    assert m.Set(k, v).Valid();
  }

  /**
   * `delete` answers whether the key was present and removes exactly that key;
   * a second `delete` of the same key answers false.
   */
  lemma DeleteGet<V>(m: OrderedMap<V>, k: int)
    requires m.Valid()
    ensures m.Delete(k).0 <==> m.Get(k).Some?
    ensures m.Delete(k).1.Valid()
    ensures m.Delete(k).1.Get(k) == None
    ensures forall k' :: k' != k ==> m.Delete(k).1.Get(k') == m.Get(k')
    ensures !m.Delete(k).1.Delete(k).0
  {
    var ks := RemoveKey(m.keys, k);
    forall i, j | 0 <= i < j < |ks| ensures ks[i] != ks[j] {
      DistinctRemove(m.keys, k);
    }
    forall i | 0 <= i < |ks| ensures ks[i] in m.entries - {k} {
      assert ks[i] in ks;
    }
  }

  /** `delete` of an absent key leaves the map as it was. */
  lemma DeleteAbsent<V>(m: OrderedMap<V>, k: int)
    requires m.Valid() && k !in m.entries
    ensures m.Delete(k).1 == m
  {
    assert k !in m.keys;
    RemoveAbsent(m.keys, k);
    assert m.entries - {k} == m.entries;
  }

  lemma {:induction false} DistinctRemove(ks: seq<int>, k: int)
    requires Distinct(ks)
    ensures Distinct(RemoveKey(ks, k))
  {
    if ks != [] {
      DistinctRemove(ks[1..], k);
      var rest := RemoveKey(ks[1..], k);
      assert ks[0] !in ks[1..];
      assert ks[0] !in rest;
    }
  }

  /** Deleting the key at position `i` cuts the `i`th value out of the iteration order. */
  lemma DeleteValues<V>(m: OrderedMap<V>, i: nat)
    requires m.Valid() && i < |m.keys|
    ensures m.Delete(m.keys[i]).1.Valid()
    ensures m.Delete(m.keys[i]).1.Values() == m.Values()[..i] + m.Values()[i + 1..]
  {
    var k := m.keys[i];
    DeleteGet(m, k);
    RemoveKeyAt(m.keys, k, i);
    var d := m.Delete(k).1;
    assert d.keys == m.keys[..i] + m.keys[i + 1..];
    var vs, ds := m.Values(), d.Values();
    forall j | 0 <= j < |ds| ensures ds[j] == (vs[..i] + vs[i + 1..])[j] {
      if j < i {
        assert d.keys[j] == m.keys[j];
      } else {
        assert d.keys[j] == m.keys[j + 1];
      }
    }
    assert |ds| == |vs[..i] + vs[i + 1..]|;
  }
}
