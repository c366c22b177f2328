/** JavaScript `Map` and `Set` with their insertion order. A `Map` is a
    mathematical map together with the sequence of its keys in insertion
    order; a `Set` is a sequence of distinct elements. `set` on a present
    key replaces the value and keeps the key's position; on a new key it
    appends the key. */
module OrderedMaps {
  import opened Seqs

  datatype OMap<K(==), V> = OMap(keys: seq<K>, vals: map<K, V>)

  /** The key sequence lists each key of the map exactly once. */
  ghost predicate ValidMap<K(!new), V>(m: OMap<K, V>) {
    Distinct(m.keys) && forall k :: k in m.vals <==> k in m.keys
  }

  /** `new Map()`. */
  function EmptyMap<K(==, !new), V>(): (m: OMap<K, V>)
    ensures ValidMap(m)
    ensures forall k :: k !in m.vals
  {
    OMap([], map[])
  }

  /** `map.get(k)`. */
  function Get<K(==), V>(m: OMap<K, V>, k: K): Option<V> {
    if k in m.vals then Some(m.vals[k]) else None
  }

  /** `map.get(k) || dflt`, for values that are never falsy. */
  function GetOr<K(==), V>(m: OMap<K, V>, k: K, dflt: V): V {
    if k in m.vals then m.vals[k] else dflt
  }

  /** `map.set(k, v)`. */
  function Put<K(==, !new), V>(m: OMap<K, V>, k: K, v: V): (r: OMap<K, V>)
    ensures ValidMap(m) ==> ValidMap(r)
    ensures Get(r, k) == Some(v)
    ensures forall k2 :: k2 != k ==> Get(r, k2) == Get(m, k2)
    ensures ValidMap(m) ==> r.keys == if k in m.keys then m.keys else m.keys + [k]
  {
    OMap(if k in m.vals then m.keys else m.keys + [k], m.vals[k := v])
  }

  /** The entries of a map in insertion order, as `map.entries()` yields them. */
  function Entries<K(==, !new), V>(m: OMap<K, V>): (es: seq<(K, V)>)
    requires ValidMap(m)
    ensures |es| == |m.keys|
    ensures forall i :: 0 <= i < |es| ==> es[i] == (m.keys[i], m.vals[m.keys[i]])
  {
    seq(|m.keys|, i requires 0 <= i < |m.keys| => (m.keys[i], m.vals[m.keys[i]]))
  }

  /** The values of a map in insertion order, as `map.values()` yields them. */
  function Values<K(==, !new), V>(m: OMap<K, V>): (vs: seq<V>)
    requires ValidMap(m)
    ensures |vs| == |m.keys|
    ensures forall i :: 0 <= i < |vs| ==> vs[i] == m.vals[m.keys[i]]
  {
    seq(|m.keys|, i requires 0 <= i < |m.keys| => m.vals[m.keys[i]])
  }

  /** `set.add(x)`. */
  function AddToSet<T(==, !new)>(s: seq<T>, x: T): (r: seq<T>)
    ensures forall y :: y in r <==> y in s || y == x
    ensures Distinct(s) ==> Distinct(r)
  {
    if x in s then s else s + [x]
  }

  /** Replacing the value of a present key replaces that one value of
      `map.values()`, at the key's position. */
  lemma ValuesReplace<K(!new), V>(m: OMap<K, V>, r: OMap<K, V>, k: K)
    requires ValidMap(m) && ValidMap(r) && r.keys == m.keys && k in m.vals
    requires forall k2 :: k2 in m.vals && k2 != k ==> r.vals[k2] == m.vals[k2]
    ensures Values(r) == Values(m)[FirstIndex(m.keys, k) := r.vals[k]]
  {
    var i := FirstIndex(m.keys, k);
    forall j | 0 <= j < |m.keys| && j != i
      ensures Values(r)[j] == Values(m)[j]
    {
      assert m.keys[j] != m.keys[i];
    }
  }

  /** Adding a new key appends its value to `map.values()`. */
  lemma ValuesAppend<K(!new), V>(m: OMap<K, V>, r: OMap<K, V>, k: K)
    requires ValidMap(m) && ValidMap(r) && r.keys == m.keys + [k]
    requires forall k2 :: k2 in m.vals ==> r.vals[k2] == m.vals[k2]
    ensures Values(r) == Values(m) + [r.vals[k]]
  {
    assert forall j :: 0 <= j < |m.keys| ==> r.keys[j] == m.keys[j];
  }
}
