/**
 * PHP arrays are ordered dictionaries: assigning to an existing key keeps
 * the entry where it is and replaces its value, assigning to a new key
 * appends, and `unset` drops the key. This module models that behaviour
 * on sequences of key/value pairs.
 */
module OrderedDicts {

  datatype Option<+T> = None | Some(value: T)

  datatype Result<+T, +E> = Success(value: T) | Failure(error: E)

  /** An ordered dictionary; PHP keeps keys unique, see UniqueKeys. */
  type Dict<K, V> = seq<(K, V)>

  /** The keys, in order (`array_keys`). */
  function Keys<K, V>(d: Dict<K, V>): seq<K>
  {
    if d == [] then [] else [d[0].0] + Keys(d[1..])
  }

  /** The values, in order (`array_values`, or what `foreach` visits). */
  function Values<K, V>(d: Dict<K, V>): seq<V>
  {
    if d == [] then [] else [d[0].1] + Values(d[1..])
  }

  /** No key occurs twice, as in every PHP array. */
  ghost predicate UniqueKeys<K, V>(d: Dict<K, V>)
  {
    d == [] || (d[0].0 !in Keys(d[1..]) && UniqueKeys(d[1..]))
  }

  /** `$d[$k]`: the value stored at the first entry with key k, if any. */
  function Get<K(==), V>(d: Dict<K, V>, k: K): (r: Option<V>)
    ensures r.Some? <==> k in Keys(d)
  {
    if d == [] then None
    else if d[0].0 == k then Some(d[0].1)
    else Get(d[1..], k)
  }

  /** `$d[$k] = $v`: replaces the value in place, or appends a new entry. */
  function Put<K(==, !new), V>(d: Dict<K, V>, k: K, v: V): (r: Dict<K, V>)
    ensures Get(r, k) == Some(v)
    ensures forall k' :: k' != k ==> Get(r, k') == Get(d, k')
    ensures Keys(r) == if k in Keys(d) then Keys(d) else Keys(d) + [k]
  {
    if d == [] then [(k, v)]
    else if d[0].0 == k then [(k, v)] + d[1..]
    else [d[0]] + Put(d[1..], k, v)
  }

  /** `unset($d[$k])`: drops the key, keeps every other entry and its order. */
  function Remove<K(==, !new), V>(d: Dict<K, V>, k: K): (r: Dict<K, V>)
    ensures Get(r, k) == None
    ensures forall k' :: k' != k ==> Get(r, k') == Get(d, k')
    ensures k !in Keys(d) ==> r == d
    ensures |r| <= |d|
  {
    if d == [] then []
    else if d[0].0 == k then Remove(d[1..], k)
    else [d[0]] + Remove(d[1..], k)
  }

  /** `array_map($f, $d)`: the same keys in the same order, each value mapped. */
  function MapValues<K(==, !new), V, W>(d: Dict<K, V>, f: V -> W): (r: Dict<K, W>)
    ensures Keys(r) == Keys(d)
    ensures forall k :: Get(r, k) == (if k in Keys(d) then Some(f(Get(d, k).value)) else None)
  {
    if d == [] then [] else [(d[0].0, f(d[0].1))] + MapValues(d[1..], f)
  }

  lemma {:induction false} KeysIndex<K, V>(d: Dict<K, V>)
    ensures |Keys(d)| == |d|
    ensures forall i :: 0 <= i < |d| ==> Keys(d)[i] == d[i].0
  {
    if d != [] {
      KeysIndex(d[1..]);
    }
  }

  /** With unique keys, the i-th entry is what its key reads. */
  lemma {:induction false} GetAt<K, V>(d: Dict<K, V>, i: nat)
    requires UniqueKeys(d) && i < |d|
    ensures Get(d, d[i].0) == Some(d[i].1)
  {
    if i > 0 {
      KeysIndex(d[1..]);
      assert Keys(d[1..])[i - 1] == d[i].0;
      GetAt(d[1..], i - 1);
    }
  }

  lemma {:induction false} PutKeepsUniqueKeys<K(!new), V>(d: Dict<K, V>, k: K, v: V)
    requires UniqueKeys(d)
    ensures UniqueKeys(Put(d, k, v))
  {
    if d != [] && d[0].0 != k {
      PutKeepsUniqueKeys(d[1..], k, v);
    }
  }
}
