/** Small datatypes shared by every module. */
module Common {
  datatype Option<+T> = None | Some(value: T)

  /** The value stored under a key, if any. */
  function Lookup<K, V>(m: map<K, V>, key: K): Option<V> {
    if key in m then Some(m[key]) else None
  }

  /** `result` is what stands at the positions `ix` of `source`, which ascend. */
  ghost predicate Selects<T>(source: seq<T>, ix: seq<nat>, result: seq<T>) {
    && |result| == |ix| && (forall k | 0 <= k < |ix| :: ix[k] < |source| && result[k] == source[ix[k]])
    && forall j, k | 0 <= j < k < |ix| :: ix[j] < ix[k]
  }

  lemma SelectsMore<T>(source: seq<T>, ix: seq<nat>, result: seq<T>, i: nat)
    requires Selects(source, ix, result) && i < |source| && forall k | 0 <= k < |ix| :: ix[k] < i
    ensures Selects(source, ix + [i], result + [source[i]]) && forall k | 0 <= k <= |ix| :: (ix + [i])[k] < i + 1
  {
  }

  lemma SelectsLonger<T>(source: seq<T>, n: nat, ix: seq<nat>, result: seq<T>)
    requires n <= |source| && Selects(source[..n], ix, result)
    ensures Selects(source, ix, result) && forall k | 0 <= k < |ix| :: ix[k] < n
  {
  }

  lemma SelectsFirst<T>(source: seq<T>, i: nat, ix: seq<nat>, result: seq<T>)
    requires Selects(source, ix, result) && i < |source| && forall k | 0 <= k < |ix| :: i < ix[k]
    ensures Selects(source, [i] + ix, [source[i]] + result)
  {
  }

  lemma SubsetSize<T>(a: set<T>, b: set<T>)
    requires a <= b
    ensures |a| <= |b|
  {
    assert b == a + (b - a);
  }
}
