/** Small wrappers and sequence helpers shared by every module of the model. */
module Common {

  datatype Option<T> = None | Some(value: T)

  /** The `{ok: true, ...}` / `{error: true, errorCode}` answers of the handlers. */
  datatype Result<T, E> = Ok(value: T) | Err(error: E)

  function Min(a: int, b: int): int
  {
    if a <= b then a else b
  }

  /** Position of the first occurrence of `k` in `keys` (a findById / findOne). */
  function IndexOf<K(==)>(keys: seq<K>, k: K): (r: Option<nat>)
    ensures r.Some? <==> k in keys
    ensures r.Some? ==> r.value < |keys| && keys[r.value] == k && k !in keys[..r.value]
  {
    if |keys| == 0 then None
    else if keys[0] == k then Some(0)
    else
      match IndexOf(keys[1..], k)
      case None => None
      case Some(j) =>
        assert keys[..j + 1] == [keys[0]] + keys[1..][..j];
        Some(j + 1)
  }

  /** No key occurs twice. */
  predicate Distinct<K(==)>(keys: seq<K>)
  {
    forall i, j :: 0 <= i < j < |keys| ==> keys[i] != keys[j]
  }

  /** In a sequence without repetitions the first occurrence is the only one. */
  lemma DistinctIndexOf<K>(keys: seq<K>, i: nat)
    requires Distinct(keys) && i < |keys|
    ensures IndexOf(keys, keys[i]) == Some(i)
  {
  }

  /** `IndexOf` finds the first occurrence and nothing else. */
  lemma IndexOfUnique<K>(keys: seq<K>, k: K, j: nat)
    requires j < |keys| && keys[j] == k && k !in keys[..j]
    ensures IndexOf(keys, k) == Some(j)
  {
  }

  /** Appending a key does not move any key that was already there. */
  lemma IndexOfAppend<K>(keys: seq<K>, extra: K, k: K)
    requires k in keys
    ensures IndexOf(keys + [extra], k) == IndexOf(keys, k)
  {
    var j := IndexOf(keys, k).value;
    assert (keys + [extra])[..j] == keys[..j];
    IndexOfUnique(keys + [extra], k, j);
  }
}
