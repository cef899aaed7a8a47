/** Facts about updating one key of a map. */
module Maps {

  /** `m'` agrees with `m` on every key other than `k`, in presence and value. */
  ghost predicate OthersUnchanged<K(!new), V>(m: map<K, V>, m': map<K, V>, k: K)
  {
    && (forall j :: j != k ==> (j in m' <==> j in m))
    && (forall j :: j != k && j in m ==> m'[j] == m[j])
  }
}
