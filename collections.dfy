/** Small facts about sequences and maps that the accumulating loops of the model rely on. */
module Collections {

  /** Appending to a concatenation appends to its second part. */
  lemma ConcatAssoc<T>(a: seq<T>, b: seq<T>, c: seq<T>)
    ensures (a + b) + c == a + (b + c)
  {
  }

  /** Updating a merged map updates the map merged on the right. */
  lemma MergeUpdate<K, V>(a: map<K, V>, b: map<K, V>, k: K, v: V)
    ensures (a + b)[k := v] == a + b[k := v]
  {
  }
}
