/** Facts about Python dicts, modelled as maps, that the registries rely on. */
module PyDict {
  /** A second store under the same key replaces the first. */
  lemma OverwriteTwice<K, V>(m: map<K, V>, k: K, a: V, b: V)
    ensures m[k := a][k := b] == m[k := b]
  {
  }

  /** Storing under a key and then deleting the key leaves the other entries as they were. */
  lemma SetThenDelete<K, V>(m: map<K, V>, id: K, v: V)
    ensures m[id := v] - {id} == m - {id}
  {
    assert (m[id := v] - {id}).Keys == (m - {id}).Keys;
  }

  /** Deleting a key that is not there changes nothing. */
  lemma DeleteAbsent<K, V>(m: map<K, V>, k: K)
    requires k !in m
    ensures m - {k} == m
  {
    assert (m - {k}).Keys == m.Keys;
  }

}
