/** Facts about maps that hold whatever the keys and values are. */
module MapFacts {

  lemma UpdateSize<K, V>(m: map<K, V>, k: K, v: V)
    requires k in m
    ensures |m[k := v]| == |m|
  {
    assert m[k := v].Keys == m.Keys;
    assert |m[k := v].Keys| == |m.Keys|;
  }

  lemma LessSize<K, V>(m: map<K, V>, s: set<K>)
    ensures |m - s| <= |m|
  {
    var less := (m - s).Keys;
    assert less + (m.Keys - less) == m.Keys;
    assert |less| == |m - s| && |m.Keys| == |m|;
  }

  /** Goes through the keys one by one and erases those that `drop` picks. */
  method EraseIf<K(==), V>(m: map<K, V>, drop: K -> bool) returns (r: map<K, V>)
    ensures r == m - (set k | k in m && drop(k))
  {
    r := m;
    var rest := m.Keys;
    while rest != {}
      invariant rest <= m.Keys
      invariant r == m - (set k | k in m && k !in rest && drop(k))
      decreases |rest|
    {
      var key :| key in rest;
      if drop(key) {
        r := r - {key};
      }
      rest := rest - {key};
    }
  }
}
