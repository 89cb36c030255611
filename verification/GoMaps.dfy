/** Go maps: absent keys read as zero, and iteration takes the keys in any order. */
module GoMaps {
  function Count<K>(m: map<K, int>, k: K): int { if k in m then m[k] else 0 }

  /** An element, whichever the iteration comes to. */
  method Any<T(==)>(s: set<T>) returns (x: T)
    requires s != {}
    ensures x in s
  {
    x :| x in s;
  }
}
