/**
 * Entries of the query cache and of the plan cache. Both pair a 64-bit
 * fingerprint of the stripped query text with a payload, and both compare
 * by the fingerprint alone, against another entry or against a bare key.
 */
module CacheEntries {

  /** An unsigned 64-bit query fingerprint. */
  type Fingerprint = x: int | 0 <= x < 0x1_0000_0000_0000_0000

  datatype CacheEntry<V> = CacheEntry(first: Fingerprint, second: V)
  {
    /** Entry equality: same fingerprint, whatever the payloads. */
    predicate Equals(other: CacheEntry<V>)
    {
      first == other.first
    }

    /** Entry order: fingerprint order. */
    predicate Less(other: CacheEntry<V>)
    {
      first < other.first
    }

    /** Equality against a bare fingerprint, used to look entries up by key. */
    predicate EqualsKey(key: Fingerprint)
    {
      first == key
    }

    /** Order against a bare fingerprint, used to look entries up by key. */
    predicate LessKey(key: Fingerprint)
    {
      first < key
    }
  }

  /** Two entries with the same fingerprint are equal however their payloads differ. */
  lemma EqualsIgnoresPayload<V>(a: CacheEntry<V>, b: CacheEntry<V>)
    ensures a.Equals(b) <==> a.first == b.first
    ensures a.Equals(b) ==> a.Equals(CacheEntry(b.first, a.second)) && b.Equals(CacheEntry(a.first, b.second))
  {
  }

  /**
   * Comparing an entry with another entry's fingerprint gives the same
   * answer as comparing the two entries, for both operators.
   */
  lemma KeyComparisonAgrees<V>(a: CacheEntry<V>, b: CacheEntry<V>)
    ensures a.EqualsKey(b.first) <==> a.Equals(b)
    ensures a.LessKey(b.first) <==> a.Less(b)
  {
  }

  /**
   * Less is a strict total order modulo Equals: irreflexive, transitive, and
   * of two entries exactly one is less than, equal to or greater than the other.
   */
  lemma LessIsStrictTotalOrder<V>(a: CacheEntry<V>, b: CacheEntry<V>, c: CacheEntry<V>)
    ensures !a.Less(a)
    ensures a.Less(b) && b.Less(c) ==> a.Less(c)
    ensures (a.Less(b) && !a.Equals(b) && !b.Less(a))
         || (!a.Less(b) && a.Equals(b) && !b.Less(a))
         || (!a.Less(b) && !a.Equals(b) && b.Less(a))
  {
  }
}
