/**
 * A fingerprint-keyed cache: a set of entries kept in the order of the
 * entries' own `Less`, looked up by a bare fingerprint with `LessKey` and
 * `EqualsKey`. It is the sequential view of the concurrent ordered container
 * that holds the query cache and the plan cache.
 */
module FingerprintCaches {
  import opened Wrappers
  import opened CacheEntries

  /** Entries in strictly increasing fingerprint order; so no two share a fingerprint. */
  ghost predicate Ordered<V>(s: seq<CacheEntry<V>>)
  {
    forall i, j {:trigger s[i].Less(s[j])} :: 0 <= i < j < |s| ==> s[i].Less(s[j])
  }

  /** What the entries mean: each fingerprint maps to its entry's payload. */
  ghost function ToMap<V>(s: seq<CacheEntry<V>>): map<Fingerprint, V>
    requires Ordered(s)
  {
    OrderedFingerprintsAreDistinct(s);
    map i | 0 <= i < |s| :: s[i].first := s[i].second
  }

  /** No two entries of an ordered sequence share a fingerprint. */
  lemma OrderedFingerprintsAreDistinct<V>(s: seq<CacheEntry<V>>)
    requires Ordered(s)
    ensures forall i, j :: 0 <= i < |s| && 0 <= j < |s| && i != j ==> s[i].first != s[j].first
  {
    forall i, j | 0 <= i < |s| && 0 <= j < |s| && i != j
      ensures s[i].first != s[j].first
    {
      OrderedFingerprintsDiffer(s, i, j);
    }
  }

  /** A fingerprint is cached iff some entry carries it, and then its value is that entry's payload. */
  lemma ToMapAt<V>(s: seq<CacheEntry<V>>, i: int)
    requires Ordered(s) && 0 <= i < |s|
    ensures s[i].first in ToMap(s) && ToMap(s)[s[i].first] == s[i].second
  {
    forall j | 0 <= j < |s| && j != i
      ensures s[j].first != s[i].first
    {
      OrderedFingerprintsDiffer(s, i, j);
    }
  }

  /** In ordered entries, two different entries carry different fingerprints. */
  lemma OrderedFingerprintsDiffer<V>(s: seq<CacheEntry<V>>, i: int, j: int)
    requires Ordered(s) && 0 <= i < |s| && 0 <= j < |s| && i != j
    ensures s[i].first != s[j].first
  {
    if i < j {
      assert s[i].Less(s[j]);
    } else {
      assert s[j].Less(s[i]);
    }
  }

  class FingerprintCache<V> {
    var entries: seq<CacheEntry<V>>

    ghost predicate Valid()
      reads this
    {
      Ordered(entries)
    }

    /** The cache as a map from fingerprint to cached value. */
    ghost function Contents(): map<Fingerprint, V>
      reads this
      requires Valid()
    {
      ToMap(entries)
    }

    constructor ()
      ensures Valid() && Contents() == map[]
    {
      entries := [];
    }

    /** The index of the first entry whose fingerprint is not below `key`. */
    method LowerBound(key: Fingerprint) returns (i: nat)
      requires Valid()
      ensures i <= |entries|
      ensures forall j :: 0 <= j < i ==> entries[j].LessKey(key)
      ensures forall j :: i <= j < |entries| ==> !entries[j].LessKey(key)
    {
      i := 0;
      while i < |entries| && entries[i].LessKey(key)
        invariant i <= |entries|
        invariant forall j :: 0 <= j < i ==> entries[j].LessKey(key)
      {
        i := i + 1;
      }
      if i < |entries| {
        forall j | i <= j < |entries|
          ensures !entries[j].LessKey(key)
        {
          if j > i {
            assert entries[i].Less(entries[j]);
          }
        }
      }
    }

    /** The entry cached under exactly `key`, if there is one. */
    method Find(key: Fingerprint) returns (r: Option<CacheEntry<V>>)
      requires Valid()
      ensures r == if key in Contents() then Some(CacheEntry(key, Contents()[key])) else None
    {
      var i := LowerBound(key);
      if i < |entries| && entries[i].EqualsKey(key) {
        ToMapAt(entries, i);
        r := Some(entries[i]);
      } else {
        assert forall j :: 0 <= j < |entries| ==> entries[j].first != key by {
          forall j | 0 <= j < |entries|
            ensures entries[j].first != key
          {
            if i < j {
              assert entries[i].Less(entries[j]);
            }
          }
        }
        r := None;
      }
    }

    /**
     * Adds `entry` unless an entry with its fingerprint is already cached,
     * in which case the cache is left as it is.
     */
    method Insert(entry: CacheEntry<V>) returns (inserted: bool)
      requires Valid()
      modifies this
      ensures Valid()
      ensures inserted <==> entry.first !in old(Contents())
      ensures Contents() == if inserted then old(Contents())[entry.first := entry.second] else old(Contents())
    {
      var i := LowerBound(entry.first);
      if i < |entries| && entries[i].Equals(entry) {
        ToMapAt(entries, i);
        inserted := false;
      } else {
        var s := entries;
        assert forall j :: 0 <= j < |s| ==> s[j].first != entry.first by {
          forall j | 0 <= j < |s|
            ensures s[j].first != entry.first
          {
            if i < j {
              assert s[i].Less(s[j]);
            }
          }
        }
        entries := s[..i] + [entry] + s[i..];
        InsertedMeaning(s, i, entry);
        inserted := true;
      }
    }

    /** Removes the entry cached under `key`, if there is one. */
    method Remove(key: Fingerprint) returns (removed: bool)
      requires Valid()
      modifies this
      ensures Valid()
      ensures removed <==> key in old(Contents())
      ensures Contents() == old(Contents()) - {key}
    {
      var i := LowerBound(key);
      if i < |entries| && entries[i].EqualsKey(key) {
        var s := entries;
        ToMapAt(s, i);
        entries := s[..i] + s[i + 1..];
        RemovedMeaning(s, i);
        removed := true;
      } else {
        assert forall j :: 0 <= j < |entries| ==> entries[j].first != key by {
          forall j | 0 <= j < |entries|
            ensures entries[j].first != key
          {
            if i < j {
              assert entries[i].Less(entries[j]);
            }
          }
        }
        assert key !in Contents();
        assert Contents() - {key} == Contents();
        removed := false;
      }
    }
  }

  /** Putting `e` between the entries below and above its fingerprint keeps the order. */
  lemma InsertedOrdered<V>(s: seq<CacheEntry<V>>, i: int, e: CacheEntry<V>)
    requires Ordered(s) && 0 <= i <= |s|
    requires forall j :: 0 <= j < i ==> s[j].first < e.first
    requires forall j :: i <= j < |s| ==> e.first < s[j].first
    ensures Ordered(s[..i] + [e] + s[i..])
  {
    var t := s[..i] + [e] + s[i..];
    assert forall j :: 0 <= j < i ==> t[j] == s[j];
    assert forall j :: i < j < |t| ==> t[j] == s[j - 1];
  }

  /** A binding of the cache after the insertion is `e`'s or one from before. */
  lemma InsertedKeyCameFrom<V>(s: seq<CacheEntry<V>>, i: int, e: CacheEntry<V>, k: Fingerprint)
    requires Ordered(s) && 0 <= i <= |s| && Ordered(s[..i] + [e] + s[i..])
    requires k in ToMap(s[..i] + [e] + s[i..])
    ensures k == e.first || k in ToMap(s)
    ensures ToMap(s[..i] + [e] + s[i..])[k] == if k == e.first then e.second else ToMap(s)[k]
  {
    var t := s[..i] + [e] + s[i..];
    var j :| 0 <= j < |t| && t[j].first == k;
    ToMapAt(t, j);
    assert t[i] == e;
    if j != i {
      assert t[j].Less(t[i]) || t[i].Less(t[j]);
      var j' := if j < i then j else j - 1;
      assert t[j] == s[j'];
      ToMapAt(s, j');
    }
  }

  /** Every binding from before the insertion, and `e`'s, is in the cache after it. */
  lemma InsertedKeyKept<V>(s: seq<CacheEntry<V>>, i: int, e: CacheEntry<V>, k: Fingerprint)
    requires Ordered(s) && 0 <= i <= |s| && Ordered(s[..i] + [e] + s[i..])
    requires k == e.first || k in ToMap(s)
    ensures k in ToMap(s[..i] + [e] + s[i..])
  {
    var t := s[..i] + [e] + s[i..];
    if k == e.first {
      assert t[i] == e;
      ToMapAt(t, i);
    } else {
      var j :| 0 <= j < |s| && s[j].first == k;
      var j' := if j < i then j else j + 1;
      assert t[j'] == s[j];
      ToMapAt(t, j');
    }
  }

  /** Putting `e` between the entries below and above its fingerprint keeps the order and adds its binding. */
  lemma InsertedMeaning<V>(s: seq<CacheEntry<V>>, i: int, e: CacheEntry<V>)
    requires Ordered(s) && 0 <= i <= |s|
    requires forall j :: 0 <= j < i ==> s[j].first < e.first
    requires forall j :: i <= j < |s| ==> e.first < s[j].first
    ensures Ordered(s[..i] + [e] + s[i..])
    ensures ToMap(s[..i] + [e] + s[i..]) == ToMap(s)[e.first := e.second]
  {
    InsertedOrdered(s, i, e);
    var m, m' := ToMap(s[..i] + [e] + s[i..]), ToMap(s)[e.first := e.second];
    forall k | k in m
      ensures k in m' && m[k] == m'[k]
    {
      InsertedKeyCameFrom(s, i, e, k);
    }
    forall k | k in m'
      ensures k in m
    {
      InsertedKeyKept(s, i, e, k);
    }
  }

  /** `t` is `s` with entry `i` cut out. */
  ghost predicate IsRemoval<V>(s: seq<CacheEntry<V>>, i: int, t: seq<CacheEntry<V>>)
  {
    && 0 <= i < |s| && |t| == |s| - 1
    && (forall j :: 0 <= j < i ==> t[j] == s[j])
    && (forall j :: i <= j < |t| ==> t[j] == s[j + 1])
  }

  /** Cutting out an entry keeps the order. */
  lemma RemovedOrdered<V>(s: seq<CacheEntry<V>>, i: int, t: seq<CacheEntry<V>>)
    requires Ordered(s) && IsRemoval(s, i, t)
    ensures Ordered(t)
  {
    forall a, b | 0 <= a < b < |t|
      ensures t[a].Less(t[b])
    {
      var a', b' := if a < i then a else a + 1, if b < i then b else b + 1;
      assert t[a] == s[a'] && t[b] == s[b'];
    }
  }

  /** A binding left after cutting out entry `i` is a binding from before, other than entry `i`'s. */
  lemma RemovedKeyCameFrom<V>(s: seq<CacheEntry<V>>, i: int, t: seq<CacheEntry<V>>, k: Fingerprint)
    requires Ordered(s) && IsRemoval(s, i, t) && Ordered(t)
    requires k in ToMap(t)
    ensures k in ToMap(s) && k != s[i].first
    ensures ToMap(t)[k] == ToMap(s)[k]
  {
    var j :| 0 <= j < |t| && t[j].first == k;
    ToMapAt(t, j);
    var j' := if j < i then j else j + 1;
    assert t[j] == s[j'];
    ToMapAt(s, j');
    assert s[i].Less(s[j']) || s[j'].Less(s[i]);
  }

  /** Every binding from before, other than entry `i`'s, is left after cutting it out. */
  lemma RemovedKeyKept<V>(s: seq<CacheEntry<V>>, i: int, t: seq<CacheEntry<V>>, k: Fingerprint)
    requires Ordered(s) && IsRemoval(s, i, t) && Ordered(t)
    requires k in ToMap(s) && k != s[i].first
    ensures k in ToMap(t)
  {
    var j :| 0 <= j < |s| && s[j].first == k;
    assert j != i;
    var j' := if j < i then j else j - 1;
    assert t[j'] == s[j];
    ToMapAt(t, j');
  }

  /** Two maps that agree on every key of either are equal. */
  lemma MapsAgree<K, V>(m: map<K, V>, m': map<K, V>)
    requires forall k :: k in m ==> k in m' && m[k] == m'[k]
    requires forall k :: k in m' ==> k in m
    ensures m == m'
  {
  }

  /** The cache after cutting out entry `i` is the cache before without entry `i`'s fingerprint. */
  lemma RemovedToMap<V>(s: seq<CacheEntry<V>>, i: int, t: seq<CacheEntry<V>>)
    requires Ordered(s) && IsRemoval(s, i, t) && Ordered(t)
    ensures ToMap(t) == ToMap(s) - {s[i].first}
  {
    var m, m' := ToMap(t), ToMap(s) - {s[i].first};
    forall k | k in m
      ensures k in m' && m[k] == m'[k]
    {
      RemovedKeyCameFrom(s, i, t, k);
    }
    forall k | k in m'
      ensures k in m
    {
      RemovedKeyKept(s, i, t, k);
    }
    MapsAgree(m, m');
  }

  /** Cutting out entry `i` keeps the order and drops exactly its fingerprint. */
  lemma RemovedMeaning<V>(s: seq<CacheEntry<V>>, i: int)
    requires Ordered(s) && 0 <= i < |s|
    ensures Ordered(s[..i] + s[i + 1..])
    ensures ToMap(s[..i] + s[i + 1..]) == ToMap(s) - {s[i].first}
  {
    var t := s[..i] + s[i + 1..];
    assert IsRemoval(s, i, t);
    RemovedOrdered(s, i, t);
    RemovedToMap(s, i, t);
  }
}
