/** Sums over the values of a finite map. */
module Totals {
  ghost function Total<K(!new)>(entries: map<K, int>): int
    decreases |entries|
  {
    if entries == map[] then 0 else
      var key :| key in entries;
      entries[key] + Total(entries - {key})
  }

  /** It does not matter in which order the entries are added up. */
  lemma {:induction false} TotalWithout<K(!new)>(entries: map<K, int>, key: K)
    requires key in entries
    ensures Total(entries) == entries[key] + Total(entries - {key})
    decreases |entries|
  {
    var picked :| picked in entries && Total(entries) == entries[picked] + Total(entries - {picked});
    if picked != key {
      TotalWithout(entries - {picked}, key);
      TotalWithout(entries - {key}, picked);
      assert (entries - {picked}) - {key} == (entries - {key}) - {picked};
    }
  }

  /** One entry more. */
  lemma TotalWith<K(!new)>(entries: map<K, int>, key: K, value: int)
    requires key !in entries
    ensures Total(entries[key := value]) == Total(entries) + value
  {
    TotalWithout(entries[key := value], key);
    assert entries[key := value] - {key} == entries;
  }

  lemma {:induction false} TotalOfUnion<K(!new)>(entries: map<K, int>, more: map<K, int>)
    requires entries.Keys !! more.Keys
    ensures Total(entries + more) == Total(entries) + Total(more)
    decreases |more|
  {
    if more == map[] {
      assert entries + more == entries;
    } else {
      var key :| key in more;
      TotalOfUnion(entries, more - {key});
      OneMore(entries, more, key);
    }
  }

  lemma OneMore<K(!new)>(entries: map<K, int>, more: map<K, int>, key: K)
    requires key !in entries && key in more
    ensures Total(entries + more) == more[key] + Total(entries + (more - {key}))
    ensures Total(more) == more[key] + Total(more - {key})
  {
    TotalWithout(more, key);
    TotalWithout(entries + more, key);
    UnionWithout(entries, more, key);
  }

  lemma UnionWithout<K>(entries: map<K, int>, more: map<K, int>, key: K)
    requires key !in entries && key in more
    ensures (entries + more) - {key} == entries + (more - {key})
  {
    var left, right := (entries + more) - {key}, entries + (more - {key});
    assert left.Keys == right.Keys;
    assert forall k :: k in left ==> left[k] == right[k];
  }

  lemma {:induction false} TotalIsNonNegative<K(!new)>(entries: map<K, int>)
    requires forall k :: k in entries ==> 0 <= entries[k]
    ensures 0 <= Total(entries)
    decreases |entries|
  {
    if entries != map[] {
      var key :| key in entries && Total(entries) == entries[key] + Total(entries - {key});
      TotalIsNonNegative(entries - {key});
    }
  }
}
