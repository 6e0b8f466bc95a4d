/** A reference counter keyed by object (com.zidsoft.zdlib.common.ReferenceCountMap).
    The Java class is a WeakHashMap from key to Integer; here the map is an
    ordinary map and the counts are unbounded. */
module ReferenceCountMap {
  import opened Lang

  /** The counts after one more reference to key: 1 for a new key, one more otherwise. */
  function WithReference<K>(counts: map<K, int>, key: K): (r: map<K, int>)
    ensures key in r && r[key] == (if key in counts then counts[key] + 1 else 1)
    ensures r.Keys == counts.Keys + {key}
    ensures forall k :: k in counts && k != key ==> r[k] == counts[k]
  {
    counts[key := if key in counts then counts[key] + 1 else 1]
  }

  /** The counts after one reference to key is dropped: an absent key is left
      alone, the last reference removes the entry, otherwise the count drops by one. */
  function WithoutReference<K>(counts: map<K, int>, key: K): (r: map<K, int>)
    ensures key !in counts ==> r == counts
    ensures key in counts && counts[key] == 1 ==> r == counts - {key}
    ensures key in counts && counts[key] != 1 ==> key in r && r[key] == counts[key] - 1
    ensures forall k :: k in counts && k != key ==> k in r && r[k] == counts[k]
    ensures r.Keys <= counts.Keys
  {
    if key !in counts then counts
    else if counts[key] - 1 == 0 then counts - {key}
    else counts[key := counts[key] - 1]
  }

  /** Every stored count is at least one. */
  ghost predicate Positive<K>(counts: map<K, int>)
  {
    forall k :: k in counts ==> counts[k] >= 1
  }

  /** Both operations keep every stored count at least one. */
  lemma PositivePreserved<K>(counts: map<K, int>, key: K)
    requires Positive(counts)
    ensures Positive(WithReference(counts, key))
    ensures Positive(WithoutReference(counts, key))
  {
  }

  /** Dropping a reference just added restores the counts. */
  lemma RemoveUndoesAdd<K>(counts: map<K, int>, key: K)
    requires Positive(counts)
    ensures WithoutReference(WithReference(counts, key), key) == counts
  {
    var r := WithoutReference(WithReference(counts, key), key);
    assert r.Keys == counts.Keys;
  }

  /** n references added one after another. */
  function AddN<K>(counts: map<K, int>, key: K, n: nat): map<K, int>
  {
    if n == 0 then counts else WithReference(AddN(counts, key, n - 1), key)
  }

  /** n references dropped one after another. */
  function RemoveN<K>(counts: map<K, int>, key: K, n: nat): map<K, int>
  {
    if n == 0 then counts else RemoveN(WithoutReference(counts, key), key, n - 1)
  }

  /** n references added and then n dropped leave the counts as they were. */
  lemma {:induction false} BalancedReferences<K>(counts: map<K, int>, key: K, n: nat)
    requires Positive(counts)
    ensures Positive(AddN(counts, key, n))
    ensures RemoveN(AddN(counts, key, n), key, n) == counts
  {
    if n > 0 {
      BalancedReferences(counts, key, n - 1);
      PositivePreserved(AddN(counts, key, n - 1), key);
      RemoveUndoesAdd(AddN(counts, key, n - 1), key);
    }
  }

  class ReferenceCountMap<K(==)> {
    /** The map from key to its number of references. */
    var counts: map<K, int>
    /** The keys for which the onInitialAdd callback ran, in call order. */
    var initialAdds: seq<K>

    ghost predicate Valid()
      reads this
    {
      Positive(counts)
    }

    constructor ()
      ensures Valid() && counts == map[] && initialAdds == []
    {
      counts, initialAdds := map[], [];
    }

    /** ReferenceCountMap.addReference: count one more reference; on the
        first one, call onInitialAdd(key). */
    method AddReference(key: K)
      requires Valid()
      modifies this
      ensures Valid()
      ensures counts == WithReference(old(counts), key)
      ensures initialAdds == old(initialAdds) + (if key in old(counts) then [] else [key])
    {
      var count: Option<int> := if key in counts then Some(counts[key]) else None;
      var initialReg := count.None?;
      counts := counts[key := if initialReg then 1 else count.value + 1];
      if initialReg {
        initialAdds := initialAdds + [key];
      }
      PositivePreserved(old(counts), key);
    }

    /** ReferenceCountMap.removeReference: drop one reference; the last one
        deletes the entry; an absent key is ignored. */
    method RemoveReference(key: K)
      requires Valid()
      modifies this
      ensures Valid()
      ensures counts == WithoutReference(old(counts), key)
      ensures initialAdds == old(initialAdds)
    {
      if key in counts {
        var count := counts[key] - 1;
        if count == 0 {
          counts := counts - {key};
        } else {
          counts := counts[key := count];
        }
      }
      PositivePreserved(old(counts), key);
    }
  }
}
