/** The exact-match key to position index that the flow elements use
    (DPDK's `rte_hash`), seen only through its interface: an injective finite
    map from keys to positions below the table's capacity. Its internals
    (cuckoo buckets, signatures, the hash function) are not modelled. */
module RteHash {
  import opened Common

  /** The error numbers the index reports, negated in its return values. */
  const ENOENT: int := 2
  const ENOSPC: int := 28

  /** The number of `ks` missing from `entries`: the lookups of a batch
      that come back negative. */
  ghost function Misses<K>(ks: seq<K>, entries: map<K, int>): (n: nat)
    ensures n <= |ks|
  {
    if ks == [] then 0
    else Misses(ks[..|ks| - 1], entries) + (if ks[|ks| - 1] in entries then 0 else 1)
  }

  lemma {:induction false} MissesSnoc<K>(ks: seq<K>, k: K, entries: map<K, int>)
    ensures Misses(ks + [k], entries) == Misses(ks, entries) + (if k in entries then 0 else 1)
  {
    assert (ks + [k])[..|ks|] == ks;
  }

  /** A batch has at least as many misses as any of its prefixes. */
  lemma {:induction false} MissesPrefix<K>(ks: seq<K>, n: nat, entries: map<K, int>)
    requires n <= |ks|
    ensures Misses(ks[..n], entries) <= Misses(ks, entries)
    decreases |ks|
  {
    if n < |ks| {
      var m := |ks| - 1;
      assert ks[..m][..n] == ks[..n];
      MissesPrefix(ks[..m], n, entries);
    } else {
      assert ks[..n] == ks;
    }
  }

  /** One more key of a batch looked up. */
  lemma {:induction false} MissStep<K>(ks: seq<K>, i: nat, entries: map<K, int>)
    requires i < |ks|
    ensures Misses(ks[..i + 1], entries) == Misses(ks[..i], entries) + (if ks[i] in entries then 0 else 1)
    ensures Misses(ks[..i + 1], entries) <= Misses(ks, entries)
  {
    MissesSnoc(ks[..i], ks[i], entries);
    MissesPrefix(ks, i + 1, entries);
    assert ks[..i] + [ks[i]] == ks[..i + 1];
  }

  class HashTable<K(==)> {
    /** Key to position. */
    var entries: map<K, int>
    /** The `entries` parameter the table was created with. */
    const capacity: nat

    /** Positions are below the capacity and unique per key. */
    ghost predicate Valid()
      reads this
    {
      && |entries| <= capacity
      && (forall k :: k in entries ==> 0 <= entries[k] < capacity)
      && (forall k1, k2 :: k1 in entries && k2 in entries && k1 != k2 ==> entries[k1] != entries[k2])
    }

    /** `rte_hash_create`: an empty table. */
    constructor (capacity: nat)
      ensures Valid()
      ensures entries == map[] && this.capacity == capacity
    {
      entries := map[];
      this.capacity := capacity;
    }

    /** `rte_hash_lookup`: the key's position, or `-ENOENT`. */
    function Lookup(key: K): (r: int)
      reads this
      requires Valid()
      ensures r >= 0 <==> key in entries
      ensures key in entries ==> r == entries[key] && r < capacity
      ensures key !in entries ==> r == -ENOENT
    {
      if key in entries then entries[key] else -ENOENT
    }

    /** `rte_hash_lookup_bulk`: one lookup per key, results in the keys'
        order. */
    function LookupBulk(keys: seq<K>): (r: seq<int>)
      reads this
      requires Valid()
      ensures |r| == |keys|
      ensures forall i :: 0 <= i < |keys| ==> r[i] == Lookup(keys[i])
    {
      if keys == [] then [] else LookupBulk(keys[..|keys| - 1]) + [Lookup(keys[|keys| - 1])]
    }

    /** `rte_hash_count`. */
    function Count(): (n: nat)
      reads this
      requires Valid()
      ensures n <= capacity
    {
      |entries|
    }

    /** `rte_hash_add_key`: a present key keeps its position; a new key gets
        a position no other key holds, or `-ENOSPC` when the table is full. */
    method AddKey(key: K) returns (r: int)
      requires Valid()
      modifies this
      ensures Valid()
      ensures key in old(entries) ==> r == old(entries)[key] && entries == old(entries)
      ensures key !in old(entries) && |old(entries)| == capacity ==> r == -ENOSPC && entries == old(entries)
      ensures key !in old(entries) && |old(entries)| < capacity ==>
                0 <= r < capacity && r !in old(entries).Values && entries == old(entries)[key := r]
    {
      if key in entries {
        r := entries[key];
      } else if |entries| == capacity {
        r := -ENOSPC;
      } else {
        FreeSlotExists(entries.Values, capacity);
        r :| 0 <= r < capacity && r !in entries.Values;
        entries := entries[key := r];
      }
    }

    /** `rte_hash_del_key`: removes the key and returns the position it had
        (the value `rte_hash_add_key` returned for it), or `-ENOENT`. */
    method DelKey(key: K) returns (r: int)
      requires Valid()
      modifies this
      ensures Valid()
      ensures r == old(Lookup(key))
      ensures entries == old(entries) - {key}
    {
      r := Lookup(key);
      entries := entries - {key};
    }
  }
}
