/** `FlowIPManager_HASHANALYSIS`: a research flow manager that measures how
    evenly a CRC hash spreads flows over 2^22 buckets. Every packet whose
    4-byte aggregate is not in the table stands for a new flow: the element
    takes the next of a sorted list of distinct random ids, builds a
    synthetic 13-byte 5-tuple around it, hashes it and counts the bucket
    the hash falls into. Read handlers expose the bucket counts. */
module HashAnalysis {
  import opened Common
  import opened RteHash

  /** `_hash_size` after `alloc`, and the length of both state arrays. */
  const HASH_SIZE: int := 4194304
  /** `numBits`, `numNumbers` and `maxValue` of `alloc`. */
  const NUM_BITS: int := 22
  const NUM_NUMBERS: int := 4000000
  const MAX_VALUE: int := 4194303
  /** The length of a synthetic key. */
  const KEY_BYTES: int := 13
  /** The buckets `dump` lists, and the bins of `conflict`. */
  const DUMP_BUCKETS: int := 256
  const CONFLICT_BINS: int := 6
  /** What `ErrorHandler::error` returns. */
  const EINVAL: int := 22

  /** `client_msb_ip` and `google_ip_port_proto`. */
  const CLIENT_MSB_IP: seq<int> := [170, 16, 10]
  const GOOGLE_IP_PORT_PROTO: seq<int> := [172, 217, 21, 170, 1, 187, 6]

  /** A packet as `find_bulk` sees it: its `AGGREGATE_ANNO`, a
      `uint32_t`. */
  datatype Packet = Packet(aggregate: uint32)

  /** The lookup keys of a batch, in order. */
  function Aggregates(batch: seq<Packet>): (keys: seq<uint32>)
    ensures |keys| == |batch| && forall i :: 0 <= i < |batch| ==> keys[i] == batch[i].aggregate
  {
    seq(|batch|, i requires 0 <= i < |batch| => batch[i].aggregate)
  }

  function Pow2(k: nat): (p: nat)
  {
    if k == 0 then 1 else 2 * Pow2(k - 1)
  }

  lemma {:induction false} Pow2IsPow2(k: nat)
    ensures IsPow2(Pow2(k)) && Pow2(k) >= 1
  {
    if k > 0 {
      Pow2IsPow2(k - 1);
      var p := Pow2(k - 1);
      assert Pow2(k) == 2 * p && 2 * p > 1;
      assert (2 * p) % 2 == 0 && (2 * p) / 2 == p;
    }
  }

  /** `_hash_size` is 2^22, so `_hash_size - 1` is a mask, and every id
      `alloc` may draw is below it. */
  lemma HashSizeIsPow2()
    ensures HASH_SIZE == Pow2(NUM_BITS) && IsPow2(HASH_SIZE)
    ensures MAX_VALUE == Pow2(NUM_BITS) - 1
  {
    Pow2IsPow2(NUM_BITS);
    Pow2Add(11, 11);
    assert Pow2(11) == 2048;
  }

  lemma {:induction false} Pow2Add(a: nat, b: nat)
    ensures Pow2(a + b) == Pow2(a) * Pow2(b)
  {
    if a > 0 {
      Pow2Add(a - 1, b);
    }
  }

  /** `x & 255` on a two's-complement `int`: the low byte, which is `x`
      modulo 256 whatever the sign of `x`. */
  function Byte(x: int): (b: int)
    ensures 0 <= b < 256
  {
    x % 256
  }

  /** Byte `i` of the key built around the id `g`, branch by branch as the
      loop of `find_bulk` chooses it. `g >> k` is an arithmetic shift,
      which is floor division by 2^k. */
  function KeyByte(g: int, i: int): (b: int)
    requires 0 <= i < KEY_BYTES
  {
    if i < 3 then CLIENT_MSB_IP[i]
    else if i == 3 then Byte(g / 65536)
    else if 4 <= i <= 7 then GOOGLE_IP_PORT_PROTO[i - 4]
    else if i == 8 then Byte(g / 256)
    else if i == 9 then Byte(g)
    else GOOGLE_IP_PORT_PROTO[i - 6]
  }

  /** The synthetic key of the id `g`: the client's /24 with the id's
      third byte, the server's address, the id's two low bytes as the
      client port, then the server port 443 and protocol 6. */
  function SynthKey(g: int): (key: seq<int>)
    ensures key == CLIENT_MSB_IP + [Byte(g / 65536)] + GOOGLE_IP_PORT_PROTO[..4]
                   + [Byte(g / 256), Byte(g)] + GOOGLE_IP_PORT_PROTO[4..]
  {
    seq(KEY_BYTES, i requires 0 <= i < KEY_BYTES => KeyByte(g, i))
  }

  /** Reads the id back out of a synthetic key. */
  function KeyId(key: seq<int>): (g: int)
    requires |key| == KEY_BYTES
  {
    key[3] * 65536 + key[8] * 256 + key[9]
  }

  /** Every id below 2^24 survives the key synthesis, in particular every id
      `alloc` draws: distinct ids give distinct keys. */
  lemma {:induction false} SynthKeyKeepsId(g: int)
    requires 0 <= g < 16777216
    ensures KeyId(SynthKey(g)) == g
  {
    var a, r := g / 65536, g % 65536;
    var r1, r0 := r / 256, r % 256;
    ModUnique(g, 256, 256 * a + r1, r0);
    ModUnique(256 * a + r1, 256, a, r1);
    ModUnique(a, 256, 0, a);
  }

  lemma SynthKeyInjective(g: int, h: int)
    requires 0 <= g < 16777216 && 0 <= h < 16777216 && g != h
    ensures SynthKey(g) != SynthKey(h)
  {
    SynthKeyKeepsId(g);
    SynthKeyKeepsId(h);
  }

  /** `(hash >> 10) & (_hash_size - 1)`. */
  function Bucket(hash: uint32, hashSize: int): (b: nat)
    requires hashSize >= 1
  {
    BitAnd(hash as int / 1024, hashSize - 1)
  }

  /** With a power-of-two size the mask keeps the bucket in range; with
      2^22 buckets it keeps all of `hash >> 10`. */
  lemma {:induction false} BucketInRange(hash: uint32, hashSize: int)
    requires IsPow2(hashSize)
    ensures hashSize >= 1 && Bucket(hash, hashSize) < hashSize
    ensures hashSize == HASH_SIZE ==> Bucket(hash, hashSize) == hash as int / 1024
  {
    Pow2Positive(hashSize);
    MaskIsMod(hash as int / 1024, hashSize);
  }

  /** The buckets of the keys built around `ids`, in order. */
  function Buckets(ids: seq<int>, hashFn: seq<int> -> uint32, hashSize: int): (bs: seq<int>)
    requires IsPow2(hashSize)
    ensures |bs| == |ids|
  {
    Pow2Positive(hashSize);
    if ids == [] then []
    else
      var n := |ids| - 1;
      Buckets(ids[..n], hashFn, hashSize) + [Bucket(hashFn(SynthKey(ids[n])), hashSize)]
  }

  /** Every counted bucket is within the table. */
  lemma {:induction false} BucketsInRange(ids: seq<int>, hashFn: seq<int> -> uint32, hashSize: int)
    requires IsPow2(hashSize)
    ensures forall t :: 0 <= t < |ids| ==> 0 <= Buckets(ids, hashFn, hashSize)[t] < hashSize
    decreases |ids|
  {
    if ids != [] {
      var n := |ids| - 1;
      BucketsInRange(ids[..n], hashFn, hashSize);
      BucketInRange(hashFn(SynthKey(ids[n])), hashSize);
    }
  }

  /** One more miss: the id at `c` is counted in its key's bucket. */
  lemma {:induction false} CountStep(cur: seq<int>, prev: seq<int>, base: seq<int>, gen: seq<int>, id0: int, c: int,
                                     hashFn: seq<int> -> uint32, hashSize: int)
    requires IsPow2(hashSize) && 0 <= id0 <= c < |gen| && hashSize <= |prev|
    requires Histogram(prev, base, Buckets(gen[id0..c], hashFn, hashSize))
    requires cur == prev[Bucket(hashFn(SynthKey(gen[c])), hashSize) := prev[Bucket(hashFn(SynthKey(gen[c])), hashSize)] + 1]
    ensures Histogram(cur, base, Buckets(gen[id0..c + 1], hashFn, hashSize))
  {
    var ids := gen[id0..c + 1];
    var b := Bucket(hashFn(SynthKey(gen[c])), hashSize);
    BucketInRange(hashFn(SynthKey(gen[c])), hashSize);
    HistogramStep(cur, prev, base, Buckets(gen[id0..c], hashFn, hashSize), b);
    assert ids[..c - id0] == gen[id0..c] && ids[c - id0] == gen[c];
    assert Buckets(ids, hashFn, hashSize) == Buckets(gen[id0..c], hashFn, hashSize) + [b];
  }

  /** The elements of a sequence of draws. */
  function Distinct(draws: seq<int>): set<int>
  {
    set x | x in draws
  }

  /** `num > 4 ? 5 : num`: the bin of a bucket in `conflict`. */
  function Clamp(num: int): (k: int)
    ensures num <= 4 ==> k == num
    ensures num > 4 ==> k == 5
  {
    if num > 4 then 5 else num
  }

  /** The bins of a sequence of bucket counts. */
  function Clamps(counts: seq<int>): (ks: seq<int>)
    ensures |ks| == |counts| && forall i :: 0 <= i < |counts| ==> ks[i] == Clamp(counts[i])
  {
    seq(|counts|, i requires 0 <= i < |counts| => Clamp(counts[i]))
  }

  /** Bin `k` of `conflict` counts the buckets holding exactly `k` entries
      when `k <= 4`, and those holding more than 4 when `k == 5`. */
  lemma {:induction false} ClampedBins(counts: seq<int>, k: int)
    requires 0 <= k <= 4
    ensures multiset(Clamps(counts))[k] == multiset(counts)[k]
    ensures multiset(Clamps(counts))[5] == |set i | 0 <= i < |counts| && counts[i] > 4|
    decreases |counts|
  {
    if counts != [] {
      var n := |counts| - 1;
      ClampedBins(counts[..n], k);
      assert counts == counts[..n] + [counts[n]];
      assert Clamps(counts) == Clamps(counts[..n]) + [Clamp(counts[n])];
      assert (set i | 0 <= i < |counts| && counts[i] > 4) ==
             (set i | 0 <= i < n && counts[..n][i] > 4) + (if counts[n] > 4 then {n} else {});
    }
  }

  /** The six bins of `conflict` before any bucket is counted. */
  const EMPTY_BINS: seq<int> := [0, 0, 0, 0, 0, 0]

  /** One more bucket counted in its bin. */
  lemma {:induction false} BinStep(cur: seq<int>, prev: seq<int>, counts: seq<int>, i: nat)
    requires i < |counts| && 0 <= Clamp(counts[i]) < |prev|
    requires Histogram(prev, EMPTY_BINS, Clamps(counts[..i]))
    requires cur == prev[Clamp(counts[i]) := prev[Clamp(counts[i])] + 1]
    ensures Histogram(cur, EMPTY_BINS, Clamps(counts[..i + 1]))
  {
    HistogramStep(cur, prev, EMPTY_BINS, Clamps(counts[..i]), Clamp(counts[i]));
    assert Clamps(counts[..i + 1]) == Clamps(counts[..i]) + [Clamp(counts[i])];
  }

  /** A tally of the bins that `Clamps` assigns adds up to the number of
      buckets, provided no count is negative. */
  lemma {:induction false} BinsCoverBuckets(conf: seq<int>, counts: seq<int>)
    requires forall i :: 0 <= i < |counts| ==> counts[i] >= 0
    requires Histogram(conf, EMPTY_BINS, Clamps(counts))
    ensures Sum(conf) == |counts|
  {
    SumZeros(EMPTY_BINS);
    HistogramSum(conf, EMPTY_BINS, Clamps(counts));
  }

  /** A zeroed array sums to 0. */
  lemma {:induction false} SumZeros(s: seq<int>)
    requires forall i :: 0 <= i < |s| ==> s[i] == 0
    ensures Sum(s) == 0
  {
    if s != [] {
      SumZeros(s[..|s| - 1]);
    }
  }

  class HashAnalysis {
    /** `CAPACITY`, `VERBOSE` (default true) and `RANDOM_BYTES` (default
        13, read but unused). */
    const capacity: nat
    const verbose: bool
    const randomBytes: int
    /** `table.hash`: the DPDK table, null until `alloc` creates it. */
    var hash: HashTable?<uint32>
    /** `inplace_array` and `_generated_numbers` of the state. */
    const inplace: array<int>
    const generated: array<int>
    /** `_hash_size` and `_current_id_num`. */
    var hashSize: int
    var currentId: int

    ghost predicate Valid()
      reads this, hash
    {
      && inplace.Length == HASH_SIZE && generated.Length == HASH_SIZE && inplace != generated
      && 0 <= currentId
      && (hash != null ==> hash.Valid())
    }

    /** Every miss so far has put one entry in some bucket. */
    ghost predicate Tallied()
      reads this, inplace
    {
      Sum(inplace[..]) == currentId
    }

    /** `configure` and the state's allocation. `_hash_size` and
        `_current_id_num` hold nothing meaningful before `alloc`; they
        start at 0 here. */
    constructor (capacityArg: nat, verboseArg: Option<bool>, randomBytesArg: Option<int>)
      ensures Valid() && Tallied() && hash == null && fresh(inplace) && fresh(generated)
      ensures capacity == capacityArg
      ensures verbose == (if verboseArg.Some? then verboseArg.value else true)
      ensures randomBytes == (if randomBytesArg.Some? then randomBytesArg.value else 13)
      ensures hashSize == 0 && currentId == 0
    {
      capacity := capacityArg;
      verbose := if verboseArg.Some? then verboseArg.value else true;
      randomBytes := if randomBytesArg.Some? then randomBytesArg.value else 13;
      hash := null;
      inplace := new int[HASH_SIZE](_ => 0);
      generated := new int[HASH_SIZE](_ => 0);
      hashSize := 0;
      currentId := 0;
      new;
      SumZeros(inplace[..]);
    }

    /** `count()`. */
    function Count(): (n: int)
      ensures n == 0
    {
      0
    }

    /** `alloc`. `created` is whether `rte_hash_create` succeeded and
        `draws` the values the random engine yields, all in
        `[0, maxValue]`. The size, the id counter and the zeroed buckets
        are set even when creation fails, which returns the error before
        any id is drawn. */
    method Alloc(created: bool, draws: seq<int>) returns (r: int)
      requires Valid()
      requires forall t :: 0 <= t < |draws| ==> 0 <= draws[t] <= MAX_VALUE
      requires created ==> |Distinct(draws)| >= NUM_NUMBERS
      modifies this`hash, this`hashSize, this`currentId, inplace, generated
      ensures Valid() && Tallied()
      ensures hashSize == HASH_SIZE && currentId == 0
      ensures forall i :: 0 <= i < inplace.Length ==> inplace[i] == 0
      ensures !created ==> r == -EINVAL && hash == null && generated[..] == old(generated[..])
      ensures created ==> r == 0 && fresh(hash) && hash.entries == map[] && hash.capacity == capacity
      ensures created ==> IdsDrawn(draws)
    {
      if created {
        hash := new HashTable<uint32>(capacity);
      } else {
        hash := null;
      }
      hashSize := HASH_SIZE;
      currentId := 0;
      forall i | 0 <= i < inplace.Length {
        inplace[i] := 0;
      }
      SumZeros(inplace[..]);
      if !created {
        return -EINVAL;
      }
      var gen := DrawIds(draws);
      WriteSorted(gen);
      r := 0;
    }

    /** The first `numNumbers` entries of `_generated_numbers` are distinct
        draws, in strictly increasing order. */
    ghost predicate IdsDrawn(draws: seq<int>)
      reads this, generated
    {
      && generated.Length >= NUM_NUMBERS
      && (forall i, j :: 0 <= i < j < NUM_NUMBERS ==> generated[i] < generated[j])
      && (forall i :: 0 <= i < NUM_NUMBERS ==> generated[i] in draws && 0 <= generated[i] <= MAX_VALUE)
    }

    /** The `std::set` loop of `alloc`: draws are inserted until the set
        holds `numNumbers` values. */
    method DrawIds(draws: seq<int>) returns (gen: set<int>)
      requires |Distinct(draws)| >= NUM_NUMBERS
      ensures |gen| == NUM_NUMBERS
      ensures forall x :: x in gen ==> x in draws
    {
      gen := {};
      var k := 0;
      while |gen| < NUM_NUMBERS
        invariant 0 <= k <= |draws| && |gen| <= NUM_NUMBERS
        invariant gen == Distinct(draws[..k])
        decreases |draws| - k
      {
        assert draws[..|draws|] == draws;
        assert Distinct(draws[..k + 1]) == gen + {draws[k]} by {
          assert draws[..k + 1] == draws[..k] + [draws[k]];
        }
        gen := gen + {draws[k]};
        k := k + 1;
      }
    }

    /** The range-for of `alloc`: the set's values, smallest first, written
        to the front of `_generated_numbers`. */
    method WriteSorted(gen: set<int>)
      requires |gen| <= generated.Length
      modifies generated
      ensures forall i, j :: 0 <= i < j < |gen| ==> generated[i] < generated[j]
      ensures forall i :: 0 <= i < |gen| ==> generated[i] in gen
      ensures forall i :: |gen| <= i < generated.Length ==> generated[i] == old(generated[i])
    {
      var rest := gen;
      var index := 0;
      while rest != {}
        invariant index + |rest| == |gen| && rest <= gen
        invariant forall i, j :: 0 <= i < j < index ==> generated[i] < generated[j]
        invariant forall i :: 0 <= i < index ==> generated[i] in gen
        invariant forall i, x :: 0 <= i < index && x in rest ==> generated[i] < x
        invariant forall i :: |gen| <= i < generated.Length ==> generated[i] == old(generated[i])
        decreases |rest|
      {
        ghost var least := Least(rest);
        var m :| m in rest && forall y :: y in rest ==> m <= y;
        generated[index] := m;
        rest := rest - {m};
        index := index + 1;
      }
    }

    /** The key, hash and bucket of the id `find_bulk` takes next. */
    ghost function NextBucket(hashFn: seq<int> -> uint32): (b: int)
      reads this, generated
      requires IsPow2(hashSize) && 0 <= currentId < generated.Length
    {
      Bucket(hashFn(SynthKey(generated[currentId])), hashSize)
    }

    /** The loop of `find_bulk` that fills `randomData`. */
    method BuildKey(g: int) returns (key: seq<int>)
      ensures key == SynthKey(g)
    {
      key := [];
      var i := 0;
      while i < KEY_BYTES
        invariant 0 <= i <= KEY_BYTES
        invariant |key| == i && forall j :: 0 <= j < i ==> key[j] == KeyByte(g, j)
      {
        var b;
        if i < 3 {
          b := CLIENT_MSB_IP[i];
        } else if i == 3 {
          b := Byte(g / 65536);
        } else if 4 <= i <= 7 {
          b := GOOGLE_IP_PORT_PROTO[i - 4];
        } else if i == 8 {
          b := Byte(g / 256);
        } else if i == 9 {
          b := Byte(g);
        } else {
          b := GOOGLE_IP_PORT_PROTO[i - 6];
        }
        key := key + [b];
        i := i + 1;
      }
    }

    /** A miss of `find_bulk`: the next id's key is built and hashed, its
        bucket counted and the id counter advanced. */
    method CountMiss(hashFn: seq<int> -> uint32)
      requires IsPow2(hashSize) && hashSize <= inplace.Length
      requires 0 <= currentId < generated.Length && inplace != generated
      modifies inplace, this`currentId
      ensures currentId == old(currentId) + 1
      ensures inplace[..] == old(inplace[..][NextBucket(hashFn) := inplace[NextBucket(hashFn)] + 1])
    {
      var data := BuildKey(generated[currentId]);
      var h := hashFn(data);
      var primary := BitAnd(h as int / 1024, hashSize - 1);
      BucketInRange(h, hashSize);
      inplace[primary] := inplace[primary] + 1;
      currentId := currentId + 1;
    }

    /** `find_bulk`: `positions[i]` is the lookup result of the `i`-th
        packet; the misses take the next ids in order and each one adds
        one to its bucket, so the ids consumed and the buckets' total grow
        by the number of misses. The table is only read, so the lookups
        give the same results taken before the counting as between its
        steps. */
    method FindBulk(batch: seq<Packet>, hashFn: seq<int> -> uint32) returns (positions: seq<int>)
      requires Valid() && hash != null && IsPow2(hashSize) && hashSize <= inplace.Length
      requires currentId + Misses(Aggregates(batch), hash.entries) <= generated.Length
      modifies inplace, this`currentId
      ensures Valid()
      ensures positions == hash.LookupBulk(Aggregates(batch))
      ensures currentId == old(currentId) + Misses(Aggregates(batch), hash.entries)
      ensures Histogram(inplace[..], old(inplace[..]), Buckets(generated[old(currentId)..currentId], hashFn, hashSize))
      ensures Sum(inplace[..]) == old(Sum(inplace[..])) + (currentId - old(currentId))
      ensures old(Tallied()) ==> Tallied()
    {
      var keys := Aggregates(batch);
      positions := hash.LookupBulk(keys);
      CountMisses(keys, positions, hashFn, hash.entries);
      BucketsInRange(generated[old(currentId)..currentId], hashFn, hashSize);
      HistogramSum(inplace[..], old(inplace[..]), Buckets(generated[old(currentId)..currentId], hashFn, hashSize));
    }

    /** A miss counted on top of the misses before it. */
    method TallyMiss(hashFn: seq<int> -> uint32, ghost base: seq<int>, ghost id0: int)
      requires IsPow2(hashSize) && hashSize <= inplace.Length
      requires 0 <= id0 <= currentId < generated.Length && inplace != generated
      requires Histogram(inplace[..], base, Buckets(generated[id0..currentId], hashFn, hashSize))
      modifies inplace, this`currentId
      ensures currentId == old(currentId) + 1
      ensures Histogram(inplace[..], base, Buckets(generated[id0..currentId], hashFn, hashSize))
    {
      ghost var prev := inplace[..];
      ghost var c := currentId;
      CountMiss(hashFn);
      CountStep(inplace[..], prev, base, generated[..], id0, c, hashFn, hashSize);
    }

    /** The counting loop of `find_bulk`: every negative lookup result is
        a miss and is tallied. */
    method CountMisses(keys: seq<uint32>, lookups: seq<int>, hashFn: seq<int> -> uint32, ghost entries: map<uint32, int>)
      requires |lookups| == |keys|
      requires forall i :: 0 <= i < |keys| ==> (lookups[i] < 0 <==> keys[i] !in entries)
      requires IsPow2(hashSize) && hashSize <= inplace.Length && inplace != generated && 0 <= currentId
      requires currentId + Misses(keys, entries) <= generated.Length
      modifies inplace, this`currentId
      ensures old(currentId) <= currentId <= generated.Length
      ensures currentId == old(currentId) + Misses(keys, entries)
      ensures Histogram(inplace[..], old(inplace[..]), Buckets(generated[old(currentId)..currentId], hashFn, hashSize))
    {
      ghost var base := inplace[..];
      ghost var id0 := currentId;
      var i := 0;
      while i < |keys|
        invariant 0 <= i <= |keys| && id0 <= currentId
        invariant Misses(keys[..i], entries) <= Misses(keys, entries)
        invariant currentId == id0 + Misses(keys[..i], entries) && currentId <= generated.Length
        invariant Histogram(inplace[..], base, Buckets(generated[id0..currentId], hashFn, hashSize))
      {
        MissStep(keys, i, entries);
        if lookups[i] < 0 {
          TallyMiss(hashFn, base, id0);
        }
        i := i + 1;
      }
      assert keys[..i] == keys;
    }

    /** The `dump` handler: the counts of the first 256 buckets. */
    method Dump() returns (counts: seq<int>)
      requires Valid()
      ensures |counts| == DUMP_BUCKETS
      ensures forall i :: 0 <= i < DUMP_BUCKETS ==> counts[i] == inplace[i]
    {
      counts := [];
      var i := 0;
      while i < DUMP_BUCKETS
        invariant 0 <= i <= DUMP_BUCKETS
        invariant |counts| == i && forall j :: 0 <= j < i ==> counts[j] == inplace[j]
      {
        counts := counts + [inplace[i]];
        i := i + 1;
      }
    }

    /** The `count` handler: the total of the first `_hash_size` buckets.
        Once `alloc` has set the size, that is every bucket, so the total
        is the number of ids consumed. */
    method CountHandler() returns (sum: int)
      requires Valid() && 0 <= hashSize <= inplace.Length
      ensures sum == Sum(inplace[..hashSize])
      ensures Tallied() && hashSize == HASH_SIZE ==> sum == currentId
    {
      sum := 0;
      var i := 0;
      while i < hashSize
        invariant 0 <= i <= hashSize
        invariant sum == Sum(inplace[..i])
      {
        assert inplace[..i + 1][..i] == inplace[..i];
        sum := sum + inplace[i];
        i := i + 1;
      }
      assert inplace[..] == inplace[..HASH_SIZE];
    }

    /** The `conflict` handler: six bins, each bucket counted in the bin of
        its count clamped to 5. A negative count would index out of the
        bins, so counts must be non-negative. */
    method Conflict() returns (conf: seq<int>)
      requires Valid() && 0 <= hashSize <= inplace.Length
      requires forall i :: 0 <= i < hashSize ==> inplace[i] >= 0
      ensures Histogram(conf, EMPTY_BINS, Clamps(inplace[..hashSize]))
      ensures Sum(conf) == hashSize
    {
      ghost var counts := inplace[..hashSize];
      var bins := new int[CONFLICT_BINS](_ => 0);
      var i := 0;
      while i < hashSize
        invariant 0 <= i <= hashSize && bins.Length == CONFLICT_BINS
        invariant Histogram(bins[..], EMPTY_BINS, Clamps(counts[..i]))
      {
        var num := inplace[i];
        if num > 4 {
          num := 5;
        }
        ghost var prev := bins[..];
        bins[num] := bins[num] + 1;
        BinStep(bins[..], prev, counts, i);
        i := i + 1;
      }
      conf := bins[..];
      assert counts[..i] == counts;
      BinsCoverBuckets(conf, counts);
    }
  }

  /** A non-empty finite set of integers has a least element. */
  lemma {:induction false} Least(s: set<int>) returns (m: int)
    requires s != {}
    ensures m in s && forall y :: y in s ==> m <= y
    decreases |s|
  {
    if forall y :: y !in s {
      assert false;
    }
    var x :| x in s;
    var r := s - {x};
    if r == {} {
      m := x;
      forall y | y in s
        ensures m <= y
      {
        assert y !in r;
      }
    } else {
      var least := Least(r);
      m := if x < least then x else least;
      forall y | y in s
        ensures m <= y
      {
        if y != x {
          assert y in r;
        }
      }
    }
  }
}
