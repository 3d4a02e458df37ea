/** `SourceCounter`: counts the packets of each IPv4 source (or destination)
    address in a private exact-match index. The 4-byte address is the key;
    the position the index gives it selects the address's record in a
    zeroed array of `SourceCounterState`, whose `count` grows by one per
    packet. With CACHE set the position is found once per flow, in
    `new_flow`, and kept in the flow's state. */
module SourceCounter {
  import opened Common
  import opened RteHash

  /** The Ethernet header length and the offsets of the source and
      destination addresses inside an IPv4 header (section 3.1 of RFC 791). */
  const ETHER_HEADER_LEN: int := 14
  const IP_SRC_OFFSET: int := 12
  const IP_DST_OFFSET: int := 16
  /** `sizeof(local_flowID)`: one IPv4 address. */
  const KEY_LEN: int := 4
  /** `sizeof(SourceCounterState)`: one `atomic_uint32_t`. */
  const STATE_SIZE: nat := 4
  /** The length of the key array in the non-cached path. */
  const KEY_ARRAY_LEN: int := 64

  /** A packet: its bytes from the Ethernet header on. */
  datatype Packet = Packet(data: seq<int>)

  /** `_offset`: 26 with ISSRC set, 30 otherwise. */
  function KeyOffset(isSrc: int): (offset: int)
    ensures isSrc != 0 ==> offset == ETHER_HEADER_LEN + IP_SRC_OFFSET
    ensures isSrc == 0 ==> offset == ETHER_HEADER_LEN + IP_DST_OFFSET
  {
    if isSrc != 0 then 26 else 30
  }

  /** The `local_flowID` read at `_offset`. */
  function Key(p: Packet, offset: nat): (k: seq<int>)
    requires offset + KEY_LEN <= |p.data|
    ensures |k| == KEY_LEN && forall i :: 0 <= i < KEY_LEN ==> k[i] == p.data[offset + i]
  {
    p.data[offset..offset + KEY_LEN]
  }

  /** The keys of a batch, in order. */
  function Keys(batch: seq<Packet>, offset: nat): (ks: seq<seq<int>>)
    requires forall i :: 0 <= i < |batch| ==> offset + KEY_LEN <= |batch[i].data|
    ensures |ks| == |batch| && forall i :: 0 <= i < |batch| ==> ks[i] == Key(batch[i], offset)
  {
    seq(|batch|, i requires 0 <= i < |batch| => Key(batch[i], offset))
  }

  /** `(s + 63) & ~63`: `x & ~63` clears the bits `x & 63` keeps. */
  function AlignedSize(s: nat): nat
  {
    (s + 63) - BitAnd(s + 63, 63)
  }

  /** The aligned size is the least multiple of 64 not below `s`. */
  lemma {:induction false} AlignedSizeRoundsUp(s: nat)
    ensures AlignedSize(s) % 64 == 0
    ensures s <= AlignedSize(s) < s + 64
  {
    SixtyFourIsPow2();
    MaskIsMod(s + 63, 64);
    var x := s + 63;
    ModUnique(x - x % 64, 64, x / 64, 0);
  }

  /** One state is padded to a full 64-byte cache line. */
  lemma {:induction false} StateTakesOneLine()
    ensures AlignedSize(STATE_SIZE) == 64
  {
    AlignedSizeRoundsUp(STATE_SIZE);
  }

  lemma {:induction false} SixtyFourIsPow2()
    ensures IsPow2(64)
  {
    assert IsPow2(1);
    assert IsPow2(2);
    assert IsPow2(4);
    assert IsPow2(8);
    assert IsPow2(16);
    assert IsPow2(32);
  }

  /** `_insertions` after `n` more insertion attempts: they are counted,
      modulo 2^32, only when VERBOSE is set. */
  function Bump(insertions: uint32, verbose: int, n: nat): (r: uint32)
    ensures verbose == 0 || n == 0 ==> r == insertions
  {
    if verbose != 0 then Add32(insertions, n) else insertions
  }

  /** `c + n` on `uint32_t`: modulo 2^32. */
  function Add32(c: uint32, n: nat): uint32
  {
    ((c as int + n) % UINT32_MOD) as uint32
  }

  /** Adding one more wraps as adding all at once does. */
  lemma {:induction false} Add32Succ(c: uint32, n: nat)
    ensures Add32(Add32(c, n), 1) == Add32(c, n + 1)
  {
    U32Succ(c as int + n);
  }

  /** A truncated counter is unchanged by adding nothing. */
  lemma {:induction false} Add32Zero(c: uint32)
    ensures Add32(c, 0) == c
  {
    ModUnique(c as int, UINT32_MOD, 0, c as int);
  }

  /** One more attempt. */
  lemma {:induction false} BumpStep(insertions: uint32, verbose: int, n: nat)
    ensures verbose != 0 ==> Add32(Bump(insertions, verbose, n), 1) == Bump(insertions, verbose, n + 1)
  {
    Add32Succ(insertions, n);
  }

  /** One more key looked up: the insertion counter follows the misses. */
  lemma {:induction false} InsertionsStep(ins0: uint32, verbose: int, ks: seq<seq<int>>, k: seq<int>,
                                          entries0: map<seq<int>, int>, before: uint32, after: uint32)
    requires before == Bump(ins0, verbose, Misses(ks, entries0))
    requires after == if k !in entries0 then Bump(before, verbose, 1) else before
    ensures after == Bump(ins0, verbose, Misses(ks + [k], entries0))
  {
    MissesSnoc(ks, k, entries0);
    BumpStep(ins0, verbose, Misses(ks, entries0));
  }

  /** `counts` holds `base` plus one per occurrence of each key of `ks` at
      that key's position, modulo 2^32; positions no key holds are as in
      `base`. */
  ghost predicate Counted(counts: seq<uint32>, base: seq<uint32>, entries: map<seq<int>, int>, ks: seq<seq<int>>)
  {
    && |counts| == |base|
    && (forall k :: k in entries && 0 <= entries[k] < |base| ==>
          counts[entries[k]] == Add32(base[entries[k]], multiset(ks)[k]))
    && (forall j :: 0 <= j < |base| && j !in entries.Values ==> counts[j] == base[j])
  }

  /** `counts` holds `base` plus one per occurrence of each position in
      `fcbs`, modulo 2^32. */
  ghost predicate CountedAt(counts: seq<uint32>, base: seq<uint32>, fcbs: seq<int>)
  {
    |counts| == |base| && forall j :: 0 <= j < |base| ==> counts[j] == Add32(base[j], multiset(fcbs)[j])
  }

  /** The per-flow state: `*state`, the position of the flow's key. */
  class FlowIndex {
    var index: int

    constructor (index0: int)
      ensures index == index0
    {
      index := index0;
    }
  }

  /** The read handlers. */
  datatype ReadHandler = CountHandler | InsertionsHandler | OtherHandler

  class SourceCounter {
    /** `_capacity` (default 65536), `_is_src` (default 1), `_cache`
        (default 1), `_verbose` (default 0) and `_offset`. */
    const capacity: nat
    const isSrc: int
    const cache: int
    const verbose: int
    const offset: nat
    /** The private index of addresses. */
    const table: HashTable<seq<int>>
    /** `_local_fcbs_struct[i].count`. */
    const counts: array<uint32>
    /** `_insertions`. */
    var insertions: uint32
    /** The batches pushed on output 0. */
    var outputs: seq<seq<Packet>>

    ghost predicate Valid()
      reads this, table, counts
    {
      table.Valid() && table.capacity == capacity && counts.Length == capacity
    }

    /** `configure`: the index is created with `_capacity` entries and the
        state array is zeroed. */
    constructor (capacityArg: Option<nat>, isSrcArg: Option<int>, cacheArg: Option<int>, verboseArg: Option<int>)
      ensures Valid() && fresh(table) && fresh(counts)
      ensures capacity == (if capacityArg.Some? then capacityArg.value else 65536)
      ensures isSrc == (if isSrcArg.Some? then isSrcArg.value else 1)
      ensures cache == (if cacheArg.Some? then cacheArg.value else 1)
      ensures verbose == (if verboseArg.Some? then verboseArg.value else 0)
      ensures offset == KeyOffset(isSrc)
      ensures table.entries == map[] && insertions == 0 && outputs == []
      ensures forall j :: 0 <= j < counts.Length ==> counts[j] == 0
    {
      var cap := if capacityArg.Some? then capacityArg.value else 65536;
      capacity := cap;
      isSrc := if isSrcArg.Some? then isSrcArg.value else 1;
      cache := if cacheArg.Some? then cacheArg.value else 1;
      verbose := if verboseArg.Some? then verboseArg.value else 0;
      insertions := 0;
      offset := KeyOffset(if isSrcArg.Some? then isSrcArg.value else 1);
      table := new HashTable<seq<int>>(cap);
      counts := new uint32[cap](_ => 0);
      outputs := [];
    }

    /** `new_flow`. Without CACHE it accepts the flow and leaves `*state`
        alone. With CACHE it counts an insertion when VERBOSE, inserts the
        address and stores its position in `*state`; a failed insertion
        rejects the flow and leaves `*state` alone. */
    method NewFlow(state: FlowIndex, p: Packet) returns (accepted: bool)
      requires Valid() && offset + KEY_LEN <= |p.data|
      modifies table, state, this`insertions
      ensures Valid()
      ensures cache == 0 ==>
                accepted && state.index == old(state.index)
                && table.entries == old(table.entries) && insertions == old(insertions)
      ensures cache != 0 ==> insertions == Bump(old(insertions), verbose, 1)
      ensures cache != 0 ==> (accepted <==> Key(p, offset) in old(table.entries) || |old(table.entries)| < capacity)
      ensures cache != 0 && accepted ==>
                Key(p, offset) in table.entries && state.index == table.entries[Key(p, offset)]
                && table.entries == old(table.entries)[Key(p, offset) := state.index]
      ensures cache != 0 && !accepted ==> state.index == old(state.index) && table.entries == old(table.entries)
    {
      if cache == 0 {
        return true;
      }
      var key := Key(p, offset);
      if verbose != 0 {
        insertions := Add32(insertions, 1);
      }
      var idx := table.AddKey(key);
      if idx < 0 {
        return false;
      }
      state.index := idx;
      accepted := true;
    }

    /** `push_flow`: forwards the flow's batch. */
    method PushFlow(state: FlowIndex, flow: seq<Packet>)
      modifies this`outputs
      ensures outputs == old(outputs) + [flow]
    {
      outputs := outputs + [flow];
    }

    /** One packet of the lookup path: `pos` is what the bulk lookup
        returned for its key against `entries0`. A negative `pos` makes the
        key be inserted (an insertion counted when VERBOSE); then, unless
        the insertion failed, the count at the key's position grows by
        one. */
    method CountPacket(key: seq<int>, pos: int, ghost entries0: map<seq<int>, int>, ghost base: seq<uint32>,
                       ghost ins0: uint32, ghost ks: seq<seq<int>>) returns (ok: bool)
      requires Valid() && Progress(table.entries, counts[..], entries0, base, ks)
      requires |base| == capacity && insertions == Bump(ins0, verbose, Misses(ks, entries0))
      requires pos >= 0 <==> key in entries0
      requires key in entries0 ==> pos == entries0[key]
      modifies table, counts, this`insertions
      ensures Valid()
      ensures ok ==> Progress(table.entries, counts[..], entries0, base, ks + [key])
      ensures !ok ==>
                Progress(table.entries, counts[..], entries0, base, ks)
                && key !in table.entries && |table.entries| == capacity
      ensures insertions == Bump(ins0, verbose, Misses(ks + [key], entries0))
    {
      ghost var before := table.entries;
      ghost var prev := counts[..];
      ghost var ins := insertions;
      var idx := Locate(key, pos, entries0);
      InsertionsStep(ins0, verbose, ks, key, entries0, ins, insertions);
      if idx < 0 {
        return false;
      }
      counts[idx] := Add32(counts[idx], 1);
      if key in before {
        KnownKeyStep(before, prev, counts[..], entries0, base, ks, key);
      } else {
        NewKeyStep(before, prev, counts[..], entries0, base, ks, key, idx);
      }
      ok := true;
    }

    /** The position of a packet's key: what the bulk lookup returned
        against `entries0` when it found the key, else what inserting the
        key returns (an insertion counted when VERBOSE). */
    method Locate(key: seq<int>, pos: int, ghost entries0: map<seq<int>, int>) returns (idx: int)
      requires Valid()
      requires forall k :: k in entries0 ==> k in table.entries && table.entries[k] == entries0[k]
      requires pos >= 0 <==> key in entries0
      requires key in entries0 ==> pos == entries0[key]
      modifies table, this`insertions
      ensures Valid()
      ensures insertions == if key !in entries0 then Bump(old(insertions), verbose, 1) else old(insertions)
      ensures idx < 0 ==>
                table.entries == old(table.entries) && key !in table.entries && |table.entries| == capacity
      ensures idx >= 0 && key in old(table.entries) ==> table.entries == old(table.entries) && idx == old(table.entries)[key]
      ensures idx >= 0 && key !in old(table.entries) ==>
                0 <= idx < capacity && idx !in old(table.entries).Values
                && table.entries == old(table.entries)[key := idx]
    {
      idx := pos;
      if idx < 0 {
        idx := table.AddKey(key);
        if verbose != 0 {
          insertions := Add32(insertions, 1);
        }
      }
    }

    /** The non-cached path of `push_flow_batch`. The batch's keys are
        looked up all at once; then, packet by packet, a key the lookup
        missed is inserted (counted in `_insertions` when VERBOSE), and the
        count at the key's position grows by one. An insertion that fails
        ends the call: that packet and the ones after it are not counted.
        `counted` is the number of packets counted. Nothing is pushed. */
    method PushLookup(batch: seq<Packet>) returns (ghost counted: nat)
      requires Valid() && |batch| <= KEY_ARRAY_LEN
      requires forall i :: 0 <= i < |batch| ==> offset + KEY_LEN <= |batch[i].data|
      modifies table, counts, this`insertions
      ensures Valid() && counted <= |batch|
      ensures Progress(table.entries, counts[..], old(table.entries), old(counts[..]), Keys(batch, offset)[..counted])
      ensures counted < |batch| ==>
                Keys(batch, offset)[counted] !in table.entries && |table.entries| == capacity
      ensures counted == |batch| ==>
                insertions == Bump(old(insertions), verbose, Misses(Keys(batch, offset), old(table.entries)))
      ensures counted < |batch| ==>
                insertions == Bump(old(insertions), verbose, Misses(Keys(batch, offset)[..counted + 1], old(table.entries)))
    {
      var keys := Keys(batch, offset);
      var positions := table.LookupBulk(keys);
      counted := CountAll(keys, positions);
    }

    /** The packet loop of the lookup path, over the batch's keys and the
        positions the bulk lookup returned for them. */
    method CountAll(keys: seq<seq<int>>, positions: seq<int>) returns (ghost counted: nat)
      requires Valid() && |positions| == |keys|
      requires LookedUp(keys, positions, table.entries)
      modifies table, counts, this`insertions
      ensures Valid() && counted <= |keys|
      ensures Progress(table.entries, counts[..], old(table.entries), old(counts[..]), keys[..counted])
      ensures counted < |keys| ==> keys[counted] !in table.entries && |table.entries| == capacity
      ensures counted == |keys| ==> insertions == Bump(old(insertions), verbose, Misses(keys, old(table.entries)))
      ensures counted < |keys| ==>
                insertions == Bump(old(insertions), verbose, Misses(keys[..counted + 1], old(table.entries)))
    {
      ghost var entries0 := table.entries;
      ghost var base := counts[..];
      ghost var ins0 := insertions;
      ProgressStart(entries0, base);
      ghost var done: seq<seq<int>> := [];
      var i := 0;
      while i < |keys|
        invariant 0 <= i <= |keys| && Valid() && done == keys[..i]
        invariant Progress(table.entries, counts[..], entries0, base, done)
        invariant insertions == Bump(ins0, verbose, Misses(done, entries0))
      {
        LookedUpAt(keys, positions, entries0, i);
        var ok := CountPacket(keys[i], positions[i], entries0, base, ins0, done);
        PrefixStep(keys, i);
        if !ok {
          return i;
        }
        done := done + [keys[i]];
        i := i + 1;
      }
      assert done == keys;
      return i;
    }

    /** The cached path of `push_flow_batch`: the count at each flow's
        stored position grows by one per packet. The prefetch four packets
        ahead is a hint and is not modelled. Nothing is pushed. */
    method PushCached(fcbs: seq<int>)
      requires Valid() && forall i :: 0 <= i < |fcbs| ==> 0 <= fcbs[i] < capacity
      modifies counts
      ensures Valid()
      ensures CountedAt(counts[..], old(counts[..]), fcbs)
    {
      ghost var base := counts[..];
      CountedAtStart(base);
      var i := 0;
      while i < |fcbs|
        invariant 0 <= i <= |fcbs| && counts.Length == capacity
        invariant CountedAt(counts[..], base, fcbs[..i])
      {
        ghost var prev := counts[..];
        var idx := fcbs[i];
        counts[idx] := Add32(counts[idx], 1);
        CountAtStep(counts[..], prev, base, fcbs, i);
        i := i + 1;
      }
      assert fcbs[..i] == fcbs;
    }

    /** `push_flow_batch`: the cached path when CACHE is set, the lookup
        path otherwise. `fcbs` are the `*fcb[i]` of the batch's packets. */
    method PushFlowBatch(fcbs: seq<int>, batch: seq<Packet>) returns (ghost counted: nat)
      requires Valid() && |fcbs| == |batch|
      requires cache != 0 ==> forall i :: 0 <= i < |fcbs| ==> 0 <= fcbs[i] < capacity
      requires cache == 0 ==> |batch| <= KEY_ARRAY_LEN
      requires cache == 0 ==> forall i :: 0 <= i < |batch| ==> offset + KEY_LEN <= |batch[i].data|
      modifies table, counts, this`insertions
      ensures Valid() && counted <= |batch|
      ensures cache != 0 ==>
                CountedAt(counts[..], old(counts[..]), fcbs) && counted == |batch|
                && table.entries == old(table.entries) && insertions == old(insertions)
      ensures cache == 0 ==>
                Progress(table.entries, counts[..], old(table.entries), old(counts[..]), Keys(batch, offset)[..counted])
      ensures cache == 0 && counted < |batch| ==>
                Keys(batch, offset)[counted] !in table.entries && |table.entries| == capacity
      ensures cache == 0 && counted == |batch| ==>
                insertions == Bump(old(insertions), verbose, Misses(Keys(batch, offset), old(table.entries)))
      ensures cache == 0 && counted < |batch| ==>
                insertions == Bump(old(insertions), verbose, Misses(Keys(batch, offset)[..counted + 1], old(table.entries)))
    {
      if cache != 0 {
        PushCached(fcbs);
        counted := |batch|;
      } else {
        counted := PushLookup(batch);
      }
    }

    /** `read_handler`: `count` is the number of addresses in the index,
        `insertions` the insertion counter; any other thunk gives the
        error string (`None`). */
    function Read(h: ReadHandler): (r: Option<int>)
      reads this, table, counts
      requires Valid()
      ensures h == CountHandler ==> r == Some(|table.entries|)
      ensures h == InsertionsHandler ==> r == Some(insertions as int)
      ensures h == OtherHandler ==> r == None
    {
      match h
      case CountHandler => Some(table.Count())
      case InsertionsHandler => Some(insertions as int)
      case OtherHandler => None
    }

    /** `write_handler`: always fails. */
    function Write(s: string): (r: int)
      ensures r == -1
    {
      -1
    }
  }

  /** Adding one to a truncated value truncates the successor. */
  lemma {:induction false} U32Succ(x: int)
    ensures U32(U32(x) + 1) == U32(x + 1)
  {
    var q := x / UINT32_MOD;
    var r := x % UINT32_MOD;
    if r + 1 < UINT32_MOD {
      ModUnique(x + 1, UINT32_MOD, q, r + 1);
    } else {
      ModUnique(x + 1, UINT32_MOD, q + 1, 0);
    }
  }

  lemma {:induction false} CountedAtStart(base: seq<uint32>)
    ensures CountedAt(base, base, [])
  {
    forall j | 0 <= j < |base| {
      Add32Zero(base[j]);
    }
  }

  /** A prefix of the batch's keys one key longer. */
  lemma {:induction false} PrefixStep(keys: seq<seq<int>>, i: nat)
    requires i < |keys|
    ensures keys[..i + 1] == keys[..i] + [keys[i]]
  {
  }

  /** What the lookup path has done so far, from the index `entries0`
      and the counts `base` it started with, to reach `entries` and
      `counts`: old keys keep their positions, the keys it inserted are
      among `ks`, every key of `ks` is in the index, and each key of `ks` is
      counted. */
  ghost predicate Progress(entries: map<seq<int>, int>, counts: seq<uint32>,
                           entries0: map<seq<int>, int>, base: seq<uint32>, ks: seq<seq<int>>)
  {
    Tracked(entries, entries0, ks) && Counted(counts, base, entries, ks)
  }

  /** `positions` is what looking each of `keys` up in `entries` gives. */
  ghost predicate LookedUp(keys: seq<seq<int>>, positions: seq<int>, entries: map<seq<int>, int>)
  {
    && |positions| == |keys|
    && (forall t :: 0 <= t < |keys| ==> (positions[t] >= 0 <==> keys[t] in entries))
    && (forall t :: 0 <= t < |keys| && keys[t] in entries ==> positions[t] == entries[keys[t]])
  }

  lemma {:induction false} LookedUpAt(keys: seq<seq<int>>, positions: seq<int>, entries: map<seq<int>, int>, i: nat)
    requires LookedUp(keys, positions, entries) && i < |keys|
    ensures positions[i] >= 0 <==> keys[i] in entries
    ensures keys[i] in entries ==> positions[i] == entries[keys[i]]
  {
  }

  /** Nothing done yet. */
  lemma {:induction false} ProgressStart(entries: map<seq<int>, int>, base: seq<uint32>)
    ensures Progress(entries, base, entries, base, [])
  {
    forall k | k in entries && 0 <= entries[k] < |base| {
      Add32Zero(base[entries[k]]);
    }
  }

  /** Old keys keep their positions, new keys are among `ks`, and every
      key of `ks` is in the index. */
  ghost predicate Tracked(entries: map<seq<int>, int>, entries0: map<seq<int>, int>, ks: seq<seq<int>>)
  {
    && (forall k :: k in entries0 ==> k in entries && entries[k] == entries0[k])
    && (forall k :: k in entries ==> k in entries0 || k in ks)
    && (forall t :: 0 <= t < |ks| ==> ks[t] in entries)
  }

  /** One more packet of a key the index holds. */
  lemma {:induction false} KnownKeyStep(entries: map<seq<int>, int>, prev: seq<uint32>, cur: seq<uint32>,
                                        entries0: map<seq<int>, int>, base: seq<uint32>, ks: seq<seq<int>>, k: seq<int>)
    requires k in entries && 0 <= entries[k] < |prev| == |base|
    requires forall k1, k2 :: k1 in entries && k2 in entries && k1 != k2 ==> entries[k1] != entries[k2]
    requires Progress(entries, prev, entries0, base, ks)
    requires cur == prev[entries[k] := Add32(prev[entries[k]], 1)]
    ensures Progress(entries, cur, entries0, base, ks + [k])
  {
    CountStep(cur, prev, base, entries, ks, k);
    assert forall t :: 0 <= t < |ks| ==> (ks + [k])[t] == ks[t];
  }

  /** One more packet of a key inserted at a position no key held. */
  lemma {:induction false} NewKeyStep(entries: map<seq<int>, int>, prev: seq<uint32>, cur: seq<uint32>,
                                      entries0: map<seq<int>, int>, base: seq<uint32>, ks: seq<seq<int>>,
                                      k: seq<int>, r: int)
    requires k !in entries && 0 <= r < |prev| == |base| && r !in entries.Values
    requires forall k1, k2 :: k1 in entries && k2 in entries && k1 != k2 ==> entries[k1] != entries[k2]
    requires Progress(entries, prev, entries0, base, ks)
    requires cur == prev[r := Add32(prev[r], 1)]
    ensures Progress(entries[k := r], cur, entries0, base, ks + [k])
  {
    AddStep(prev, base, entries, ks, k, r);
    CountStep(cur, prev, base, entries[k := r], ks, k);
    assert forall t :: 0 <= t < |ks| ==> (ks + [k])[t] == ks[t];
  }

  /** One more packet counted at a key's position. */
  lemma {:induction false} CountStep(cur: seq<uint32>, prev: seq<uint32>, base: seq<uint32>, entries: map<seq<int>, int>,
                                     ks: seq<seq<int>>, k: seq<int>)
    requires k in entries && 0 <= entries[k] < |prev| == |base|
    requires forall k1, k2 :: k1 in entries && k2 in entries && k1 != k2 ==> entries[k1] != entries[k2]
    requires Counted(prev, base, entries, ks)
    requires cur == prev[entries[k] := Add32(prev[entries[k]], 1)]
    ensures Counted(cur, base, entries, ks + [k])
  {
    assert multiset(ks + [k]) == multiset(ks) + multiset{k};
    Add32Succ(base[entries[k]], multiset(ks)[k]);
  }

  /** A key none of `ks` is, inserted at a position no key holds, starts
      from its base count. */
  lemma {:induction false} AddStep(counts: seq<uint32>, base: seq<uint32>, entries: map<seq<int>, int>,
                                   ks: seq<seq<int>>, k: seq<int>, r: int)
    requires Counted(counts, base, entries, ks) && 0 <= r < |base|
    requires forall t :: 0 <= t < |ks| ==> ks[t] in entries
    requires k !in entries && r !in entries.Values
    ensures Counted(counts, base, entries[k := r], ks)
  {
    assert k !in multiset(ks);
    Add32Zero(base[r]);
  }

  /** One more packet counted at `fcbs[i]`. */
  lemma {:induction false} CountAtStep(cur: seq<uint32>, prev: seq<uint32>, base: seq<uint32>, fcbs: seq<int>, i: nat)
    requires i < |fcbs| && 0 <= fcbs[i] < |prev|
    requires CountedAt(prev, base, fcbs[..i])
    requires cur == prev[fcbs[i] := Add32(prev[fcbs[i]], 1)]
        ensures CountedAt(cur, base, fcbs[..i + 1])
  {
    assert fcbs[..i + 1] == fcbs[..i] + [fcbs[i]];
    assert multiset(fcbs[..i + 1]) == multiset(fcbs[..i]) + multiset{fcbs[i]};
    Add32Succ(base[fcbs[i]], multiset(fcbs[..i])[fcbs[i]]);
  }

  /** With the positions `new_flow` stored (`fcbs[t]` is the position of
      the `t`-th packet's address), the two paths of `push_flow_batch`
      count alike: counting per address and counting per stored position
      describe the same counts. */
  lemma {:induction false} CachedMatchesLookup(counts: seq<uint32>, base: seq<uint32>, entries: map<seq<int>, int>,
                                               keys: seq<seq<int>>, fcbs: seq<int>)
    requires |counts| == |base| && |fcbs| == |keys|
    requires forall t :: 0 <= t < |keys| ==> keys[t] in entries && fcbs[t] == entries[keys[t]]
    requires forall k :: k in entries ==> 0 <= entries[k] < |base|
    requires forall k1, k2 :: k1 in entries && k2 in entries && k1 != k2 ==> entries[k1] != entries[k2]
    ensures Counted(counts, base, entries, keys) <==> CountedAt(counts, base, fcbs)
  {
    PositionsMultiset(entries, keys, fcbs);
    forall j | 0 <= j < |base| && j !in entries.Values {
      Add32Zero(base[j]);
    }
  }

  /** Under an injective map, a position occurs in `fcbs` as often as its
      key occurs in `keys`, and a position no key holds never occurs. */
  lemma {:induction false} PositionsMultiset(entries: map<seq<int>, int>, keys: seq<seq<int>>, fcbs: seq<int>)
    requires |fcbs| == |keys|
    requires forall t :: 0 <= t < |keys| ==> keys[t] in entries && fcbs[t] == entries[keys[t]]
    requires forall k1, k2 :: k1 in entries && k2 in entries && k1 != k2 ==> entries[k1] != entries[k2]
    ensures forall k :: k in entries ==> multiset(fcbs)[entries[k]] == multiset(keys)[k]
    ensures forall j :: j !in entries.Values ==> multiset(fcbs)[j] == 0
  {
    if keys != [] {
      var n := |keys| - 1;
      PositionsMultiset(entries, keys[..n], fcbs[..n]);
      assert keys == keys[..n] + [keys[n]];
      assert fcbs == fcbs[..n] + [fcbs[n]];
      assert multiset(keys) == multiset(keys[..n]) + multiset{keys[n]};
      assert multiset(fcbs) == multiset(fcbs[..n]) + multiset{fcbs[n]};
    }
  }
}
