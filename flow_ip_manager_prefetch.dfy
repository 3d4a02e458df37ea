/** `FlowIPManagerPrefetch`: a flow classifier over DPDK's `rte_hash`. Each
    packet's 32-bit aggregate annotation is looked up (optionally in bulk
    for the whole batch) and inserted when new; consecutive packets of the
    same slot are pushed out together as one batch. Expiry is not
    supported. */
module FlowIPManagerPrefetch {
  import opened Common
  import opened RteHash
  import opened BatchBuilder
  import VirtualFlowManager

  /** The bytes `configure` adds to `RESERVE` for the flow id. */
  const FLOWID_BYTES: int := 4

  /** A packet as the element sees it: `AGGREGATE_ANNO` and the 32-bit
      annotation at offset 20 (the key of the bulk path), both unsigned. */
  datatype Packet = Packet(aggregate: int, anno20: int, payload: seq<int>)

  datatype PrefetchConfig = PrefetchConfig(capacity: int, reserve: int, timeout: int, verbose: bool, bulkSearch: bool)

  datatype ConfigureResult = Configured(cfg: PrefetchConfig) | TimeoutUnsupported

  /** `configure`, given the optional `CAPACITY` (default 65536), `RESERVE`
      (default 0), `TIMEOUT` (default -1), `VERBOSE` (default true) and
      `BULK_SEARCH` (default false). A positive timeout is refused; the
      reserve grows by the 4 bytes of the flow id. */
  function Configure(capacity: Option<int>, reserve: Option<int>, timeout: Option<int>,
                     verbose: Option<bool>, bulkSearch: Option<bool>): (r: ConfigureResult)
    ensures r.TimeoutUnsupported? <==> timeout.Some? && timeout.value > 0
    ensures r.Configured? ==> r.cfg.timeout <= 0
    ensures r.Configured? ==> r.cfg.reserve == (if reserve.Some? then reserve.value else 0) + FLOWID_BYTES
    ensures r.Configured? ==> r.cfg.capacity == (if capacity.Some? then capacity.value else 65536)
    ensures r.Configured? ==> r.cfg.verbose == (verbose != Some(false)) && r.cfg.bulkSearch == (bulkSearch == Some(true))
  {
    var t := if timeout.Some? then timeout.value else -1;
    if t > 0 then TimeoutUnsupported
    else
      Configured(PrefetchConfig(if capacity.Some? then capacity.value else 65536,
                                (if reserve.Some? then reserve.value else 0) + FLOWID_BYTES,
                                t,
                                if verbose.Some? then verbose.value else true,
                                if bulkSearch.Some? then bulkSearch.value else false))
  }

  /** The `rte_hash_count` of every table that exists, summed. */
  ghost function TotalCount(tables: seq<HashTable?<int>>): (n: int)
    reads set i | 0 <= i < |tables| :: tables[i]
    requires forall i :: 0 <= i < |tables| && tables[i] != null ==> tables[i].Valid()
    ensures n >= 0
  {
    if tables == [] then 0
    else
      var k := |tables| - 1;
      TotalCount(tables[..k]) + (if tables[k] != null then tables[k].Count() else 0)
  }

  /** The capacities of every table that exists, summed. */
  ghost function TotalCapacity(tables: seq<HashTable?<int>>): int
    reads set i | 0 <= i < |tables| :: tables[i]
  {
    if tables == [] then 0
    else
      var k := |tables| - 1;
      TotalCapacity(tables[..k]) + (if tables[k] != null then tables[k].capacity else 0)
  }

  /** The `count` read handler: loops over the tables, adding the count of
      each one that was created. */
  method CountHandler(tables: seq<HashTable?<int>>) returns (count: int)
    requires forall i :: 0 <= i < |tables| && tables[i] != null ==> tables[i].Valid()
    ensures count == TotalCount(tables)
    ensures 0 <= count <= TotalCapacity(tables)
  {
    count := 0;
    var i := 0;
    while i < |tables|
      invariant 0 <= i <= |tables|
      invariant count == TotalCount(tables[..i])
      invariant count <= TotalCapacity(tables[..i])
    {
      assert tables[..i + 1][..i] == tables[..i];
      if tables[i] != null {
        count := count + tables[i].Count();
      }
      i := i + 1;
    }
    assert tables[..i] == tables;
  }

  class FlowIPManagerPrefetch {
    const cfg: PrefetchConfig
    /** `_table_size` after `solve_initialize`. */
    const tableSize: int
    /** `_flow_state_size_full`. */
    const flowStateSizeFull: int
    /** The current CPU's table and FCB array; the FCB array is seen
        through the `lastseen` stamp of each of its records. */
    const table: HashTable<int>
    const lastseen: array<int>
    /** `fcb_stack`: the record whose run is being built (`None` for
        null). */
    var fcbStack: Option<nat>
    /** The batches pushed on output 0, and the packets killed. */
    var outputs: seq<seq<Packet>>
    var killed: seq<Packet>

    ghost predicate Valid()
      reads this, table
    {
      table.Valid() && table.capacity == tableSize && lastseen.Length == tableSize
    }

    /** Whatever run a builder holds belongs to `fcb_stack`, and a builder
        without a run has no slot yet. */
    ghost predicate RunOwned(b: Builder<Packet>)
      reads this, b
    {
      && (b.run != [] ==> fcbStack == Some(1) && 1 < lastseen.Length)
      && (b.run == [] ==> b.last < 0)
    }

    /** `solve_initialize` for the current CPU: the capacity is divided
        among the passing threads (`weight`) and rounded to a power of two,
        the table is created with that many entries and the FCB array is
        zeroed. */
    constructor (cfg: PrefetchConfig, weight: int, fcbSize: int)
      requires weight >= 1 && cfg.capacity >= 0
      ensures Valid() && fresh(table) && fresh(lastseen)
      ensures this.cfg == cfg
      ensures tableSize == VirtualFlowManager.TableCapacity(cfg.capacity, weight)
      ensures flowStateSizeFull == fcbSize + cfg.reserve
      ensures table.entries == map[]
      ensures forall i :: 0 <= i < lastseen.Length ==> lastseen[i] == 0
      ensures fcbStack == None && outputs == [] && killed == []
    {
      this.cfg := cfg;
      var n := VirtualFlowManager.TableCapacity(cfg.capacity, weight);
      tableSize := n;
      flowStateSizeFull := fcbSize + cfg.reserve;
      table := new HashTable(n);
      lastseen := new int[n](_ => 0);
      fcbStack := None;
      outputs := [];
      killed := [];
    }

    /** `capacity()` and `count()`: this element reports 0 for both. */
    function Capacity(): (c: int)
      ensures c == 0
    {
      0
    }

    function Count(): (c: int)
      ensures c == 0
    {
      0
    }

    /** The slot step of `process`: a non-zero `bulk_ret` is the slot;
        otherwise the key is looked up, and a key that is not found is
        added. A negative result means the add failed. */
    method Resolve(key: int, bulkRet: int) returns (ret: int)
      requires Valid()
      modifies table
      ensures Valid()
      ensures bulkRet != 0 && bulkRet >= 0 ==> ret == bulkRet && table.entries == old(table.entries)
      ensures bulkRet == 0 && key in old(table.entries) ==> ret == old(table.entries)[key] && table.entries == old(table.entries)
      ensures (bulkRet < 0 || (bulkRet == 0 && key !in old(table.entries))) ==> AddedKey(key, ret, old(table.entries))
    {
      if bulkRet != 0 {
        ret := bulkRet;
      } else {
        ret := table.Lookup(key);
      }
      if ret < 0 {
        ret := table.AddKey(key);
      }
    }

    /** What `rte_hash_add_key` did with `key`: a present key keeps its
        slot; a new one gets a free slot, or `-ENOSPC` when the table is
        full. */
    ghost predicate AddedKey(key: int, ret: int, before: map<int, int>)
      reads this, table
    {
      Added(key, ret, before, table.entries, tableSize)
    }

    /** `b.finish()` and what follows it: a non-empty run is stamped with
        `recent` on the record that owns it and pushed on output 0. */
    method Flush(b: Builder<Packet>, recent: int)
      requires Valid() && RunOwned(b)
      modifies lastseen, this`outputs
      ensures Valid() && RunOwned(b)
      ensures Flatten(outputs) == old(Flatten(outputs) + b.run)
      ensures old(b.run) != [] ==> outputs == old(outputs) + [b.run] && lastseen[..] == old(lastseen[..])[1 := recent]
      ensures old(b.run) == [] ==> outputs == old(outputs) && lastseen[..] == old(lastseen[..])
    {
      var batch := b.Finish();
      if batch.Some? {
        lastseen[fcbStack.value] := recent;
        FlattenSnoc(outputs, batch.value);
        outputs := outputs + [batch.value];
      }
    }

    /** The grouping step of `process` for a packet of slot `ret`. The same
        slot as `b.last` extends the run. Otherwise the run so far, if any,
        is flushed, and a new run starts with the packet, owned by the
        record at offset one record size (record 1), whatever the slot. */
    method Group(p: Packet, b: Builder<Packet>, recent: int, ret: int)
      requires Valid() && tableSize >= 2 && RunOwned(b) && ret >= 0
      modifies lastseen, b, this`fcbStack, this`outputs
      ensures Valid() && RunOwned(b)
      ensures Flatten(outputs) + b.run == old(Flatten(outputs) + b.run) + [p]
      ensures ret == old(b.last) ==>
                b.run == old(b.run) + [p] && b.last == old(b.last) && fcbStack == old(fcbStack)
                && outputs == old(outputs) && lastseen[..] == old(lastseen[..])
      ensures ret != old(b.last) ==> b.run == [p] && b.last == ret && fcbStack == Some(1)
      ensures ret != old(b.last) && old(b.run) != [] ==>
                outputs == old(outputs) + [old(b.run)] && lastseen[..] == old(lastseen[..])[1 := recent]
      ensures ret != old(b.last) && old(b.run) == [] ==>
                outputs == old(outputs) && lastseen[..] == old(lastseen[..])
    {
      if b.last == ret {
        b.Append(p);
        assert Flatten(outputs) + b.run == (Flatten(outputs) + old(b.run)) + [p];
      } else {
        Flush(b, recent);
        StartRun(p, b, ret);
      }
    }

    /** `fcb_stack = fcb; b.init(); b.append(p); b.last = ret`. */
    method StartRun(p: Packet, b: Builder<Packet>, ret: int)
      requires tableSize >= 2 && lastseen.Length == tableSize && ret >= 0
      modifies b, this`fcbStack
      ensures RunOwned(b) && b.run == [p] && b.last == ret && fcbStack == Some(1)
    {
      fcbStack := Some(1);
      b.Init();
      b.Append(p);
      b.last := ret;
    }

    /** `process`: resolve the packet's slot; when that fails the packet is
        killed and nothing else changes. */
    method Process(p: Packet, b: Builder<Packet>, recent: int, bulkRet: int) returns (ret: int)
      requires Valid() && tableSize >= 2 && RunOwned(b)
      modifies table, lastseen, b, this`fcbStack, this`outputs, this`killed
      ensures Valid() && RunOwned(b)
      ensures bulkRet != 0 && bulkRet >= 0 ==> ret == bulkRet && table.entries == old(table.entries)
      ensures bulkRet == 0 && p.aggregate in old(table.entries) ==>
                ret == old(table.entries)[p.aggregate] && table.entries == old(table.entries)
      ensures (bulkRet < 0 || (bulkRet == 0 && p.aggregate !in old(table.entries))) ==>
                AddedKey(p.aggregate, ret, old(table.entries))
      ensures ret < 0 ==> killed == old(killed) + [p] && outputs == old(outputs) && b.run == old(b.run)
                          && b.last == old(b.last) && fcbStack == old(fcbStack) && lastseen[..] == old(lastseen[..])
      ensures ret >= 0 ==> killed == old(killed) && Flatten(outputs) + b.run == old(Flatten(outputs) + b.run) + [p]
      ensures ret >= 0 && ret != old(b.last) && old(b.run) != [] ==>
                outputs == old(outputs) + [old(b.run)] && lastseen[..] == old(lastseen[..])[1 := recent]
      ensures ret >= 0 && (ret == old(b.last) || old(b.run) == []) ==>
                outputs == old(outputs) && lastseen[..] == old(lastseen[..])
      ensures ret >= 0 ==> b.last == ret
      ensures ret >= 0 && ret == old(b.last) ==> b.run == old(b.run) + [p]
      ensures ret >= 0 && ret != old(b.last) ==> b.run == [p]
    {
      ret := Resolve(p.aggregate, bulkRet);
      if ret < 0 {
        killed := killed + [p];
        return;
      }
      Group(p, b, recent, ret);
    }

    /** `push_batch`. With `BULK_SEARCH`, the annotation keys of the whole
        batch are looked up first and the `i`-th result goes with the `i`-th
        packet; otherwise each packet does its own lookup. The last run is
        flushed at the end and `fcb_stack` reset. `last0` is the `last` a
        fresh `BatchBuilder` starts with. On return, `rets[i]` is the slot
        `process` resolved for the `i`-th packet against the table
        `maps[i]` it found, `kept[i]` says whether that packet was
        forwarded or killed, and the batches pushed are the runs of
        consecutive kept packets with equal slots. */
    method PushBatch(batch: seq<Packet>, recent: int, last0: int)
      returns (bulkRets: seq<int>, ghost kept: seq<bool>, ghost rets: seq<int>, ghost maps: seq<map<int, int>>)
      requires Valid() && tableSize >= 2 && last0 < 0
      modifies table, lastseen, this`fcbStack, this`outputs, this`killed
      ensures Valid() && fcbStack == None
      ensures cfg.bulkSearch ==> bulkRets == old(table.LookupBulk(Anno20s(batch)))
      ensures !cfg.bulkSearch ==> bulkRets == []
      ensures Resolves(batch, bulkRets, rets, maps, tableSize)
      ensures maps[0] == old(table.entries) && maps[|batch|] == table.entries
      ensures |kept| == |batch| && forall i :: 0 <= i < |batch| ==> (kept[i] <==> rets[i] >= 0)
      ensures forall i :: 0 <= i < |batch| && !kept[i] ==> batch[i].aggregate !in maps[i] && |maps[i]| == tableSize
      ensures |Select(rets, kept, true)| == |Select(batch, kept, true)|
      ensures outputs == old(outputs) + Runs(Select(batch, kept, true), Select(rets, kept, true))
      ensures Flatten(outputs) == old(Flatten(outputs)) + Select(batch, kept, true)
      ensures killed == old(killed) + Select(batch, kept, false)
      ensures Stamped(lastseen[..], old(lastseen[..]), |outputs| > |old(outputs)|, recent)
    {
      var b := new Builder<Packet>(last0);
      if cfg.bulkSearch {
        bulkRets := table.LookupBulk(Anno20s(batch));
      } else {
        bulkRets := [];
      }
      kept, rets, maps := ProcessAll(batch, b, recent, bulkRets);
      TraceComplete(batch, bulkRets, kept, rets, maps, tableSize);
      FlushRuns(b, recent, old(outputs), Select(batch, kept, true), Select(rets, kept, true), old(lastseen[..]));
      fcbStack := None;
    }

    /** The `flush` that ends `push_batch`: the builder's last run completes
        the runs of the kept packets, whose packets, in order, are all that
        was pushed on. */
    method FlushRuns(b: Builder<Packet>, recent: int, ghost before: seq<seq<Packet>>,
                     ghost ks: seq<Packet>, ghost ss: seq<int>, ghost s0: seq<int>)
      requires Valid() && RunOwned(b) && |ss| == |ks|
      requires outputs + Pending(b) == before + Runs(ks, ss)
      requires |outputs| >= |before|
      requires Stamped(lastseen[..], s0, |outputs| > |before|, recent)
      modifies lastseen, this`outputs
      ensures Valid()
      ensures outputs == before + Runs(ks, ss)
      ensures Flatten(outputs) == Flatten(before) + ks
      ensures Stamped(lastseen[..], s0, |outputs| > |before|, recent)
    {
      ghost var n, stamps := |outputs|, lastseen[..];
      ghost var out0, run0 := outputs, b.run;
      Flush(b, recent);
      assert outputs == out0 + (if run0 == [] then [] else [run0]);
      StampedTwice(lastseen[..], stamps, s0, |outputs| > n, n > |before|, recent);
      RunsFlatten(ks, ss);
      FlattenAppend(before, Runs(ks, ss));
    }

    /** The packet loop of `push_batch`: `process` on every packet in batch
        order, with the `i`-th bulk result when there are any, starting
        from a fresh builder. The pushed batches and the run still being
        built are the runs of the kept packets. */
    method ProcessAll(batch: seq<Packet>, b: Builder<Packet>, recent: int, bulkRets: seq<int>)
      returns (ghost kept: seq<bool>, ghost rets: seq<int>, ghost maps: seq<map<int, int>>)
      requires Valid() && tableSize >= 2 && b.run == [] && b.last < 0
      requires bulkRets == [] || |bulkRets| == |batch|
      modifies table, lastseen, b, this`fcbStack, this`outputs, this`killed
      ensures Valid() && RunOwned(b)
      ensures |kept| == |batch| && Trace(batch, bulkRets, kept, rets, maps, tableSize)
      ensures maps[0] == old(table.entries) && maps[|batch|] == table.entries
      ensures |Select(rets, kept, true)| == |Select(batch, kept, true)|
      ensures outputs + Pending(b) == old(outputs) + Runs(Select(batch, kept, true), Select(rets, kept, true))
      ensures killed == old(killed) + Select(batch, kept, false)
      ensures |outputs| >= |old(outputs)|
      ensures Stamped(lastseen[..], old(lastseen[..]), |outputs| > |old(outputs)|, recent)
    {
      kept, rets, maps := [], [], [table.entries];
      ghost var o, k0, s0, e0 := outputs, killed, lastseen[..], table.entries;
      var i := 0;
      while i < |batch|
        invariant 0 <= i <= |batch| && |kept| == i
        invariant Valid() && RunOwned(b)
        invariant Progress(batch, bulkRets, recent, tableSize, kept, rets, maps, o, k0, s0, e0,
                           outputs, b.run, b.last, killed, lastseen[..], table.entries)
      {
        kept, rets, maps := Step(batch, bulkRets, b, recent, i, kept, rets, maps, o, k0, s0, e0);
        i := i + 1;
      }
      assert batch[..i] == batch;
    }

    /** One iteration of the packet loop, extending `Progress` by one
        packet. */
    method Step(batch: seq<Packet>, bulkRets: seq<int>, b: Builder<Packet>, recent: int, i: nat,
                ghost kept: seq<bool>, ghost rets: seq<int>, ghost maps: seq<map<int, int>>,
                ghost o: seq<seq<Packet>>, ghost k0: seq<Packet>, ghost s0: seq<int>, ghost e0: map<int, int>)
      returns (ghost kept': seq<bool>, ghost rets': seq<int>, ghost maps': seq<map<int, int>>)
      requires Valid() && tableSize >= 2 && RunOwned(b) && i == |kept| < |batch|
      requires Progress(batch, bulkRets, recent, tableSize, kept, rets, maps, o, k0, s0, e0,
                        outputs, b.run, b.last, killed, lastseen[..], table.entries)
      modifies table, lastseen, b, this`fcbStack, this`outputs, this`killed
      ensures Valid() && RunOwned(b) && |kept'| == |kept| + 1
      ensures Progress(batch, bulkRets, recent, tableSize, kept', rets', maps', o, k0, s0, e0,
                       outputs, b.run, b.last, killed, lastseen[..], table.entries)
    {
      ghost var ks, ss := Select(batch[..i], kept, true), Select(rets, kept, true);
      ghost var out1, run1, last1, killed1, s1, e1 := outputs, b.run, b.last, killed, lastseen[..], table.entries;
      var ret := ProcessStep(batch[i], b, recent, BulkAt(bulkRets, i), o, ks, ss);
      ProgressSnoc(batch, bulkRets, recent, tableSize, kept, rets, maps, o, k0, s0, e0,
                   out1, run1, last1, killed1, s1, e1, ret, outputs, b.run, b.last, killed, lastseen[..], table.entries);
      kept', rets', maps' := kept + [ret >= 0], rets + [ret], maps + [table.entries];
    }

    /** The pushed batches beyond `o`, and the run `b` still holds, are the
        runs of the kept packets `ks` with slots `ss`; the builder's `last`
        is the slot of the last kept packet. */
    ghost predicate Grouped(b: Builder<Packet>, o: seq<seq<Packet>>, ks: seq<Packet>, ss: seq<int>)
      reads this, b
    {
      GroupedV(outputs, b.run, b.last, o, ks, ss)
    }

    /** One iteration of that loop: `process` on one packet, seen through
        the runs of the packets kept so far. */
    method ProcessStep(p: Packet, b: Builder<Packet>, recent: int, bulkRet: int,
                       ghost o: seq<seq<Packet>>, ghost ks: seq<Packet>, ghost ss: seq<int>) returns (ret: int)
      requires Valid() && tableSize >= 2 && RunOwned(b) && Grouped(b, o, ks, ss)
      modifies table, lastseen, b, this`fcbStack, this`outputs, this`killed
      ensures Valid() && RunOwned(b)
      ensures Resolved(p.aggregate, bulkRet, ret, old(table.entries), table.entries, tableSize)
      ensures ret < 0 ==> p.aggregate !in old(table.entries) && |old(table.entries)| == tableSize
      ensures ret < 0 ==> killed == old(killed) + [p] && Grouped(b, o, ks, ss)
      ensures ret >= 0 ==> killed == old(killed) && Grouped(b, o, ks + [p], ss + [ret])
      ensures |outputs| >= |old(outputs)|
      ensures Stamped(lastseen[..], old(lastseen[..]), |outputs| > |old(outputs)|, recent)
    {
      ghost var before := table.entries;
      ghost var out0, run0, last0 := outputs, b.run, b.last;
      assert out0 + (if run0 == [] then [] else [run0]) == o + Runs(ks, ss);
      ret := Process(p, b, recent, bulkRet);
      KilledOnlyWhenFull(p.aggregate, bulkRet, ret, before, table.entries, tableSize);
      if ret >= 0 {
        GroupSnoc(o, out0, run0, last0, ks, ss, p, ret, outputs, b.run);
      }
    }
  }

  /** `rte_hash_add_key` on `key` took the table from `before` to `after`:
      a present key keeps its slot; a new one gets a free slot, or
      `-ENOSPC` when the table is full. */
  ghost predicate Added(key: int, ret: int, before: map<int, int>, after: map<int, int>, size: int)
  {
    && (key in before ==> ret == before[key] && after == before)
    && (key !in before && |before| == size ==> ret == -ENOSPC && after == before)
    && (key !in before && |before| < size ==>
          0 <= ret < size && ret !in before.Values && after == before[key := ret])
  }

  /** The slot `process` settles on for `key` given `bulkRet`, taking the
      table from `before` to `after`: a positive `bulk_ret` as is, the
      lookup of the key when `bulk_ret` is 0, and an insertion when that
      lookup (or `bulk_ret`) is negative. */
  ghost predicate Resolved(key: int, bulkRet: int, ret: int, before: map<int, int>, after: map<int, int>, size: int)
  {
    && (bulkRet > 0 ==> ret == bulkRet && after == before)
    && (bulkRet == 0 && key in before ==> ret == before[key] && after == before)
    && ((bulkRet < 0 || (bulkRet == 0 && key !in before)) ==> Added(key, ret, before, after, size))
  }

  /** The bulk result `process` receives for the `i`-th packet: 0 when
      there was no bulk lookup. */
  function BulkAt(bulkRets: seq<int>, i: int): (r: int)
    requires bulkRets == [] || 0 <= i < |bulkRets|
    ensures bulkRets == [] ==> r == 0
    ensures bulkRets != [] ==> r == bulkRets[i]
  {
    if bulkRets == [] then 0 else bulkRets[i]
  }

  /** Packet by packet, `rets[i]` is the slot resolved for `batch[i]`,
      which took the table from `maps[i]` to `maps[i + 1]`. */
  ghost predicate Resolves(batch: seq<Packet>, bulkRets: seq<int>, rets: seq<int>, maps: seq<map<int, int>>, size: int)
  {
    && (bulkRets == [] || |bulkRets| == |batch|)
    && |rets| == |batch| && |maps| == |batch| + 1
    && forall i :: 0 <= i < |batch| ==>
         Resolved(batch[i].aggregate, BulkAt(bulkRets, i), rets[i], maps[i], maps[i + 1], size)
  }

  /** A packet is killed only when its key is new and the table is full,
      and the table is then left as it was. Without a bulk result the
      converse holds too: a new key meeting a full table is killed. */
  lemma {:induction false} KilledOnlyWhenFull(key: int, bulkRet: int, ret: int, before: map<int, int>, after: map<int, int>, size: int)
    requires Resolved(key, bulkRet, ret, before, after, size)
    requires |before| <= size && forall k :: k in before ==> before[k] >= 0
    ensures ret < 0 ==> key !in before && |before| == size && after == before
    ensures bulkRet <= 0 && key !in before && |before| == size ==> ret < 0
  {
  }
  /** The FCB array's stamps `now` are `before` with record 1 stamped
      `recent` when a run was pushed, and nothing else changed. */
  ghost predicate Stamped(now: seq<int>, before: seq<int>, pushed: bool, recent: int)
  {
    |before| >= 2 && now == before[1 := if pushed then recent else before[1]]
  }

  /** A trace of the whole batch, spelled out packet by packet. */
  lemma {:induction false} TraceComplete(batch: seq<Packet>, bulkRets: seq<int>, kept: seq<bool>, rets: seq<int>,
                                         maps: seq<map<int, int>>, size: int)
    requires Trace(batch, bulkRets, kept, rets, maps, size) && |kept| == |batch|
    ensures Resolves(batch, bulkRets, rets, maps, size)
    ensures forall i :: 0 <= i < |batch| ==> (kept[i] <==> rets[i] >= 0)
    ensures forall i :: 0 <= i < |batch| && !kept[i] ==> batch[i].aggregate !in maps[i] && |maps[i]| == size
    ensures |Select(rets, kept, true)| == |Select(batch, kept, true)|
  {
    assert batch[..|kept|] == batch;
    forall i | 0 <= i < |batch|
      ensures Resolved(batch[i].aggregate, BulkAt(bulkRets, i), rets[i], maps[i], maps[i + 1], size)
      ensures kept[i] <==> rets[i] >= 0
      ensures !kept[i] ==> batch[i].aggregate !in maps[i] && |maps[i]| == size
    {
      assert TraceAt(batch, bulkRets, kept, rets, maps, size, i);
    }
  }

  /** The batches pushed beyond `o`, and the run `run`, are the runs of
      the kept packets `ks` with slots `ss`; `last` is the slot of the
      last kept packet, and negative while there is none. */
  ghost predicate GroupedV(outputs: seq<seq<Packet>>, run: seq<Packet>, last: int,
                           o: seq<seq<Packet>>, ks: seq<Packet>, ss: seq<int>)
  {
    && |ks| == |ss|
    && outputs + (if run == [] then [] else [run]) == o + Runs(ks, ss)
    && (run == [] <==> ks == [])
    && (run == [] ==> last < 0)
    && (run != [] ==> last == ss[|ss| - 1])
  }

  /** Where the packet loop of `push_batch` stands after the packets
      `kept` reports on: they resolved as `Trace` says, starting from the
      table `e0` and ending at `entries`; the batches pushed beyond `o` and
      the current run are the runs of those kept, those killed are
      appended to `k0`, and record 1 of the stamps `s0` was stamped if a
      run was pushed. */
  ghost predicate Progress(batch: seq<Packet>, bulkRets: seq<int>, recent: int, size: int,
                           kept: seq<bool>, rets: seq<int>, maps: seq<map<int, int>>,
                           o: seq<seq<Packet>>, k0: seq<Packet>, s0: seq<int>, e0: map<int, int>,
                           outputs: seq<seq<Packet>>, run: seq<Packet>, last: int, killed: seq<Packet>,
                           stamps: seq<int>, entries: map<int, int>)
  {
    && Trace(batch, bulkRets, kept, rets, maps, size)
    && maps[0] == e0 && maps[|kept|] == entries
    && GroupedV(outputs, run, last, o, Select(batch[..|kept|], kept, true), Select(rets, kept, true))
    && killed == k0 + Select(batch[..|kept|], kept, false)
    && |outputs| >= |o|
    && Stamped(stamps, s0, |outputs| > |o|, recent)
  }

  /** `Progress` extended by one packet that resolved to `ret`, taking the
      builder, outputs, kills, stamps and table to their primed values. */
  lemma {:induction false} ProgressSnoc(batch: seq<Packet>, bulkRets: seq<int>, recent: int, size: int,
                                        kept: seq<bool>, rets: seq<int>, maps: seq<map<int, int>>,
                                        o: seq<seq<Packet>>, k0: seq<Packet>, s0: seq<int>, e0: map<int, int>,
                                        outputs: seq<seq<Packet>>, run: seq<Packet>, last: int, killed: seq<Packet>,
                                        stamps: seq<int>, entries: map<int, int>, ret: int,
                                        outputs': seq<seq<Packet>>, run': seq<Packet>, last': int, killed': seq<Packet>,
                                        stamps': seq<int>, entries': map<int, int>)
    requires Progress(batch, bulkRets, recent, size, kept, rets, maps, o, k0, s0, e0,
                      outputs, run, last, killed, stamps, entries)
    requires |kept| < |batch|
    requires Resolved(batch[|kept|].aggregate, BulkAt(bulkRets, |kept|), ret, entries, entries', size)
    requires ret < 0 ==> batch[|kept|].aggregate !in entries && |entries| == size
    requires ret < 0 ==> killed' == killed + [batch[|kept|]]
                         && GroupedV(outputs', run', last', o, Select(batch[..|kept|], kept, true), Select(rets, kept, true))
    requires ret >= 0 ==> killed' == killed
                          && GroupedV(outputs', run', last', o, Select(batch[..|kept|], kept, true) + [batch[|kept|]],
                                      Select(rets, kept, true) + [ret])
    requires |outputs'| >= |outputs| && Stamped(stamps', stamps, |outputs'| > |outputs|, recent)
    ensures Progress(batch, bulkRets, recent, size, kept + [ret >= 0], rets + [ret], maps + [entries'], o, k0, s0, e0,
                     outputs', run', last', killed', stamps', entries')
  {
    var i, kept', rets' := |kept|, kept + [ret >= 0], rets + [ret];
    TraceSnoc(batch, bulkRets, kept, rets, maps, size, ret, entries');
    StampedTwice(stamps', stamps, s0, |outputs'| > |outputs|, |outputs| > |o|, recent);
    SelectStep(batch, kept, rets, ret);
  }

  /** Selecting after one more packet keeps it on the side its result
      puts it. */
  lemma {:induction false} SelectStep(batch: seq<Packet>, kept: seq<bool>, rets: seq<int>, ret: int)
    requires |rets| == |kept| < |batch|
    ensures var i, kept' := |kept|, kept + [ret >= 0];
            ret >= 0 ==>
            && Select(batch[..i + 1], kept', true) == Select(batch[..i], kept, true) + [batch[i]]
            && Select(rets + [ret], kept', true) == Select(rets, kept, true) + [ret]
            && Select(batch[..i + 1], kept', false) == Select(batch[..i], kept, false)
    ensures var i, kept' := |kept|, kept + [ret >= 0];
            ret < 0 ==>
            && Select(batch[..i + 1], kept', true) == Select(batch[..i], kept, true)
            && Select(rets + [ret], kept', true) == Select(rets, kept, true)
            && Select(batch[..i + 1], kept', false) == Select(batch[..i], kept, false) + [batch[i]]
  {
    var i, kept' := |kept|, kept + [ret >= 0];
    assert batch[..i + 1][..i] == batch[..i] && kept'[..i] == kept && (rets + [ret])[..i] == rets;
  }

  /** Stamping twice is stamping once, if either stamped. */
  lemma {:induction false} StampedTwice(now: seq<int>, mid: seq<int>, before: seq<int>, p2: bool, p1: bool, recent: int)
    requires Stamped(now, mid, p2, recent) && Stamped(mid, before, p1, recent)
    ensures Stamped(now, before, p1 || p2, recent)
  {
  }

  /** The first `|kept|` packets of `batch` resolved one by one: `rets`,
      the table states `maps` between them, and `kept[j]` exactly when the
      `j`-th slot is valid; a packet is dropped only when its key is new
      and the table it met was full. */
  ghost predicate Trace(batch: seq<Packet>, bulkRets: seq<int>, kept: seq<bool>, rets: seq<int>,
                        maps: seq<map<int, int>>, size: int)
  {
    && (bulkRets == [] || |bulkRets| == |batch|)
    && |kept| <= |batch| && |rets| == |kept| && |maps| == |kept| + 1
    && (forall j :: 0 <= j < |kept| ==> TraceAt(batch, bulkRets, kept, rets, maps, size, j))
    && |Select(rets, kept, true)| == |Select(batch[..|kept|], kept, true)|
  }

  /** The `j`-th step of such a trace. */
  ghost predicate TraceAt(batch: seq<Packet>, bulkRets: seq<int>, kept: seq<bool>, rets: seq<int>,
                          maps: seq<map<int, int>>, size: int, j: int)
    requires (bulkRets == [] || |bulkRets| == |batch|)
    requires |kept| <= |batch| && |rets| == |kept| && |maps| == |kept| + 1 && 0 <= j < |kept|
  {
    && Resolved(batch[j].aggregate, BulkAt(bulkRets, j), rets[j], maps[j], maps[j + 1], size)
    && (kept[j] <==> rets[j] >= 0)
    && (!kept[j] ==> batch[j].aggregate !in maps[j] && |maps[j]| == size)
  }

  /** The trace extended by the next packet's resolution. */
  lemma {:induction false} TraceSnoc(batch: seq<Packet>, bulkRets: seq<int>, kept: seq<bool>, rets: seq<int>,
                                     maps: seq<map<int, int>>, size: int, ret: int, after: map<int, int>)
    requires Trace(batch, bulkRets, kept, rets, maps, size) && |kept| < |batch|
    requires Resolved(batch[|kept|].aggregate, BulkAt(bulkRets, |kept|), ret, maps[|kept|], after, size)
    requires ret < 0 ==> batch[|kept|].aggregate !in maps[|kept|] && |maps[|kept|]| == size
    ensures var i, k := |kept|, ret >= 0;
            && Trace(batch, bulkRets, kept + [k], rets + [ret], maps + [after], size)
            && Select(batch[..i + 1], kept + [k], true) == Select(batch[..i], kept, true) + (if k then [batch[i]] else [])
            && Select(batch[..i + 1], kept + [k], false) == Select(batch[..i], kept, false) + (if k then [] else [batch[i]])
            && Select(rets + [ret], kept + [k], true) == Select(rets, kept, true) + (if k then [ret] else [])
  {
    var i, k := |kept|, ret >= 0;
    SelectPrefix(batch, kept, i, k);
    SelectSnoc(rets, kept, ret, k, true);
    var kept', rets', maps' := kept + [k], rets + [ret], maps + [after];
    forall j | 0 <= j < |kept'|
      ensures TraceAt(batch, bulkRets, kept', rets', maps', size, j)
    {
      if j < i {
        assert TraceAt(batch, bulkRets, kept, rets, maps, size, j);
        assert rets'[j] == rets[j] && kept'[j] == kept[j] && maps'[j] == maps[j] && maps'[j + 1] == maps[j + 1];
      }
    }
  }

  /** Selecting from a prefix one packet longer. */
  lemma {:induction false} SelectPrefix(batch: seq<Packet>, kept: seq<bool>, i: nat, k: bool)
    requires i < |batch| && |kept| == i
    ensures Select(batch[..i + 1], kept + [k], true) == Select(batch[..i], kept, true) + (if k then [batch[i]] else [])
    ensures Select(batch[..i + 1], kept + [k], false) == Select(batch[..i], kept, false) + (if k then [] else [batch[i]])
  {
    assert batch[..i + 1] == batch[..i] + [batch[i]];
    SelectSnoc(batch[..i], kept, batch[i], k, true);
    SelectSnoc(batch[..i], kept, batch[i], k, false);
  }

  /** The bulk path's keys: each packet's offset-20 annotation, in batch
      order. */
  function Anno20s(batch: seq<Packet>): (keys: seq<int>)
    ensures |keys| == |batch| && forall i :: 0 <= i < |batch| ==> keys[i] == batch[i].anno20
  {
    seq(|batch|, i requires 0 <= i < |batch| => batch[i].anno20)
  }

  /** The count handler never exceeds the tables' total capacity, and it
      is 0 when no table was created. */
  lemma {:induction false} CountBounds(tables: seq<HashTable?<int>>)
    requires forall i :: 0 <= i < |tables| && tables[i] != null ==> tables[i].Valid()
    ensures TotalCount(tables) <= TotalCapacity(tables)
    ensures (forall i :: 0 <= i < |tables| ==> tables[i] == null) ==> TotalCount(tables) == 0
    decreases |tables|
  {
    if tables != [] {
      CountBounds(tables[..|tables| - 1]);
    }
  }
}
