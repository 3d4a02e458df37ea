/** `FlowIPManagerFuzzy`: a flow classifier without a hash table. A
    packet's slot is its aggregate annotation modulo the table size, so
    distinct flows may share a slot; consecutive packets of the same slot
    are meant to be pushed out together, each run charged to its slot's
    FCB with `acquire`. */
module FlowIPManagerFuzzy {
  import opened Common
  import opened BatchBuilder

  /** A packet as the element sees it: its unsigned `AGGREGATE_ANNO`. */
  datatype Packet = Packet(aggregate: nat, payload: seq<int>)

  /** `AGGREGATE_ANNO(p) % _table_size`. */
  function Slot(p: Packet, tableSize: int): (s: nat)
    requires tableSize > 0
    ensures s < tableSize
    ensures p.aggregate < tableSize ==> s == p.aggregate
  {
    p.aggregate % tableSize
  }

  /** The slots of a batch, in order. */
  function Slots(batch: seq<Packet>, tableSize: int): (s: seq<nat>)
    requires tableSize > 0
    ensures |s| == |batch| && forall i :: 0 <= i < |batch| ==> s[i] == Slot(batch[i], tableSize)
  {
    seq(|batch|, i requires 0 <= i < |batch| => Slot(batch[i], tableSize))
  }

  /** Each packet of a batch as a batch of its own. */
  function Singletons(batch: seq<Packet>): (r: seq<seq<Packet>>)
    ensures |r| == |batch| && forall i :: 0 <= i < |batch| ==> r[i] == [batch[i]]
  {
    seq(|batch|, i requires 0 <= i < |batch| => [batch[i]])
  }

  class FlowIPManagerFuzzy {
    /** `_table_size` (`CAPACITY`, default 65536) and
        `_flow_state_size_full`. */
    const tableSize: int
    const flowStateSizeFull: int
    /** The current CPU's FCB array, seen through the use count `acquire`
        adds to in each record. */
    const useCount: array<int>
    /** `fcb_stack`: the record owning the run being built (`None` for
        null). */
    var fcbStack: Option<nat>
    /** The batches pushed on output 0. */
    var outputs: seq<seq<Packet>>

    ghost predicate Valid()
      reads this
    {
      tableSize > 0 && useCount.Length == tableSize
    }

    /** Whatever run a builder holds belongs to `fcb_stack`, and a builder
        without a run is not bound to any slot. */
    ghost predicate RunOwned(b: Builder<Packet>)
      reads this, b
    {
      && (b.run != [] ==> fcbStack.Some? && fcbStack.value < useCount.Length)
      && (b.run == [] ==> b.last < 0 || b.last >= useCount.Length)
    }

    /** `configure` and `solve_initialize` for the current CPU: the FCB
        array of `_table_size` records is zeroed. */
    constructor (capacity: Option<int>, reserve: Option<int>, fcbSize: int)
      requires capacity.Some? ==> capacity.value > 0
      ensures Valid() && fresh(useCount)
      ensures tableSize == (if capacity.Some? then capacity.value else 65536)
      ensures flowStateSizeFull == fcbSize + (if reserve.Some? then reserve.value else 0)
      ensures forall i :: 0 <= i < useCount.Length ==> useCount[i] == 0
      ensures fcbStack == None && outputs == []
    {
      var n := if capacity.Some? then capacity.value else 65536;
      tableSize := n;
      flowStateSizeFull := fcbSize + (if reserve.Some? then reserve.value else 0);
      useCount := new int[n](_ => 0);
      fcbStack := None;
      outputs := [];
    }

    /** `capacity()`: the configured table size. */
    function Capacity(): (c: int)
      reads this
      requires Valid()
      ensures c == tableSize && c > 0
    {
      tableSize
    }

    /** `count()`: adds 0 thirty-two times. */
    method Count() returns (total: int)
      ensures total == 0
    {
      total := 0;
      var i := 0;
      while i < 32
        invariant 0 <= i <= 32 && total == 0
      {
        total := total + 0;
        i := i + 1;
      }
    }

    /** `b.finish()` and what follows it: a non-empty run is charged to its
        record with `acquire(count)` and pushed on output 0. */
    method Flush(b: Builder<Packet>)
      requires Valid() && RunOwned(b)
      modifies useCount, this`outputs
      ensures Flatten(outputs) == old(Flatten(outputs) + b.run)
      ensures old(b.run) != [] ==>
                outputs == old(outputs) + [b.run]
                && useCount[..] == old(useCount[..][fcbStack.value := useCount[fcbStack.value] + |b.run|])
      ensures old(b.run) == [] ==> outputs == old(outputs) && useCount[..] == old(useCount[..])
    {
      var batch := b.Finish();
      if batch.Some? {
        var f := fcbStack.value;
        useCount[f] := useCount[f] + |batch.value|;
        FlattenSnoc(outputs, batch.value);
        outputs := outputs + [batch.value];
      }
    }

    /** `process`: a packet of the slot `b.last` extends the run; any other
        slot flushes the run and starts a new one owned by the slot's
        record. `b.last` itself is never assigned. */
    method Process(p: Packet, b: Builder<Packet>)
      requires Valid() && RunOwned(b)
      modifies useCount, b, this`fcbStack, this`outputs
      ensures Valid() && RunOwned(b) && b.last == old(b.last)
      ensures Flatten(outputs) + b.run == old(Flatten(outputs) + b.run) + [p]
      ensures Slot(p, tableSize) == b.last ==>
                b.run == old(b.run) + [p] && fcbStack == old(fcbStack)
                && outputs == old(outputs) && useCount[..] == old(useCount[..])
      ensures Slot(p, tableSize) != b.last ==> b.run == [p] && fcbStack == Some(Slot(p, tableSize))
      ensures Slot(p, tableSize) != b.last && old(b.run) != [] ==>
                outputs == old(outputs) + [old(b.run)]
                && useCount[..] == old(useCount[..][fcbStack.value := useCount[fcbStack.value] + |b.run|])
      ensures Slot(p, tableSize) != b.last && old(b.run) == [] ==>
                outputs == old(outputs) && useCount[..] == old(useCount[..])
    {
      var ret := p.aggregate % tableSize;
      if b.last == ret {
        b.Append(p);
        assert Flatten(outputs) + b.run == (Flatten(outputs) + old(b.run)) + [p];
      } else {
        Flush(b);
        fcbStack := Some(ret);
        b.Init();
        b.Append(p);
      }
    }

    /** `process` when `b.last` is no slot, as in every call
        `push_batch` makes: the previous run (one packet at most) is
        flushed and the packet starts a run of its own. */
    method ProcessApart(p: Packet, b: Builder<Packet>)
      requires Valid() && RunOwned(b) && (b.last < 0 || b.last >= tableSize)
      modifies useCount, b, this`fcbStack, this`outputs
      ensures Valid() && RunOwned(b) && b.last == old(b.last)
      ensures b.run == [p] && fcbStack == Some(Slot(p, tableSize))
      ensures old(b.run) != [] ==>
                outputs == old(outputs) + [old(b.run)]
                && useCount[..] == old(useCount[..][fcbStack.value := useCount[fcbStack.value] + |b.run|])
      ensures old(b.run) == [] ==> outputs == old(outputs) && useCount[..] == old(useCount[..])
    {
      Process(p, b);
    }

    /** The loop of `push_batch` over a non-empty batch: every packet but
        the last has been pushed as a batch of its own and charged to its
        slot; the last one is the builder's run. */
    method ProcessEach(batch: seq<Packet>, b: Builder<Packet>)
      requires Valid() && RunOwned(b) && b.run == [] && (b.last < 0 || b.last >= tableSize)
      requires batch != []
      modifies useCount, b, this`fcbStack, this`outputs
      ensures Valid() && RunOwned(b) && b.last == old(b.last)
      ensures b.run == [batch[|batch| - 1]] && fcbStack == Some(Slot(batch[|batch| - 1], tableSize))
      ensures outputs == old(outputs) + Singletons(batch[..|batch| - 1])
      ensures Histogram(useCount[..], old(useCount[..]), Slots(batch, tableSize)[..|batch| - 1])
    {
      ghost var slots := Slots(batch, tableSize);
      ProcessApart(batch[0], b);
      var i := 1;
      while i < |batch|
        invariant 1 <= i <= |batch|
        invariant Valid() && RunOwned(b) && b.last == old(b.last)
        invariant b.run == [batch[i - 1]] && fcbStack == Some(slots[i - 1])
        invariant outputs == old(outputs) + Singletons(batch[..i - 1])
        invariant Histogram(useCount[..], old(useCount[..]), slots[..i - 1])
      {
        ghost var prev := useCount[..];
        ProcessApart(batch[i], b);
        ChargeStep(slots, i - 1, prev, useCount[..], old(useCount[..]));
        SingletonsSnoc(batch, i - 1);
        i := i + 1;
      }
    }

    /** `push_batch`. `last0` is the `last` a fresh `BatchBuilder` starts
        with; since `process` never changes it, a `last0` that is no slot
        (-1, say) makes every packet a batch of its own, charged to its own
        slot. */
    method PushBatch(batch: seq<Packet>, last0: int)
      requires Valid() && (last0 < 0 || last0 >= tableSize)
      modifies useCount, this`fcbStack, this`outputs
      ensures Valid()
      ensures outputs == old(outputs) + Singletons(batch)
      ensures forall j :: 0 <= j < tableSize ==>
                useCount[j] == old(useCount[j]) + multiset(Slots(batch, tableSize))[j]
    {
      var b := new Builder<Packet>(last0);
      if batch == [] {
        assert Singletons(batch) == [];
        return;
      }
      ghost var slots := Slots(batch, tableSize);
      ProcessEach(batch, b);
      ghost var prev := useCount[..];
      var n := |batch|;
      Flush(b);
      ChargeStep(slots, n - 1, prev, useCount[..], old(useCount[..]));
      SingletonsSnoc(batch, n - 1);
      assert batch[..n] == batch && slots[..n] == slots;
    }
  }

  lemma {:induction false} SingletonsSnoc(batch: seq<Packet>, k: nat)
    requires k < |batch|
    ensures Singletons(batch[..k + 1]) == Singletons(batch[..k]) + [[batch[k]]]
  {
  }

  /** One more slot charged: if `cur` is `prev` with one more use on
      `slots[k]`, and `prev` counts the first `k` slots on top of `base`,
      then `cur` counts the first `k + 1`. */
  lemma {:induction false} ChargeStep(slots: seq<nat>, k: nat, prev: seq<int>, cur: seq<int>, base: seq<int>)
    requires k < |slots| && slots[k] < |prev|
    requires cur == prev[slots[k] := prev[slots[k]] + 1]
    requires Histogram(prev, base, slots[..k])
    ensures Histogram(cur, base, slots[..k + 1])
  {
    HistogramStep(cur, prev, base, slots[..k], slots[k]);
    assert slots[..k + 1] == slots[..k] + [slots[k]];
  }

  /** The classifier is fuzzy in exactly this way: two packets share a
      record if and only if their aggregates differ by a multiple of the
      table size. */
  lemma {:induction false} SlotsCollide(p: Packet, q: Packet, n: int)
    requires n > 0
    ensures Slot(p, n) == Slot(q, n) <==> (p.aggregate - q.aggregate) % n == 0
  {
    var a, b := p.aggregate, q.aggregate;
    var qa, ra, qb, rb := a / n, a % n, b / n, b % n;
    if ra >= rb {
      ModUnique(a - b, n, qa - qb, ra - rb);
    } else {
      ModUnique(a - b, n, qa - qb - 1, n + ra - rb);
    }
  }
}
