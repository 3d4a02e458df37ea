/** The per-core flow table behind every `VirtualFlowManagerIMP` element:
    a table of flow control blocks (FCBs), an array-backed stack of free FCB
    indices, a pending-release list threaded through the FCBs' release links,
    and the maintainer that recycles idle flows in two phases (drain the
    pending list, then sweep the timer wheel's due entries).

    The FCB array is an arena of records indexed by flow id; the release
    link of a record is the index of the next record on the list, or `NULL`.
    The timer wheel is seen through its interface only: `run_timers` hands
    the maintainer the sequence of due entries, and every `schedule_after`
    request is appended to the table's `armed` log. */
module VirtualFlowManager {
  import opened Common
  import RteHash

  /** The null release link. */
  const NULL: int := -1

  /** `sizeof(uint32_t)`: the flow id stored first in the reserved area. */
  const FLOWID_SIZE: int := 4
  /** `sizeof(FlowControlBlock*)` on the 64-bit targets the code runs on. */
  const LINK_SIZE: int := 8

  // ---------------------------------------------------------------------
  // Configuration (`parse`, `solve_initialize` sizing)
  // ---------------------------------------------------------------------

  /** The derived timing parameters of `parse`. */
  datatype Timing = Timing(recycleIntervalMs: int, epochsPerSec: int, timeoutMs: int)

  datatype ParseResult = Parsed(timing: Timing) | DivisionByZero

  /** `parse`: `intervalMs` is `(int)(RECYCLE_INTERVAL * 1000)`, stored into
      the 16-bit `_recycle_interval_ms`; `epochs_per_sec` is
      `max(1, 1000 / _recycle_interval_ms)`, which divides by zero when the
      stored interval is 0; `_timeout_ms` is the 32-bit `TIMEOUT * 1000`. */
  function Parse(intervalMs: int, timeout: int): (r: ParseResult)
    requires 0 <= timeout < UINT32_MOD
    ensures r.DivisionByZero? <==> U16(intervalMs) == 0
    ensures r.Parsed? ==> r.timing.recycleIntervalMs == U16(intervalMs)
    // epochs_per_sec counts the whole recycle intervals in a second, at least one
    ensures r.Parsed? ==> r.timing.epochsPerSec >= 1
    ensures r.Parsed? && r.timing.recycleIntervalMs <= 1000 ==>
              r.timing.epochsPerSec * r.timing.recycleIntervalMs <= 1000 < (r.timing.epochsPerSec + 1) * r.timing.recycleIntervalMs
    ensures r.Parsed? && r.timing.recycleIntervalMs > 1000 ==> r.timing.epochsPerSec == 1
    ensures r.Parsed? ==> r.timing.timeoutMs == U32(timeout * 1000)
    ensures r.Parsed? && timeout <= 4294967 ==> r.timing.timeoutMs == timeout * 1000
  {
    var rms := U16(intervalMs);
    if rms == 0 then DivisionByZero
    else
      var e := if 1000 / rms > 1 then 1000 / rms else 1;
      assert rms <= 1000 ==> e * rms <= 1000 < (e + 1) * rms by {
        if rms <= 1000 { DivBounds(1000, rms); }
      }
      Parsed(Timing(rms, e, U32(timeout * 1000)))
  }

  lemma {:induction false} DivBounds(n: nat, d: nat)
    requires d >= 1
    ensures (n / d) * d <= n < (n / d + 1) * d
  {
    assert n == (n / d) * d + n % d;
  }

  /** The per-table capacity `solve_initialize` computes:
      `next_pow2(_capacity / passing.weight())`. */
  function TableCapacity(configured: nat, weight: nat): (c: int)
    requires weight >= 1
    ensures IsPow2(c) && c >= 1
    ensures c >= configured / weight
    ensures configured / weight >= 1 ==> c < 2 * (configured / weight)
  {
    NextPow2(configured / weight)
  }

  /** The element's settings the maintainer reads. */
  datatype Config = Config(capacity: int, timeout: int, epochsPerSec: int, recycleIntervalMs: int)

  /** `_timeout * 1000` as the maintainer computes it, in 32-bit unsigned
      arithmetic. */
  function TimeoutMs(cfg: Config): int
  {
    U32(cfg.timeout * 1000)
  }

  /** `_timeout * _epochs_per_sec`: the wheel's size and the delay, in
      epochs, for which a new FCB is scheduled. */
  function FullDelay(cfg: Config): (d: int)
    ensures 0 <= d < UINT32_MOD
    ensures 0 <= cfg.timeout * cfg.epochsPerSec < UINT32_MOD ==> d == cfg.timeout * cfg.epochsPerSec
  {
    U32(cfg.timeout * cfg.epochsPerSec)
  }

  /** The rescheduling delay of an entry idle for `idle` ms:
      `((_timeout * 1000 - old) * _epochs_per_sec) / 1000`, where the
      subtraction and the product are 32-bit unsigned. */
  function RemainingDelay(cfg: Config, idle: int): int
  {
    U32(U32(TimeoutMs(cfg) - idle) * cfg.epochsPerSec) / 1000
  }

  // ---------------------------------------------------------------------
  // FCB layout (`get_fcb_flowid`, `get_fcb_key`, `reserve_size`,
  // `get_next_released_fcb`, `get_fcb_from_flowid`)
  // ---------------------------------------------------------------------

  function FlowIdOffset(): int { 0 }
  function KeyOffset(): int { FLOWID_SIZE }

  /** `reserve_size()`: the flow id and the key when the maintainer runs
      with a timeout, the flow id alone otherwise. */
  function ReserveSize(haveMaintainer: bool, timeout: int, keySize: nat): int
  {
    if haveMaintainer && timeout != 0 then FLOWID_SIZE + keySize else FLOWID_SIZE
  }

  /** `get_next_released_fcb`: the release link sits right after the
      reserved bytes. */
  function NextLinkOffset(haveMaintainer: bool, timeout: int, keySize: nat): int
  {
    ReserveSize(haveMaintainer, timeout, keySize)
  }

  /** `get_fcb_from_flowid(i)`: record `i` starts `i` records in. */
  function RecordOffset(i: nat, recordSize: nat): int
  {
    i * recordSize
  }

  /** With the maintainer and a timeout, the flow id, the key and the
      release link occupy disjoint byte ranges, in that order, so linking a
      record onto a list never clobbers the key the maintainer removes. */
  lemma {:induction false} LinkAfterKey(timeout: int, keySize: nat)
    requires timeout != 0
    ensures FlowIdOffset() + FLOWID_SIZE <= KeyOffset()
    ensures KeyOffset() + keySize <= NextLinkOffset(true, timeout, keySize)
  {
  }

  /** Without a timeout, only the flow id is kept: the link follows it. */
  lemma {:induction false} LinkAfterFlowId(haveMaintainer: bool, keySize: nat)
    ensures NextLinkOffset(haveMaintainer, 0, keySize) == FlowIdOffset() + FLOWID_SIZE
  {
  }

  /** Records of `recordSize` bytes laid out by `RecordOffset` never
      overlap. */
  lemma {:induction false} RecordsDisjoint(i: nat, j: nat, recordSize: nat)
    requires i < j
    ensures RecordOffset(i, recordSize) + recordSize <= RecordOffset(j, recordSize)
  {
    assert j * recordSize == i * recordSize + (j - i) * recordSize;
    if recordSize > 0 {
      MulAtLeast(j - i, recordSize);
    }
  }

  // ---------------------------------------------------------------------
  // The table state (`FlowManagerIMPState`)
  // ---------------------------------------------------------------------

  /** One FCB of the arena: its flow id, the key needed to remove it from
      the index, the time it was last seen (ms) and its release link. */
  datatype Fcb<K> = Fcb(flowId: int, key: K, lastseen: int, next: int)

  /** A `schedule_after(fcb, delay)` request received by the timer wheel. */
  datatype Arm = Arm(fcb: int, delay: int)

  /** `list` is the chain of records reached from `head` by following
      release links until `NULL`. */
  ghost predicate Linked<K>(recs: seq<Fcb<K>>, head: int, list: seq<int>)
    decreases |list|
  {
    if list == [] then head == NULL
    else head == list[0] && 0 <= head < |recs| && Linked(recs, recs[head].next, list[1..])
  }

  /** The stored flow ids of a chain of records, in chain order. */
  function FlowIds<K>(recs: seq<Fcb<K>>, list: seq<int>): (ids: seq<int>)
    requires forall i :: 0 <= i < |list| ==> 0 <= list[i] < |recs|
    ensures |ids| == |list|
    ensures forall i :: 0 <= i < |list| ==> ids[i] == recs[list[i]].flowId
  {
    seq(|list|, i requires 0 <= i < |list| => recs[list[i]].flowId)
  }

  /** The flow ids of a chain's first `k + 1` records. */
  lemma {:induction false} FlowIdsSnoc<K>(recs: seq<Fcb<K>>, list: seq<int>, k: nat)
    requires k < |list| && forall i :: 0 <= i < |list| ==> 0 <= list[i] < |recs|
    ensures FlowIds(recs, list[..k + 1]) == FlowIds(recs, list[..k]) + [recs[list[k]].flowId]
  {
  }

  /** `cur` differs from `recs` only in release links, and only on the
      records of `released`. */
  ghost predicate LinksOnly<K>(cur: seq<Fcb<K>>, recs: seq<Fcb<K>>, released: seq<int>)
  {
    && |cur| == |recs|
    && (forall j :: 0 <= j < |cur| ==> cur[j] == recs[j].(next := cur[j].next))
    && (forall j :: 0 <= j < |cur| && j !in released ==> cur[j] == recs[j])
  }

  /** Relinking one record not yet released, and possibly releasing it,
      keeps `LinksOnly`. */
  lemma {:induction false} LinksOnlyStep<K>(cur: seq<Fcb<K>>, recs: seq<Fcb<K>>, rel: seq<int>,
                                           prev: int, v: Fcb<K>, rel2: seq<int>)
    requires LinksOnly(cur, recs, rel)
    requires 0 <= prev < |cur| && prev !in rel
    requires v == recs[prev].(next := v.next)
    requires rel2 == rel || rel2 == [prev] + rel
    requires rel2 == rel ==> v == cur[prev]
    ensures LinksOnly(cur[prev := v], recs, rel2)
  {
  }

  /** Rewriting a record that is not on a chain leaves the chain intact. */
  lemma {:induction false} LinkedFrame<K>(recs: seq<Fcb<K>>, p: int, v: Fcb<K>, head: int, list: seq<int>)
    requires 0 <= p < |recs| && p !in list
    requires Linked(recs, head, list)
    ensures Linked(recs[p := v], head, list)
    decreases |list|
  {
    if list != [] {
      LinkedFrame(recs, p, v, recs[head].next, list[1..]);
    }
  }

  class FlowManagerIMPState<K(==)> {
    /** The FCB arena (`fcbs`). */
    var fcbs: array<Fcb<K>>
    /** The free flow ids (`flows_stack`), `capacity + 1` entries. */
    var flowsStack: array<int>
    /** Index of the top of the stack; -1 when empty (`flows_stack_i`). */
    var flowsStackI: int
    /** Head of the pending-release list (`_qbsr`). */
    var qbsr: int
    /** The records on the pending-release list, head first. */
    ghost var released: seq<int>
    /** The key index of the table (the `hash` of the concrete state). */
    var hash: RteHash.HashTable<K>
    /** The size the timer wheel was initialised with (0: not initialised). */
    var wheelSize: int
    /** Every `schedule_after` request the wheel has received. */
    var armed: seq<Arm>

    ghost predicate Valid()
      reads this`flowsStackI, this`flowsStack, this`fcbs, this`qbsr, this`released, this`hash, fcbs, hash
    {
      && -1 <= flowsStackI < flowsStack.Length
      && Linked(fcbs[..], qbsr, released)
      && (forall i :: 0 <= i < |released| ==> 0 <= released[i] < fcbs.Length)
      && hash.Valid()
    }

    /** The free flow ids, bottom first. */
    ghost function Contents(): seq<int>
      reads this`flowsStackI, this`flowsStack, flowsStack
      requires -1 <= flowsStackI < flowsStack.Length
    {
      flowsStack[..flowsStackI + 1]
    }

    /** The per-table body of `solve_initialize`: the index (`alloc`), the
        wheel when the maintainer runs with a timeout, a zeroed FCB arena of
        `capacity` records and a stack of `capacity + 1` entries holding
        every flow id, `capacity - 1` on top. The source does not set
        `flows_stack_i` before the pushes; the model starts from an empty
        stack (`-1`). */
    constructor (cfg: Config, haveMaintainer: bool, zeroKey: K)
      requires cfg.capacity >= 0
      ensures Valid()
      ensures fcbs.Length == cfg.capacity && flowsStack.Length == cfg.capacity + 1
      ensures forall i :: 0 <= i < fcbs.Length ==> fcbs[i] == Fcb(0, zeroKey, 0, NULL)
      ensures |Contents()| == cfg.capacity
      ensures forall i :: 0 <= i < |Contents()| ==> Contents()[i] == i
      ensures qbsr == NULL && released == [] && armed == []
      ensures hash.entries == map[] && hash.capacity == cfg.capacity
      ensures wheelSize == if haveMaintainer && cfg.timeout > 0 then FullDelay(cfg) else 0
      ensures fresh(fcbs) && fresh(flowsStack) && fresh(hash)
    {
      hash := new RteHash.HashTable(cfg.capacity);
      wheelSize := if haveMaintainer && cfg.timeout > 0 then FullDelay(cfg) else 0;
      fcbs := new Fcb<K>[cfg.capacity](_ => Fcb(0, zeroKey, 0, NULL));
      flowsStack := new int[cfg.capacity + 1];
      flowsStackI := -1;
      qbsr := NULL;
      released := [];
      armed := [];
      new;
      FillStack(cfg.capacity);
    }

    /** The pushes of `solve_initialize`: every flow id below `n`, in
        increasing order, onto an empty stack. */
    method FillStack(n: int)
      requires flowsStackI == -1 && 0 <= n && n + 1 <= flowsStack.Length
      modifies this`flowsStackI, flowsStack
      ensures -1 <= flowsStackI < flowsStack.Length
      ensures |Contents()| == n
      ensures forall i :: 0 <= i < |Contents()| ==> Contents()[i] == i
    {
      for i := 0 to n
        invariant flowsStackI == i - 1
        invariant forall j :: 0 <= j < i ==> flowsStack[j] == j
      {
        Push(i);
      }
    }

    /** `imp_flows_empty`. */
    method Empty() returns (e: bool)
      requires -1 <= flowsStackI < flowsStack.Length
      ensures e <==> Contents() == []
    {
      e := flowsStackI < 0;
    }

    /** `imp_flows_push`: the stack array must have room for one more. */
    method Push(flow: int)
      requires -1 <= flowsStackI && flowsStackI + 1 < flowsStack.Length
      modifies this`flowsStackI, flowsStack
      ensures flowsStackI == old(flowsStackI) + 1
      ensures Contents() == old(Contents()) + [flow]
    {
      flowsStackI := flowsStackI + 1;
      flowsStack[flowsStackI] := flow;
    }

    /** `imp_flows_pop`: the stack must not be empty. */
    method Pop() returns (flow: int)
      requires 0 <= flowsStackI < flowsStack.Length
      modifies this`flowsStackI
      ensures flowsStackI == old(flowsStackI) - 1
      ensures flow == old(Contents())[|old(Contents())| - 1]
      ensures Contents() == old(Contents())[..|old(Contents())| - 1]
    {
      flow := flowsStack[flowsStackI];
      flowsStackI := flowsStackI - 1;
    }

    /** A push followed by a pop hands back the pushed id and restores the
        stack. */
    method PushThenPop(flow: int) returns (back: int)
      requires -1 <= flowsStackI && flowsStackI + 1 < flowsStack.Length
      modifies this`flowsStackI, flowsStack
      ensures back == flow
      ensures flowsStackI == old(flowsStackI)
      ensures Contents() == old(Contents())
    {
      Push(flow);
      back := Pop();
      assert old(Contents()) + [flow] == Contents() + [flow];
    }

    /** `schedule_fcb_timeout`: the FCB is armed `_timeout * _epochs_per_sec`
        epochs ahead. */
    method ScheduleFcbTimeout(cfg: Config, fcb: int)
      modifies this`armed
      ensures armed == old(armed) + [Arm(fcb, FullDelay(cfg))]
    {
      armed := armed + [Arm(fcb, FullDelay(cfg))];
    }

    /** The drain phase of `maintainer`: every record on the pending-release
        list has its stored flow id pushed, head first, and the list is left
        empty. */
    method Drain()
      requires Valid()
      requires flowsStackI + 1 + |released| <= flowsStack.Length
      modifies this`flowsStackI, flowsStack, this`qbsr, this`released
      ensures Valid()
      ensures qbsr == NULL && released == []
      ensures Contents() == old(Contents()) + FlowIds(fcbs[..], old(released))
    {
      ghost var all := released;
      ghost var k := 0;
      while qbsr != NULL
        invariant 0 <= k <= |all| && released == all[k..]
        invariant Linked(fcbs[..], qbsr, released)
        invariant forall i :: 0 <= i < |released| ==> 0 <= released[i] < fcbs.Length
        invariant -1 <= flowsStackI && flowsStackI + 1 + |released| <= flowsStack.Length
        invariant Contents() == old(Contents()) + FlowIds(fcbs[..], all[..k])
        decreases |released|
      {
        var next := fcbs[qbsr].next;
        Push(fcbs[qbsr].flowId);
        qbsr := next;
        FlowIdsSnoc(fcbs[..], all, k);
        released := released[1..];
        k := k + 1;
      }
      assert all[..k] == all;
    }

    /** `maintainer`: drain the pending list, then sweep the entries the
        wheel hands over. `remove` is the index's `rte_hash_del_key`, and
        a successful removal (a position, never negative) queues the record:
        `Queued`, not the source's test for exactly 0 (`QueuedAsWritten`).
        Returns `checker`,
        or the abort the source takes. The wheel never hands over the same
        entry twice in one sweep. */
    method Maintainer(cfg: Config, recent: int, due: seq<int>) returns (outcome: Outcome)
      requires Valid()
      requires flowsStackI + 1 + |released| <= flowsStack.Length
      requires forall i :: 0 <= i < |due| ==> 0 <= due[i] < fcbs.Length
      requires forall i, j :: 0 <= i < j < |due| ==> due[i] != due[j]
      modifies this, flowsStack, fcbs, hash
      ensures Valid()
      ensures fcbs == old(fcbs) && flowsStack == old(flowsStack) && hash == old(hash)
      ensures wheelSize == old(wheelSize)
      // phase 1: the pending list is freed, and nothing else is
      ensures Contents() == old(Contents()) + FlowIds(old(fcbs[..]), old(released))
      // phase 2: the sweep, as specified by Sweep
      ensures var s := Sweep(cfg, recent, old(fcbs[..]), due, Initial(old(hash.entries), old(armed)));
              && released == s.released
              && hash.entries == s.entries
              && armed == s.armed
              && outcome == (if s.abort.Some? then Aborted(s.abort.value) else Cleaned(s.checker))
      // only release links change, and only on the newly pending records
      ensures LinksOnly(fcbs[..], old(fcbs[..]), released)
    {
      Drain();
      outcome := SweepDue(cfg, recent, due);
    }

    /** The sweep phase of `maintainer`: the callback on every due entry,
        in order, until one aborts. */
    method SweepDue(cfg: Config, recent: int, due: seq<int>) returns (outcome: Outcome)
      requires Valid()
      requires forall i :: 0 <= i < |due| ==> 0 <= due[i] < fcbs.Length
      requires forall i, j :: 0 <= i < j < |due| ==> due[i] != due[j]
      requires released == []
      modifies this`qbsr, this`released, this`armed, fcbs, hash
      ensures Valid()
      ensures var s := Sweep(cfg, recent, old(fcbs[..]), due, Initial(old(hash.entries), old(armed)));
              && released == s.released
              && hash.entries == s.entries
              && armed == s.armed
              && outcome == (if s.abort.Some? then Aborted(s.abort.value) else Cleaned(s.checker))
      ensures LinksOnly(fcbs[..], old(fcbs[..]), released)
    {
      ghost var recs := fcbs[..];
      ghost var trace := [Initial(hash.entries, armed)];
      var checker := 0;
      var i := 0;
      outcome := Cleaned(0);
      while i < |due|
        invariant 0 <= i <= |due|
        invariant Valid()
        invariant IsTrace(cfg, recent, recs, due[..i], trace)
        invariant trace[0] == Initial(old(hash.entries), old(armed))
        invariant trace[i] == SweepState(checker, released, hash.entries, armed, None)
        invariant forall x :: x in released ==> x in due[..i]
        invariant LinksOnly(fcbs[..], recs, released)
        invariant outcome == Cleaned(checker)
      {
        var prev := due[i];
        assert prev !in due[..i] by {
          assert forall j :: 0 <= j < i ==> due[j] != prev;
        }
        ghost var cur, rel := fcbs[..], released;
        var step := Classify(cfg, recent, fcbs[prev], prev, checker);
        StepIsApply(cfg, recent, recs, prev, trace[i]);
        TraceSnoc(cfg, recent, recs, due[..i], trace, prev);
        assert due[..i] + [prev] == due[..i + 1];
        if step.AbortCapacity? || step.AbortSelfLoop? {
          outcome := Aborted(step);
          trace := trace + [trace[i].(abort := Some(step))];
          TraceIsSweep(cfg, recent, recs, due[..i + 1], trace);
          AbortAbsorbs(cfg, recent, recs, due, i + 1, trace[0]);
          return;
        }
        checker := Visit(cfg, recs, prev, step, checker);
        LinksOnlyStep(cur, recs, rel, prev, fcbs[prev], released);
        trace := trace + [SweepState(checker, released, hash.entries, armed, None)];
        outcome := Cleaned(checker);
        i := i + 1;
      }
      assert due[..i] == due;
      TraceIsSweep(cfg, recent, recs, due, trace);
    }

    /** Links the record `prev` at the head of the pending-release list
        (`*get_next_released_fcb(prev) = _qbsr; _qbsr = prev`). */
    method Release(prev: int)
      requires Valid()
      requires 0 <= prev < fcbs.Length && prev !in released
      modifies this`qbsr, this`released, fcbs
      ensures Valid()
      ensures released == [prev] + old(released)
      ensures fcbs[..] == old(fcbs[..])[prev := old(fcbs[prev]).(next := old(qbsr))]
    {
      LinkedFrame(fcbs[..], prev, fcbs[prev].(next := qbsr), qbsr, released);
      fcbs[prev] := fcbs[prev].(next := qbsr);
      assert fcbs[..] == old(fcbs[..])[prev := fcbs[prev]];
      qbsr := prev;
      released := [prev] + released;
    }

    /** The expiry of the record `prev`: `remove` its key from the index,
        and link the record onto the pending-release list when the removal
        succeeded (`Queued`). */
    method Expire(cfg: Config, ghost recs: seq<Fcb<K>>, prev: int, ghost s: SweepState<K>) returns (pos: int)
      requires Valid()
      requires 0 <= prev < fcbs.Length == |recs| && prev !in released
      requires fcbs[prev] == recs[prev]
      requires s.entries == hash.entries && s.released == released
      modifies this`qbsr, this`released, fcbs, hash
      ensures Valid()
      ensures Apply(cfg, recs, prev, Expired, s)
              == s.(checker := s.checker + 1, entries := hash.entries, released := released)
      ensures pos == old(hash.Lookup(fcbs[prev].key))
      ensures pos >= 0 ==> released == [prev] + old(released)
                           && fcbs[..] == old(fcbs[..])[prev := old(fcbs[prev]).(next := old(qbsr))]
      ensures pos < 0 ==> released == old(released) && fcbs[..] == old(fcbs[..])
    {
      pos := hash.DelKey(fcbs[prev].key);
      if pos >= 0 {
        Release(prev);
      }
      ApplyExpired(cfg, recs, prev, s, pos, hash.entries, released);
    }

    /** The wheel's callback on the due entry `prev`: classify it, then
        reschedule it, or remove its key and, when the removal returns 0,
        link it onto the pending-release list. `recs` is the arena as the
        sweep found it; `prev` has not been linked during this sweep. */
    method Visit(cfg: Config, ghost recs: seq<Fcb<K>>, prev: int, step: SweepStep, checker: int)
        returns (checkerOut: int)
      requires Valid()
      requires 0 <= prev < fcbs.Length == |recs| && prev !in released
      requires fcbs[prev] == recs[prev]
      requires step.Expired? || step.RearmFull? || step.Rescheduled?
      modifies this`qbsr, this`released, this`armed, fcbs, hash
      ensures Valid()
      ensures SweepState(checkerOut, released, hash.entries, armed, None)
              == Apply(cfg, recs, prev, step, SweepState(checker, old(released), old(hash.entries), old(armed), None))
      ensures released == old(released) || released == [prev] + old(released)
      ensures fcbs[..] == old(fcbs[..])[prev := old(fcbs[prev]).(next := fcbs[prev].next)]
      ensures released == old(released) ==> fcbs[prev] == old(fcbs[prev])
    {
      checkerOut := checker;
      ghost var s := SweepState(checker, released, hash.entries, armed, None);
      if step.Expired? {
        var pos := Expire(cfg, recs, prev, s);
        checkerOut := checker + 1;
      } else if step.RearmFull? {
        ScheduleFcbTimeout(cfg, prev);
      } else if step.Rescheduled? {
        armed := armed + [Arm(prev, step.delay)];
      }
    }
  }

  // ---------------------------------------------------------------------
  // The sweep, as a function of the due entries
  // ---------------------------------------------------------------------

  /** Whether an expired record is queued for release, given what removing
      its key returned. The source tests `pos == 0`
      (virtualflowmanager.hh:256), but the index's removal returns the
      key's position, any non-negative value, on success; the model queues
      the record on every successful removal. */
  function Queued(pos: int): (q: bool)
    ensures q <==> pos >= 0
  {
    pos >= 0
  }

  /** The test as the source writes it: only a return of exactly 0 queues
      the record. */
  function QueuedAsWritten(pos: int): (q: bool)
    ensures q <==> pos == 0
  {
    pos == 0
  }

  /** What the source's test does with the expiry of the record at `idx`:
      the key is removed either way, and the record is queued only when
      the key sat at position 0. */
  function ExpireAsWritten<K>(recs: seq<Fcb<K>>, idx: int, s: SweepState<K>): SweepState<K>
    requires 0 <= idx < |recs|
  {
    var key := recs[idx].key;
    var pos := if key in s.entries then s.entries[key] else -RteHash.ENOENT;
    s.(checker := s.checker + 1,
       entries := s.entries - {key},
       released := if QueuedAsWritten(pos) then [idx] + s.released else s.released)
  }

  /** As written, an expired flow whose key sat at a position other than 0
      loses its key but is not queued: its record is neither indexed nor
      pending, so its flow id never returns to the free stack. With the
      index's key `k` at position 5, for one. */
  lemma {:induction false} AsWrittenLeaksSlot<K>(recs: seq<Fcb<K>>, idx: int, s: SweepState<K>)
    requires 0 <= idx < |recs| && idx !in s.released
    requires recs[idx].key in s.entries && s.entries[recs[idx].key] > 0
    ensures var t := ExpireAsWritten(recs, idx, s);
            && recs[idx].key !in t.entries
            && idx !in t.released
            && t.released == s.released
  {
  }

  /** With the corrected test, every expiry that removes a key queues its
      record, whatever position the key held, and only those. */
  lemma {:induction false} ExpiredIsQueued<K>(cfg: Config, recs: seq<Fcb<K>>, idx: int, s: SweepState<K>)
    requires 0 <= idx < |recs|
    requires forall k :: k in s.entries ==> s.entries[k] >= 0
    ensures var t := Apply(cfg, recs, idx, Expired, s);
            && recs[idx].key !in t.entries
            && (recs[idx].key in s.entries ==> t.released == [idx] + s.released)
            && (recs[idx].key !in s.entries ==> t.released == s.released)
  {
  }

  /** What the sweep callback does with one due entry. */
  datatype SweepStep =
    | AbortCapacity            // `checker >= _capacity`: "Loop detected!"
    | RearmFull                // last seen now or in the future
    | Expired                  // idle long enough: remove the key
    | Rescheduled(delay: int)  // not yet idle long enough
    | AbortSelfLoop            // its release link points to itself

  datatype Outcome = Cleaned(checker: int) | Aborted(step: SweepStep)

  /** The callback's decision for the entry at index `self`, given the
      number of expiry attempts made so far. */
  function Classify<K>(cfg: Config, recent: int, e: Fcb<K>, self: int, checker: int): SweepStep
  {
    if checker >= cfg.capacity then AbortCapacity
    else if recent <= e.lastseen then RearmFull
    else
      var idle := recent - e.lastseen;
      if U32(idle + cfg.recycleIntervalMs) >= TimeoutMs(cfg) then Expired
      else if e.next != self then Rescheduled(RemainingDelay(cfg, idle))
      else AbortSelfLoop
  }

  /** The sweep's running state: expiry attempts, the pending list (head
      first), the index, the wheel's requests, and the abort if one
      happened. */
  datatype SweepState<K> = SweepState(checker: int, released: seq<int>, entries: map<K, int>,
                                      armed: seq<Arm>, abort: Option<SweepStep>)

  function Initial<K>(entries: map<K, int>, armed: seq<Arm>): SweepState<K>
  {
    SweepState(0, [], entries, armed, None)
  }

  /** One callback invocation on the entry at index `idx`. */
  function Step<K>(cfg: Config, recent: int, recs: seq<Fcb<K>>, idx: int, s: SweepState<K>): SweepState<K>
    requires 0 <= idx < |recs|
  {
    if s.abort.Some? then s
    else Apply(cfg, recs, idx, Classify(cfg, recent, recs[idx], idx, s.checker), s)
  }

  /** The effect of the callback's decision `d` on the entry at `idx`. */
  function Apply<K>(cfg: Config, recs: seq<Fcb<K>>, idx: int, d: SweepStep, s: SweepState<K>): SweepState<K>
    requires 0 <= idx < |recs|
  {
    match d
      case AbortCapacity => s.(abort := Some(AbortCapacity))
      case AbortSelfLoop => s.(abort := Some(AbortSelfLoop))
      case RearmFull => s.(armed := s.armed + [Arm(idx, FullDelay(cfg))])
      case Rescheduled(delay) => s.(armed := s.armed + [Arm(idx, delay)])
      case Expired =>
        var key := recs[idx].key;
        var pos := if key in s.entries then s.entries[key] else -RteHash.ENOENT;
        s.(checker := s.checker + 1,
           entries := s.entries - {key},
           released := if Queued(pos) then [idx] + s.released else s.released)
  }

  /** A sweep that has not aborted applies the callback's decision. */
  lemma {:induction false} StepIsApply<K>(cfg: Config, recent: int, recs: seq<Fcb<K>>, idx: int, s: SweepState<K>)
    requires 0 <= idx < |recs| && s.abort.None?
    ensures Step(cfg, recent, recs, idx, s) == Apply(cfg, recs, idx, Classify(cfg, recent, recs[idx], idx, s.checker), s)
  {
  }

  /** The expiry case of `Apply`, field by field: `pos` is what removing
      the key returned. */
  lemma {:induction false} ApplyExpired<K>(cfg: Config, recs: seq<Fcb<K>>, idx: int, s: SweepState<K>,
                                          pos: int, entries: map<K, int>, released: seq<int>)
    requires 0 <= idx < |recs|
    requires pos == (if recs[idx].key in s.entries then s.entries[recs[idx].key] else -RteHash.ENOENT)
    requires entries == s.entries - {recs[idx].key}
    requires released == if Queued(pos) then [idx] + s.released else s.released
    ensures Apply(cfg, recs, idx, Expired, s) == s.(checker := s.checker + 1, entries := entries, released := released)
  {
  }

  /** The whole sweep over the due entries, in the order the wheel hands
      them over. */
  function Sweep<K>(cfg: Config, recent: int, recs: seq<Fcb<K>>, due: seq<int>, init: SweepState<K>): SweepState<K>
    requires forall i :: 0 <= i < |due| ==> 0 <= due[i] < |recs|
  {
    if due == [] then init
    else Step(cfg, recent, recs, due[|due| - 1], Sweep(cfg, recent, recs, due[..|due| - 1], init))
  }

  /** `trace[k]` is the sweep's state after the first `k` due entries. */
  ghost predicate IsTrace<K>(cfg: Config, recent: int, recs: seq<Fcb<K>>, due: seq<int>, trace: seq<SweepState<K>>)
  {
    && |trace| == |due| + 1
    && (forall k :: 0 <= k < |due| ==> 0 <= due[k] < |recs|)
    && (forall k :: 0 <= k < |due| ==> trace[k + 1] == Step(cfg, recent, recs, due[k], trace[k]))
  }

  lemma {:induction false} TraceSnoc<K>(cfg: Config, recent: int, recs: seq<Fcb<K>>, due: seq<int>,
                                       trace: seq<SweepState<K>>, idx: int)
    requires IsTrace(cfg, recent, recs, due, trace)
    requires 0 <= idx < |recs|
    ensures IsTrace(cfg, recent, recs, due + [idx], trace + [Step(cfg, recent, recs, idx, trace[|due|])])
  {
  }

  /** The last state of a trace is the sweep of its entries. */
  lemma {:induction false} TraceIsSweep<K>(cfg: Config, recent: int, recs: seq<Fcb<K>>, due: seq<int>,
                                          trace: seq<SweepState<K>>)
    requires IsTrace(cfg, recent, recs, due, trace)
    ensures trace[|due|] == Sweep(cfg, recent, recs, due, trace[0])
  {
    if due != [] {
      var n := |due| - 1;
      TraceIsSweep(cfg, recent, recs, due[..n], trace[..n + 1]);
    }
  }

  /** Once the sweep has aborted, later entries change nothing. */
  lemma {:induction false} AbortAbsorbs<K>(cfg: Config, recent: int, recs: seq<Fcb<K>>, due: seq<int>, k: nat, init: SweepState<K>)
    requires forall i :: 0 <= i < |due| ==> 0 <= due[i] < |recs|
    requires k <= |due|
    requires Sweep(cfg, recent, recs, due[..k], init).abort.Some?
    ensures Sweep(cfg, recent, recs, due, init) == Sweep(cfg, recent, recs, due[..k], init)
    decreases |due| - k
  {
    if k < |due| {
      assert due[..|due| - 1][..k] == due[..k];
      AbortAbsorbs(cfg, recent, recs, due[..|due| - 1], k, init);
    } else {
      assert due[..k] == due;
    }
  }

  // ---------------------------------------------------------------------
  // What the sweep guarantees
  // ---------------------------------------------------------------------

  /** A flow has been idle long enough to be recycled: last seen strictly
      before `recent`, and idle for at least the timeout less one recycle
      interval, as the source compares them. The idle time is stored in an
      `int` and, with the interval added, compared as an unsigned 32-bit
      value with `_timeout * 1000`: the sum counts modulo 2^32. */
  ghost predicate IdleExpired<K>(cfg: Config, recent: int, e: Fcb<K>)
  {
    recent > e.lastseen && U32((recent - e.lastseen) + cfg.recycleIntervalMs) >= TimeoutMs(cfg)
  }

  /** While the loop guard has not fired, an entry is expired exactly when
      it has been idle long enough; an entry seen at or after `recent` is
      always rescheduled for the full timeout. */
  lemma {:induction false} ExpiryThreshold<K>(cfg: Config, recent: int, e: Fcb<K>, self: int, checker: int)
    requires checker < cfg.capacity
    ensures Classify(cfg, recent, e, self, checker) == Expired <==> IdleExpired(cfg, recent, e)
    ensures 0 <= cfg.recycleIntervalMs && (recent - e.lastseen) + cfg.recycleIntervalMs < UINT32_MOD ==>
              (IdleExpired(cfg, recent, e) <==> recent > e.lastseen && (recent - e.lastseen) + cfg.recycleIntervalMs >= TimeoutMs(cfg))
    ensures recent <= e.lastseen ==> Classify(cfg, recent, e, self, checker) == RearmFull
    ensures !IdleExpired(cfg, recent, e) && recent > e.lastseen ==>
              Classify(cfg, recent, e, self, checker) == (if e.next != self then Rescheduled(RemainingDelay(cfg, recent - e.lastseen)) else AbortSelfLoop)
  {
  }

  /** Past 2^32 ms of idle time the test wraps: with a one-second timeout
      and a 1 ms recycle interval (1000 epochs per second), a flow idle for
      2^32 + 1 ms counts as idle for 1 ms and is rescheduled after 999
      epochs, not expired. */
  lemma {:induction false} ExpiryWraps<K>(e: Fcb<K>, self: int)
    requires e.next != self && e.lastseen == 0
    ensures var cfg, recent := Config(16, 1, 1000, 1), UINT32_MOD + 1;
            && recent - e.lastseen >= TimeoutMs(cfg)
            && !IdleExpired(cfg, recent, e)
            && Classify(cfg, recent, e, self, 0) == Rescheduled(999)
  {
  }

  /** Once `checker` has reached the capacity, the next entry aborts the
      sweep whatever its state. */
  lemma {:induction false} LoopGuard<K>(cfg: Config, recent: int, e: Fcb<K>, self: int, checker: int)
    requires checker >= cfg.capacity
    ensures Classify(cfg, recent, e, self, checker) == AbortCapacity
  {
  }

  /** Without 32-bit wrap-around, the rescheduling delay is the remaining
      idle budget converted to epochs, rounded down, and never exceeds the
      full delay a fresh flow gets. */
  lemma {:induction false} RemainingDelayExact(cfg: Config, idle: int)
    requires 0 <= cfg.timeout && cfg.timeout * 1000 < UINT32_MOD
    requires 0 < idle <= cfg.timeout * 1000
    requires cfg.epochsPerSec >= 0 && cfg.timeout * 1000 * cfg.epochsPerSec < UINT32_MOD
    ensures RemainingDelay(cfg, idle) == ((cfg.timeout * 1000 - idle) * cfg.epochsPerSec) / 1000
    ensures 0 <= RemainingDelay(cfg, idle) <= FullDelay(cfg)
  {
    var rem := cfg.timeout * 1000 - idle;
    var e := cfg.epochsPerSec;
    assert 0 <= rem * e <= cfg.timeout * 1000 * e by {
      MulMonotone(rem, cfg.timeout * 1000, e);
    }
    assert cfg.timeout * 1000 * e == (cfg.timeout * e) * 1000;
    assert 0 <= cfg.timeout * e < UINT32_MOD;
    DivMonotone(rem * e, (cfg.timeout * e) * 1000, 1000);
    assert ((cfg.timeout * e) * 1000) / 1000 == cfg.timeout * e;
  }

  lemma {:induction false} MulMonotone(a: int, b: int, c: int)
    requires 0 <= a <= b && c >= 0
    ensures 0 <= a * c <= b * c
  {
    assert b * c == a * c + (b - a) * c;
  }

  lemma {:induction false} DivMonotone(a: int, b: int, d: int)
    requires 0 <= a <= b && d > 0
    ensures a / d <= b / d
  {
    assert a == (a / d) * d + a % d;
    assert b == (b / d) * d + b % d;
    if a / d > b / d {
      assert (a / d) * d - (b / d) * d == (a / d - b / d) * d;
      MulAtLeast(a / d - b / d, d);
    }
  }

  /** With a two-hour timeout and a 1 ms recycle interval (1000 epochs per
      second), `(_timeout * 1000 - old) * _epochs_per_sec` wraps around
      32 bits: a flow idle for 1 ms is rescheduled after 2905031 epochs
      instead of 7199999. */
  lemma {:induction false} RemainingDelayWraps()
    ensures RemainingDelay(Config(16, 7200, 1000, 1), 1) == 2905031
    ensures ((7200 * 1000 - 1) * 1000) / 1000 == 7199999
  {
  }

  /** What a sweep from a clean state leaves behind:
      - the index only loses keys, and only keys of due entries;
      - every record it queued for release was due, idle long enough, held
        a position in the index, and its key is gone;
      - it made at most `_capacity` expiry attempts, and queued at most one
        record per attempt. */
  lemma {:induction false} SweepFacts<K>(cfg: Config, recent: int, recs: seq<Fcb<K>>, due: seq<int>, init: SweepState<K>)
    requires forall i :: 0 <= i < |due| ==> 0 <= due[i] < |recs|
    requires init.released == [] && init.checker == 0 && init.abort.None? && cfg.capacity >= 0
    ensures var S := Sweep(cfg, recent, recs, due, init);
            && (forall k :: k in S.entries ==> k in init.entries && S.entries[k] == init.entries[k])
            && (forall k :: k in init.entries && k !in S.entries ==> exists j :: 0 <= j < |due| && recs[due[j]].key == k)
            && (forall x :: x in S.released ==>
                  && x in due
                  && IdleExpired(cfg, recent, recs[x])
                  && recs[x].key in init.entries
                  && recs[x].key !in S.entries)
            && |S.released| <= S.checker <= cfg.capacity
  {
    if due != [] {
      var n := |due| - 1;
      var pre := due[..n];
      SweepFacts(cfg, recent, recs, pre, init);
      var P := Sweep(cfg, recent, recs, pre, init);
      var S := Sweep(cfg, recent, recs, due, init);
      var idx := due[n];
      assert S == Step(cfg, recent, recs, idx, P);
      assert forall x :: x in pre ==> x in due;
      forall k | k in init.entries && k !in S.entries
        ensures exists j :: 0 <= j < |due| && recs[due[j]].key == k
      {
        if k in P.entries {
          assert recs[due[n]].key == k;
        } else {
          var j :| 0 <= j < |pre| && recs[pre[j]].key == k;
          assert recs[due[j]].key == k;
        }
      }
      if P.abort.None? && Classify(cfg, recent, recs[idx], idx, P.checker) == Expired {
        ExpiryThreshold(cfg, recent, recs[idx], idx, P.checker);
      }
    }
  }
}
