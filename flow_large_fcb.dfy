/** `FlowLargeFCB`: a research element that gives every flow a large state
    and touches it per packet, to measure the cost of big flow control
    blocks. */
module FlowLargeFcb {
  import opened Common

  /** The length of `inplace_array`, and the number of `iarray` entries
      `push_flow` touches. */
  const INPLACE_LEN: int := 10

  /** C's `%` on `int`: truncates toward zero, so the remainder takes the
      sign of `x`. */
  function CRem(x: int, m: int): (r: int)
    requires m > 0
    ensures -m < r < m
    ensures x >= 0 ==> r == x % m
    ensures x < 0 ==> r <= 0 && r == -((-x) % m)
  {
    if x >= 0 then x % m else -((-x) % m)
  }

  /** `LargeFCBState`: the in-place array and the heap array `iarray`. */
  class LargeFCBState {
    const inplace: array<int>
    var iarray: array?<int>

    /** The constructor zeroes `inplace_array` and leaves `iarray` as it
        finds it (`iarray0`). */
    constructor (iarray0: array?<int>)
      ensures fresh(inplace) && inplace.Length == INPLACE_LEN
      ensures forall i :: 0 <= i < INPLACE_LEN ==> inplace[i] == 0
      ensures iarray == iarray0
    {
      inplace := new int[INPLACE_LEN](_ => 0);
      iarray := iarray0;
    }
  }

  /** The number of entries the loop `for (j = 0; j < size; j++)` visits:
      none when `size` is negative. */
  function Visited(size: int): (n: nat)
    ensures size >= 0 ==> n == size
    ensures size < 0 ==> n == 0
  {
    if size < 0 then 0 else size
  }

  /** The effect of one packet in `push_flow_batch` on a state's in-place
      array: `a` is the sum of its first `size` entries, and when `a > 10`
      the first entry grows by `a % 10`. A `size` of 0 or less sums
      nothing and changes nothing. */
  function Update(v: seq<int>, size: int): (r: seq<int>)
    requires |v| == INPLACE_LEN && size <= INPLACE_LEN
    ensures |r| == INPLACE_LEN && r[1..] == v[1..]
    ensures Sum(v[..Visited(size)]) > 10 ==> r[0] == v[0] + Sum(v[..Visited(size)]) % 10
    ensures Sum(v[..Visited(size)]) <= 10 ==> r == v
    ensures size <= 0 ==> r == v
  {
    var a := Sum(v[..Visited(size)]);
    if a > 10 then v[0 := v[0] + a % 10] else v
  }

  /** `n` packets of the same flow, one after the other. */
  function UpdateN(v: seq<int>, size: int, n: nat): (r: seq<int>)
    requires |v| == INPLACE_LEN && size <= INPLACE_LEN
    ensures |r| == INPLACE_LEN
  {
    if n == 0 then v else Update(UpdateN(v, size, n - 1), size)
  }

  /** `push_flow`'s step on one `iarray` entry. */
  function Tick(x: int): (r: int)
    ensures 0 <= x < 500 ==> r == (x + 1) % 500
  {
    CRem(x + 1, 500)
  }

  /** `n` ticks. */
  function TickN(x: int, n: nat): int
  {
    if n == 0 then x else Tick(TickN(x, n - 1))
  }

  /** The in-place arrays of a sequence of states, as values. */
  ghost function Contents(fd: seq<LargeFCBState>): (c: seq<seq<int>>)
    reads set k | 0 <= k < |fd| :: fd[k].inplace
    ensures |c| == |fd| && forall k :: 0 <= k < |fd| ==> c[k] == fd[k].inplace[..]
  {
    seq(|fd|, k requires 0 <= k < |fd| reads set j | 0 <= j < |fd| :: fd[j].inplace => fd[k].inplace[..])
  }

  class FlowLargeFcb<P> {
    /** `SIZE`, default 1, and `PREFETCH`, default 0 (the prefetch itself
        is commented out in the element). */
    const size: int
    const prefetch: int
    /** The batches pushed on output 0. */
    var outputs: seq<seq<P>>

    /** `configure`. */
    constructor (sizeArg: Option<int>, prefetchArg: Option<int>)
      ensures size == (if sizeArg.Some? then sizeArg.value else 1)
      ensures prefetch == (if prefetchArg.Some? then prefetchArg.value else 0)
      ensures outputs == []
    {
      size := if sizeArg.Some? then sizeArg.value else 1;
      prefetch := if prefetchArg.Some? then prefetchArg.value else 0;
      outputs := [];
    }

    /** `new_flow`: accepts the flow; the allocation of `iarray` is
        commented out, so the state is left as the table made it. */
    function NewFlow(state: LargeFCBState, p: P): (accepted: bool)
      ensures accepted
    {
      true
    }

    /** The inner loop of `push_flow_batch`: the sum of the first `n`
        entries of an in-place array. */
    method SumPrefix(v: array<int>, n: int) returns (a: int)
      requires n <= v.Length
      ensures a == Sum(v[..Visited(n)])
    {
      a := 0;
      var j := 0;
      while j < n
        invariant 0 <= j <= Visited(n)
        invariant a == Sum(v[..j])
      {
        assert v[..j + 1][..j] == v[..j];
        a := a + v[j];
        j := j + 1;
      }
    }

    /** `push_flow_batch`: the `k`-th packet uses the `k`-th `flowdata` entry.
        The same flow may appear several times in a batch; each appearance
        applies `Update` once more, to what the previous one left. */
    method PushFlowBatch(flowdata: seq<LargeFCBState>, batch: seq<P>)
      requires |flowdata| == |batch| && size <= INPLACE_LEN
      requires forall k :: 0 <= k < |flowdata| ==> flowdata[k].inplace.Length == INPLACE_LEN
      requires forall j, k :: 0 <= j < |flowdata| && 0 <= k < |flowdata| && flowdata[j] != flowdata[k] ==>
                 flowdata[j].inplace != flowdata[k].inplace
      modifies set k | 0 <= k < |flowdata| :: flowdata[k].inplace
      ensures forall k :: 0 <= k < |flowdata| ==>
                flowdata[k].inplace[..] == UpdateN(old(flowdata[k].inplace[..]), size, multiset(flowdata)[flowdata[k]])
    {
      ghost var before := Contents(flowdata);
      var i := 0;
      while i < |batch|
        invariant 0 <= i <= |batch|
        invariant forall k :: 0 <= k < |flowdata| ==>
                    flowdata[k].inplace[..] == UpdateN(before[k], size, multiset(flowdata[..i])[flowdata[k]])
      {
        PushOne(flowdata, i, before);
        i := i + 1;
      }
      assert flowdata[..i] == flowdata;
      forall k | 0 <= k < |flowdata|
        ensures flowdata[k].inplace[..] == UpdateN(old(flowdata[k].inplace[..]), size, multiset(flowdata)[flowdata[k]])
      {
        assert before[k] == old(flowdata[k].inplace[..]);
      }
    }

    /** The `i`-th packet of `push_flow_batch`: every state's array now
        reflects one more appearance of `flowdata[i]`. */
    method PushOne(flowdata: seq<LargeFCBState>, i: int, ghost before: seq<seq<int>>)
      requires 0 <= i < |flowdata| == |before| && size <= INPLACE_LEN
      requires forall k :: 0 <= k < |flowdata| ==> flowdata[k].inplace.Length == INPLACE_LEN && |before[k]| == INPLACE_LEN
      requires forall j, k :: 0 <= j < |flowdata| && 0 <= k < |flowdata| && flowdata[j] != flowdata[k] ==>
                 flowdata[j].inplace != flowdata[k].inplace
      requires forall k :: 0 <= k < |flowdata| ==>
                 flowdata[k].inplace[..] == UpdateN(before[k], size, multiset(flowdata[..i])[flowdata[k]])
      modifies flowdata[i].inplace
      ensures forall k :: 0 <= k < |flowdata| ==>
                flowdata[k].inplace[..] == UpdateN(before[k], size, multiset(flowdata[..i + 1])[flowdata[k]])
    {
      var st := flowdata[i];
      UpdateOne(st.inplace);
      assert flowdata[..i + 1] == flowdata[..i] + [st];
      forall k | 0 <= k < |flowdata|
        ensures flowdata[k].inplace[..] ==
                UpdateN(before[k], size, multiset(flowdata[..i + 1])[flowdata[k]])
      {
        MultisetSnoc(flowdata[..i], st, flowdata[k]);
        if flowdata[k] != st {
          assert flowdata[k].inplace[..] == old(flowdata[k].inplace[..]);
        }
      }
    }

    /** One packet of `push_flow_batch` on its state's in-place array. */
    method UpdateOne(v: array<int>)
      requires v.Length == INPLACE_LEN && size <= INPLACE_LEN
      modifies v
      ensures v[..] == Update(old(v[..]), size)
    {
      var a := SumPrefix(v, size);
      if a > 10 {
        v[0] := v[0] + a % 10;
      }
    }

    /** `push_flow`: each of `iarray[0..10)` is incremented and reduced
        modulo 500, then the batch is forwarded. `iarray` must point to at
        least 10 entries; `new_flow` never allocates it. */
    method PushFlow(state: LargeFCBState, batch: seq<P>)
      requires state.iarray != null && state.iarray.Length >= INPLACE_LEN
      modifies state.iarray, this`outputs
      ensures forall i :: 0 <= i < INPLACE_LEN ==> state.iarray[i] == Tick(old(state.iarray[i]))
      ensures forall i :: INPLACE_LEN <= i < state.iarray.Length ==> state.iarray[i] == old(state.iarray[i])
      ensures outputs == old(outputs) + [batch]
    {
      var iarray := state.iarray;
      var i := 0;
      while i < INPLACE_LEN
        invariant 0 <= i <= INPLACE_LEN
        invariant forall j :: 0 <= j < i ==> iarray[j] == Tick(old(iarray[j]))
        invariant forall j :: i <= j < iarray.Length ==> iarray[j] == old(iarray[j])
        invariant outputs == old(outputs)
      {
        iarray[i] := iarray[i] + 1;
        iarray[i] := CRem(iarray[i], 500);
        i := i + 1;
      }
      outputs := outputs + [batch];
    }
  }

  /** Appending `x` adds one occurrence of `x` and none of anything
      else. */
  lemma {:induction false} MultisetSnoc<T>(s: seq<T>, x: T, o: T)
    ensures multiset(s + [x])[o] == multiset(s)[o] + (if o == x then 1 else 0)
  {
    assert multiset(s + [x]) == multiset(s) + multiset{x};
  }

  /** `push_flow_batch` never moves entries 1..9 of a flow's in-place
      array, and with non-negative entries the first one never decreases
      and stays non-negative. */
  lemma {:induction false} UpdateNMonotone(v: seq<int>, size: int, n: nat)
    requires |v| == INPLACE_LEN && size <= INPLACE_LEN
    requires forall i :: 0 <= i < INPLACE_LEN ==> v[i] >= 0
    ensures UpdateN(v, size, n)[1..] == v[1..]
    ensures UpdateN(v, size, n)[0] >= v[0]
  {
    if n > 0 {
      UpdateNMonotone(v, size, n - 1);
      var w := UpdateN(v, size, n - 1);
      assert forall i :: 0 <= i < INPLACE_LEN ==> w[i] >= 0 by {
        assert forall i :: 1 <= i < INPLACE_LEN ==> w[i] == w[1..][i - 1] == v[1..][i - 1] == v[i];
      }
      SumNonNegative(w[..Visited(size)]);
    }
  }

  /** A flow whose first `size` entries sum to at most 10 is a fixed point:
      any number of packets leaves its state unchanged. */
  lemma {:induction false} SmallSumIsFixed(v: seq<int>, size: int, n: nat)
    requires |v| == INPLACE_LEN && size <= INPLACE_LEN
    requires Sum(v[..Visited(size)]) <= 10
    ensures UpdateN(v, size, n) == v
  {
    if n > 0 {
      SmallSumIsFixed(v, size, n - 1);
    }
  }

  /** From a zeroed entry, `n` calls of `push_flow` leave `n % 500`: the
      entries count packets batches modulo 500. */
  lemma {:induction false} TicksCountModulo(n: nat)
    ensures TickN(0, n) == n % 500
  {
    if n > 0 {
      TicksCountModulo(n - 1);
      var q, r := (n - 1) / 500, (n - 1) % 500;
      if r < 499 {
        ModUnique(n, 500, q, r + 1);
      } else {
        ModUnique(n, 500, q + 1, 0);
      }
    }
  }
}
