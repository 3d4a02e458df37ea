/** `FlowMinPacket`: counts the packets of each flow and lets a flow's
    batches through only once the flow has reached `MIN` packets; batches
    seen before that are held in the flow's buffer. */
module FlowMinPacket {
  import opened Common

  /** The per-flow state `FMPState`: the packet count and the buffered
      batch (`p`, `None` for null). A batch is the sequence of its
      packets. */
  class FMPState<P> {
    var count: int
    var buffer: Option<seq<P>>

    /** The flow table zero-initialises the state; `new_flow` then returns
        true without touching it. */
    constructor ()
      ensures count == 0 && buffer == None
    {
      count := 0;
      buffer := None;
    }
  }

  class FlowMinPacket<P> {
    /** `_min`; the MIN argument is mandatory. */
    const min: int
    /** Every batch pushed on output 0. */
    var outputs: seq<seq<P>>

    constructor (min: int)
      ensures this.min == min && outputs == []
    {
      this.min := min;
      outputs := [];
    }

    /** `new_flow`: accepts every flow. */
    function NewFlow(fcb: FMPState<P>, p: P): (accepted: bool)
      ensures accepted
    {
      true
    }

    /** `push_flow`. Once the count has reached `_min`, the batch is
        appended to the buffer (if any), the buffer is dropped and the
        batch alone is pushed: the buffered packets are never output.
        Below `_min`, the batch is buffered and nothing is output. */
    method PushFlow(fcb: FMPState<P>, flow: seq<P>)
      modifies this`outputs, fcb
      ensures fcb.count == old(fcb.count) + |flow|
      ensures fcb.count >= min ==> fcb.buffer == None && outputs == old(outputs) + [flow]
      ensures fcb.count < min ==> outputs == old(outputs)
      ensures fcb.count < min ==> fcb.buffer == Some(if old(fcb.buffer).Some? then old(fcb.buffer).value + flow else flow)
    {
      fcb.count := fcb.count + |flow|;
      if fcb.count >= min {
        if fcb.buffer.Some? {
          // append_batch: the buffered batch takes the packets, then is dropped
          fcb.buffer := Some(fcb.buffer.value + flow);
          fcb.buffer := None;
        }
        outputs := outputs + [flow];
      } else {
        if fcb.buffer.Some? {
          fcb.buffer := Some(fcb.buffer.value + flow);
        } else {
          fcb.buffer := Some(flow);
        }
      }
    }
  }

  /** Whether the `k`-th batch of a flow (counting from 0) is forwarded,
      given the batches' sizes: the running count has reached `min`. */
  ghost predicate Forwarded(min: int, sizes: seq<int>, k: nat)
    requires k < |sizes|
  {
    Sum(sizes[..k + 1]) >= min
  }

  /** The count never decreases, so once a flow's batch has been forwarded
      every later batch of that flow is forwarded immediately. */
  lemma {:induction false} ForwardedStaysForwarded(min: int, sizes: seq<int>, k: nat, j: nat)
    requires forall i :: 0 <= i < |sizes| ==> sizes[i] >= 0
    requires k <= j < |sizes|
    requires Forwarded(min, sizes, k)
    ensures Forwarded(min, sizes, j)
    decreases j - k
  {
    if k < j {
      assert sizes[..k + 2] == sizes[..k + 1] + [sizes[k + 1]];
      SumAppend(sizes[..k + 1], sizes[k + 1]);
      ForwardedStaysForwarded(min, sizes, k + 1, j);
    }
  }

  /** Two batches of a fresh flow: when the first stays below `MIN` and the
      second reaches it, only the second batch is output, and the buffer is
      gone. */
  method BufferedThenForwarded<P>(m: FlowMinPacket<P>, first: seq<P>, second: seq<P>) returns (fcb: FMPState<P>)
    requires 0 <= |first| < m.min <= |first| + |second|
    modifies m
    ensures m.outputs == old(m.outputs) + [second]
    ensures fcb.buffer == None && fcb.count == |first| + |second|
  {
    fcb := new FMPState();
    m.PushFlow(fcb, first);
    assert fcb.buffer == Some(first);
    m.PushFlow(fcb, second);
  }
}
