/** `FlowRateLimiter`: a token bucket per flow. Each batch of a flow is
    forwarded whole when the bucket holds enough tokens; otherwise it is cut
    to the bucket's capacity and the rest is killed. */
module FlowRateLimiter {
  import opened Common

  /** The default `BURST_DURATION`, in milliseconds. */
  const DEFAULT_DUR_MSEC: int := 20

  /** The part of a `TokenBucket` the element relies on: the rate it was
      assigned, its capacity and the tokens it holds. How `refill()` turns
      elapsed time into tokens is not part of this model. */
  datatype Bucket = Bucket(rate: int, capacity: int, tokens: int)

  /** A bucket whose token count lies in [0, capacity]. */
  predicate WellFormed(b: Bucket)
  {
    0 <= b.tokens <= b.capacity
  }

  /** `contains(t)`: the bucket holds at least `t` tokens. */
  predicate Contains(b: Bucket, t: int)
  {
    t <= b.tokens
  }

  /** `remove(t)`: takes `t` tokens, stopping at an empty bucket. */
  function Remove(b: Bucket, t: int): (r: Bucket)
    requires 0 <= t
    ensures r.rate == b.rate && r.capacity == b.capacity
    ensures Contains(b, t) ==> r.tokens + t == b.tokens
    ensures !Contains(b, t) ==> r.tokens == 0
    ensures WellFormed(b) ==> WellFormed(r)
  {
    if t <= b.tokens then b.(tokens := b.tokens - t) else b.(tokens := 0)
  }

  datatype ConfigResult = Configured(template: Bucket) | BothBurstArgs

  /** The burst size derived from `RATE` and a burst duration: the 64-bit
      product divided by 1000, saturated to `UINT_MAX` when the quotient
      needs more than 32 bits. */
  function BurstTokens(rate: int, durMsec: int): (tokens: int)
    requires 0 <= rate < UINT32_MOD && 0 <= durMsec < UINT32_MOD
    ensures 0 <= tokens <= UINT32_MAX
    ensures rate * durMsec / 1000 <= UINT32_MAX ==> tokens == rate * durMsec / 1000
    ensures rate * durMsec / 1000 > UINT32_MAX ==> tokens == UINT32_MAX
  {
    var q := rate * durMsec / 1000;
    if q >= UINT32_MOD then UINT32_MAX else q
  }

  /** `configure_helper`, given `RATE` and the optional `BURST_DURATION`
      (in milliseconds) and `BURST_SIZE`. Both burst arguments together are
      an error; the bucket is assigned the rate and a capacity of `tokens`,
      or 1 when `tokens` is 0. */
  function ConfigureHelper(rate: int, burstDuration: Option<int>, burstSize: Option<int>): (r: ConfigResult)
    requires 0 <= rate < UINT32_MOD
    requires burstDuration.Some? ==> 0 <= burstDuration.value < UINT32_MOD
    requires burstSize.Some? ==> 0 <= burstSize.value < UINT32_MOD
    ensures r.BothBurstArgs? <==> burstDuration.Some? && burstSize.Some?
    ensures r.Configured? ==> r.template.rate == rate && 1 <= r.template.capacity <= UINT32_MAX
    ensures r.Configured? && burstSize.Some? ==> r.template.capacity == Max1(burstSize.value)
    ensures r.Configured? && burstSize == Some(0) ==> r.template.capacity == 1
    ensures r.Configured? && burstSize.None? ==>
              r.template.capacity == Max1(BurstTokens(rate, if burstDuration.Some? then burstDuration.value else DEFAULT_DUR_MSEC))
  {
    if burstDuration.Some? && burstSize.Some? then
      BothBurstArgs
    else
      var tokens := if burstSize.Some? then burstSize.value
                    else BurstTokens(rate, if burstDuration.Some? then burstDuration.value else DEFAULT_DUR_MSEC);
      Configured(Bucket(rate, Max1(tokens), 0))
  }

  /** `tokens ? tokens : 1`. */
  function Max1(tokens: int): (c: int)
    ensures tokens != 0 ==> c == tokens
    ensures tokens == 0 ==> c == 1
  {
    if tokens != 0 then tokens else 1
  }

  /** The number of packets of a `count`-packet batch that `push_flow`
      forwards from a bucket holding `b.tokens` after its refill. */
  function Admitted(b: Bucket, count: nat): (n: nat)
    requires 0 <= b.capacity
    ensures n <= count
    ensures Contains(b, count) ==> n == count
    ensures !Contains(b, count) ==> n == if b.capacity < count then b.capacity else count
  {
    if Contains(b, count) then count
    else if b.capacity < count then b.capacity else count
  }

  /** The per-flow state `FRLState`. */
  class FRLState {
    var tb: Bucket

    constructor (tb: Bucket)
      ensures this.tb == tb
    {
      this.tb := tb;
    }
  }

  class FlowRateLimiter<P> {
    /** `_tb`, the configured template bucket. */
    const template: Bucket
    /** The batches pushed on output 0, and the parts that were killed. */
    var outputs: seq<seq<P>>
    var killed: seq<seq<P>>

    constructor (template: Bucket)
      ensures this.template == template && outputs == [] && killed == []
    {
      this.template := template;
      outputs := [];
      killed := [];
    }

    /** `new_flow`: the flow starts with a copy of the template bucket. */
    method NewFlow(state: FRLState, p: P) returns (accepted: bool)
      modifies state
      ensures accepted && state.tb == template
    {
      state.tb := template;
      accepted := true;
    }

    /** `push_flow`. `refilled` is the token count `refill()` leaves in the
        bucket. With enough tokens the batch is forwarded whole and its
        size taken from the bucket; otherwise its first
        `min(capacity, count)` packets are forwarded, the rest killed, and
        that many tokens removed. */
    method PushFlow(fcb: FRLState, flow: seq<P>, refilled: int)
      requires 0 <= fcb.tb.capacity
      modifies this`outputs, this`killed, fcb
      ensures var b := old(fcb.tb).(tokens := refilled);
              var n := Admitted(b, |flow|);
              && outputs == old(outputs) + [flow[..n]]
              && (if n < |flow| then killed == old(killed) + [flow[n..]] else killed == old(killed))
              && fcb.tb == Remove(b, n)
    {
      fcb.tb := fcb.tb.(tokens := refilled);
      if Contains(fcb.tb, |flow|) {
        fcb.tb := Remove(fcb.tb, |flow|);
        outputs := outputs + [flow];
        assert flow[..|flow|] == flow;
      } else {
        var n := if fcb.tb.capacity < |flow| then fcb.tb.capacity else |flow|;
        if n < |flow| {
          killed := killed + [flow[n..]];
        }
        outputs := outputs + [flow[..n]];
        fcb.tb := Remove(fcb.tb, n);
      }
    }
  }

  /** What a flow's batches receive: with the bucket well formed after the
      refill, no batch ever forwards more packets than the capacity, a batch
      no larger than the capacity is always forwarded whole, and the bucket
      stays well formed. */
  lemma {:induction false} AdmissionBounds(b: Bucket, count: nat)
    requires WellFormed(b)
    ensures Admitted(b, count) <= b.capacity
    ensures count <= b.capacity ==> Admitted(b, count) == count
    ensures WellFormed(Remove(b, Admitted(b, count)))
    ensures Contains(b, count) ==> Remove(b, Admitted(b, count)).tokens == b.tokens - count
  {
  }

  /** A batch that outruns the tokens but not the capacity is still
      forwarded whole and empties the bucket: the element lets through up to
      a full capacity per batch, not just the tokens it holds. */
  lemma {:induction false} ShortBucketForwardsWhole(b: Bucket, count: nat)
    requires WellFormed(b) && b.tokens < count <= b.capacity
    ensures Admitted(b, count) == count
    ensures Remove(b, Admitted(b, count)).tokens == 0
  {
  }

  /** With the default duration the capacity is `RATE / 50` packets (at
      least 1); `RATE` of 1000 packets per second gives a burst of 20. */
  lemma {:induction false} DefaultBurst(rate: int)
    requires 0 <= rate < UINT32_MOD
    ensures ConfigureHelper(rate, None, None).Configured?
    ensures ConfigureHelper(rate, None, None).template.capacity == Max1(rate * 20 / 1000)
    ensures ConfigureHelper(1000, None, None).template.capacity == 20
  {
    assert rate * 20 / 1000 <= UINT32_MAX;
  }
}
