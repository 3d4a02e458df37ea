/** The `BatchBuilder` the flow front ends use to group consecutive packets
    of the same flow: the run of packets being built and `last`, the slot
    the run belongs to. Its header is not part of this model; the model
    keeps what the front ends rely on. */
module BatchBuilder {
  import opened Common

  class Builder<P> {
    var run: seq<P>
    var last: int

    /** A builder with an empty run; `last0` is the value its constructor
        gives `last`. */
    constructor (last0: int)
      ensures run == [] && last == last0
    {
      run := [];
      last := last0;
    }

    /** `init()`: starts a new, empty run; `last` is untouched. */
    method Init()
      modifies this`run
      ensures run == []
    {
      run := [];
    }

    /** `append(p)`. */
    method Append(p: P)
      modifies this`run
      ensures run == old(run) + [p]
    {
      run := run + [p];
    }

    /** `finish()`: the run as a batch, or null when it is empty. */
    function Finish(): (batch: Option<seq<P>>)
      reads this`run
      ensures batch.Some? <==> run != []
      ensures batch.Some? ==> batch.value == run
    {
      if run == [] then None else Some(run)
    }
  }

  /** The concatenation of a sequence of batches, in order. */
  function Flatten<P>(batches: seq<seq<P>>): (s: seq<P>)
    ensures batches == [] ==> s == []
  {
    if batches == [] then [] else Flatten(batches[..|batches| - 1]) + batches[|batches| - 1]
  }

  /** The elements of `s` whose flag in `keep` is `b`, in order. */
  function Select<P>(s: seq<P>, keep: seq<bool>, b: bool): (r: seq<P>)
    requires |keep| == |s|
    ensures |r| <= |s|
    decreases |s|
  {
    if s == [] then []
    else
      var k := |s| - 1;
      Select(s[..k], keep[..k], b) + (if keep[k] == b then [s[k]] else [])
  }

  /** Concatenation distributes over appended batches. */
  lemma {:induction false} FlattenSnoc<P>(batches: seq<seq<P>>, x: seq<P>)
    ensures Flatten(batches + [x]) == Flatten(batches) + x
  {
    assert (batches + [x])[..|batches|] == batches;
  }

  /** Selecting from a sequence one element longer. */
  lemma {:induction false} SelectSnoc<P>(s: seq<P>, keep: seq<bool>, x: P, k: bool, b: bool)
    requires |keep| == |s|
    ensures Select(s + [x], keep + [k], b) == Select(s, keep, b) + (if k == b then [x] else [])
  {
    assert (s + [x])[..|s|] == s;
    assert (keep + [k])[..|keep|] == keep;
  }

  /** The two selections split the sequence: their lengths add up to its
      length. */
  lemma {:induction false} SelectPartitions<P>(s: seq<P>, keep: seq<bool>)
    requires |keep| == |s|
    ensures |Select(s, keep, true)| + |Select(s, keep, false)| == |s|
    decreases |s|
  {
    if s != [] {
      var k := |s| - 1;
      SelectPartitions(s[..k], keep[..k]);
    }
  }

  /** The batches a front end pushes for packets `ps` whose slots are
      `slots`: the maximal runs of consecutive packets with equal slots,
      in order. */
  function Runs<P>(ps: seq<P>, slots: seq<int>): (rs: seq<seq<P>>)
    requires |slots| == |ps|
    ensures |rs| <= |ps| && (rs == [] <==> ps == [])
    decreases |ps|
  {
    if ps == [] then []
    else
      var k := |ps| - 1;
      var prev := Runs(ps[..k], slots[..k]);
      if k > 0 && slots[k - 1] == slots[k] then prev[..|prev| - 1] + [prev[|prev| - 1] + [ps[k]]]
      else prev + [[ps[k]]]
  }

  /** One more packet: it joins the last run when its slot is the previous
      packet's, and starts a run of its own otherwise. */
  lemma {:induction false} RunsSnoc<P>(ps: seq<P>, slots: seq<int>, p: P, s: int)
    requires |slots| == |ps|
    ensures var prev := Runs(ps, slots);
            Runs(ps + [p], slots + [s])
            == if ps != [] && slots[|slots| - 1] == s then prev[..|prev| - 1] + [prev[|prev| - 1] + [p]]
               else prev + [[p]]
  {
    assert (ps + [p])[..|ps|] == ps;
    assert (slots + [s])[..|slots|] == slots;
  }

  /** The runs hold every packet once, in order. */
  lemma {:induction false} RunsFlatten<P>(ps: seq<P>, slots: seq<int>)
    requires |slots| == |ps|
    ensures Flatten(Runs(ps, slots)) == ps
    decreases |ps|
  {
    if ps != [] {
      var k := |ps| - 1;
      var prev := Runs(ps[..k], slots[..k]);
      RunsFlatten(ps[..k], slots[..k]);
      if k > 0 && slots[k - 1] == slots[k] {
        var init, last := prev[..|prev| - 1], prev[|prev| - 1];
        assert init + [last] == prev;
        FlattenSnoc(init, last);
        FlattenSnoc(init, last + [ps[k]]);
        calc {
          Flatten(Runs(ps, slots));
          Flatten(init + [last + [ps[k]]]);
          Flatten(init) + (last + [ps[k]]);
          (Flatten(init) + last) + [ps[k]];
          Flatten(prev) + [ps[k]];
        }
      } else {
        assert Runs(ps, slots) == prev + [[ps[k]]];
        FlattenSnoc(prev, [ps[k]]);
      }
      assert ps[..k] + [ps[k]] == ps;
    }
  }

  /** The number of places where the slot changes between neighbours. */
  function Changes(slots: seq<int>): (n: nat)
    ensures n < |slots| || slots == []
    decreases |slots|
  {
    if |slots| <= 1 then 0
    else
      var k := |slots| - 1;
      Changes(slots[..k]) + (if slots[k - 1] != slots[k] then 1 else 0)
  }

  /** A run is cut exactly where the slot changes: there is one run more
      than there are changes, so packets of one slot make a single run. */
  lemma {:induction false} RunsCount<P>(ps: seq<P>, slots: seq<int>)
    requires |slots| == |ps| && ps != []
    ensures |Runs(ps, slots)| == Changes(slots) + 1
    decreases |ps|
  {
    var k := |ps| - 1;
    if k > 0 {
      RunsCount(ps[..k], slots[..k]);
      assert slots[..k][..k - 1] == slots[..k - 1];
    }
  }

  /** Concatenation distributes over appending sequences of batches. */
  lemma {:induction false} FlattenAppend<P>(xs: seq<seq<P>>, ys: seq<seq<P>>)
    ensures Flatten(xs + ys) == Flatten(xs) + Flatten(ys)
    decreases |ys|
  {
    if ys != [] {
      var k := |ys| - 1;
      FlattenAppend(xs, ys[..k]);
      FlattenSnoc(xs + ys[..k], ys[k]);
      FlattenSnoc(ys[..k], ys[k]);
      assert xs + ys[..k] + [ys[k]] == xs + ys;
      assert ys[..k] + [ys[k]] == ys;
    } else {
      assert xs + ys == xs;
    }
  }

  /** A packet appended to the run being built: if the pushed batches and
      that run are `o + r`, they still are once the packet is added to
      both the run and the last of `r`. */
  lemma {:induction false} ExtendLast<P>(out: seq<seq<P>>, run: seq<P>, o: seq<seq<P>>, r: seq<seq<P>>, p: P)
    requires out + [run] == o + r && r != []
    ensures out + [run + [p]] == o + (r[..|r| - 1] + [r[|r| - 1] + [p]])
  {
    var n := |r| - 1;
    assert run == (o + r)[|o| + n];
    assert out == (out + [run])[..|out|];
    assert out == o + r[..n];
  }

  /** The run a builder still holds, as the batch it would become. */
  ghost function Pending<P>(b: Builder<P>): (r: seq<seq<P>>)
    reads b
    ensures r == [] <==> b.run == []
  {
    if b.run == [] then [] else [b.run]
  }

  /** Selecting with one mask from two sequences of the same length keeps
      as many elements of each. */
  lemma {:induction false} SelectSameLength<P, Q>(s: seq<P>, t: seq<Q>, keep: seq<bool>, b: bool)
    requires |s| == |keep| && |t| == |keep|
    ensures |Select(s, keep, b)| == |Select(t, keep, b)|
    decreases |s|
  {
    if s != [] {
      var k := |s| - 1;
      SelectSameLength(s[..k], t[..k], keep[..k], b);
    }
  }

  /** One more kept packet `p` of slot `s` seen by a front end whose pushed
      batches are `out` and whose run is `run`, both together the runs of
      `ps` beyond `o`: the same slot as `last` extends the run, another
      pushes the run, if any, and starts a new one. Afterwards the pushed
      batches and the new run are the runs of `ps + [p]`. */
  lemma {:induction false} GroupSnoc<P>(o: seq<seq<P>>, out: seq<seq<P>>, run: seq<P>, last: int,
                                        ps: seq<P>, slots: seq<int>, p: P, s: int,
                                        out': seq<seq<P>>, run': seq<P>)
    requires |slots| == |ps| && s >= 0
    requires out + (if run == [] then [] else [run]) == o + Runs(ps, slots)
    requires (run == [] <==> ps == []) && (run == [] ==> last < 0)
    requires run != [] ==> last == slots[|slots| - 1]
    requires s == last ==> out' == out && run' == run + [p]
    requires s != last ==> out' == out + (if run == [] then [] else [run]) && run' == [p]
    ensures out' + [run'] == o + Runs(ps + [p], slots + [s])
  {
    var prev := Runs(ps, slots);
    RunsSnoc(ps, slots, p, s);
    if run == [] {
      assert prev == [];
      assert out == out + [] == o + [] == o;
    } else if s == last {
      ExtendLast(out, run, o, prev, p);
    } else {
      assert out' + [run'] == (o + prev) + [[p]];
    }
  }
}
