/** `SimpleCache`: a 2-way set-associative cache of packet hashes. A
    packet's 32-bit hash selects a row by masking; the row remembers up to
    two hashes (its tags). A hit or a miss is counted for every packet, and
    a miss overwrites a randomly chosen way with the hash. Packets pass
    through unmodified. */
module SimpleCache {
  import opened Common

  /** `SETS_NUM`, the ways per row. */
  const SETS_NUM: int := 2

  /** The default `ROWS`. */
  const DEFAULT_ROWS: int := 65536

  /** A packet; the cache reads only its 32-bit annotation at offset 20. */
  datatype Packet = Packet(hashAnno: int, payload: seq<int>)

  /** `struct Row`: the tags (`offset`), the unused `value` words and the
      `replacement_candidate`. */
  datatype Row = Row(offset: seq<int>, value: seq<int>, candidate: int)

  /** A row as `bzero` leaves it. */
  const ZERO_ROW: Row := Row([0, 0], [0, 0], 0)

  /** Rows whose tag vectors hold `SETS_NUM` ways, in a power-of-two
      table. */
  ghost predicate RowsOk(rows: seq<Row>)
  {
    IsPow2(|rows|) && forall i :: 0 <= i < |rows| ==> |rows[i].offset| == SETS_NUM
  }

  /** `hash & _row_mask`: the row of a hash in a table of `n` rows. */
  function RowIndex(hash: nat, n: nat): (r: nat)
    requires IsPow2(n)
    ensures r == hash % n && r < n
  {
    MaskIsMod(hash, n);
    Pow2Positive(n);
    BitAnd(hash, n - 1)
  }

  /** The first way of a row whose tag equals `hash`, if any. */
  function Way(offset: seq<int>, hash: int): (w: Option<nat>)
    requires |offset| == SETS_NUM
    ensures w.Some? <==> hash in offset
    ensures w.Some? ==> w.value < SETS_NUM && offset[w.value] == hash
    ensures w.Some? ==> forall j :: 0 <= j < w.value ==> offset[j] != hash
  {
    if offset[0] == hash then Some(0)
    else if offset[1] == hash then Some(1)
    else None
  }

  /** The row after `smaction` looked `hash` up in it, `rnd` being the
      value `click_random()` returned. A hit sets the candidate to the other
      way and keeps the tags; a miss writes the hash into way
      `rnd % SETS_NUM` and makes the other way the candidate. */
  function Access(row: Row, hash: int, rnd: nat): (r: Row)
    requires |row.offset| == SETS_NUM
    ensures |r.offset| == SETS_NUM && hash in r.offset && r.value == row.value
    ensures hash in row.offset ==> r.offset == row.offset && r.candidate == 1 - Way(row.offset, hash).value
    ensures hash !in row.offset ==> r.offset == row.offset[rnd % SETS_NUM := hash]
    ensures hash !in row.offset ==> r.candidate == 1 - rnd % SETS_NUM
  {
    match Way(row.offset, hash)
    case Some(i) => row.(candidate := 1 - i)
    case None =>
      var k := rnd % SETS_NUM;
      assert row.offset[k := hash][k] == hash;
      row.(offset := row.offset[k := hash], candidate := 1 - k)
  }

  /** The cache's contents and its two `uint32_t` counters. */
  datatype CacheState = CacheState(rows: seq<Row>, successful: int, failed: int)

  /** Whether `hash` is a tag of its row. */
  ghost predicate Hit(s: CacheState, hash: nat)
    requires RowsOk(s.rows)
  {
    hash in s.rows[RowIndex(hash, |s.rows|)].offset
  }

  /** One `smaction` on the whole cache state. */
  ghost function Step(s: CacheState, hash: nat, rnd: nat): (t: CacheState)
    requires RowsOk(s.rows)
    ensures RowsOk(t.rows) && |t.rows| == |s.rows|
    ensures Hit(t, hash)
    ensures forall j :: 0 <= j < |s.rows| && j != RowIndex(hash, |s.rows|) ==> t.rows[j] == s.rows[j]
    ensures Hit(s, hash) ==> t.successful == U32(s.successful + 1) && t.failed == s.failed
    ensures !Hit(s, hash) ==> t.failed == U32(s.failed + 1) && t.successful == s.successful
  {
    var r := RowIndex(hash, |s.rows|);
    var hit := hash in s.rows[r].offset;
    CacheState(s.rows[r := Access(s.rows[r], hash, rnd)],
               if hit then U32(s.successful + 1) else s.successful,
               if hit then s.failed else U32(s.failed + 1))
  }

  /** `smaction` applied to a sequence of hashes in order. */
  ghost function Run(s: CacheState, hashes: seq<nat>, rnds: seq<nat>): (t: CacheState)
    requires RowsOk(s.rows) && |rnds| == |hashes|
    ensures RowsOk(t.rows) && |t.rows| == |s.rows|
    decreases |hashes|
  {
    if hashes == [] then s
    else
      var k := |hashes| - 1;
      Step(Run(s, hashes[..k], rnds[..k]), hashes[k], rnds[k])
  }

  function Hashes(batch: seq<Packet>): (hs: seq<nat>)
    requires forall i :: 0 <= i < |batch| ==> 0 <= batch[i].hashAnno
    ensures |hs| == |batch| && forall i :: 0 <= i < |batch| ==> hs[i] == batch[i].hashAnno
  {
    seq(|batch|, i requires 0 <= i < |batch| => batch[i].hashAnno as nat)
  }

  class SimpleCache {
    var rows: array<Row>
    var rowsNumber: int
    var rowMask: int
    var successful: int
    var failed: int
    /** The batches pushed on output 0. */
    var outputs: seq<seq<Packet>>

    ghost predicate Valid()
      reads this, rows
    {
      rows.Length == rowsNumber && rowMask == rowsNumber - 1 && rowsNumber <= UINT32_MOD
      && RowsOk(rows[..])
    }

    ghost function State(): CacheState
      reads this, rows
    {
      CacheState(rows[..], successful, failed)
    }

    /** `configure`: `ROWS` is rounded up to a power of two and the rows
        are zeroed. The counters are never initialised by the element;
        `successful0` and `failed0` are the values they start with. */
    constructor (rowsArg: int, successful0: int, failed0: int)
      requires 0 <= rowsArg <= UINT32_MOD / 2
      ensures Valid() && fresh(rows)
      ensures rowsNumber == NextPow2(rowsArg) && rowMask == rowsNumber - 1
      ensures forall i :: 0 <= i < rows.Length ==> rows[i] == ZERO_ROW
      ensures successful == successful0 && failed == failed0 && outputs == []
    {
      var n := NextPow2(rowsArg);
      Pow2Positive(n);
      rowsNumber := n;
      rowMask := n - 1;
      rows := new Row[n](_ => ZERO_ROW);
      successful := successful0;
      failed := failed0;
      outputs := [];
    }

    /** `smaction(p)`: looks the packet's hash up in its row, way by way.
        Only that row and one counter change; the packet is untouched. */
    method Smaction(p: Packet, rnd: nat) returns (q: Packet)
      requires Valid() && 0 <= p.hashAnno < UINT32_MOD
      modifies rows, this`successful, this`failed
      ensures Valid() && q == p
      ensures State() == Step(old(State()), p.hashAnno, rnd)
    {
      var hash: nat := p.hashAnno;
      MaskIsMod(hash, rowsNumber);
      var r := BitAnd(hash, rowMask);
      ghost var s := State();
      ghost var row := rows[r];
      var i := 0;
      while i < SETS_NUM
        invariant 0 <= i <= SETS_NUM
        invariant forall j :: 0 <= j < i ==> row.offset[j] != hash
        invariant rows[..] == s.rows && successful == s.successful && failed == s.failed
      {
        if rows[r].offset[i] == hash {
          successful := U32(successful + 1);
          rows[r] := rows[r].(candidate := 1 - i);
          assert rows[..] == s.rows[r := Access(row, hash, rnd)];
          return p;
        }
        i := i + 1;
      }
      failed := U32(failed + 1);
      var k := rnd % SETS_NUM;
      rows[r] := rows[r].(offset := rows[r].offset[k := hash], candidate := 1 - k);
      assert rows[..] == s.rows[r := Access(row, hash, rnd)];
      return p;
    }

    /** `push`: `smaction`, then the packet goes out on output 0. */
    method Push(p: Packet, rnd: nat)
      requires Valid() && 0 <= p.hashAnno < UINT32_MOD
      modifies rows, this`successful, this`failed, this`outputs
      ensures Valid()
      ensures State() == Step(old(State()), p.hashAnno, rnd)
      ensures outputs == old(outputs) + [[p]]
    {
      var q := Smaction(p, rnd);
      outputs := outputs + [[q]];
    }

    /** `push_batch`: `smaction` on every packet in batch order, then the
        whole batch goes out on output 0. `rnds[i]` is the random value
        drawn for the `i`-th packet. */
    method PushBatch(batch: seq<Packet>, rnds: seq<nat>)
      requires Valid() && |rnds| == |batch|
      requires forall i :: 0 <= i < |batch| ==> 0 <= batch[i].hashAnno < UINT32_MOD
      modifies rows, this`successful, this`failed, this`outputs
      ensures Valid()
      ensures State() == Run(old(State()), Hashes(batch), rnds)
      ensures outputs == old(outputs) + [batch]
    {
      ghost var s0 := State();
      ghost var hs := Hashes(batch);
      var i := 0;
      while i < |batch|
        invariant 0 <= i <= |batch|
        invariant Valid() && outputs == old(outputs)
        invariant State() == Run(s0, hs[..i], rnds[..i])
      {
        var q := Smaction(batch[i], rnds[i]);
        assert hs[..i + 1][..i] == hs[..i] && rnds[..i + 1][..i] == rnds[..i];
        i := i + 1;
      }
      assert hs[..i] == hs && rnds[..i] == rnds;
      outputs := outputs + [batch];
    }
  }

  /** Every packet is counted exactly once, as a hit or as a miss: over a
      batch the two `uint32_t` counters together advance by the batch size,
      modulo 2^32. */
  lemma {:induction false} EveryPacketCounted(s: CacheState, hashes: seq<nat>, rnds: seq<nat>)
    requires RowsOk(s.rows) && |rnds| == |hashes|
    ensures var t := Run(s, hashes, rnds);
            (t.successful + t.failed - s.successful - s.failed - |hashes|) % UINT32_MOD == 0
    decreases |hashes|
  {
    if hashes != [] {
      var k := |hashes| - 1;
      EveryPacketCounted(s, hashes[..k], rnds[..k]);
      var t := Run(s, hashes[..k], rnds[..k]);
      var u := Step(t, hashes[k], rnds[k]);
      assert (u.successful + u.failed - t.successful - t.failed - 1) % UINT32_MOD == 0;
      MultiplesAdd(t.successful + t.failed - s.successful - s.failed - k,
                   u.successful + u.failed - t.successful - t.failed - 1);
    }
  }

  /** Multiples of 2^32 add up to a multiple of 2^32. */
  lemma {:induction false} MultiplesAdd(x: int, y: int)
    requires x % UINT32_MOD == 0 && y % UINT32_MOD == 0
    ensures (x + y) % UINT32_MOD == 0
  {
    ModUnique(x + y, UINT32_MOD, x / UINT32_MOD + y / UINT32_MOD, 0);
  }

  /** After a packet passes, its hash is cached: the next packet with the
      same hash hits, whatever the random draws, and leaves the tags of the
      whole cache as they were. */
  lemma {:induction false} RepeatHits(s: CacheState, hash: nat, rnd1: nat, rnd2: nat)
    requires RowsOk(s.rows)
    ensures var t := Step(s, hash, rnd1);
            var u := Step(t, hash, rnd2);
            && Hit(t, hash)
            && u.successful == U32(t.successful + 1) && u.failed == t.failed
            && forall j :: 0 <= j < |u.rows| ==> u.rows[j].offset == t.rows[j].offset
  {
    var t := Step(s, hash, rnd1);
    var u := Step(t, hash, rnd2);
    var r := RowIndex(hash, |t.rows|);
    assert u.rows[r].offset == t.rows[r].offset;
  }

  /** A zeroed table holds tag 0 in every way, so a packet with hash 0 hits
      before anything was inserted, and any other hash misses. */
  lemma {:induction false} ZeroedTableHitsZero(n: nat, hash: nat)
    requires IsPow2(n)
    ensures RowsOk(seq(n, _ => ZERO_ROW))
    ensures Hit(CacheState(seq(n, _ => ZERO_ROW), 0, 0), hash) <==> hash == 0
  {
    var rows := seq(n, _ => ZERO_ROW);
    Pow2Positive(n);
    assert rows[RowIndex(hash, n)] == ZERO_ROW;
  }

  /** A miss replaces exactly one tag: the way it does not pick keeps its
      tag. */
  lemma {:induction false} MissReplacesOneWay(row: Row, hash: int, rnd: nat)
    requires |row.offset| == SETS_NUM && hash !in row.offset
    ensures Access(row, hash, rnd).offset[rnd % SETS_NUM] == hash
    ensures Access(row, hash, rnd).offset[1 - rnd % SETS_NUM] == row.offset[1 - rnd % SETS_NUM]
  {
  }
}
