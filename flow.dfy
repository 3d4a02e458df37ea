/** `FlowControlBlock::empty`: an FCB carries no flow data when every byte
    after the tree-node header (`sizeof(FlowNodeData)`) up to the pool's
    `data_size` is zero. */
module Flow {

  /** Every byte of `data` in `[from, to)` is zero. */
  ghost predicate ZeroFrom(data: seq<int>, from: nat, to: nat)
    requires to <= |data|
  {
    forall i :: from <= i < to ==> data[i] == 0
  }

  /** `empty()`: scans `data[headerSize .. dataSize)` and stops at the first
      non-zero byte. It reads the FCB and writes nothing. */
  method Empty(data: seq<int>, headerSize: nat, dataSize: nat) returns (e: bool)
    requires dataSize <= |data|
    ensures e <==> ZeroFrom(data, headerSize, dataSize)
    ensures dataSize <= headerSize ==> e
  {
    var i := headerSize;
    while i < dataSize
      invariant headerSize <= i
      // The scan either has not moved (the data area may be empty) or
      // stays within the data area.
      invariant i == headerSize || i <= dataSize
      invariant forall j :: headerSize <= j < i && j < dataSize ==> data[j] == 0
    {
      if data[i] != 0 {
        return false;
      }
      i := i + 1;
    }
    return true;
  }

  /** The header bytes are never inspected: two FCBs that agree from
      `headerSize` on are empty alike. */
  lemma {:induction false} HeaderIgnored(d1: seq<int>, d2: seq<int>, headerSize: nat, dataSize: nat)
    requires dataSize <= |d1| && dataSize <= |d2|
    requires forall i :: headerSize <= i < dataSize ==> d1[i] == d2[i]
    ensures ZeroFrom(d1, headerSize, dataSize) <==> ZeroFrom(d2, headerSize, dataSize)
  {
  }

  /** Setting any byte of the data area to a non-zero value makes the FCB
      non-empty; a freshly zeroed FCB is empty. */
  lemma {:induction false} OneByteMakesNonEmpty(data: seq<int>, headerSize: nat, dataSize: nat, k: nat, v: int)
    requires dataSize <= |data| && headerSize <= k < dataSize && v != 0
    ensures !ZeroFrom(data[k := v], headerSize, dataSize)
    ensures ZeroFrom(seq(|data|, _ => 0), headerSize, dataSize)
  {
    assert data[k := v][k] != 0;
  }
}
