/** Definitions shared by every element of the model: machine-integer
    wrap-around, the power-of-two rounding used to size tables, and the
    Option type used for nullable references. */
module Common {

  datatype Option<T> = None | Some(value: T)

  const UINT32_MOD: int := 0x1_0000_0000
  const UINT32_MAX: int := 0xFFFF_FFFF
  const UINT16_MOD: int := 0x1_0000
  const INT32_MIN: int := -0x8000_0000

  /** `uint32_t` as a type, for counters that wrap. */
  newtype uint32 = x: int | 0 <= x < 0x1_0000_0000

  /** Truncation of an integer to `uint32_t`, as C does when storing into an
      unsigned 32-bit variable (arithmetic modulo 2^32). */
  function U32(x: int): (r: int)
    ensures 0 <= r < UINT32_MOD
    ensures 0 <= x < UINT32_MOD ==> r == x
    ensures (r - x) % UINT32_MOD == 0
  {
    x % UINT32_MOD
  }

  /** Truncation to `uint16_t`. */
  function U16(x: int): (r: int)
    ensures 0 <= r < UINT16_MOD
    ensures 0 <= x < UINT16_MOD ==> r == x
    ensures (r - x) % UINT16_MOD == 0
  {
    x % UINT16_MOD
  }

  ghost predicate IsPow2(n: int)
    decreases if n < 0 then 0 else n
  {
    n == 1 || (n > 1 && n % 2 == 0 && IsPow2(n / 2))
  }

  /** The doubling search behind `next_pow2`: starting from a power of two
      `p`, double until `n` is reached. */
  function Pow2AtLeast(n: int, p: int): (r: int)
    requires IsPow2(p)
    requires p == 1 || p < 2 * n
    ensures IsPow2(r) && r >= n && r >= p
    ensures r == 1 || r < 2 * n
    decreases if p < n then n - p else 0
  {
    if p >= n then p
    else
      assert IsPow2(2 * p) by { assert (2 * p) / 2 == p; }
      Pow2AtLeast(n, 2 * p)
  }

  /** `next_pow2(n)`: the least power of two that is at least `n` (1 for
      `n <= 1`). The helper itself lives in a Click header that is not part
      of this model; this is the rounding every caller relies on. */
  function NextPow2(n: int): (r: int)
    ensures IsPow2(r) && r >= 1 && r >= n
    ensures n >= 1 ==> r < 2 * n
    ensures n <= 1 ==> r == 1
  {
    Pow2AtLeast(n, 1)
  }

  lemma {:induction false} Pow2Positive(p: int)
    requires IsPow2(p)
    ensures p >= 1
  {
  }

  /** Bitwise AND of two unsigned values, bit by bit from the lowest. */
  function BitAnd(a: nat, b: nat): (r: nat)
    ensures r <= a && r <= b
  {
    if a == 0 || b == 0 then 0
    else 2 * BitAnd(a / 2, b / 2) + (if a % 2 == 1 && b % 2 == 1 then 1 else 0)
  }

  /** For a power of two `p`, masking with `p - 1` keeps the residue modulo
      `p`: `x & (p - 1) == x % p`, so a masked index is always below `p`. */
  lemma {:induction false} MaskIsMod(x: nat, p: nat)
    requires IsPow2(p)
    ensures BitAnd(x, p - 1) == x % p
  {
    if p > 1 {
      var h := p / 2;
      assert p - 1 == 2 * (h - 1) + 1;
      assert (p - 1) / 2 == h - 1 && (p - 1) % 2 == 1;
      MaskIsMod(x / 2, h);
      if x != 0 {
        assert BitAnd(x, p - 1) == 2 * ((x / 2) % h) + x % 2;
      }
      DivModHalves(x, h);
    }
  }

  lemma {:induction false} DivModHalves(x: nat, h: nat)
    requires h >= 1
    ensures x % (2 * h) == 2 * ((x / 2) % h) + x % 2
  {
    var q := (x / 2) / h;
    var r := (x / 2) % h;
    var d := 2 * h;
    assert x / 2 == q * h + r;
    assert x == 2 * (x / 2) + x % 2;
    assert x == q * d + (2 * r + x % 2) by {
      assert 2 * (q * h) == q * d;
    }
    ModUnique(x, d, q, 2 * r + x % 2);
  }

  /** Euclidean division is unique: a decomposition `q * d + r` with
      `0 <= r < d` gives the remainder. */
  lemma {:induction false} ModUnique(x: int, d: int, q: int, r: int)
    requires d > 0 && x == q * d + r && 0 <= r < d
    ensures x % d == r && x / d == q
  {
    var q2 := x / d;
    var r2 := x % d;
    assert x == q2 * d + r2;
    assert (q - q2) * d == r2 - r by { assert (q - q2) * d == q * d - q2 * d; }
    if q > q2 { MulAtLeast(q - q2, d); }
    if q < q2 { assert (q2 - q) * d == r - r2; MulAtLeast(q2 - q, d); }
  }

  lemma {:induction false} MulAtLeast(k: int, d: int)
    requires k >= 1 && d > 0
    ensures k * d >= d
  {
    if k > 1 {
      MulAtLeast(k - 1, d);
      assert k * d == (k - 1) * d + d;
    }
  }

  /** The sum of a sequence of integers, as the source's accumulation loops
      compute it (front to back). */
  function Sum(s: seq<int>): int
  {
    if s == [] then 0 else Sum(s[..|s| - 1]) + s[|s| - 1]
  }

  lemma {:induction false} SumNonNegative(s: seq<int>)
    requires forall i :: 0 <= i < |s| ==> s[i] >= 0
    ensures Sum(s) >= 0
  {
    if s != [] {
      SumNonNegative(s[..|s| - 1]);
    }
  }

  lemma {:induction false} SumAppend(s: seq<int>, x: int)
    ensures Sum(s + [x]) == Sum(s) + x
  {
    assert (s + [x])[..|s|] == s;
  }

  /** Every element of a sequence of non-negative integers is at most its
      sum. */
  lemma {:induction false} SumBoundsElement(s: seq<int>, k: int)
    requires forall i :: 0 <= i < |s| ==> s[i] >= 0
    requires 0 <= k < |s|
    ensures s[k] <= Sum(s)
  {
    SumNonNegative(s[..|s| - 1]);
    if k < |s| - 1 {
      SumBoundsElement(s[..|s| - 1], k);
    }
  }

  /** A set of integers with fewer than `cap` elements misses some value
      below `cap` (the pigeonhole step that lets an index with room hand out
      a fresh slot). */
  lemma {:induction false} FreeSlotExists(used: set<int>, cap: nat)
    requires |used| < cap
    ensures exists s :: 0 <= s < cap && s !in used
  {
    if forall s :: 0 <= s < cap ==> s in used {
      CoveredRangeCardinality(used, cap);
    }
  }

  /** A set that holds every value below `n` has at least `n` elements. */
  lemma {:induction false} CoveredRangeCardinality(used: set<int>, n: nat)
    requires forall s :: 0 <= s < n ==> s in used
    ensures |used| >= n
  {
    if n > 0 {
      var rest := used - {n - 1};
      CoveredRangeCardinality(rest, n - 1);
      assert used == rest + {n - 1};
    }
  }

  /** `cur` is `base` with one more unit at each occurrence of an index in
      `xs`: the shape of every per-bucket counter the elements keep. */
  ghost predicate Histogram(cur: seq<int>, base: seq<int>, xs: seq<int>)
  {
    |cur| == |base| && forall j :: 0 <= j < |base| ==> cur[j] == base[j] + multiset(xs)[j]
  }

  /** Counting one more index `x` at its own entry. */
  lemma {:induction false} HistogramStep(cur: seq<int>, prev: seq<int>, base: seq<int>, xs: seq<int>, x: int)
    requires Histogram(prev, base, xs) && 0 <= x < |prev|
    requires cur == prev[x := prev[x] + 1]
    ensures Histogram(cur, base, xs + [x])
  {
    assert multiset(xs + [x]) == multiset(xs) + multiset{x};
  }

  /** Adding one to a single entry adds one to the sum. */
  lemma {:induction false} SumIncrement(v: seq<int>, x: int)
    requires 0 <= x < |v|
    ensures Sum(v[x := v[x] + 1]) == Sum(v) + 1
  {
    var n := |v| - 1;
    var w := v[x := v[x] + 1];
    assert w[..n] == if x < n then v[..n][x := v[x] + 1] else v[..n];
    if x < n {
      SumIncrement(v[..n], x);
    }
  }

  /** A histogram of indices within range holds exactly one unit per
      index on top of its base: its sum grows by `|xs|`. */
  lemma {:induction false} HistogramSum(cur: seq<int>, base: seq<int>, xs: seq<int>)
    requires Histogram(cur, base, xs)
    requires forall t :: 0 <= t < |xs| ==> 0 <= xs[t] < |base|
    ensures Sum(cur) == Sum(base) + |xs|
    decreases |xs|
  {
    if xs == [] {
      assert cur == base;
    } else {
      var n := |xs| - 1;
      var x := xs[n];
      var mid := cur[x := cur[x] - 1];
      assert xs == xs[..n] + [x];
      HistogramUnstep(cur, base, xs[..n], x);
      HistogramSum(mid, base, xs[..n]);
      assert cur == mid[x := mid[x] + 1];
      SumIncrement(mid, x);
    }
  }

  /** Taking the last index back out of a histogram. */
  lemma {:induction false} HistogramUnstep(cur: seq<int>, base: seq<int>, xs: seq<int>, x: int)
    requires Histogram(cur, base, xs + [x]) && 0 <= x < |base|
    ensures Histogram(cur[x := cur[x] - 1], base, xs)
  {
    assert multiset(xs + [x]) == multiset(xs) + multiset{x};
  }
}
