/**
 * `examples/acrobot-qtable/src/np.rs`: evenly spaced bin edges and half-open
 * binning, over exact reals in place of `f64`.
 */
module Np {

  /** `slice::is_sorted` on `f64`: every element is at most its successor. */
  predicate IsSorted(s: seq<real>) {
    forall i :: 0 <= i < |s| - 1 ==> s[i] <= s[i + 1]
  }

  /** Sorted by neighbours means sorted by every pair. */
  lemma {:induction false} SortedPairwise(s: seq<real>, i: nat, j: nat)
    requires IsSorted(s) && i <= j < |s|
    ensures s[i] <= s[j]
    decreases j - i
  {
    if i < j {
      SortedPairwise(s, i + 1, j);
    }
  }

  /**
   * `linspace(start, end, n)`: `n` points `start + i * step` with
   * `step = (end - start) / (n - 1)`. For `n == 1` the source divides by
   * zero, so that case is excluded.
   */
  function Linspace(start: real, end: real, n: nat): (r: seq<real>)
    requires n != 1
    ensures |r| == n
  {
    if n == 0 then []
    else
      var step := (end - start) / (n - 1) as real;
      seq(n, i => start + i as real * step)
  }

  /** Point `i` of the grid. */
  lemma LinspaceAt(start: real, end: real, n: nat, i: nat)
    requires n >= 2 && i < n
    ensures Linspace(start, end, n)[i] == start + i as real * ((end - start) / (n - 1) as real)
  {
  }

  /** The grid starts at `start` and ends exactly at `end`. */
  lemma LinspaceEnds(start: real, end: real, n: nat)
    requires n >= 2
    ensures Linspace(start, end, n)[0] == start
    ensures Linspace(start, end, n)[n - 1] == end
  {
    var d := (n - 1) as real;
    var step := (end - start) / d;
    assert d * step == end - start;
    LinspaceAt(start, end, n, n - 1);
  }

  /** For `start <= end` the grid is non-decreasing, and strictly increasing for `start < end`. */
  lemma LinspaceMonotone(start: real, end: real, n: nat, i: nat, j: nat)
    requires n >= 2 && i < j < n
    ensures start <= end ==> Linspace(start, end, n)[i] <= Linspace(start, end, n)[j]
    ensures start < end ==> Linspace(start, end, n)[i] < Linspace(start, end, n)[j]
    ensures end < start ==> Linspace(start, end, n)[i] > Linspace(start, end, n)[j]
  {
    var step := (end - start) / (n - 1) as real;
    LinspaceAt(start, end, n, i);
    LinspaceAt(start, end, n, j);
    var gap := (j - i) as real;
    assert Linspace(start, end, n)[j] - Linspace(start, end, n)[i] == gap * step;
    if start < end {
      assert step > 0.0;
      assert gap * step > 0.0;
    } else if end < start {
      assert step < 0.0;
      assert gap * step < 0.0;
    }
  }

  /** Every point lies between `start` and `end`. */
  lemma LinspaceWithin(start: real, end: real, n: nat, i: nat)
    requires n >= 2 && i < n && start <= end
    ensures start <= Linspace(start, end, n)[i] <= end
  {
    LinspaceEnds(start, end, n);
    if 0 < i { LinspaceMonotone(start, end, n, 0, i); }
    if i < n - 1 { LinspaceMonotone(start, end, n, i, n - 1); }
  }

  /**
   * The number of leading bins that are at most `value`: the first index
   * whose bin exceeds `value`, or `|bins|` when there is none.
   */
  function FirstAbove(value: real, bins: seq<real>): (k: nat)
    ensures k <= |bins|
    ensures forall j :: 0 <= j < k ==> bins[j] <= value
    ensures k < |bins| ==> value < bins[k]
  {
    if |bins| == 0 then 0
    else if value < bins[0] then 0
    else 1 + FirstAbove(value, bins[1..])
  }

  /**
   * The bucket `digitize` returns: `0` for no bins, else the first index
   * whose bin exceeds `value`, or `|bins| - 1` (not `|bins|`) when there is
   * none. Every bin before the bucket is at most `value`, and the bucket's
   * own bin exceeds it unless the bucket is the last index.
   */
  function BinIndex(value: real, bins: seq<real>): (r: nat)
    ensures |bins| == 0 ==> r == 0
    ensures |bins| > 0 ==> r <= |bins| - 1
    ensures forall j :: 0 <= j < r ==> bins[j] <= value
    ensures 0 <= r < |bins| - 1 ==> value < bins[r]
    ensures |bins| > 0 && value < bins[0] ==> r == 0
    ensures |bins| > 0 && (forall j :: 0 <= j < |bins| ==> bins[j] <= value) ==> r == |bins| - 1
  {
    if |bins| == 0 then 0
    else
      var k := FirstAbove(value, bins);
      if k < |bins| then k else |bins| - 1
  }

  /** `digitize`: a scan that panics (the precondition) on unsorted bins and returns `BinIndex`. */
  method Digitize(value: real, bins: seq<real>) returns (r: nat)
    requires IsSorted(bins)
    ensures r == BinIndex(value, bins)
  {
    if |bins| == 0 {
      return 0;
    }
    for i := 0 to |bins|
      invariant forall j :: 0 <= j < i ==> bins[j] <= value
    {
      if value < bins[i] {
        return i;
      }
    }
    return |bins| - 1;
  }

  lemma {:induction false} FirstAboveMonotone(v1: real, v2: real, bins: seq<real>)
    requires v1 <= v2
    ensures FirstAbove(v1, bins) <= FirstAbove(v2, bins)
  {
    if |bins| > 0 && bins[0] <= v1 {
      FirstAboveMonotone(v1, v2, bins[1..]);
    }
  }

  /** Digitizing is monotone in the value, for any bins. */
  lemma BinIndexMonotone(v1: real, v2: real, bins: seq<real>)
    requires v1 <= v2
    ensures BinIndex(v1, bins) <= BinIndex(v2, bins)
  {
    FirstAboveMonotone(v1, v2, bins);
  }

  /** Half-open bins `[e(k-1), e(k))`: a value equal to edge `k` lands strictly above bucket `k`, unless `k` is the last edge. */
  lemma BinIndexAtEdge(bins: seq<real>, k: nat)
    requires IsSorted(bins) && k < |bins| - 1
    ensures BinIndex(bins[k], bins) > k
  {
    forall j | 0 <= j <= k ensures bins[j] <= bins[k] {
      SortedPairwise(bins, j, k);
    }
  }

  /** `f64::clamp(lo, hi)`, which panics for `lo > hi`. */
  function Clamp(x: real, lo: real, hi: real): (r: real)
    requires lo <= hi
    ensures lo <= r <= hi
    ensures lo <= x <= hi ==> r == x
    ensures x < lo ==> r == lo
    ensures hi < x ==> r == hi
  {
    if x < lo then lo else if hi < x then hi else x
  }

  /** The interior edges `linspace(lo, hi, d + 1)[1..d]` that split `[lo, hi]` into `d` bins. */
  function Edges(lo: real, hi: real, d: nat): (r: seq<real>)
    requires d >= 1
    ensures |r| == d - 1
  {
    Linspace(lo, hi, d + 1)[1..d]
  }

  /** The edges pass `digitize`'s sortedness check exactly when `lo <= hi` or there are at most two bins. */
  lemma EdgesSorted(lo: real, hi: real, d: nat)
    requires d >= 1
    ensures IsSorted(Edges(lo, hi, d)) <==> lo <= hi || d <= 2
  {
    var e := Edges(lo, hi, d);
    if lo <= hi {
      forall i | 0 <= i < |e| - 1 ensures e[i] <= e[i + 1] {
        LinspaceMonotone(lo, hi, d + 1, i + 1, i + 2);
      }
    } else if d > 2 {
      LinspaceMonotone(lo, hi, d + 1, 1, 2);
      assert e[0] > e[1];
    }
  }

  /**
   * `digitize(x, &linspace(lo, hi, d + 1)[1..d])`, the bucketing both tasks
   * use. The requires are the source's panics: the slice needs `d >= 1`, the
   * sortedness check needs ordered limits once there are two edges.
   */
  function Bucket(x: real, lo: real, hi: real, d: nat): (r: nat)
    requires d >= 1 && (lo <= hi || d <= 2)
    ensures r == BinIndex(x, Edges(lo, hi, d))
    ensures r <= if d >= 2 then d - 2 else 0
    ensures r < d
  {
    EdgesSorted(lo, hi, d);
    BinIndex(x, Edges(lo, hi, d))
  }
}
