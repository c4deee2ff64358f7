/** The few tensor primitives the models need, on one row, with the facts used about them. */
module Tensor {
  function Flip<T>(xs: seq<T>): (ys: seq<T>)
    ensures |ys| == |xs|
    ensures forall i :: 0 <= i < |xs| ==> ys[i] == xs[|xs| - 1 - i]
  {
    seq(|xs|, i requires 0 <= i < |xs| => xs[|xs| - 1 - i])
  }

  function CumSum(xs: seq<real>): (ys: seq<real>)
    ensures |ys| == |xs|
  {
    if xs == [] then []
    else
      var front := CumSum(xs[..|xs| - 1]);
      front + [(if front == [] then 0.0 else front[|front| - 1]) + xs[|xs| - 1]]
  }

  lemma {:induction false} CumSumEntry(xs: seq<real>, i: nat)
    requires i < |xs|
    ensures CumSum(xs)[i] == (if i == 0 then 0.0 else CumSum(xs)[i - 1]) + xs[i]
  {
    if i < |xs| - 1 {
      CumSumEntry(xs[..|xs| - 1], i);
    }
  }

  /** Sum of the first `n` entries. */
  function PrefixSum(xs: seq<real>, n: nat): real
    requires n <= |xs|
  {
    if n == 0 then 0.0 else PrefixSum(xs, n - 1) + xs[n - 1]
  }

  function Sum(xs: seq<real>): real
  {
    PrefixSum(xs, |xs|)
  }

  /** `cumsum` at `i` is the sum of the first `i + 1` entries. */
  lemma {:induction false} CumSumIsPrefixSum(xs: seq<real>, i: nat)
    requires i < |xs|
    ensures CumSum(xs)[i] == PrefixSum(xs, i + 1)
  {
    CumSumEntry(xs, i);
    if i > 0 {
      CumSumIsPrefixSum(xs, i - 1);
    }
  }

  lemma {:induction false} PrefixSumLocal(xs: seq<real>, ys: seq<real>, n: nat)
    requires n <= |xs| && n <= |ys| && forall i :: 0 <= i < n ==> xs[i] == ys[i]
    ensures PrefixSum(xs, n) == PrefixSum(ys, n)
  {
    if n > 0 {
      PrefixSumLocal(xs, ys, n - 1);
    }
  }

  // ---- permutations ------------------------------------------------------------------------

  ghost predicate IsPermutation(idx: seq<nat>, n: nat)
  {
    && |idx| == n
    && (forall j :: 0 <= j < n ==> idx[j] < n)
    && (forall i, j :: 0 <= i < j < n ==> idx[i] != idx[j])
  }

  /** An injective list of `n` positions below `n` hits every position. */
  lemma PermutationHits(idx: seq<nat>, n: nat, i: nat) returns (j: nat)
    requires IsPermutation(idx, n) && i < n
    ensures j < n && idx[j] == i
  {
    var hit := set j: nat | j < n :: idx[j];
    ImageSize(idx, n);
    SubsetOfSameSize(hit, Below(n));
    assert i in hit;
    j :| j < n && idx[j] == i;
  }

  lemma {:induction false} SubsetOfSameSize(a: set<nat>, b: set<nat>)
    requires a <= b && |a| == |b|
    ensures a == b
  {
    if b != {} {
      var x :| x in b;
      if x in a {
        SubsetOfSameSize(a - {x}, b - {x});
      } else {
        SubsetSize(a, b - {x});
      }
    }
  }

  lemma {:induction false} SubsetSize(a: set<nat>, b: set<nat>)
    requires a <= b
    ensures |a| <= |b|
  {
    if a != {} {
      var x :| x in a;
      SubsetSize(a - {x}, b - {x});
    }
  }

  ghost function Below(n: nat): (s: set<nat>)
    ensures |s| == n && forall x: nat :: x in s <==> x < n
  {
    if n == 0 then {} else Below(n - 1) + {n - 1}
  }

  lemma {:induction false} ImageSize(idx: seq<nat>, n: nat)
    requires n <= |idx|
    requires forall i, j :: 0 <= i < j < n ==> idx[i] != idx[j]
    ensures |set j: nat | j < n :: idx[j]| == n
  {
    if n > 0 {
      ImageSize(idx, n - 1);
      assert (set j: nat | j < n :: idx[j]) == (set j: nat | j < n - 1 :: idx[j]) + {idx[n - 1]};
    }
  }

  function Gather<T>(xs: seq<T>, idx: seq<nat>): (ys: seq<T>)
    requires forall j :: 0 <= j < |idx| ==> idx[j] < |xs|
    ensures |ys| == |idx|
  {
    seq(|idx|, j requires 0 <= j < |idx| => xs[idx[j]])
  }

  /** `base` with `src[j]` written at `idx[j]`, in order of `j`. */
  function Scatter<T>(base: seq<T>, idx: seq<nat>, src: seq<T>): (ys: seq<T>)
    requires |idx| == |src|
    requires forall j :: 0 <= j < |idx| ==> idx[j] < |base|
    ensures |ys| == |base|
  {
    if idx == [] then base
    else
      var n := |idx| - 1;
      Scatter(base, idx[..n], src[..n])[idx[n] := src[n]]
  }

  lemma {:induction false} ScatterEntry<T>(base: seq<T>, idx: seq<nat>, src: seq<T>, j: nat)
    requires |idx| == |src| && j < |idx|
    requires forall j :: 0 <= j < |idx| ==> idx[j] < |base|
    requires forall i, j :: 0 <= i < j < |idx| ==> idx[i] != idx[j]
    ensures Scatter(base, idx, src)[idx[j]] == src[j]
  {
    if j < |idx| - 1 {
      ScatterEntry(base, idx[..|idx| - 1], src[..|idx| - 1], j);
    }
  }

  /** Scattering through a permutation undoes gathering through it. */
  lemma ScatterUndoesGather<T>(base: seq<T>, idx: seq<nat>, xs: seq<T>)
    requires IsPermutation(idx, |xs|) && |base| == |xs|
    ensures Scatter(base, idx, Gather(xs, idx)) == xs
  {
    forall i | 0 <= i < |xs|
      ensures Scatter(base, idx, Gather(xs, idx))[i] == xs[i]
    {
      var j := PermutationHits(idx, |xs|, i);
      ScatterEntry(base, idx, Gather(xs, idx), j);
    }
  }

  function Without<T>(xs: seq<T>, q: nat): (ys: seq<T>)
    requires q < |xs|
    ensures |ys| == |xs| - 1
    ensures forall j :: 0 <= j < |ys| ==> ys[j] == if j < q then xs[j] else xs[j + 1]
  {
    xs[..q] + xs[q + 1..]
  }

  /** Dropping the largest position from a permutation leaves a permutation of the rest. */
  lemma WithoutLargest<T>(xs: seq<T>, idx: seq<nat>, q: nat)
    requires |xs| > 0 && IsPermutation(idx, |xs|) && q < |idx| && idx[q] == |xs| - 1
    ensures IsPermutation(Without(idx, q), |xs| - 1)
    ensures Gather(xs[..|xs| - 1], Without(idx, q)) == Without(Gather(xs, idx), q)
  {
    var n := |xs|;
    var rest := Without(idx, q);
    forall j | 0 <= j < n - 1
      ensures rest[j] < n - 1
    {
      assert idx[j] != idx[q] || j == q;
      assert idx[j + 1] != idx[q] || j + 1 == q;
    }
  }

  /** Reordering does not change a sum. */
  lemma {:induction false} SumOfPermutation(xs: seq<real>, idx: seq<nat>)
    requires IsPermutation(idx, |xs|)
    ensures Sum(Gather(xs, idx)) == Sum(xs)
    decreases |xs|
  {
    var n := |xs|;
    if n > 0 {
      var q := PermutationHits(idx, n, n - 1);
      WithoutLargest(xs, idx, q);
      SumOfPermutation(xs[..n - 1], Without(idx, q));
      SumSplit(xs, Gather(xs, idx), q);
      hide *;
    }
  }

  /** If the largest position's value stands at `q`, two sums agree as soon as they agree without it. */
  lemma SumSplit(xs: seq<real>, ys: seq<real>, q: nat)
    requires |xs| > 0 && |ys| == |xs| && q < |ys| && ys[q] == xs[|xs| - 1]
    ensures Sum(ys) == Sum(Without(ys, q)) + xs[|xs| - 1]
    ensures Sum(xs) == Sum(xs[..|xs| - 1]) + xs[|xs| - 1]
  {
    PrefixSumLocal(xs[..|xs| - 1], xs, |xs| - 1);
    SumWithout(ys, q, |xs| - 1);
  }

  lemma {:induction false} SumWithout(xs: seq<real>, q: nat, n: nat)
    requires q < |xs| && n < |xs|
    ensures PrefixSum(Without(xs, q), n) == if n <= q then PrefixSum(xs, n) else PrefixSum(xs, n + 1) - xs[q]
  {
    if n > 0 {
      SumWithout(xs, q, n - 1);
    }
  }

  // ---- counting ----------------------------------------------------------------------------

  /** How many of the first `n` flags are set. */
  function PrefixCount(bs: seq<bool>, n: nat): (c: nat)
    requires n <= |bs|
    ensures c <= n
  {
    if n == 0 then 0 else PrefixCount(bs, n - 1) + (if bs[n - 1] then 1 else 0)
  }

  function Count(bs: seq<bool>): nat
  {
    PrefixCount(bs, |bs|)
  }

  function Indicator(bs: seq<bool>): (xs: seq<real>)
    ensures |xs| == |bs|
  {
    seq(|bs|, i requires 0 <= i < |bs| => if bs[i] then 1.0 else 0.0)
  }

  lemma {:induction false} CountIsSum(bs: seq<bool>, n: nat)
    requires n <= |bs|
    ensures PrefixSum(Indicator(bs), n) == PrefixCount(bs, n) as real
  {
    if n > 0 {
      CountIsSum(bs, n - 1);
    }
  }

  lemma CountOfPermutation(bs: seq<bool>, idx: seq<nat>)
    requires IsPermutation(idx, |bs|)
    ensures Count(Gather(bs, idx)) == Count(bs)
  {
    CountIsSum(bs, |bs|);
    CountIsSum(Gather(bs, idx), |bs|);
    SumOfPermutation(Indicator(bs), idx);
    assert Indicator(Gather(bs, idx)) == Gather(Indicator(bs), idx);
  }

  /** Counting flags is counting the positions where they are set. */
  lemma {:induction false} CountIsSize(bs: seq<bool>, n: nat)
    requires n <= |bs|
    ensures PrefixCount(bs, n) == |set i: nat | i < n && bs[i]|
  {
    if n > 0 {
      CountIsSize(bs, n - 1);
      var before := set i: nat | i < n - 1 && bs[i];
      if bs[n - 1] {
        assert (set i: nat | i < n && bs[i]) == before + {n - 1} && n - 1 !in before;
      } else {
        assert (set i: nat | i < n && bs[i]) == before;
      }
    }
  }

  lemma {:induction false} CountAtMost(bs: seq<bool>, m: nat, n: nat)
    requires n <= |bs| && forall j :: 0 <= j < m && j < n ==> !bs[j]
    ensures PrefixCount(bs, n) <= if m <= n then n - m else 0
  {
    if n > 0 {
      CountAtMost(bs, m, n - 1);
    }
  }

  lemma {:induction false} CountAtLeast(bs: seq<bool>, m: nat, n: nat)
    requires m <= n <= |bs| && forall j :: m <= j < n ==> bs[j]
    ensures PrefixCount(bs, n) >= n - m
  {
    if n > m {
      CountAtLeast(bs, m, n - 1);
    }
  }

  // ---- masked sums -------------------------------------------------------------------------

  function Select(xs: seq<real>, keep: seq<bool>): (ys: seq<real>)
    requires |keep| == |xs|
    ensures |ys| == |xs|
    ensures forall i :: 0 <= i < |xs| ==> ys[i] == if keep[i] then xs[i] else 0.0
  {
    seq(|xs|, i requires 0 <= i < |xs| => if keep[i] then xs[i] else 0.0)
  }

  ghost predicate NonDecreasing(xs: seq<real>)
  {
    forall i, j :: 0 <= i <= j < |xs| ==> xs[i] <= xs[j]
  }

  ghost predicate NonNegative(xs: seq<real>)
  {
    forall i :: 0 <= i < |xs| ==> xs[i] >= 0.0
  }

  lemma {:induction false} PrefixSumMonotone(xs: seq<real>, a: nat, b: nat)
    requires NonNegative(xs) && a <= b <= |xs|
    ensures PrefixSum(xs, a) <= PrefixSum(xs, b)
    decreases b - a
  {
    if a < b {
      PrefixSumMonotone(xs, a, b - 1);
    }
  }

  /** Keeping exactly the entries from `m` on leaves out the first `m`. */
  lemma {:induction false} SuffixSum(xs: seq<real>, keep: seq<bool>, m: nat, n: nat)
    requires |keep| == |xs| && m <= |xs| && n <= |xs|
    requires forall j :: 0 <= j < |xs| ==> keep[j] == (j >= m)
    ensures PrefixSum(Select(xs, keep), n) == if n <= m then 0.0 else PrefixSum(xs, n) - PrefixSum(xs, m)
    ensures PrefixCount(keep, n) == if n <= m then 0 else n - m
  {
    if n > 0 {
      SuffixSum(xs, keep, m, n - 1);
    }
  }

  /** Of all selections of a given size, the largest entries weigh the most. */
  lemma {:induction false} LargestWeighMost(xs: seq<real>, keep: seq<bool>, n: nat)
    requires |keep| == |xs| && n <= |xs| && NonDecreasing(xs)
    ensures PrefixSum(Select(xs, keep), n) <= PrefixSum(xs, n) - PrefixSum(xs, n - PrefixCount(keep, n))
  {
    if n > 0 {
      LargestWeighMost(xs, keep, n - 1);
      assert xs[n - 1 - PrefixCount(keep, n - 1)] <= xs[n - 1];
    }
  }
}
