/** Top-k / top-p filtering of logits: sort, threshold, prefix sums, in-place masking, scatter back, in chunks. */
module Sampling {
  import opened Prelude
  import opened Tensor

  /** A logit: minus infinity or a finite value. */
  datatype Logit = NegInf | Fin(value: real)

  type Row = seq<Logit>

  predicate Less(a: Logit, b: Logit)
  {
    match (a, b)
    case (NegInf, NegInf) => false
    case (NegInf, Fin(_)) => true
    case (Fin(_), NegInf) => false
    case (Fin(x), Fin(y)) => x < y
  }

  ghost predicate Sorted(row: Row)
  {
    forall i, j :: 0 <= i <= j < |row| ==> !Less(row[j], row[i])
  }

  /** `idx` is what an ascending sort of `row` may return: ties may be ordered either way. */
  ghost predicate SortsBy(row: Row, idx: seq<nat>)
  {
    IsPermutation(idx, |row|) && Sorted(Gather(row, idx))
  }

  /** The exponential, up to the common factor that normalisation cancels. */
  ghost predicate IsExpLike(exp: real -> real)
  {
    && (forall x :: exp(x) > 0.0)
    && (forall x, y :: x <= y ==> exp(x) <= exp(y))
  }

  function Weight(exp: real -> real, l: Logit): real
  {
    if l.NegInf? then 0.0 else exp(l.value)
  }

  function Weights(exp: real -> real, row: Row): (ws: seq<real>)
    ensures |ws| == |row|
  {
    seq(|row|, i requires 0 <= i < |row| => Weight(exp, row[i]))
  }

  ghost predicate HasFinite(row: Row)
  {
    exists i :: 0 <= i < |row| && row[i].Fin?
  }

  // ---------------------------------------------------------------------------------------
  // The steps of the filter, on a sorted row
  // ---------------------------------------------------------------------------------------

  predicate NeedTopK(topK: Option<int>) { topK.Some? && topK.value > 0 }

  predicate NeedTopP(topP: Option<real>) { topP.Some? && topP.value != 1.0 }

  /** `masked_fill_(~keep, -inf)` */
  function MaskedFill(row: Row, keep: seq<bool>): (r: Row)
    requires |keep| == |row|
    ensures |r| == |row|
    ensures forall i :: 0 <= i < |row| ==> r[i] == if keep[i] then row[i] else NegInf
  {
    seq(|row|, i requires 0 <= i < |row| => if keep[i] then row[i] else NegInf)
  }

  function AtLeast(row: Row, threshold: Logit): (keep: seq<bool>)
    ensures |keep| == |row|
  {
    seq(|row|, i requires 0 <= i < |row| => !Less(row[i], threshold))
  }

  function Share(w: real, total: real): real
    requires total != 0.0
  {
    w / total
  }

  function Shares(ws: seq<real>, total: real): (ps: seq<real>)
    requires total != 0.0
    ensures |ps| == |ws|
    ensures forall i :: 0 <= i < |ws| ==> ps[i] == Share(ws[i], total)
  {
    seq(|ws|, i requires 0 <= i < |ws| => Share(ws[i], total))
  }

  /** The softmax of a row; a row with no finite logit has none, every entry of it is not a number. */
  function Softmax(exp: real -> real, row: Row): (ps: Option<seq<real>>)
    ensures ps.Some? ==> |ps.value| == |row|
  {
    if Sum(Weights(exp, row)) == 0.0 then None else Some(Shares(Weights(exp, row), Sum(Weights(exp, row))))
  }

  function Above(xs: seq<real>, bound: real): (keep: seq<bool>)
    ensures |keep| == |xs|
    ensures forall i :: 0 <= i < |xs| ==> keep[i] == (xs[i] > bound)
  {
    seq(|xs|, i requires 0 <= i < |xs| => xs[i] > bound)
  }

  /** Where the cumulative probability exceeds `bound`; what is not a number exceeds nothing. */
  function PrefixAbove(ps: Option<seq<real>>, n: nat, bound: real): (keep: seq<bool>)
    requires ps.Some? ==> |ps.value| == n
    ensures |keep| == n
  {
    match ps
    case None => seq(n, _ => false)
    case Some(xs) => Above(CumSum(xs), bound)
  }

  function And(a: seq<bool>, b: seq<bool>): (c: seq<bool>)
    requires |a| == |b|
    ensures |c| == |a|
    ensures forall i :: 0 <= i < |a| ==> c[i] == (a[i] && b[i])
  {
    seq(|a|, i requires 0 <= i < |a| => a[i] && b[i])
  }

  /** The top-k mask of a sorted row; everything when top-k is off. */
  function SortedTopK(sorted: Row, topK: Option<int>): (keep: seq<bool>)
    requires NeedTopK(topK) ==> topK.value <= |sorted|
    ensures |keep| == |sorted|
  {
    if NeedTopK(topK) then AtLeast(sorted, sorted[|sorted| - topK.value]) else seq(|sorted|, _ => true)
  }

  /** The top-p mask of a sorted, already top-k-masked row: prefix probability above 1 - p, and always the last. */
  function SortedTopP(exp: real -> real, masked: Row, topP: real): (keep: seq<bool>)
    requires |masked| > 0
    ensures |keep| == |masked|
  {
    PrefixAbove(Softmax(exp, masked), |masked|, 1.0 - topP)[|masked| - 1 := true]
  }

  /** The final mask in the row's own order. */
  function KeepMask(exp: real -> real, row: Row, idx: seq<nat>, topK: Option<int>, topP: real): (keep: seq<bool>)
    requires |idx| == |row| > 0 && forall j :: 0 <= j < |row| ==> idx[j] < |row|
    requires NeedTopK(topK) ==> topK.value <= |row|
    ensures |keep| == |row|
  {
    var sorted := Gather(row, idx);
    var topKMask := SortedTopK(sorted, topK);
    var topPMask := SortedTopP(exp, MaskedFill(sorted, topKMask), topP);
    var mask := And(topKMask, topPMask);
    Scatter(mask, idx, mask)
  }

  // ---------------------------------------------------------------------------------------
  // What top-k keeps
  // ---------------------------------------------------------------------------------------

  /** Which entries of the row are strictly larger than `x`. */
  function LargerThan(row: Row, x: Logit): (bs: seq<bool>)
    ensures |bs| == |row|
    ensures forall j :: 0 <= j < |row| ==> bs[j] == Less(x, row[j])
  {
    seq(|row|, j requires 0 <= j < |row| => Less(x, row[j]))
  }

  /** Reference: a token is in the top k when fewer than k tokens are strictly larger. */
  function TopKSet(row: Row, topK: Option<int>): (keep: seq<bool>)
    ensures |keep| == |row|
    ensures forall i :: 0 <= i < |row| ==>
              keep[i] == (!NeedTopK(topK) || Count(LargerThan(row, row[i])) < topK.value)
  {
    seq(|row|, i requires 0 <= i < |row| => !NeedTopK(topK) || Count(LargerThan(row, row[i])) < topK.value)
  }

  lemma LargerCountOfSorted(sorted: Row, k: nat, x: Logit)
    requires Sorted(sorted) && 0 < k <= |sorted|
    ensures Less(x, sorted[|sorted| - k]) <==> Count(LargerThan(sorted, x)) >= k
  {
    var m := |sorted| - k;
    if Less(x, sorted[m]) {
      forall j | m <= j < |sorted|
        ensures LargerThan(sorted, x)[j]
      {
        assert !Less(sorted[j], sorted[m]);
      }
      CountAtLeast(LargerThan(sorted, x), m, |sorted|);
    } else {
      forall j | 0 <= j < m + 1
        ensures !LargerThan(sorted, x)[j]
      {
        assert !Less(sorted[m], sorted[j]);
      }
      CountAtMost(LargerThan(sorted, x), m + 1, |sorted|);
    }
  }

  /** Counting strictly larger tokens needs no sort: the k-th largest exceeds `x` exactly when k tokens do. */
  lemma KthLargestByCount(row: Row, idx: seq<nat>, k: nat, x: Logit)
    requires SortsBy(row, idx) && 0 < k <= |row|
    ensures Less(x, Gather(row, idx)[|row| - k]) <==> Count(LargerThan(row, x)) >= k
  {
    var sorted := Gather(row, idx);
    LargerCountOfSorted(sorted, k, x);
    CountOfPermutation(LargerThan(row, x), idx);
    assert LargerThan(sorted, x) == Gather(LargerThan(row, x), idx);
  }

  /** The sorted threshold keeps exactly the reference set, whatever order ties were sorted in. */
  lemma SortedTopKIsTopKSet(row: Row, idx: seq<nat>, topK: Option<int>)
    requires SortsBy(row, idx)
    requires NeedTopK(topK) ==> topK.value <= |row|
    ensures SortedTopK(Gather(row, idx), topK) == Gather(TopKSet(row, topK), idx)
  {
    var sorted := Gather(row, idx);
    if NeedTopK(topK) {
      forall j | 0 <= j < |row|
        ensures SortedTopK(sorted, topK)[j] == TopKSet(row, topK)[idx[j]]
      {
        hide SortsBy, Sorted, Count, LargerThan;
        KthLargestByCount(row, idx, topK.value, sorted[j]);
      }
    }
  }

  /** The top-k-only path: no full sort is kept, the k-th largest value is the threshold. */
  function TopKOnly(row: Row, idx: seq<nat>, k: int): (keep: seq<bool>)
    requires SortsBy(row, idx) && 0 < k <= |row|
    ensures |keep| == |row|
  {
    var topKValues := Flip(Gather(row, idx))[..k];
    AtLeast(row, topKValues[k - 1])
  }

  lemma TopKOnlyIsTopKSet(row: Row, idx: seq<nat>, k: int)
    requires SortsBy(row, idx) && 0 < k <= |row|
    ensures TopKOnly(row, idx, k) == TopKSet(row, Some(k))
  {
    forall i | 0 <= i < |row|
      ensures TopKOnly(row, idx, k)[i] == TopKSet(row, Some(k))[i]
    {
      hide SortsBy, Sorted, Count, LargerThan;
      KthLargestByCount(row, idx, k, row[i]);
    }
  }

  // ---------------------------------------------------------------------------------------
  // The nucleus, on the sorted row
  // ---------------------------------------------------------------------------------------

  lemma {:induction false} SharesAddUp(ws: seq<real>, total: real, n: nat)
    requires n <= |ws| && total > 0.0
    ensures PrefixSum(Shares(ws, total), n) == Share(PrefixSum(ws, n), total)
  {
    if n > 0 {
      SharesAddUp(ws, total, n - 1);
    }
  }

  /** `share` of `x`. */
  function Fraction(share: real, x: real): real { share * x }

  lemma ShareAboveIff(w: real, total: real, bound: real)
    requires total > 0.0
    ensures Share(w, total) > bound <==> w > Fraction(bound, total)
  {
    var q := Share(w, total);
    assert q * total == w;
    assert (q - bound) * total == w - bound * total;
  }

  /** Weights of a sorted, masked row: non-negative, non-decreasing, positive in all once a logit is finite. */
  lemma MaskedWeights(exp: real -> real, row: Row, idx: seq<nat>, topK: Option<int>)
    requires IsExpLike(exp) && SortsBy(row, idx) && HasFinite(row)
    requires NeedTopK(topK) ==> topK.value <= |row|
    ensures var sorted := Gather(row, idx);
            var mask := SortedTopK(sorted, topK);
            var ws := Weights(exp, MaskedFill(sorted, mask));
            && NonNegative(ws) && NonDecreasing(ws) && ws == Select(Weights(exp, sorted), mask)
            && mask[|row| - 1] && ws[|row| - 1] > 0.0
  {
    var n := |row|;
    var sorted := Gather(row, idx);
    var mask := SortedTopK(sorted, topK);
    var masked := MaskedFill(sorted, mask);
    var i :| 0 <= i < n && row[i].Fin?;
    var j := PermutationHits(idx, n, i);
    assert !Less(sorted[n - 1], sorted[j]);
    assert Sorted(masked) by {
      forall a, b | 0 <= a <= b < n
        ensures !Less(masked[b], masked[a])
      {
        assert !Less(sorted[b], sorted[a]);
      }
    }
    assert NonDecreasing(Weights(exp, masked)) by {
      forall a, b | 0 <= a <= b < n
        ensures Weights(exp, masked)[a] <= Weights(exp, masked)[b]
      {
        assert !Less(masked[b], masked[a]);
      }
    }
  }

  /** A share of the total weight. */
  function Portion(ws: seq<real>, share: real): real
  {
    Fraction(share, Sum(ws))
  }

  /** The first `j + 1` weights add up to more than `bound`. */
  predicate Reaches(ws: seq<real>, j: nat, bound: real)
    requires j < |ws|
  {
    PrefixSum(ws, j + 1) > bound
  }

  /** Where the kept suffix of a sorted weight row begins. */
  lemma FindCut(ws: seq<real>, bound: real) returns (m: nat)
    requires NonNegative(ws) && |ws| > 0 && bound < Sum(ws)
    ensures m < |ws|
    ensures forall j :: 0 <= j < |ws| ==> (Reaches(ws, j, bound) <==> j >= m)
    ensures m == 0 || PrefixSum(ws, m) <= bound
  {
    m := |ws| - 1;
    while m > 0 && PrefixSum(ws, m) > bound
      invariant m < |ws| && PrefixSum(ws, m + 1) > bound
    {
      m := m - 1;
    }
    forall j | 0 <= j < |ws|
      ensures Reaches(ws, j, bound) <==> j >= m
    {
      if j >= m {
        PrefixSumMonotone(ws, m + 1, j + 1);
      } else {
        PrefixSumMonotone(ws, j + 1, m);
      }
    }
  }

  lemma SumPositive(ws: seq<real>)
    requires NonNegative(ws) && |ws| > 0 && ws[|ws| - 1] > 0.0
    ensures Sum(ws) > 0.0
  {
    PrefixSumMonotone(ws, 0, |ws| - 1);
  }

  /** Weights of the sorted row after the top-k fill. */
  function MaskedSortedWeights(exp: real -> real, row: Row, idx: seq<nat>, topK: Option<int>): (ws: seq<real>)
    requires |idx| == |row| && forall j :: 0 <= j < |row| ==> idx[j] < |row|
    requires NeedTopK(topK) ==> topK.value <= |row|
    ensures |ws| == |row|
  {
    var sorted := Gather(row, idx);
    Weights(exp, MaskedFill(sorted, SortedTopK(sorted, topK)))
  }

  /** A softmax prefix exceeds `bound` exactly when the weight prefix exceeds that share of the total. */
  lemma PrefixProbability(exp: real -> real, row: Row, bound: real, j: nat)
    requires j < |row| && Sum(Weights(exp, row)) > 0.0
    ensures PrefixAbove(Softmax(exp, row), |row|, bound)[j]
       <==> Reaches(Weights(exp, row), j, Portion(Weights(exp, row), bound))
  {
    var ws := Weights(exp, row);
    assert Softmax(exp, row) == Some(Shares(ws, Sum(ws)));
    hide Weights, Shares, CumSum, Softmax, Fraction, Share, PrefixSum;
    CumSumIsPrefixSum(Shares(ws, Sum(ws)), j);
    SharesAddUp(ws, Sum(ws), j + 1);
    ShareAboveIff(PrefixSum(ws, j + 1), Sum(ws), bound);
  }

  /** The forced last entry changes nothing when 0 < p: the whole row always reaches the bound. */
  lemma SortedTopPEntry(exp: real -> real, masked: Row, topP: real, j: nat)
    requires j < |masked| && Sum(Weights(exp, masked)) > 0.0 && 0.0 < topP
    ensures SortedTopP(exp, masked, topP)[j]
         == Reaches(Weights(exp, masked), j, Portion(Weights(exp, masked), 1.0 - topP))
  {
    var ws := Weights(exp, masked);
    PrefixProbability(exp, masked, 1.0 - topP, j);
    PositiveProduct(topP, Sum(ws));
    assert (1.0 - topP) * Sum(ws) == Sum(ws) - topP * Sum(ws);
    assert Reaches(ws, |masked| - 1, Portion(ws, 1.0 - topP));
  }

  /** The sorted mask in closed form: prefix weight above (1 - p) of the total. The top-k mask adds nothing to it. */
  lemma SortedMaskIsPrefixTest(exp: real -> real, row: Row, idx: seq<nat>, topK: Option<int>, topP: real, j: nat)
    requires IsExpLike(exp) && SortsBy(row, idx) && HasFinite(row)
    requires NeedTopK(topK) ==> topK.value <= |row|
    requires 0.0 < topP < 1.0 && j < |row|
    ensures var sorted := Gather(row, idx);
            var topKMask := SortedTopK(sorted, topK);
            var topPMask := SortedTopP(exp, MaskedFill(sorted, topKMask), topP);
            var ws := MaskedSortedWeights(exp, row, idx, topK);
            && topPMask[j] == Reaches(ws, j, Portion(ws, 1.0 - topP))
            && (topPMask[j] ==> topKMask[j])
  {
    var sorted := Gather(row, idx);
    MaskedWeights(exp, row, idx, topK);
    SumPositive(MaskedSortedWeights(exp, row, idx, topK));
    if !SortedTopK(sorted, topK)[j] {
      MaskedPrefixWeighsNothing(exp, sorted, topK, j);
    }
    PrefixTestOnMasked(exp, sorted, SortedTopK(sorted, topK), topP, j);
  }

  lemma PrefixTestOnMasked(exp: real -> real, sorted: Row, mask: seq<bool>, topP: real, j: nat)
    requires j < |sorted| == |mask| && 0.0 < topP < 1.0
    requires Sum(Weights(exp, MaskedFill(sorted, mask))) > 0.0
    requires !mask[j] ==> PrefixSum(Weights(exp, MaskedFill(sorted, mask)), j + 1) == 0.0
    ensures var masked := MaskedFill(sorted, mask);
            var ws := Weights(exp, masked);
            && SortedTopP(exp, masked, topP)[j] == Reaches(ws, j, Portion(ws, 1.0 - topP))
            && (SortedTopP(exp, masked, topP)[j] ==> mask[j])
  {
    SortedTopPEntry(exp, MaskedFill(sorted, mask), topP, j);
    if !mask[j] {
      ZeroPrefixStaysBelow(Weights(exp, MaskedFill(sorted, mask)), j, 1.0 - topP);
    }
  }

  lemma ZeroPrefixStaysBelow(ws: seq<real>, j: nat, share: real)
    requires j < |ws| && Sum(ws) > 0.0 && share > 0.0 && PrefixSum(ws, j + 1) == 0.0
    ensures !Reaches(ws, j, Portion(ws, share))
  {
    PositiveProduct(share, Sum(ws));
  }

  lemma PositiveProduct(a: real, b: real)
    requires a > 0.0 && b > 0.0
    ensures a * b > 0.0
  {
  }

  lemma MaskedPrefixWeighsNothing(exp: real -> real, sorted: Row, topK: Option<int>, j: nat)
    requires Sorted(sorted) && j < |sorted|
    requires NeedTopK(topK) ==> topK.value <= |sorted|
    requires !SortedTopK(sorted, topK)[j]
    ensures PrefixSum(Weights(exp, MaskedFill(sorted, SortedTopK(sorted, topK))), j + 1) == 0.0
  {
    var mask := SortedTopK(sorted, topK);
    var ws := Weights(exp, MaskedFill(sorted, mask));
    forall a | 0 <= a <= j
      ensures ws[a] == 0.0
    {
      assert !Less(sorted[j], sorted[a]);
    }
    ZeroSum(ws, j + 1);
  }

  lemma {:induction false} ZeroSum(xs: seq<real>, n: nat)
    requires n <= |xs| && forall i :: 0 <= i < n ==> xs[i] == 0.0
    ensures PrefixSum(xs, n) == 0.0
  {
    if n > 0 {
      ZeroSum(xs, n - 1);
    }
  }

  // ---------------------------------------------------------------------------------------
  // The nucleus, in the row's own order
  // ---------------------------------------------------------------------------------------

  /** Where nucleus filtering is meaningful: a row with a finite logit, k within the vocabulary, 0 < p < 1. */
  ghost predicate Admissible(exp: real -> real, row: Row, idx: seq<nat>, topK: Option<int>, topP: real)
  {
    && IsExpLike(exp) && SortsBy(row, idx) && HasFinite(row)
    && (NeedTopK(topK) ==> topK.value <= |row|)
    && 0.0 < topP < 1.0
  }

  lemma GatherOfKeepMask(exp: real -> real, row: Row, idx: seq<nat>, topK: Option<int>, topP: real)
    requires |row| > 0 && IsPermutation(idx, |row|)
    requires NeedTopK(topK) ==> topK.value <= |row|
    ensures var sorted := Gather(row, idx);
            var topKMask := SortedTopK(sorted, topK);
            Gather(KeepMask(exp, row, idx, topK, topP), idx)
              == And(topKMask, SortedTopP(exp, MaskedFill(sorted, topKMask), topP))
  {
    var sorted := Gather(row, idx);
    var topKMask := SortedTopK(sorted, topK);
    var mask := And(topKMask, SortedTopP(exp, MaskedFill(sorted, topKMask), topP));
    forall j | 0 <= j < |row|
      ensures Scatter(mask, idx, mask)[idx[j]] == mask[j]
    {
      ScatterEntry(mask, idx, mask, j);
    }
  }

  /** In sorted order the kept tokens are a suffix, starting where the prefix weight first passes (1 - p). */
  lemma KeptSuffix(exp: real -> real, row: Row, idx: seq<nat>, topK: Option<int>, topP: real) returns (m: nat)
    requires Admissible(exp, row, idx, topK, topP)
    ensures m < |row|
    ensures var keep := KeepMask(exp, row, idx, topK, topP);
            var ws := MaskedSortedWeights(exp, row, idx, topK);
            && (forall j :: 0 <= j < |row| ==> keep[idx[j]] == (j >= m))
            && (forall j :: m <= j < |row| ==> SortedTopK(Gather(row, idx), topK)[j])
            && PrefixSum(ws, m) <= Portion(ws, 1.0 - topP) < PrefixSum(ws, m + 1)
  {
    var keep := KeepMask(exp, row, idx, topK, topP);
    var ws := MaskedSortedWeights(exp, row, idx, topK);
    MaskedWeights(exp, row, idx, topK);
    SumPositive(ws);
    CutBelowTotal(ws, topP);
    m := FindCut(ws, Portion(ws, 1.0 - topP));
    assert Reaches(ws, m, Portion(ws, 1.0 - topP));
    GatherOfKeepMask(exp, row, idx, topK, topP);
    forall j | 0 <= j < |row|
      ensures keep[idx[j]] == (j >= m)
      ensures j >= m ==> SortedTopK(Gather(row, idx), topK)[j]
    {
      SortedMaskIsPrefixTest(exp, row, idx, topK, topP, j);
      assert keep[idx[j]] == Gather(keep, idx)[j];
    }
  }

  lemma CutBelowTotal(ws: seq<real>, topP: real)
    requires Sum(ws) > 0.0 && 0.0 < topP < 1.0
    ensures 0.0 < Portion(ws, 1.0 - topP) < Sum(ws)
    ensures Portion(ws, topP) == Sum(ws) - Portion(ws, 1.0 - topP)
  {
    PositiveProduct(topP, Sum(ws));
    PositiveProduct(1.0 - topP, Sum(ws));
    assert (1.0 - topP) * Sum(ws) == Sum(ws) - topP * Sum(ws);
  }

  /** Unnormalised probability mass of the tokens of a set among the first `n`. */
  function MassUpTo(exp: real -> real, row: Row, keep: seq<bool>, n: nat): real
    requires n <= |keep| == |row|
  {
    if n == 0 then 0.0
    else MassUpTo(exp, row, keep, n - 1) + if keep[n - 1] && row[n - 1].Fin? then exp(row[n - 1].value) else 0.0
  }

  function Mass(exp: real -> real, row: Row, keep: seq<bool>): real
    requires |keep| == |row|
  {
    MassUpTo(exp, row, keep, |row|)
  }

  lemma {:induction false} MassIsSum(exp: real -> real, row: Row, keep: seq<bool>, n: nat)
    requires n <= |keep| == |row|
    ensures MassUpTo(exp, row, keep, n) == PrefixSum(Select(Weights(exp, row), keep), n)
  {
    if n > 0 {
      MassIsSum(exp, row, keep, n - 1);
    }
  }

  lemma MassInSortedOrder(exp: real -> real, row: Row, idx: seq<nat>, keep: seq<bool>)
    requires IsPermutation(idx, |row|) && |keep| == |row|
    ensures Mass(exp, row, keep) == Sum(Select(Weights(exp, Gather(row, idx)), Gather(keep, idx)))
  {
    var xs := Select(Weights(exp, row), keep);
    MassIsSum(exp, row, keep, |row|);
    SumOfPermutation(xs, idx);
    assert Gather(xs, idx) == Select(Weights(exp, Gather(row, idx)), Gather(keep, idx));
  }

  lemma FillThenWeigh(exp: real -> real, row: Row, mask: seq<bool>, keep: seq<bool>)
    requires |mask| == |keep| == |row|
    ensures Select(Weights(exp, row), And(keep, mask)) == Select(Weights(exp, MaskedFill(row, mask)), keep)
  {
  }

  /** Restricted to top-k tokens, mass is a selection of the masked sorted weights. */
  lemma MassWithinTopK(exp: real -> real, row: Row, idx: seq<nat>, topK: Option<int>, keep: seq<bool>)
    requires SortsBy(row, idx) && |keep| == |row|
    requires NeedTopK(topK) ==> topK.value <= |row|
    ensures Mass(exp, row, And(keep, TopKSet(row, topK)))
         == Sum(Select(MaskedSortedWeights(exp, row, idx, topK), Gather(keep, idx)))
  {
    var both := And(keep, TopKSet(row, topK));
    MassInSortedOrder(exp, row, idx, both);
    SortedTopKIsTopKSet(row, idx, topK);
    assert Gather(both, idx) == And(Gather(keep, idx), SortedTopK(Gather(row, idx), topK));
    FillThenWeigh(exp, Gather(row, idx), SortedTopK(Gather(row, idx), topK), Gather(keep, idx));
  }

  /** All of the top-k mass, i.e. the normaliser of the renormalised distribution. */
  lemma TopKMass(exp: real -> real, row: Row, idx: seq<nat>, topK: Option<int>)
    requires SortsBy(row, idx)
    requires NeedTopK(topK) ==> topK.value <= |row|
    ensures Mass(exp, row, TopKSet(row, topK)) == Sum(MaskedSortedWeights(exp, row, idx, topK))
  {
    var all := seq(|row|, _ => true);
    MassWithinTopK(exp, row, idx, topK, all);
    assert And(all, TopKSet(row, topK)) == TopKSet(row, topK);
    assert Select(MaskedSortedWeights(exp, row, idx, topK), Gather(all, idx)) == MaskedSortedWeights(exp, row, idx, topK);
  }

  /** The kept set is non-empty, upward closed and inside the top k: the AND of the two masks is the top-p mask. */
  lemma NucleusShape(exp: real -> real, row: Row, idx: seq<nat>, topK: Option<int>, topP: real)
    requires Admissible(exp, row, idx, topK, topP)
    ensures var keep := KeepMask(exp, row, idx, topK, topP);
            && (exists i :: 0 <= i < |row| && keep[i])
            && (forall i, j :: 0 <= i < |row| && 0 <= j < |row| && keep[i] && Less(row[i], row[j]) ==> keep[j])
            && (forall i :: 0 <= i < |row| && keep[i] ==> TopKSet(row, topK)[i])
  {
    var keep := KeepMask(exp, row, idx, topK, topP);
    var m := KeptSuffix(exp, row, idx, topK, topP);
    assert keep[idx[m]];
    SortedTopKIsTopKSet(row, idx, topK);
    forall i | 0 <= i < |row| && keep[i]
      ensures TopKSet(row, topK)[i]
      ensures forall j :: 0 <= j < |row| && Less(row[i], row[j]) ==> keep[j]
    {
      var a := PermutationHits(idx, |row|, i);
      assert Gather(TopKSet(row, topK), idx)[a] == TopKSet(row, topK)[i];
      forall j | 0 <= j < |row| && Less(row[i], row[j])
        ensures keep[j]
      {
        var b := PermutationHits(idx, |row|, j);
        assert Gather(row, idx)[a] == row[i] && Gather(row, idx)[b] == row[j];
      }
    }
  }

  lemma PortionComplement(ws: seq<real>, topP: real)
    ensures Portion(ws, 1.0 - topP) == Sum(ws) - Fraction(topP, Sum(ws))
  {
  }

  /** The kept mass reaches the share p of the top-k mass. */
  lemma NucleusReachesP(exp: real -> real, row: Row, idx: seq<nat>, topK: Option<int>, topP: real)
    requires Admissible(exp, row, idx, topK, topP)
    ensures Mass(exp, row, KeepMask(exp, row, idx, topK, topP)) >= Fraction(topP, Mass(exp, row, TopKSet(row, topK)))
  {
    var ws := MaskedSortedWeights(exp, row, idx, topK);
    hide *;
    var m := KeptMass(exp, row, idx, topK, topP);
    PortionComplement(ws, topP);
  }

  lemma KeptWithinTopK(exp: real -> real, row: Row, idx: seq<nat>, topK: Option<int>, topP: real)
    requires Admissible(exp, row, idx, topK, topP)
    ensures And(KeepMask(exp, row, idx, topK, topP), TopKSet(row, topK)) == KeepMask(exp, row, idx, topK, topP)
  {
    NucleusShape(exp, row, idx, topK, topP);
  }

  lemma SelectedSuffix(ws: seq<real>, idx: seq<nat>, keep: seq<bool>, m: nat)
    requires |ws| == |keep| && IsPermutation(idx, |keep|) && m <= |keep|
    requires forall j :: 0 <= j < |keep| ==> keep[idx[j]] == (j >= m)
    ensures Sum(Select(ws, Gather(keep, idx))) == Sum(ws) - PrefixSum(ws, m)
    ensures Count(keep) == |keep| - m
  {
    SuffixSum(ws, Gather(keep, idx), m, |ws|);
    CountOfPermutation(keep, idx);
  }

  lemma KeptMass(exp: real -> real, row: Row, idx: seq<nat>, topK: Option<int>, topP: real) returns (m: nat)
    requires Admissible(exp, row, idx, topK, topP)
    ensures m < |row|
    ensures var keep := KeepMask(exp, row, idx, topK, topP);
            var ws := MaskedSortedWeights(exp, row, idx, topK);
            && Mass(exp, row, TopKSet(row, topK)) == Sum(ws)
            && Mass(exp, row, keep) == Sum(ws) - PrefixSum(ws, m)
            && Count(keep) == |row| - m
            && (forall j :: 0 <= j < |row| ==> keep[idx[j]] == (j >= m))
            && PrefixSum(ws, m) <= Portion(ws, 1.0 - topP) < PrefixSum(ws, m + 1)
  {
    var keep := KeepMask(exp, row, idx, topK, topP);
    var ws := MaskedSortedWeights(exp, row, idx, topK);
    m := KeptSuffix(exp, row, idx, topK, topP);
    TopKMass(exp, row, idx, topK);
    KeptWithinTopK(exp, row, idx, topK, topP);
    MassWithinTopK(exp, row, idx, topK, keep);
    assert IsPermutation(idx, |row|);
    hide *;
    SelectedSuffix(ws, idx, keep, m);
  }

  /** Dropping any smallest kept token takes the mass below the share p. */
  lemma NucleusIsTight(exp: real -> real, row: Row, idx: seq<nat>, topK: Option<int>, topP: real, i: nat)
    requires Admissible(exp, row, idx, topK, topP) && i < |row|
    requires KeepMask(exp, row, idx, topK, topP)[i]
    requires forall j :: 0 <= j < |row| && KeepMask(exp, row, idx, topK, topP)[j] ==> !Less(row[j], row[i])
    ensures Mass(exp, row, KeepMask(exp, row, idx, topK, topP)) - (if row[i].Fin? then exp(row[i].value) else 0.0)
          < Fraction(topP, Mass(exp, row, TopKSet(row, topK)))
  {
    var ws := MaskedSortedWeights(exp, row, idx, topK);
    assert IsPermutation(idx, |row|);
    assert Weight(exp, row[i]) == if row[i].Fin? then exp(row[i].value) else 0.0;
    hide *;
    var m := KeptMass(exp, row, idx, topK, topP);
    SmallestKeptWeight(exp, row, idx, topK, topP, i, m);
    PortionComplement(ws, topP);
    assert PrefixSum(ws, m + 1) == PrefixSum(ws, m) + ws[m];
  }

  lemma SmallestKeptWeight(exp: real -> real, row: Row, idx: seq<nat>, topK: Option<int>, topP: real, i: nat, m: nat)
    requires Admissible(exp, row, idx, topK, topP) && i < |row| && m < |row|
    requires forall j :: 0 <= j < |row| ==> KeepMask(exp, row, idx, topK, topP)[idx[j]] == (j >= m)
    requires KeepMask(exp, row, idx, topK, topP)[i]
    requires forall j :: 0 <= j < |row| && KeepMask(exp, row, idx, topK, topP)[j] ==> !Less(row[j], row[i])
    ensures MaskedSortedWeights(exp, row, idx, topK)[m] == Weight(exp, row[i])
  {
    var sorted := Gather(row, idx);
    var a := PermutationHits(idx, |row|, i);
    assert KeepMask(exp, row, idx, topK, topP)[idx[m]] && KeepMask(exp, row, idx, topK, topP)[idx[a]];
    hide KeepMask, TopKSet, SortedTopK, MaskedFill, Weights, IsExpLike, MaskedSortedWeights, HasFinite;
    assert !Less(sorted[m], sorted[a]) && !Less(sorted[a], sorted[m]);
    assert sorted[m] == row[i];
    hide Less, Sorted;
    SortedTopKIsTopKSet(row, idx, topK);
    NucleusShape(exp, row, idx, topK, topP);
    assert TopKSet(row, topK)[idx[m]] == Gather(TopKSet(row, topK), idx)[m];
    WeightWhereKept(exp, row, idx, topK, m);
  }

  /** The top-k fill leaves the weight of a token it keeps. */
  lemma WeightWhereKept(exp: real -> real, row: Row, idx: seq<nat>, topK: Option<int>, m: nat)
    requires SortsBy(row, idx) && m < |row| && (NeedTopK(topK) ==> topK.value <= |row|)
    requires SortedTopK(Gather(row, idx), topK)[m]
    ensures MaskedSortedWeights(exp, row, idx, topK)[m] == Weight(exp, Gather(row, idx)[m])
  {
  }

  /** No smaller set of tokens reaches the share p of the top-k mass: the nucleus has minimum size. */
  lemma NucleusIsSmallest(exp: real -> real, row: Row, idx: seq<nat>, topK: Option<int>, topP: real, other: seq<bool>)
    requires Admissible(exp, row, idx, topK, topP) && |other| == |row|
    requires Mass(exp, row, And(other, TopKSet(row, topK))) >= Fraction(topP, Mass(exp, row, TopKSet(row, topK)))
    ensures Count(other) >= Count(KeepMask(exp, row, idx, topK, topP))
  {
    var ws := MaskedSortedWeights(exp, row, idx, topK);
    MassWithinTopK(exp, row, idx, topK, other);
    MaskedWeights(exp, row, idx, topK);
    CountOfPermutation(other, idx);
    hide *;
    var m := KeptMass(exp, row, idx, topK, topP);
    PortionComplement(ws, topP);
    if Count(other) < |row| - m {
      TooFew(ws, Gather(other, idx), m);
    }
  }

  lemma TooFew(ws: seq<real>, keep: seq<bool>, m: nat)
    requires |keep| == |ws| && NonDecreasing(ws) && NonNegative(ws) && Count(keep) < |ws| - m
    ensures m < |ws| && Sum(Select(ws, keep)) <= Sum(ws) - PrefixSum(ws, m + 1)
  {
    LargestWeighMost(ws, keep, |ws|);
    PrefixSumMonotone(ws, m + 1, |ws| - Count(keep));
  }

  // ---------------------------------------------------------------------------------------
  // What the filter keeps of a row, whatever p is
  // ---------------------------------------------------------------------------------------

  /** Top-k is off, or fewer than k tokens have a larger logit. */
  ghost predicate InTopK(row: Row, topK: Option<int>, i: nat)
    requires i < |row|
  {
    topK.Some? && topK.value > 0 ==> |set j: nat | j < |row| && Less(row[i], row[j])| < topK.value
  }

  /**
   The nucleus, in terms of the row alone: some tokens of the top k, the last ones in the order of the sort, whose mass
   reaches the share p of the top-k mass, but does not without any smallest one of them.
   */
  ghost predicate IsNucleus(exp: real -> real, row: Row, idx: seq<nat>, topK: Option<int>, topP: real, keep: seq<bool>)
    requires |keep| == |row| && IsPermutation(idx, |row|)
  {
    && (exists i :: 0 <= i < |row| && keep[i])
    && (forall i :: 0 <= i < |row| && keep[i] ==> InTopK(row, topK, i))
    && (forall j, l :: 0 <= j <= l < |row| && keep[idx[j]] ==> keep[idx[l]])
    && forall top: seq<bool> :: IsTopK(row, topK, top) ==>
         && Mass(exp, row, keep) >= Fraction(topP, Mass(exp, row, top))
         && forall i :: 0 <= i < |row| && IsSmallestKept(row, keep, i) ==>
              Mass(exp, row, keep) - (if row[i].Fin? then exp(row[i].value) else 0.0) < Fraction(topP, Mass(exp, row, top))
  }

  ghost predicate IsTopK(row: Row, topK: Option<int>, top: seq<bool>)
  {
    |top| == |row| && forall i :: 0 <= i < |row| ==> (top[i] <==> InTopK(row, topK, i))
  }

  ghost predicate IsSmallestKept(row: Row, keep: seq<bool>, i: nat)
    requires i < |row| == |keep|
  {
    keep[i] && forall j :: 0 <= j < |row| && keep[j] ==> !Less(row[j], row[i])
  }

  /**
   What the filter keeps for every p: the nucleus when 0 < p < 1, the top k when p > 1, and only the last token of the
   sort when p <= 0 or when no logit is finite.
   */
  ghost predicate IsKept(exp: real -> real, row: Row, idx: seq<nat>, topK: Option<int>, topP: real, keep: seq<bool>)
    requires |keep| == |row| && IsPermutation(idx, |row|)
  {
    if HasFinite(row) && 0.0 < topP < 1.0 then IsNucleus(exp, row, idx, topK, topP, keep)
    else if HasFinite(row) && topP > 1.0 then IsTopK(row, topK, keep)
    else if HasFinite(row) && topP == 1.0 then true
    else forall j :: 0 <= j < |row| ==> (keep[idx[j]] <==> j == |row| - 1)
  }

  lemma TopKSetIsTopK(row: Row, topK: Option<int>, top: seq<bool>)
    ensures IsTopK(row, topK, TopKSet(row, topK))
    ensures IsTopK(row, topK, top) ==> top == TopKSet(row, topK)
  {
    forall i | 0 <= i < |row|
      ensures TopKSet(row, topK)[i] <==> InTopK(row, topK, i)
    {
      var larger := LargerThan(row, row[i]);
      CountIsSize(larger, |row|);
      assert (set j: nat | j < |row| && larger[j]) == set j: nat | j < |row| && Less(row[i], row[j]);
    }
  }

  lemma KeepMaskIsNucleus(exp: real -> real, row: Row, idx: seq<nat>, topK: Option<int>, topP: real)
    requires Admissible(exp, row, idx, topK, topP)
    ensures IsPermutation(idx, |row|) && IsNucleus(exp, row, idx, topK, topP, KeepMask(exp, row, idx, topK, topP))
  {
    var keep := KeepMask(exp, row, idx, topK, topP);
    hide KeepMask, TopKSet, InTopK, Mass, Fraction;
    TopKSetIsTopK(row, topK, []);
    NucleusShape(exp, row, idx, topK, topP);
    NucleusReachesP(exp, row, idx, topK, topP);
    var m := KeptSuffix(exp, row, idx, topK, topP);
    forall i | 0 <= i < |row| && IsSmallestKept(row, keep, i)
      ensures Mass(exp, row, keep) - (if row[i].Fin? then exp(row[i].value) else 0.0)
            < Fraction(topP, Mass(exp, row, TopKSet(row, topK)))
    {
      NucleusIsTight(exp, row, idx, topK, topP, i);
    }
    forall top: seq<bool> | IsTopK(row, topK, top)
      ensures top == TopKSet(row, topK)
    {
      TopKSetIsTopK(row, topK, top);
    }
  }

  /** Above one, p keeps all of the top k. */
  lemma LargePKeepsTopK(exp: real -> real, row: Row, idx: seq<nat>, topK: Option<int>, topP: real)
    requires IsExpLike(exp) && SortsBy(row, idx) && HasFinite(row) && topP > 1.0
    requires NeedTopK(topK) ==> topK.value <= |row|
    ensures |row| > 0 && KeepMask(exp, row, idx, topK, topP) == TopKSet(row, topK)
  {
    var sorted := Gather(row, idx);
    var masked := MaskedFill(sorted, SortedTopK(sorted, topK));
    var keep := KeepMask(exp, row, idx, topK, topP);
    MaskedWeights(exp, row, idx, topK);
    SumPositive(Weights(exp, masked));
    GatherOfKeepMask(exp, row, idx, topK, topP);
    SortedTopKIsTopKSet(row, idx, topK);
    assert IsPermutation(idx, |row|) && NonNegative(Weights(exp, masked));
    hide KeepMask, TopKSet, SortedTopK, SortedTopP, MaskedFill, Weights, SortsBy, IsExpLike, NonNegative, HasFinite;
    forall j | 0 <= j < |row|
      ensures Gather(keep, idx)[j] == Gather(TopKSet(row, topK), idx)[j]
    {
      EverythingPassesNone(exp, masked, topP, j);
    }
    hide *;
    SameWhenGathered(keep, TopKSet(row, topK), idx);
  }

  lemma SameWhenGathered(a: seq<bool>, b: seq<bool>, idx: seq<nat>)
    requires |a| == |b| && IsPermutation(idx, |a|)
    requires forall j :: 0 <= j < |a| ==> Gather(a, idx)[j] == Gather(b, idx)[j]
    ensures a == b
  {
    forall i | 0 <= i < |a|
      ensures a[i] == b[i]
    {
      var j := PermutationHits(idx, |a|, i);
      assert Gather(a, idx)[j] == Gather(b, idx)[j];
    }
  }

  lemma EverythingPassesNone(exp: real -> real, masked: Row, topP: real, j: nat)
    requires j < |masked| && topP > 1.0 && NonNegative(Weights(exp, masked)) && Sum(Weights(exp, masked)) > 0.0
    ensures SortedTopP(exp, masked, topP)[j]
  {
    var ws := Weights(exp, masked);
    SortedTopPEntry(exp, masked, topP, j);
    hide Weights;
    BeyondTheWhole(ws, topP);
    PrefixSumMonotone(ws, 0, j + 1);
  }

  lemma BeyondTheWhole(ws: seq<real>, topP: real)
    requires Sum(ws) > 0.0
    ensures topP > 1.0 ==> Portion(ws, 1.0 - topP) < 0.0
    ensures topP <= 0.0 ==> Portion(ws, 1.0 - topP) >= Sum(ws)
  {
    var sum := Sum(ws);
    hide Sum;
    if topP > 1.0 {
      PositiveProduct(topP - 1.0, sum);
      assert (1.0 - topP) * sum == -((topP - 1.0) * sum);
    } else if topP < 0.0 {
      PositiveProduct(-topP, sum);
      assert (1.0 - topP) * sum == sum + (-topP) * sum;
    }
  }

  /** At or below zero, or with no finite logit at all, only the forced last entry is kept. */
  lemma OnlyTheLastIsKept(exp: real -> real, row: Row, idx: seq<nat>, topK: Option<int>, topP: real)
    requires IsExpLike(exp) && SortsBy(row, idx) && |row| > 0 && (topP <= 0.0 || !HasFinite(row))
    requires NeedTopK(topK) ==> topK.value <= |row|
    ensures forall j :: 0 <= j < |row| ==> (KeepMask(exp, row, idx, topK, topP)[idx[j]] <==> j == |row| - 1)
  {
    var sorted := Gather(row, idx);
    var masked := MaskedFill(sorted, SortedTopK(sorted, topK));
    GatherOfKeepMask(exp, row, idx, topK, topP);
    assert SortedTopK(sorted, topK)[|row| - 1];
    forall j | 0 <= j < |row| - 1
      ensures !SortedTopP(exp, masked, topP)[j]
    {
      if !HasFinite(row) {
        NoFiniteWeight(exp, row, idx, topK);
      } else {
        MaskedWeights(exp, row, idx, topK);
        SumPositive(Weights(exp, masked));
        NothingPassesAll(exp, masked, topP, j);
      }
    }
    forall j | 0 <= j < |row|
      ensures KeepMask(exp, row, idx, topK, topP)[idx[j]] == Gather(KeepMask(exp, row, idx, topK, topP), idx)[j]
    {
    }
  }

  lemma NoFiniteWeight(exp: real -> real, row: Row, idx: seq<nat>, topK: Option<int>)
    requires IsPermutation(idx, |row|) && !HasFinite(row)
    requires NeedTopK(topK) ==> topK.value <= |row|
    ensures Softmax(exp, MaskedFill(Gather(row, idx), SortedTopK(Gather(row, idx), topK))) == None
  {
    var ws := MaskedSortedWeights(exp, row, idx, topK);
    ZeroSum(ws, |row|);
  }

  lemma NothingPassesAll(exp: real -> real, masked: Row, topP: real, j: nat)
    requires j < |masked| && topP <= 0.0 && NonNegative(Weights(exp, masked)) && Sum(Weights(exp, masked)) > 0.0
    ensures !PrefixAbove(Softmax(exp, masked), |masked|, 1.0 - topP)[j]
  {
    var ws := Weights(exp, masked);
    PrefixProbability(exp, masked, 1.0 - topP, j);
    hide PrefixAbove, Weights;
    BeyondTheWhole(ws, topP);
    PrefixSumMonotone(ws, j + 1, |ws|);
  }

  lemma KeepMaskIsKept(exp: real -> real, row: Row, idx: seq<nat>, topK: Option<int>, topP: real)
    requires IsExpLike(exp) && SortsBy(row, idx) && |row| > 0
    requires NeedTopK(topK) ==> topK.value <= |row|
    ensures IsPermutation(idx, |row|) && IsKept(exp, row, idx, topK, topP, KeepMask(exp, row, idx, topK, topP))
  {
    hide KeepMask, TopKSet, IsNucleus, IsTopK;
    if HasFinite(row) && 0.0 < topP < 1.0 {
      KeepMaskIsNucleus(exp, row, idx, topK, topP);
    } else if HasFinite(row) && topP > 1.0 {
      LargePKeepsTopK(exp, row, idx, topK, topP);
      TopKSetIsTopK(row, topK, []);
    } else if topP <= 0.0 || !HasFinite(row) {
      OnlyTheLastIsKept(exp, row, idx, topK, topP);
    }
  }

  // ---------------------------------------------------------------------------------------
  // The filter itself
  // ---------------------------------------------------------------------------------------

  /** Masking in sorted order and scattering back is masking in place: the logit where kept, minus infinity elsewhere. */
  lemma ScatterIsPointwise(row: Row, idx: seq<nat>, base: Row, mask: seq<bool>, keep: seq<bool>)
    requires IsPermutation(idx, |row|) && |mask| == |keep| == |row| == |base|
    requires mask == Gather(keep, idx)
    ensures Scatter(base, idx, MaskedFill(Gather(row, idx), mask)) == MaskedFill(row, keep)
  {
    assert MaskedFill(Gather(row, idx), mask) == Gather(MaskedFill(row, keep), idx);
    ScatterUndoesGather(base, idx, MaskedFill(row, keep));
  }

  /** One row of a chunk: sort, top-k fill, top-p fill, scatter back. */
  method FilterRow(exp: real -> real, row: Row, idx: seq<nat>, topK: Option<int>, topP: real)
      returns (filtered: Row, keep: seq<bool>)
    requires |row| > 0 && SortsBy(row, idx)
    requires NeedTopK(topK) ==> topK.value <= |row|
    ensures |keep| == |filtered| == |row| && keep == KeepMask(exp, row, idx, topK, topP)
    ensures IsExpLike(exp) ==> IsPermutation(idx, |row|) && IsKept(exp, row, idx, topK, topP, keep)
    ensures forall j :: 0 <= j < |row| ==> filtered[j] == if keep[j] then row[j] else NegInf
  {
    var sorted := Gather(row, idx);
    ghost var original := sorted;
    var topKMask := seq(|row|, _ => true);
    if NeedTopK(topK) {
      var threshold := sorted[|row| - topK.value];
      topKMask := AtLeast(sorted, threshold);
      sorted := MaskedFill(sorted, topKMask);
    }
    assert topKMask == SortedTopK(original, topK);
    assert sorted == MaskedFill(original, topKMask);
    var topPMask := PrefixAbove(Softmax(exp, sorted), |sorted|, 1.0 - topP);
    topPMask := topPMask[|row| - 1 := true];
    assert topPMask == SortedTopP(exp, sorted, topP);
    sorted := MaskedFill(sorted, topPMask);
    filtered := Scatter(sorted, idx, sorted);
    var mask := if NeedTopK(topK) then And(topKMask, topPMask) else topPMask;
    keep := Scatter(mask, idx, mask);
    assert mask == And(topKMask, topPMask);
    hide Scatter, SortedTopK, SortedTopP;
    FilledTwice(original, topKMask, topPMask);
    GatherOfKeepMask(exp, row, idx, topK, topP);
    ScatterIsPointwise(row, idx, sorted, mask, keep);
    if IsExpLike(exp) {
      KeepMaskIsKept(exp, row, idx, topK, topP);
    }
  }

  lemma FilledTwice(row: Row, a: seq<bool>, b: seq<bool>)
    requires |a| == |b| == |row|
    ensures MaskedFill(MaskedFill(row, a), b) == MaskedFill(row, And(a, b))
  {
  }

  datatype FilterError = ChunkOfZero | TopKOutOfRange

  datatype Filtered = Filtered(logits: seq<Row>, keep: Option<seq<seq<bool>>>)

  /** Every row is sorted by the order chosen for it, and k fits. */
  ghost predicate Filterable(order: Row -> seq<nat>, logits: seq<Row>, topK: Option<int>)
  {
    forall i :: 0 <= i < |logits| ==>
      && |logits[i]| > 0 && SortsBy(logits[i], order(logits[i]))
      && (NeedTopK(topK) ==> topK.value <= |logits[i]|)
  }

  /** Freshly allocated output tensors: their contents until they are filled. */
  datatype Memory = Memory(logits: seq<Row>, keep: seq<seq<bool>>)

  /** One token's outputs: its logit where the mask keeps it, minus infinity elsewhere. */
  ghost predicate IsMasked(row: Row, keep: seq<bool>, filtered: Row)
  {
    |keep| == |filtered| == |row| && forall j :: 0 <= j < |row| ==> filtered[j] == if keep[j] then row[j] else NegInf
  }

  /** A token's mask is the filter's, and its outputs are masked by it. */
  ghost predicate IsFilteredToken(exp: real -> real, order: Row -> seq<nat>, row: Row, topK: Option<int>, topP: real,
                                  keep: seq<bool>, filtered: Row)
  {
    && IsMasked(row, keep, filtered) && IsPermutation(order(row), |row|)
    && (IsExpLike(exp) ==> IsKept(exp, row, order(row), topK, topP, keep))
    && |row| > 0 && (NeedTopK(topK) ==> topK.value <= |row|) && keep == KeepMask(exp, row, order(row), topK, topP)
  }

  /**
   The whole filter over flattened tokens. Each token's mask depends on its own row alone, so the result never depends on
   the chunk size as long as it is positive. A chunk size of zero is an error, and a negative one fills nothing: what is
   returned is what the memory held.
   */
  method ApplyTopKTopP(exp: real -> real, order: Row -> seq<nat>, vocab: nat, logits: seq<Row>,
                       topK: Option<int>, topP: Option<real>, chunkSize: Option<int>, memory: Memory)
      returns (r: Result<Filtered, FilterError>)
    requires vocab > 0 && Filterable(order, logits, None)
    requires forall i :: 0 <= i < |logits| ==> |logits[i]| == vocab
    ensures (topP == None || topP == Some(1.0)) && !(topK.Some? && topK.value > 0) ==> r == Ok(Filtered(logits, None))
    ensures (topP == None || topP == Some(1.0)) && topK.Some? && topK.value > 0 ==>
              if topK.value > vocab then r == Err(TopKOutOfRange)
              else
                && r.Ok? && r.value.keep.Some? && |r.value.logits| == |r.value.keep.value| == |logits|
                && forall i :: 0 <= i < |logits| ==>
                     IsTopK(logits[i], topK, r.value.keep.value[i]) && IsMasked(logits[i], r.value.keep.value[i], r.value.logits[i])
    ensures topP.Some? && topP.value != 1.0 ==>
              if chunkSize == Some(0) || (chunkSize == None && |logits| == 0) then r == Err(ChunkOfZero)
              else if chunkSize.Some? && chunkSize.value < 0 then r == Ok(Filtered(memory.logits, Some(memory.keep)))
              else if topK.Some? && topK.value > 0 && topK.value > vocab && |logits| > 0 then r == Err(TopKOutOfRange)
              else
                && r.Ok? && r.value.keep.Some? && |r.value.logits| == |r.value.keep.value| == |logits|
                && forall i :: 0 <= i < |logits| ==>
                     IsFilteredToken(exp, order, logits[i], topK, topP.value, r.value.keep.value[i], r.value.logits[i])
  {
    if !NeedTopP(topP) {
      if !NeedTopK(topK) {
        return Ok(Filtered(logits, None));
      }
      if topK.value > vocab {
        return Err(TopKOutOfRange);
      }
      var masks := seq(|logits|, i requires 0 <= i < |logits| => TopKOnly(logits[i], order(logits[i]), topK.value));
      forall i | 0 <= i < |logits|
        ensures IsTopK(logits[i], topK, masks[i])
      {
        TopKOnlyIsTopKSet(logits[i], order(logits[i]), topK.value);
        TopKSetIsTopK(logits[i], topK, []);
      }
      return Ok(Filtered(seq(|logits|, i requires 0 <= i < |logits| => MaskedFill(logits[i], masks[i])), Some(masks)));
    }
    var n := |logits|;
    var step: int := if chunkSize.Some? then chunkSize.value else n;
    if step == 0 {
      return Err(ChunkOfZero);
    }
    if step < 0 {
      return Ok(Filtered(memory.logits, Some(memory.keep)));
    }
    if NeedTopK(topK) && topK.value > vocab && n > 0 {
      return Err(TopKOutOfRange);
    }
    var filtered, keep := FilterInChunks(exp, order, logits, topK, topP.value, step);
    r := Ok(Filtered(filtered[..], Some(keep[..])));
  }

  method FilterToken(exp: real -> real, order: Row -> seq<nat>, logits: seq<Row>, topK: Option<int>, topP: real, t: nat)
      returns (filtered: Row, keep: seq<bool>)
    requires Filterable(order, logits, topK) && t < |logits|
    ensures IsFilteredToken(exp, order, logits[t], topK, topP, keep, filtered)
  {
    filtered, keep := FilterRow(exp, logits[t], order(logits[t]), topK, topP);
    hide KeepMask, IsKept, Sorted;
  }

  method FilterInChunks(exp: real -> real, order: Row -> seq<nat>, logits: seq<Row>,
                        topK: Option<int>, topP: real, step: nat)
      returns (filtered: array<Row>, keep: array<seq<bool>>)
    requires step > 0 && Filterable(order, logits, topK)
    ensures fresh(filtered) && fresh(keep) && filtered.Length == keep.Length == |logits|
    ensures forall i :: 0 <= i < |logits| ==> IsFilteredToken(exp, order, logits[i], topK, topP, keep[i], filtered[i])
  {
    var n := |logits|;
    hide Filterable, IsFilteredToken;
    filtered := new Row[n](_ => []);
    keep := new seq<bool>[n](_ => []);
    var start := 0;
    while start < n
      invariant 0 <= start
      invariant forall i :: 0 <= i < n && i < start ==> IsFilteredToken(exp, order, logits[i], topK, topP, keep[i], filtered[i])
    {
      var end := if start + step < n then start + step else n;
      for t := start to end
        invariant forall i :: 0 <= i < t ==> IsFilteredToken(exp, order, logits[i], topK, topP, keep[i], filtered[i])
      {
        var row, mask := FilterToken(exp, order, logits, topK, topP, t);
        filtered[t], keep[t] := row, mask;
      }
      start := start + step;
    }
  }

  /** An ascending order exists for every row, so what is asked of `order` can always be met. */
  lemma {:induction false} SortExists(row: Row) returns (idx: seq<nat>)
    ensures SortsBy(row, idx)
    decreases |row|
  {
    idx := [];
    if row != [] {
      var n := |row| - 1;
      var rest := SortExists(row[..n]);
      var p := n;
      while p > 0 && Less(row[n], row[rest[p - 1]])
        invariant p <= n
        invariant forall j :: p <= j < n ==> Less(row[n], row[rest[j]])
      {
        p := p - 1;
      }
      idx := rest[..p] + [n] + rest[p..];
      InsertKeepsSorted(row, rest, p);
    }
  }

  lemma InsertKeepsSorted(row: Row, rest: seq<nat>, p: nat)
    requires |row| > 0 && SortsBy(row[..|row| - 1], rest) && p <= |rest|
    requires p > 0 ==> !Less(row[|row| - 1], row[rest[p - 1]])
    requires forall j :: p <= j < |rest| ==> Less(row[|row| - 1], row[rest[j]])
    ensures SortsBy(row, rest[..p] + [|row| - 1] + rest[p..])
  {
    var n := |row| - 1;
    var front := Gather(row[..n], rest);
    InsertPermutation(rest, n, p);
    hide IsPermutation;
    InsertSorted(front, row[n], p);
    assert Gather(row, rest[..p] + [n] + rest[p..]) == front[..p] + [row[n]] + front[p..];
  }

  lemma InsertPermutation(rest: seq<nat>, n: nat, p: nat)
    requires IsPermutation(rest, n) && p <= n
    ensures IsPermutation(rest[..p] + [n] + rest[p..], n + 1)
  {
    var idx := rest[..p] + [n] + rest[p..];
    assert forall j :: 0 <= j < n + 1 ==> idx[j] == if j < p then rest[j] else if j == p then n else rest[j - 1];
  }

  lemma InsertSorted(row: Row, x: Logit, p: nat)
    requires Sorted(row) && p <= |row|
    requires p > 0 ==> !Less(x, row[p - 1])
    requires forall j :: p <= j < |row| ==> Less(x, row[j])
    ensures Sorted(row[..p] + [x] + row[p..])
  {
    var r := row[..p] + [x] + row[p..];
    forall i, j | 0 <= i <= j < |r|
      ensures !Less(r[j], r[i])
    {
      if i < p {
        assert !Less(row[p - 1], row[i]);
      }
      if i != p && j != p {
        var a, b := if i < p then i else i - 1, if j < p then j else j - 1;
        assert !Less(row[b], row[a]);
      }
    }
  }

  // ---------------------------------------------------------------------------------------
  // The backward pass, with the mask saved by the forward pass
  // ---------------------------------------------------------------------------------------

  /** The gradient of one row: what reached a filtered token is dropped. */
  function Backward(grads: seq<real>, keep: Option<seq<bool>>): (r: seq<real>)
    requires keep.Some? ==> |keep.value| == |grads|
    ensures |r| == |grads|
  {
    if keep.None? then grads
    else seq(|grads|, i requires 0 <= i < |grads| => if keep.value[i] then grads[i] else 0.0)
  }

  /** How a filtered row moves when its logits move and the mask stays: only kept tokens move. */
  function Tangent(moves: seq<real>, keep: Option<seq<bool>>): (r: seq<real>)
    requires keep.Some? ==> |keep.value| == |moves|
    ensures |r| == |moves|
  {
    seq(|moves|, i requires 0 <= i < |moves| => if keep.None? || keep.value[i] then moves[i] else 0.0)
  }

  function Moved(row: Row, moves: seq<real>): (r: Row)
    requires |moves| == |row|
    ensures |r| == |row|
  {
    seq(|row|, i requires 0 <= i < |row| => if row[i].Fin? then Fin(row[i].value + moves[i]) else NegInf)
  }

  /** `Tangent` is the movement of the filter's output: filtering a moved row moves the filtered row by it. */
  lemma TangentMovesTheOutput(row: Row, moves: seq<real>, keep: seq<bool>)
    requires |moves| == |keep| == |row|
    ensures MaskedFill(Moved(row, moves), keep) == Moved(MaskedFill(row, keep), Tangent(moves, Some(keep)))
    ensures forall i :: 0 <= i < |row| ==>
      MaskedFill(Moved(row, moves), keep)[i] == if keep[i] && row[i].Fin? then Fin(row[i].value + moves[i]) else NegInf
  {
    var a, b := MaskedFill(Moved(row, moves), keep), Moved(MaskedFill(row, keep), Tangent(moves, Some(keep)));
    forall i | 0 <= i < |row|
      ensures a[i] == b[i]
    {
    }
  }

  /** The inner product of the first `n` entries. */
  function Dot(xs: seq<real>, ys: seq<real>, n: nat): real
    requires n <= |xs| && n <= |ys|
  {
    if n == 0 then 0.0 else Dot(xs, ys, n - 1) + xs[n - 1] * ys[n - 1]
  }

  /** The backward pass is the adjoint of that movement, so it is the gradient through the filter. */
  lemma {:induction false} BackwardIsAdjoint(grads: seq<real>, moves: seq<real>, keep: Option<seq<bool>>, n: nat)
    requires n <= |grads| == |moves| && (keep.Some? ==> |keep.value| == |grads|)
    ensures Dot(grads, Tangent(moves, keep), n) == Dot(Backward(grads, keep), moves, n)
  {
    if n > 0 {
      BackwardIsAdjoint(grads, moves, keep, n - 1);
      if keep.Some? && !keep.value[n - 1] {
        assert Tangent(moves, keep)[n - 1] == 0.0 && Backward(grads, keep)[n - 1] == 0.0;
      } else {
        assert Tangent(moves, keep)[n - 1] == moves[n - 1] && Backward(grads, keep)[n - 1] == grads[n - 1];
      }
    }
  }
}
