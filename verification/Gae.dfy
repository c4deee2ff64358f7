/**
 Generalized Advantage Estimation over one row of a batch: the carry-forward loop, the
 vectorised fast path, the terminal reward and the decoupled policy/value lambdas.
 Every tensor operation involved acts on each row by itself, so a row is a sequence of reals.
 */
module Gae {
  import opened Prelude
  import opened Tensor

  /** A response-mask entry. */
  type Bit = b: int | 0 <= b <= 1

  // ---------------------------------------------------------------------------------------
  // Reference definition: plain GAE on the compressed sequence, expanded back
  // ---------------------------------------------------------------------------------------

  /** Number of valid tokens strictly before position `t`. */
  function Rank(mask: seq<Bit>, t: nat): (r: nat)
    requires t <= |mask|
    ensures r <= t
  {
    if t == 0 then 0 else Rank(mask, t - 1) + mask[t - 1]
  }

  /** Which of the first `t` positions are valid. */
  function ValidBefore(mask: seq<Bit>, t: nat): set<nat>
    requires t <= |mask|
  {
    set i: nat | i < t && mask[i] == 1
  }

  /** The rank counts the valid positions. */
  lemma {:induction false} RankCounts(mask: seq<Bit>, t: nat)
    requires t <= |mask|
    ensures Rank(mask, t) == |ValidBefore(mask, t)|
  {
    if t > 0 {
      RankCounts(mask, t - 1);
      assert ValidBefore(mask, t) == ValidBefore(mask, t - 1) + if mask[t - 1] == 1 then {t - 1} else {};
    }
  }

  /** The entries of the first `t` positions that the mask keeps, in order. */
  function CompressUpTo(xs: seq<real>, mask: seq<Bit>, t: nat): (c: seq<real>)
    requires |xs| == |mask| && t <= |mask|
    ensures |c| == Rank(mask, t)
  {
    if t == 0 then []
    else CompressUpTo(xs, mask, t - 1) + (if mask[t - 1] == 1 then [xs[t - 1]] else [])
  }

  function Compress(xs: seq<real>, mask: seq<Bit>): seq<real>
    requires |xs| == |mask|
  {
    CompressUpTo(xs, mask, |mask|)
  }

  function Pow(x: real, n: nat): real
  {
    if n == 0 then 1.0 else x * Pow(x, n - 1)
  }

  /** The value after position `k`, with a zero terminal bootstrap. */
  function ValueAt(vs: seq<real>, k: nat): real
  {
    if k < |vs| then vs[k] else 0.0
  }

  function TdError(rs: seq<real>, vs: seq<real>, gamma: real, k: nat): real
    requires k < |rs| == |vs|
  {
    rs[k] + gamma * ValueAt(vs, k + 1) - vs[k]
  }

  /** The first `n` terms of the sum over l of (gamma * lambda)^l * delta_{j+l}. */
  function GaeTerms(rs: seq<real>, vs: seq<real>, gamma: real, lam: real, j: nat, n: nat): real
    requires |rs| == |vs| && j + n <= |rs|
  {
    if n == 0 then 0.0
    else GaeTerms(rs, vs, gamma, lam, j, n - 1) + Pow(gamma * lam, n - 1) * TdError(rs, vs, gamma, j + n - 1)
  }

  /** Textbook GAE of an unmasked sequence at `j`; zero one past the end. */
  function PlainGae(rs: seq<real>, vs: seq<real>, gamma: real, lam: real, j: nat): real
    requires j <= |rs| == |vs|
  {
    GaeTerms(rs, vs, gamma, lam, j, |rs| - j)
  }

  /** Plain GAE on the valid tokens alone, read back at `t`: a masked position takes the next valid token's value. */
  function MaskedGae(rs: seq<real>, vs: seq<real>, mask: seq<Bit>, gamma: real, lam: real, t: nat): real
    requires |rs| == |vs| == |mask| && t <= |mask|
  {
    RankMonotone(mask, t, |mask|);
    PlainGae(Compress(rs, mask), Compress(vs, mask), gamma, lam, Rank(mask, t))
  }

  lemma {:induction false} RankMonotone(mask: seq<Bit>, s: nat, t: nat)
    requires s <= t <= |mask|
    ensures Rank(mask, s) <= Rank(mask, t)
    decreases t - s
  {
    if s < t {
      RankMonotone(mask, s, t - 1);
    }
  }

  /** A valid token sits in the compressed sequence at its rank. */
  lemma {:induction false} CompressedEntry(xs: seq<real>, mask: seq<Bit>, t: nat, n: nat)
    requires |xs| == |mask| && t < n <= |mask| && mask[t] == 1
    ensures Rank(mask, t) < Rank(mask, n)
    ensures CompressUpTo(xs, mask, n)[Rank(mask, t)] == xs[t]
    decreases n
  {
    if t < n - 1 {
      CompressedEntry(xs, mask, t, n - 1);
    }
  }

  lemma LastGaeTerm(rs: seq<real>, vs: seq<real>, gamma: real, lam: real, j: nat, n: nat)
    requires |rs| == |vs| && j + n + 1 <= |rs|
    ensures GaeTerms(rs, vs, gamma, lam, j, n + 1)
         == GaeTerms(rs, vs, gamma, lam, j, n) + Pow(gamma * lam, n) * TdError(rs, vs, gamma, j + n)
  {
  }

  lemma PowStep(x: real, n: nat)
    ensures Pow(x, 0) == 1.0 && Pow(x, n + 1) == x * Pow(x, n)
  {
  }

  lemma NoGaeTerms(rs: seq<real>, vs: seq<real>, gamma: real, lam: real, j: nat)
    requires |rs| == |vs| && j <= |rs|
    ensures GaeTerms(rs, vs, gamma, lam, j, 0) == 0.0
  {
  }

  lemma {:induction false} GaeTermsPeel(rs: seq<real>, vs: seq<real>, gamma: real, lam: real, j: nat, n: nat)
    requires |rs| == |vs| && j + n + 1 <= |rs|
    ensures GaeTerms(rs, vs, gamma, lam, j, n + 1)
         == TdError(rs, vs, gamma, j) + gamma * lam * GaeTerms(rs, vs, gamma, lam, j + 1, n)
  {
    hide GaeTerms, Pow, TdError;
    var x := gamma * lam;
    LastGaeTerm(rs, vs, gamma, lam, j, n);
    if n == 0 {
      NoGaeTerms(rs, vs, gamma, lam, j);
      NoGaeTerms(rs, vs, gamma, lam, j + 1);
      PowStep(x, 0);
    } else {
      GaeTermsPeel(rs, vs, gamma, lam, j, n - 1);
      LastGaeTerm(rs, vs, gamma, lam, j + 1, n - 1);
      PowStep(x, n - 1);
      PeelOneTerm(TdError(rs, vs, gamma, j), x, GaeTerms(rs, vs, gamma, lam, j + 1, n - 1), Pow(x, n - 1),
                  TdError(rs, vs, gamma, j + n), Pow(x, n),
                  GaeTerms(rs, vs, gamma, lam, j, n), GaeTerms(rs, vs, gamma, lam, j, n + 1));
    }
  }

  lemma PeelOneTerm(delta: real, x: real, inner: real, p: real, d: real, q: real, before: real, after: real)
    requires before == delta + x * inner && q == x * p && after == before + q * d
    ensures after == delta + x * (inner + p * d)
  {
    DistributeTail(x, inner, p, d);
  }

  lemma DistributeTail(x: real, a: real, p: real, d: real)
    ensures x * (a + p * d) == x * a + (x * p) * d
  {
  }

  /** delta_j + gamma * lambda * A_{j+1} */
  function Recurrence(delta: real, gamma: real, lam: real, next: real): real
  {
    delta + gamma * lam * next
  }

  /** The backward recurrence A_j = delta_j + gamma * lambda * A_{j+1}. */
  lemma PlainGaeStep(rs: seq<real>, vs: seq<real>, gamma: real, lam: real, j: nat)
    requires j < |rs| == |vs|
    ensures PlainGae(rs, vs, gamma, lam, j)
         == Recurrence(TdError(rs, vs, gamma, j), gamma, lam, PlainGae(rs, vs, gamma, lam, j + 1))
  {
    GaeTermsPeel(rs, vs, gamma, lam, j, |rs| - j - 1);
  }

  // ---------------------------------------------------------------------------------------
  // The general path: the backward loop with carried accumulators
  // ---------------------------------------------------------------------------------------

  /** `x` where the mask is one, the carried `y` where it is zero. */
  function Blend(x: real, y: real, m: Bit): (z: real)
    ensures z == if m == 1 then x else y
  {
    assert m == 0 || m == 1;
    x * (m as real) + (1.0 - (m as real)) * y
  }

  /** What one loop iteration does to the two accumulators, in terms of the compressed sequence. */
  lemma CarryForwardStep(rs: seq<real>, vs: seq<real>, mask: seq<Bit>, gamma: real, lam: real, t: nat,
                         nextValue: real, lastGae: real)
    requires |rs| == |vs| == |mask| && t < |mask|
    requires nextValue == ValueAt(Compress(vs, mask), Rank(mask, t + 1))
    requires lastGae == MaskedGae(rs, vs, mask, gamma, lam, t + 1)
    ensures Blend(vs[t], nextValue, mask[t]) == ValueAt(Compress(vs, mask), Rank(mask, t))
    ensures Blend(Recurrence(rs[t] + gamma * nextValue - vs[t], gamma, lam, lastGae), lastGae, mask[t])
         == MaskedGae(rs, vs, mask, gamma, lam, t)
  {
    hide Blend, GaeTerms, Recurrence;
    if mask[t] == 1 {
      CompressedEntry(rs, mask, t, |mask|);
      CompressedEntry(vs, mask, t, |mask|);
      PlainGaeStep(Compress(rs, mask), Compress(vs, mask), gamma, lam, Rank(mask, t));
      var delta := rs[t] + gamma * nextValue - vs[t];
      assert delta == TdError(Compress(rs, mask), Compress(vs, mask), gamma, Rank(mask, t));
    }
  }

  method CarryForwardLoop(rs: seq<real>, vs: seq<real>, mask: seq<Bit>, gamma: real, lam: real)
      returns (advantages: seq<real>, returns_: seq<real>)
    requires |rs| == |vs| == |mask|
    ensures |advantages| == |returns_| == |mask|
    ensures forall t :: 0 <= t < |mask| ==> advantages[t] == MaskedGae(rs, vs, mask, gamma, lam, t)
    ensures forall t :: 0 <= t < |mask| ==> returns_[t] == advantages[t] + vs[t]
  {
    var nextValue, lastGae := 0.0, 0.0;
    var reversed: seq<real> := [];
    var t := |mask|;
    assert lastGae == MaskedGae(rs, vs, mask, gamma, lam, t);
    hide Blend, Recurrence, MaskedGae, Compress;
    while t > 0
      invariant 0 <= t <= |mask| && |reversed| == |mask| - t
      invariant nextValue == ValueAt(Compress(vs, mask), Rank(mask, t))
      invariant lastGae == MaskedGae(rs, vs, mask, gamma, lam, t)
      invariant forall i :: 0 <= i < |reversed| ==>
                  reversed[i] == MaskedGae(rs, vs, mask, gamma, lam, |mask| - 1 - i)
    {
      t := t - 1;
      CarryForwardStep(rs, vs, mask, gamma, lam, t, nextValue, lastGae);
      var delta := rs[t] + gamma * nextValue - vs[t];
      var newGae := Recurrence(delta, gamma, lam, lastGae);
      nextValue := Blend(vs[t], nextValue, mask[t]);
      lastGae := Blend(newGae, lastGae, mask[t]);
      reversed := reversed + [lastGae];
    }
    advantages := Flip(reversed);
    returns_ := seq(|mask|, i requires 0 <= i < |mask| => advantages[i] + vs[i]);
  }

  // ---------------------------------------------------------------------------------------
  // The fast path for gamma = lambda = 1: reverse cumsum, reverse cummin, gather
  // ---------------------------------------------------------------------------------------

  function Min(a: int, b: int): int { if b < a then b else a }

  function CumMin(xs: seq<int>): (ys: seq<int>)
    ensures |ys| == |xs|
  {
    if xs == [] then []
    else
      var front := CumMin(xs[..|xs| - 1]);
      front + [if front == [] then xs[|xs| - 1] else Min(front[|front| - 1], xs[|xs| - 1])]
  }

  /** An entry times its mask. */
  function Gate(x: real, m: Bit): (y: real)
    ensures y == if m == 1 then x else 0.0
  {
    assert m == 0 || m == 1;
    x * (m as real)
  }

  function RewardToGo(rs: seq<real>, mask: seq<Bit>): (y: seq<real>)
    requires |rs| == |mask|
    ensures |y| == |mask|
  {
    var masked := seq(|mask|, i requires 0 <= i < |mask| => Gate(rs[i], mask[i]));
    Flip(CumSum(Flip(masked)))
  }

  /** `cummin` at `i` is attained at or before `i` and bounds every entry there. */
  lemma {:induction false} CumMinEntry(xs: seq<int>, i: nat) returns (k: nat)
    requires i < |xs|
    ensures k <= i && CumMin(xs)[i] == xs[k]
    ensures forall j :: 0 <= j <= i ==> CumMin(xs)[i] <= xs[j]
  {
    var front := xs[..|xs| - 1];
    if i < |xs| - 1 {
      k := CumMinEntry(front, i);
      assert CumMin(xs)[i] == CumMin(front)[i];
      assert forall j :: 0 <= j <= i ==> xs[j] == front[j];
    } else if i == 0 {
      k := 0;
    } else {
      k := CumMinEntry(front, i - 1);
      assert forall j :: 0 <= j < i ==> xs[j] == front[j];
      if xs[i] < xs[k] {
        k := i;
      }
    }
  }

  /** The position of every valid token, the row length elsewhere. */
  function ValidIndices(mask: seq<Bit>): (y: seq<int>)
    ensures |y| == |mask|
  {
    seq(|mask|, i requires 0 <= i < |mask| => if mask[i] == 1 then i else |mask|)
  }

  function NextValid(mask: seq<Bit>): (y: seq<int>)
    ensures |y| == |mask|
  {
    Flip(CumMin(Flip(ValidIndices(mask))))
  }

  /** The first valid position at or after `t`, or the row length when there is none. */
  lemma NextValidEntry(mask: seq<Bit>, t: nat)
    requires t < |mask|
    ensures t <= NextValid(mask)[t] <= |mask|
    ensures NextValid(mask)[t] < |mask| ==> mask[NextValid(mask)[t]] == 1
    ensures forall k :: t <= k < |mask| && k < NextValid(mask)[t] ==> mask[k] == 0
  {
    var n := |mask|;
    var indices := ValidIndices(mask);
    var flipped := Flip(indices);
    var k := CumMinEntry(flipped, n - 1 - t);
    assert NextValid(mask)[t] == flipped[k] == indices[n - 1 - k];
    forall j | t <= j < n && j < NextValid(mask)[t]
      ensures mask[j] == 0
    {
      assert flipped[n - 1 - j] == indices[j];
    }
  }

  lemma NextValidInRange(mask: seq<Bit>)
    ensures forall t :: 0 <= t < |mask| ==> 0 <= NextValid(mask)[t] <= |mask|
  {
    forall t | 0 <= t < |mask|
      ensures 0 <= NextValid(mask)[t] <= |mask|
    {
      NextValidEntry(mask, t);
    }
  }

  function FastAdvantages(rs: seq<real>, vs: seq<real>, mask: seq<Bit>): (adv: seq<real>)
    requires |rs| == |vs| == |mask|
    ensures |adv| == |mask|
  {
    NextValidInRange(mask);
    var toGo := RewardToGo(rs, mask);
    var nextValid := NextValid(mask);
    var padded := vs + [0.0];
    seq(|mask|, i requires 0 <= i < |mask| => toGo[i] - padded[nextValid[i]])
  }

  // ---- the two paths agree ----------------------------------------------------------------

  /** Sum over k >= j of gamma^(k-j) * rs[k]. */
  function DiscountedSum(rs: seq<real>, gamma: real, j: nat): real
    requires j <= |rs|
    decreases |rs| - j
  {
    if j == |rs| then 0.0 else rs[j] + gamma * DiscountedSum(rs, gamma, j + 1)
  }

  /** With lambda = 1 the value terms cancel: A_j is the discounted reward-to-go minus the value at j. */
  lemma {:induction false} LambdaOneTelescopes(rs: seq<real>, vs: seq<real>, gamma: real, j: nat)
    requires j <= |rs| == |vs|
    ensures PlainGae(rs, vs, gamma, 1.0, j) == DiscountedSum(rs, gamma, j) - ValueAt(vs, j)
    decreases |rs| - j
  {
    if j < |rs| {
      LambdaOneTelescopes(rs, vs, gamma, j + 1);
      PlainGaeStep(rs, vs, gamma, 1.0, j);
      var s, v := DiscountedSum(rs, gamma, j + 1), ValueAt(vs, j + 1);
      assert gamma * 1.0 * (s - v) == gamma * s - gamma * v;
    }
  }

  /** Masked rewards summed from `t` to the end. */
  function MaskedTail(rs: seq<real>, mask: seq<Bit>, t: nat): real
    requires t <= |rs| == |mask|
    decreases |rs| - t
  {
    if t == |rs| then 0.0 else Gate(rs[t], mask[t]) + MaskedTail(rs, mask, t + 1)
  }

  lemma {:induction false} RewardToGoIsTail(rs: seq<real>, mask: seq<Bit>, t: nat)
    requires t < |rs| == |mask|
    ensures RewardToGo(rs, mask)[t] == MaskedTail(rs, mask, t)
    decreases |rs| - t
  {
    var n := |mask|;
    var masked := seq(n, i requires 0 <= i < n => Gate(rs[i], mask[i]));
    hide Gate;
    CumSumEntry(Flip(masked), n - 1 - t);
    assert RewardToGo(rs, mask)[t] == CumSum(Flip(masked))[n - 1 - t];
    if t < n - 1 {
      RewardToGoIsTail(rs, mask, t + 1);
    }
  }

  lemma {:induction false} TailIsCompressedSum(rs: seq<real>, mask: seq<Bit>, t: nat)
    requires t <= |rs| == |mask|
    ensures Rank(mask, t) <= |Compress(rs, mask)|
    ensures MaskedTail(rs, mask, t) == DiscountedSum(Compress(rs, mask), 1.0, Rank(mask, t))
    decreases |rs| - t
  {
    RankMonotone(mask, t, |mask|);
    if t < |rs| {
      TailIsCompressedSum(rs, mask, t + 1);
      hide Gate, CompressUpTo;
      if mask[t] == 1 {
        CompressedEntry(rs, mask, t, |mask|);
      }
    }
  }

  lemma {:induction false} RankSkipsMasked(mask: seq<Bit>, t: nat, u: nat)
    requires t <= u <= |mask|
    requires forall k :: t <= k < u ==> mask[k] == 0
    ensures Rank(mask, t) == Rank(mask, u)
    decreases u - t
  {
    if t < u {
      RankSkipsMasked(mask, t, u - 1);
    }
  }

  lemma GatheredValue(vs: seq<real>, mask: seq<Bit>, t: nat)
    requires t < |vs| == |mask|
    ensures 0 <= NextValid(mask)[t] <= |mask|
    ensures (vs + [0.0])[NextValid(mask)[t]] == ValueAt(Compress(vs, mask), Rank(mask, t))
  {
    NextValidEntry(mask, t);
    var u := NextValid(mask)[t];
    RankSkipsMasked(mask, t, u);
    if u < |mask| {
      CompressedEntry(vs, mask, u, |mask|);
    }
  }

  /** The scan/gather form equals the carry-forward form at every position, valid or masked. */
  lemma FastPathRefinesLoop(rs: seq<real>, vs: seq<real>, mask: seq<Bit>, t: nat)
    requires t < |rs| == |vs| == |mask|
    ensures FastAdvantages(rs, vs, mask)[t] == MaskedGae(rs, vs, mask, 1.0, 1.0, t)
  {
    RankMonotone(mask, t, |mask|);
    LambdaOneTelescopes(Compress(rs, mask), Compress(vs, mask), 1.0, Rank(mask, t));
    TailIsCompressedSum(rs, mask, t);
    RewardToGoIsTail(rs, mask, t);
    GatheredValue(vs, mask, t);
  }

  // ---------------------------------------------------------------------------------------
  // Dispatch, lambdas, rewards
  // ---------------------------------------------------------------------------------------

  /** A configured scalar, or the length-adaptive tensor's entry for this row. */
  datatype Lambda = Scalar(value: real) | PerSample(value: real)

  method ComputeGae(rs: seq<real>, vs: seq<real>, mask: seq<Bit>, gamma: real, lam: Lambda)
      returns (advantages: seq<real>, returns_: seq<real>)
    requires |rs| == |vs| == |mask|
    ensures |advantages| == |returns_| == |mask|
    ensures forall t :: 0 <= t < |mask| ==> advantages[t] == MaskedGae(rs, vs, mask, gamma, lam.value, t)
    ensures forall t :: 0 <= t < |mask| ==> returns_[t] == advantages[t] + vs[t]
  {
    if gamma == 1.0 && lam.Scalar? && lam.value == 1.0 {
      advantages := FastAdvantages(rs, vs, mask);
      forall t | 0 <= t < |mask|
        ensures advantages[t] == MaskedGae(rs, vs, mask, gamma, lam.value, t)
      {
        FastPathRefinesLoop(rs, vs, mask, t);
      }
      returns_ := seq(|mask|, i requires 0 <= i < |mask| => advantages[i] + vs[i]);
    } else {
      advantages, returns_ := CarryForwardLoop(rs, vs, mask, gamma, lam.value);
    }
  }

  datatype Config = Config(
    gamma: real,
    lam: real,
    lambdaValue: Option<real>,
    lambdaPolicy: Option<real>,
    lengthAdaptiveAlpha: real)

  function Max(a: real, b: real): real { if a < b then b else a }

  function Clamp(x: real, lo: real, hi: real): real
  {
    if x < lo then lo else if x > hi then hi else x
  }

  /** alpha times the response length, at least one. */
  function Horizon(cfg: Config, mask: seq<Bit>): (h: real)
    ensures h >= 1.0
  {
    var responseLength := Rank(mask, |mask|) as real;
    Max(cfg.lengthAdaptiveAlpha * responseLength, 1.0)
  }

  /** Length-adaptive first, then the policy override, then the common lambda. */
  function ResolveLambdaPolicy(cfg: Config, mask: seq<Bit>): Lambda
  {
    if cfg.lengthAdaptiveAlpha > 0.0 then
      PerSample(Clamp(1.0 - 1.0 / Horizon(cfg, mask), 0.0, 1.0))
    else if cfg.lambdaPolicy.Some? then Scalar(cfg.lambdaPolicy.value)
    else Scalar(cfg.lam)
  }

  function ResolveLambdaValue(cfg: Config): Lambda
  {
    if cfg.lambdaValue.Some? then Scalar(cfg.lambdaValue.value) else Scalar(cfg.lam)
  }

  /** `argmax` of a 0/1 row: the first one, or 0 when there is none. */
  function ArgMax(mask: seq<Bit>): (i: nat)
    requires |mask| > 0
    ensures i < |mask|
    ensures 1 in mask ==> mask[i] == 1 && forall k :: 0 <= k < i ==> mask[k] == 0
    ensures 1 !in mask ==> i == 0
  {
    if mask[0] == 1 || 1 !in mask then 0
    else
      assert 1 in mask[1..];
      1 + ArgMax(mask[1..])
  }

  predicate IsLastValid(mask: seq<Bit>, t: nat)
    requires t < |mask|
  {
    mask[t] == 1 && forall k :: t < k < |mask| ==> mask[k] == 0
  }

  /** Zero off the response; minus the KL penalty on it, plus the scalar reward on its last token. */
  ghost predicate IsTokenReward(rs: seq<real>, mask: seq<Bit>, reward: real, klPenalty: Option<seq<real>>)
    requires |rs| == |mask|
    requires klPenalty.Some? ==> |klPenalty.value| == |mask|
  {
    forall t :: 0 <= t < |mask| ==>
      rs[t] == if mask[t] == 0 then 0.0
               else (if klPenalty.Some? then -klPenalty.value[t] else 0.0) + (if IsLastValid(mask, t) then reward else 0.0)
  }

  lemma TokenRewardEntries(rs: seq<real>, mask: seq<Bit>, reward: real, klPenalty: Option<seq<real>>)
    requires |rs| == |mask| && (klPenalty.Some? ==> |klPenalty.value| == |mask|) && IsTokenReward(rs, mask, reward, klPenalty)
    ensures forall t :: 0 <= t < |mask| && mask[t] == 0 ==> rs[t] == 0.0
    ensures forall t :: 0 <= t < |mask| && mask[t] == 1 ==>
              rs[t] == (if klPenalty.Some? then -klPenalty.value[t] else 0.0)
                     + (if forall k :: t < k < |mask| ==> mask[k] == 0 then reward else 0.0)
  {
    forall t | 0 <= t < |mask| && mask[t] == 1
      ensures IsLastValid(mask, t) <==> forall k :: t < k < |mask| ==> mask[k] == 0
    {
    }
  }

  /**
   Token-level rewards of one row: the KL penalty (already scaled by its coefficient) everywhere,
   plus the scalar reward at the flipped-argmax index, then masked.
   */
  method BuildTokenLevelRewards(reward: real, mask: seq<Bit>, klPenalty: Option<seq<real>>)
      returns (rewards: seq<real>)
    requires |mask| > 0
    requires klPenalty.Some? ==> |klPenalty.value| == |mask|
    ensures |rewards| == |mask|
    ensures IsTokenReward(rewards, mask, reward, klPenalty)
  {
    var n := |mask|;
    rewards := seq(n, _ => 0.0);
    if klPenalty.Some? {
      rewards := seq(n, i requires 0 <= i < n => rewards[i] - klPenalty.value[i]);
    }
    var lastResponse := n - 1 - ArgMax(Flip(mask));
    var hasResponse := 1 in mask;
    ghost var flipped := Flip(mask);
    if hasResponse {
      assert 1 in flipped by {
        var i :| 0 <= i < n && mask[i] == 1;
        assert flipped[n - 1 - i] == 1;
      }
      assert IsLastValid(mask, lastResponse) by {
        assert flipped[ArgMax(flipped)] == mask[lastResponse];
        forall k | lastResponse < k < n ensures mask[k] == 0 {
          assert flipped[n - 1 - k] == mask[k];
        }
      }
      rewards := rewards[lastResponse := rewards[lastResponse] + reward];
    }
    rewards := seq(n, i requires 0 <= i < n => Gate(rewards[i], mask[i]));
  }

  /** The batch's mean and inverse standard deviation of its valid advantages, when they are to be whitened. */
  datatype Whitening = Whitening(mean: real, scale: real)

  function Whitened(whitening: Option<Whitening>, x: real): real
  {
    match whitening
    case None => x
    case Some(w) => (x - w.mean) * w.scale
  }

  /** The advantages are masked GAE under `lam`, whitened if they are to be, and zero off the response. */
  ghost predicate AreAdvantages(advantages: seq<real>, rs: seq<real>, vs: seq<real>, mask: seq<Bit>, gamma: real, lam: real,
                                whitening: Option<Whitening>)
    requires |advantages| == |rs| == |vs| == |mask|
  {
    forall t :: 0 <= t < |mask| ==>
      advantages[t] == if mask[t] == 0 then 0.0
                       else if whitening.None? then MaskedGae(rs, vs, mask, gamma, lam, t)
                       else (MaskedGae(rs, vs, mask, gamma, lam, t) - whitening.value.mean) * whitening.value.scale
  }

  /** The returns are masked GAE under `lam` plus the values. */
  ghost predicate AreReturns(returns_: seq<real>, rs: seq<real>, vs: seq<real>, mask: seq<Bit>, gamma: real, lam: real)
    requires |returns_| == |rs| == |vs| == |mask|
  {
    forall t :: 0 <= t < |mask| ==> returns_[t] == MaskedGae(rs, vs, mask, gamma, lam, t) + vs[t]
  }

  /** Whitening never changes which of two advantages is larger. */
  lemma WhiteningKeepsOrder(w: Whitening, x: real, y: real)
    requires w.scale > 0.0
    ensures Whitened(Some(w), x) < Whitened(Some(w), y) <==> x < y
  {
    Stretch(x - w.mean, y - w.mean, w.scale);
    Stretch(y - w.mean, x - w.mean, w.scale);
    var a, b := (x - w.mean) * w.scale, (y - w.mean) * w.scale;
    assert Whitened(Some(w), x) == a && Whitened(Some(w), y) == b;
  }

  /** Scaling by a positive number keeps the order. */
  lemma Stretch(a: real, b: real, scale: real)
    requires scale > 0.0
    ensures a < b ==> a * scale < b * scale
    ensures a == b ==> a * scale == b * scale
  {
    if a < b {
      PositiveTimes(b - a, scale);
      assert (b - a) * scale == b * scale - a * scale;
    }
  }

  lemma PositiveTimes(d: real, scale: real)
    requires d > 0.0 && scale > 0.0
    ensures d * scale > 0.0
  {
  }

  /** Value returns under one lambda and advantages under another: one pass when they coincide, two otherwise. */
  method DecoupledGae(rs: seq<real>, vs: seq<real>, mask: seq<Bit>, gamma: real, lambdaValue: Lambda, lambdaPolicy: Lambda,
                      whitening: Option<Whitening>)
      returns (advantages: seq<real>, returns_: seq<real>)
    requires |rs| == |vs| == |mask|
    ensures |advantages| == |returns_| == |mask|
    ensures AreAdvantages(advantages, rs, vs, mask, gamma, lambdaPolicy.value, whitening)
    ensures AreReturns(returns_, rs, vs, mask, gamma, lambdaValue.value)
  {
    hide MaskedGae;
    var unused;
    if lambdaPolicy.PerSample? || lambdaValue.value != lambdaPolicy.value {
      unused, returns_ := ComputeGae(rs, vs, mask, gamma, lambdaValue);
      advantages, unused := ComputeGae(rs, vs, mask, gamma, lambdaPolicy);
    } else {
      advantages, returns_ := ComputeGae(rs, vs, mask, gamma, lambdaValue);
    }
    advantages := seq(|mask|, i requires 0 <= i < |mask| => if mask[i] == 0 then 0.0 else Whitened(whitening, advantages[i]));
  }

  /** One row of `compute_advantage`, given the batch's whitening. */
  method ComputeAdvantage(cfg: Config, reward: real, vs: seq<real>, mask: seq<Bit>, klPenalty: Option<seq<real>>,
                          whitening: Option<Whitening>)
      returns (advantages: seq<real>, returns_: seq<real>, rs: seq<real>)
    requires |vs| == |mask| > 0
    requires klPenalty.Some? ==> |klPenalty.value| == |mask|
    ensures |advantages| == |returns_| == |rs| == |mask|
    // The penalties on the response, and the scalar reward on its last token.
    ensures forall t :: 0 <= t < |mask| && mask[t] == 0 ==> rs[t] == 0.0
    ensures forall t :: 0 <= t < |mask| && mask[t] == 1 ==>
              rs[t] == (if klPenalty.Some? then -klPenalty.value[t] else 0.0)
                     + (if forall k :: t < k < |mask| ==> mask[k] == 0 then reward else 0.0)
    // The advantages' lambda: from the response's length if that is configured, else the policy's own, else the common one.
    ensures cfg.lengthAdaptiveAlpha > 0.0 ==>
              var scaled := cfg.lengthAdaptiveAlpha * |set i: nat | i < |mask| && mask[i] == 1| as real;
              AreAdvantages(advantages, rs, vs, mask, cfg.gamma, 1.0 - 1.0 / (if scaled < 1.0 then 1.0 else scaled), whitening)
    ensures cfg.lengthAdaptiveAlpha <= 0.0 ==>
              AreAdvantages(advantages, rs, vs, mask, cfg.gamma,
                            if cfg.lambdaPolicy.Some? then cfg.lambdaPolicy.value else cfg.lam, whitening)
    // The returns' lambda: their own, else the common one.
    ensures AreReturns(returns_, rs, vs, mask, cfg.gamma, if cfg.lambdaValue.Some? then cfg.lambdaValue.value else cfg.lam)
    ensures klPenalty == None && (if cfg.lambdaValue.Some? then cfg.lambdaValue.value else cfg.lam) == 1.0 ==>
              AreDiscountedRewards(returns_, mask, cfg.gamma, reward)
  {
    rs := BuildTokenLevelRewards(reward, mask, klPenalty);
    TokenRewardEntries(rs, mask, reward, klPenalty);
    var lambdaValue := ResolveLambdaValue(cfg);
    var lambdaPolicy := ResolveLambdaPolicy(cfg, mask);
    hide ResolveLambdaPolicy, MaskedGae, AreAdvantages, AreReturns, IsTokenReward, IsLastValid, AreDiscountedRewards;
    advantages, returns_ := DecoupledGae(rs, vs, mask, cfg.gamma, lambdaValue, lambdaPolicy, whitening);
    if klPenalty == None && lambdaValue.value == 1.0 {
      TerminalRewardReturns(rs, vs, mask, cfg.gamma, reward, returns_);
    }
    PolicyLambda(cfg, advantages, rs, vs, mask, whitening);
    hide *;
  }

  lemma PolicyLambda(cfg: Config, advantages: seq<real>, rs: seq<real>, vs: seq<real>, mask: seq<Bit>,
                     whitening: Option<Whitening>)
    requires |advantages| == |rs| == |vs| == |mask|
    requires AreAdvantages(advantages, rs, vs, mask, cfg.gamma, ResolveLambdaPolicy(cfg, mask).value, whitening)
    ensures cfg.lengthAdaptiveAlpha > 0.0 ==>
              var scaled := cfg.lengthAdaptiveAlpha * |set i: nat | i < |mask| && mask[i] == 1| as real;
              AreAdvantages(advantages, rs, vs, mask, cfg.gamma, 1.0 - 1.0 / (if scaled < 1.0 then 1.0 else scaled), whitening)
    ensures cfg.lengthAdaptiveAlpha <= 0.0 ==>
              AreAdvantages(advantages, rs, vs, mask, cfg.gamma,
                            if cfg.lambdaPolicy.Some? then cfg.lambdaPolicy.value else cfg.lam, whitening)
  {
    hide AreAdvantages;
    if cfg.lengthAdaptiveAlpha > 0.0 {
      AdaptiveLambda(cfg, mask);
      hide *;
    }
  }

  // ---- telescoping of the terminal reward -----------------------------------------------

  /** Number of valid tokens strictly after `t`. */
  function ValidAfter(mask: seq<Bit>, t: nat): nat
    requires t < |mask|
  {
    RankMonotone(mask, t + 1, |mask|);
    Rank(mask, |mask|) - Rank(mask, t + 1)
  }

  /** Discounted value of the scalar reward with `k` valid tokens left, the last one included. */
  function DiscountedReward(gamma: real, reward: real, k: nat): real
  {
    if k == 0 then 0.0 else if k == 1 then reward else gamma * DiscountedReward(gamma, reward, k - 1)
  }

  lemma {:induction false} DiscountedRewardIsPower(gamma: real, reward: real, k: nat)
    ensures DiscountedReward(gamma, reward, k + 1) == Pow(gamma, k) * reward
  {
    if k > 0 {
      DiscountedRewardIsPower(gamma, reward, k - 1);
      assert gamma * (Pow(gamma, k - 1) * reward) == (gamma * Pow(gamma, k - 1)) * reward;
    }
  }

  lemma DiscountedRewardStep(c: seq<real>, gamma: real, reward: real, j: nat, k: nat)
    requires j < |c| && k > 0
    requires c[j] == if k == 1 then reward else 0.0
    requires DiscountedSum(c, gamma, j + 1) == DiscountedReward(gamma, reward, k - 1)
    ensures DiscountedSum(c, gamma, j) == DiscountedReward(gamma, reward, k)
  {
  }

  lemma DiscountedSumEnd(c: seq<real>, gamma: real, reward: real)
    ensures DiscountedSum(c, gamma, |c|) == DiscountedReward(gamma, reward, 0)
  {
  }

  /** The discounted sum of a row whose only reward is on its last valid token. */
  lemma {:induction false} TerminalDiscountedSum(rs: seq<real>, mask: seq<Bit>, gamma: real, reward: real, t: nat)
    requires |rs| == |mask| && t <= |mask| && IsTokenReward(rs, mask, reward, None)
    ensures Rank(mask, t) <= Rank(mask, |mask|)
    ensures DiscountedSum(Compress(rs, mask), gamma, Rank(mask, t))
         == DiscountedReward(gamma, reward, Rank(mask, |mask|) - Rank(mask, t))
    decreases |mask| - t
  {
    hide CompressUpTo, IsTokenReward, DiscountedSum, DiscountedReward;
    RankMonotone(mask, t, |mask|);
    if t == |mask| {
      DiscountedSumEnd(Compress(rs, mask), gamma, reward);
    } else {
      TerminalDiscountedSum(rs, mask, gamma, reward, t + 1);
      if mask[t] == 1 {
        CompressedEntry(rs, mask, t, |mask|);
        TerminalEntry(rs, mask, reward, t);
        RankMonotone(mask, t + 1, |mask|);
        DiscountedRewardStep(Compress(rs, mask), gamma, reward, Rank(mask, t), Rank(mask, |mask|) - Rank(mask, t));
      }
    }
  }

  lemma TerminalEntry(rs: seq<real>, mask: seq<Bit>, reward: real, t: nat)
    requires |rs| == |mask| && t < |mask| && mask[t] == 1 && IsTokenReward(rs, mask, reward, None)
    ensures rs[t] == if Rank(mask, t) + 1 == Rank(mask, |mask|) then reward else 0.0
  {
    RankMonotone(mask, t + 1, |mask|);
    if Rank(mask, t + 1) == Rank(mask, |mask|) {
      NoValidAfter(mask, t + 1);
      assert IsLastValid(mask, t);
    } else {
      EarlierTokenIsNotLast(mask, t);
    }
  }

  lemma EarlierTokenIsNotLast(mask: seq<Bit>, t: nat)
    requires t < |mask| && Rank(mask, t + 1) < Rank(mask, |mask|)
    ensures !IsLastValid(mask, t)
  {
    if IsLastValid(mask, t) {
      RankSkipsMasked(mask, t + 1, |mask|);
    }
  }

  lemma {:induction false} NoValidAfter(mask: seq<Bit>, t: nat)
    requires t <= |mask| && Rank(mask, t) == Rank(mask, |mask|)
    ensures forall k :: t <= k < |mask| ==> mask[k] == 0
    decreases |mask| - t
  {
    if t < |mask| {
      RankMonotone(mask, t + 1, |mask|);
      NoValidAfter(mask, t + 1);
    }
  }

  lemma MaskedGaeLambdaOne(rs: seq<real>, vs: seq<real>, mask: seq<Bit>, gamma: real, t: nat)
    requires |rs| == |vs| == |mask| && t < |mask| && mask[t] == 1
    ensures Rank(mask, t) <= Rank(mask, |mask|)
    ensures MaskedGae(rs, vs, mask, gamma, 1.0, t) == DiscountedSum(Compress(rs, mask), gamma, Rank(mask, t)) - vs[t]
  {
    CompressedEntry(vs, mask, t, |mask|);
    LambdaOneTelescopes(Compress(rs, mask), Compress(vs, mask), gamma, Rank(mask, t));
  }

  lemma TerminalRewardRecursive(rs: seq<real>, vs: seq<real>, mask: seq<Bit>, gamma: real, reward: real, t: nat)
    requires |rs| == |vs| == |mask| && t < |mask| && mask[t] == 1
    requires IsTokenReward(rs, mask, reward, None)
    ensures MaskedGae(rs, vs, mask, gamma, 1.0, t) == DiscountedReward(gamma, reward, ValidAfter(mask, t) + 1) - vs[t]
  {
    MaskedGaeLambdaOne(rs, vs, mask, gamma, t);
    TerminalDiscountedSum(rs, mask, gamma, reward, t);
    RankMonotone(mask, t + 1, |mask|);
  }

  /** With lambda = 1 and no KL term, the return is the discounted scalar reward, whatever the value predictions. */
  lemma TerminalRewardReturn(rs: seq<real>, vs: seq<real>, mask: seq<Bit>, gamma: real, reward: real, t: nat)
    requires |rs| == |vs| == |mask| && t < |mask| && mask[t] == 1
    requires IsTokenReward(rs, mask, reward, None)
    ensures MaskedGae(rs, vs, mask, gamma, 1.0, t) + vs[t] == Pow(gamma, ValidAfter(mask, t)) * reward
  {
    hide *;
    TerminalRewardRecursive(rs, vs, mask, gamma, reward, t);
    DiscountedRewardIsPower(gamma, reward, ValidAfter(mask, t));
  }

  /** Each valid token's return is the scalar reward discounted by the valid tokens still to come. */
  ghost predicate AreDiscountedRewards(returns_: seq<real>, mask: seq<Bit>, gamma: real, reward: real)
    requires |returns_| == |mask|
  {
    forall t :: 0 <= t < |mask| && mask[t] == 1 ==> returns_[t] == Pow(gamma, ValidAfter(mask, t)) * reward
  }

  lemma TerminalRewardReturns(rs: seq<real>, vs: seq<real>, mask: seq<Bit>, gamma: real, reward: real, returns_: seq<real>)
    requires |rs| == |vs| == |mask| == |returns_| && IsTokenReward(rs, mask, reward, None)
    requires AreReturns(returns_, rs, vs, mask, gamma, 1.0)
    ensures AreDiscountedRewards(returns_, mask, gamma, reward)
  {
    forall t | 0 <= t < |mask| && mask[t] == 1
      ensures returns_[t] == Pow(gamma, ValidAfter(mask, t)) * reward
    {
      TerminalRewardReturn(rs, vs, mask, gamma, reward, t);
    }
  }

  // ---- length-adaptive lambda --------------------------------------------------------------

  function Abs(x: real): real { if x < 0.0 then -x else x }

  lemma AdaptiveLambdaRange(cfg: Config, mask: seq<Bit>)
    requires cfg.lengthAdaptiveAlpha > 0.0
    ensures var lam := ResolveLambdaPolicy(cfg, mask);
            lam.PerSample? && 0.0 <= lam.value < 1.0 && (1.0 - lam.value) * Horizon(cfg, mask) == 1.0
  {
    hide Clamp, Horizon, Max;
    ComplementOfReciprocal(Horizon(cfg, mask));
  }

  /** The length-adaptive lambda, with the response's length as the number of its tokens. */
  lemma AdaptiveLambda(cfg: Config, mask: seq<Bit>)
    requires cfg.lengthAdaptiveAlpha > 0.0
    ensures var scaled := cfg.lengthAdaptiveAlpha * |set i: nat | i < |mask| && mask[i] == 1| as real;
            var h := if scaled < 1.0 then 1.0 else scaled;
            Horizon(cfg, mask) == h && ResolveLambdaPolicy(cfg, mask).value == 1.0 - 1.0 / h
  {
    var n := |set i: nat | i < |mask| && mask[i] == 1|;
    RankCounts(mask, |mask|);
    assert n == Rank(mask, |mask|);
    hide Rank, Clamp;
    var scaled := cfg.lengthAdaptiveAlpha * n as real;
    var h := if scaled < 1.0 then 1.0 else scaled;
    assert Horizon(cfg, mask) == h;
    hide Horizon;
    ResolvedFromHorizon(cfg, mask, h);
    hide *;
  }

  lemma ResolvedFromHorizon(cfg: Config, mask: seq<Bit>, h: real)
    requires cfg.lengthAdaptiveAlpha > 0.0 && Horizon(cfg, mask) == h
    ensures ResolveLambdaPolicy(cfg, mask).value == 1.0 - 1.0 / h
  {
    hide Horizon, Clamp;
    ComplementOfReciprocal(h);
  }

  lemma ComplementOfReciprocal(h: real)
    requires h >= 1.0
    ensures var x := Clamp(1.0 - 1.0 / h, 0.0, 1.0); x == 1.0 - 1.0 / h && 0.0 <= x < 1.0 && (1.0 - x) * h == 1.0
  {
    ReciprocalAtLeastOne(h);
    assert Clamp(1.0 - 1.0 / h, 0.0, 1.0) == 1.0 - 1.0 / h;
    assert 1.0 - (1.0 - 1.0 / h) == 1.0 / h;
  }

  lemma Product(a: real, b: real)
    requires a >= 0.0 && b >= 0.0
    ensures a * b >= 0.0
  {
  }

  lemma ReciprocalAtLeastOne(h: real)
    requires h >= 1.0
    ensures 0.0 < 1.0 / h <= 1.0 && (1.0 / h) * h == 1.0
  {
    var q := 1.0 / h;
    assert q * h == 1.0;
    if q > 1.0 { Product(q - 1.0, h); }
    if q <= 0.0 { Product(-q, h); }
  }

  /** `bound` is kept by one step of the recurrence when every TD error is at most `d`. */
  ghost predicate IsStableBound(gamma: real, lam: real, d: real, bound: real)
  {
    0.0 <= gamma <= 1.0 && 0.0 <= lam && 0.0 <= bound && d + lam * bound <= bound
  }

  lemma {:induction false} GaeBound(rs: seq<real>, vs: seq<real>, gamma: real, lam: real, d: real, bound: real, j: nat)
    requires j <= |rs| == |vs| && IsStableBound(gamma, lam, d, bound)
    requires forall k :: 0 <= k < |rs| ==> Abs(TdError(rs, vs, gamma, k)) <= d
    ensures Abs(PlainGae(rs, vs, gamma, lam, j)) <= bound
    decreases |rs| - j
  {
    hide Recurrence, TdError, GaeTerms, Abs, IsStableBound;
    if j == |rs| {
      PlainGaeEnd(rs, vs, gamma, lam);
      ZeroIsBounded(gamma, lam, d, bound);
    } else {
      GaeBound(rs, vs, gamma, lam, d, bound, j + 1);
      PlainGaeStep(rs, vs, gamma, lam, j);
      BoundStep(TdError(rs, vs, gamma, j), PlainGae(rs, vs, gamma, lam, j + 1), gamma, lam, d, bound);
    }
  }

  lemma ZeroIsBounded(gamma: real, lam: real, d: real, bound: real)
    requires IsStableBound(gamma, lam, d, bound)
    ensures Abs(0.0) <= bound
  {
  }

  lemma PlainGaeEnd(rs: seq<real>, vs: seq<real>, gamma: real, lam: real)
    requires |rs| == |vs|
    ensures PlainGae(rs, vs, gamma, lam, |rs|) == 0.0
  {
  }

  lemma BoundStep(delta: real, a: real, gamma: real, lam: real, d: real, bound: real)
    requires IsStableBound(gamma, lam, d, bound) && Abs(delta) <= d && Abs(a) <= bound
    ensures Abs(Recurrence(delta, gamma, lam, a)) <= bound
  {
    ScaledBound(gamma, lam, a, bound);
  }

  lemma HorizonIsStable(gamma: real, lam: real, d: real, h: real)
    requires 0.0 <= gamma <= 1.0 && 0.0 <= lam && (1.0 - lam) * h == 1.0 && d >= 0.0 && h >= 1.0
    ensures IsStableBound(gamma, lam, d, d * h)
  {
    Product(d, h);
    assert d * ((1.0 - lam) * h) == d * h - lam * (d * h);
  }

  lemma ScaledBound(gamma: real, lam: real, a: real, b: real)
    requires 0.0 <= gamma <= 1.0 && 0.0 <= lam && Abs(a) <= b
    ensures Abs(gamma * lam * a) <= lam * b
  {
    var y := lam * a;
    var m := lam * b;
    Product(lam, b - a);
    Product(lam, b + a);
    assert lam * (b - a) == m - y && lam * (b + a) == m + y;
    assert gamma * lam * a == gamma * y;
    Product(gamma, m - y);
    Product(gamma, m + y);
    Product(1.0 - gamma, m);
    assert gamma * (m - y) == gamma * m - gamma * y && gamma * (m + y) == gamma * m + gamma * y;
    assert (1.0 - gamma) * m == m - gamma * m;
  }

  /** Every advantage under the length-adaptive lambda is at most D times the effective horizon. */
  lemma AdaptiveAdvantageBound(cfg: Config, rs: seq<real>, vs: seq<real>, mask: seq<Bit>, d: real, t: nat)
    requires |rs| == |vs| == |mask| && t < |mask|
    requires cfg.lengthAdaptiveAlpha > 0.0 && 0.0 <= cfg.gamma <= 1.0 && d >= 0.0
    requires forall k :: 0 <= k < |Compress(rs, mask)| ==>
               Abs(TdError(Compress(rs, mask), Compress(vs, mask), cfg.gamma, k)) <= d
    ensures Abs(MaskedGae(rs, vs, mask, cfg.gamma, ResolveLambdaPolicy(cfg, mask).value, t))
         <= d * Horizon(cfg, mask)
  {
    AdaptiveLambdaRange(cfg, mask);
    RankMonotone(mask, t, |mask|);
    hide ResolveLambdaPolicy, Horizon, Abs, TdError, CompressUpTo, PlainGae, IsStableBound;
    var lam := ResolveLambdaPolicy(cfg, mask).value;
    HorizonIsStable(cfg.gamma, lam, d, Horizon(cfg, mask));
    GaeBound(Compress(rs, mask), Compress(vs, mask), cfg.gamma, lam, d, d * Horizon(cfg, mask), Rank(mask, t));
  }
}
