/** A finite list of batches repeated forever. */
module Repetition {
  import opened Prelude

  /** The first `n` batches of the loader repeated forever. */
  function First<T>(batches: seq<T>, n: nat): (h: seq<T>)
    requires n > 0 ==> batches != []
    ensures |h| == n
  {
    seq(n, i requires 0 <= i < n => batches[i % |batches|])
  }

  lemma FirstGrows<T>(batches: seq<T>, e: nat, p: nat)
    requires p < |batches|
    ensures First(batches, Times(e, |batches|) + p + 1) == First(batches, Times(e, |batches|) + p) + [batches[p]]
  {
    QuotientAndRemainder(e, p, |batches|);
  }

  /** The trained batches are whole passes over the loader, one after another. */
  lemma {:induction false} FirstIsWholeEpochs<T>(batches: seq<T>, e: nat, p: nat)
    requires batches != [] && p <= |batches|
    ensures First(batches, Times(e, |batches|) + p) == First(batches, Times(e, |batches|)) + batches[..p]
    decreases p
  {
    if p > 0 {
      FirstIsWholeEpochs(batches, e, p - 1);
      FirstGrows(batches, e, p - 1);
      hide First, Times;
      var whole := First(batches, Times(e, |batches|));
      assert whole + batches[..p - 1] + [batches[p - 1]] == whole + batches[..p];
    }
  }
}
