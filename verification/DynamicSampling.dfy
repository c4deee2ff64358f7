/**
 One round of dynamic sampling: prompts whose rewards do not vary are dropped, survivors accumulate
 across rounds until they fill a training batch, and what exceeds the batch is discarded.
 */
module DynamicSampling {
  import opened Prelude

  /** A generated sample: a serial number, its prompt's occurrence, and the weights it was generated with. */
  datatype SampleId = SampleId(serial: nat, prompt: nat, version: nat)

  /** Metadata of a batch: ids, and per id whether all rewards of its prompt are the same. */
  datatype Meta = Meta(ids: seq<SampleId>, tags: Option<seq<bool>>)
  {
    predicate Valid() { tags.Some? ==> |tags.value| == |ids| }
  }

  /** One row of the tensors that stay with the driver; the second column is stamped on survivors. */
  datatype Carry = Carry(totalReward: real, filteredReward: Option<real>)

  /** A row of metadata together with its carry row. */
  datatype Sample = Sample(id: SampleId, carry: Carry)

  function Zip(ids: seq<SampleId>, carry: seq<Carry>): (rows: seq<Sample>)
    requires |ids| == |carry|
    ensures |rows| == |ids|
  {
    seq(|ids|, i requires 0 <= i < |ids| => Sample(ids[i], carry[i]))
  }

  function Ids(rows: seq<Sample>): (ids: seq<SampleId>)
    ensures |ids| == |rows|
  {
    seq(|rows|, i requires 0 <= i < |rows| => rows[i].id)
  }

  function IdSet(ids: seq<SampleId>): set<SampleId>
  {
    set id | id in ids
  }

  lemma IdSetOfNone(rows: set<SampleId>)
    ensures rows - IdSet([]) == rows
  {
  }

  function Rewards(carry: seq<Carry>): seq<real>
  {
    seq(|carry|, i requires 0 <= i < |carry| => carry[i].totalReward)
  }

  function Stamped(row: Sample): Sample
  {
    row.(carry := row.carry.(filteredReward := Some(row.carry.totalReward)))
  }

  // ---- filtering ------------------------------------------------------------------------------

  /** The entries whose flag has the given value, in order. */
  function Pick<T>(xs: seq<T>, flags: seq<bool>, flag: bool): seq<T>
    requires |xs| == |flags|
  {
    if xs == [] then []
    else
      var n := |xs| - 1;
      Pick(xs[..n], flags[..n], flag) + (if flags[n] == flag then [xs[n]] else [])
  }

  /** Survivors of a round, carry rows stamped with their reward. */
  function Survivors(rows: seq<Sample>, trivial: seq<bool>): seq<Sample>
    requires |rows| == |trivial|
  {
    Pick(seq(|rows|, i requires 0 <= i < |rows| => Stamped(rows[i])), trivial, false)
  }

  lemma {:induction false} PickStep<T>(xs: seq<T>, flags: seq<bool>, flag: bool, n: nat)
    requires |xs| == |flags| && n < |xs|
    ensures Pick(xs[..n + 1], flags[..n + 1], flag) == Pick(xs[..n], flags[..n], flag) + (if flags[n] == flag then [xs[n]] else [])
  {
    assert xs[..n + 1][..n] == xs[..n] && flags[..n + 1][..n] == flags[..n];
  }

  /** Every entry is picked by one of the two flags. */
  lemma {:induction false} PicksPartition<T>(xs: seq<T>, flags: seq<bool>)
    requires |xs| == |flags|
    ensures multiset(xs) == multiset(Pick(xs, flags, true)) + multiset(Pick(xs, flags, false))
  {
    if xs != [] {
      var n := |xs| - 1;
      PicksPartition(xs[..n], flags[..n]);
      assert xs == xs[..n] + [xs[n]];
    }
  }

  lemma {:induction false} IdsOfPick(rows: seq<Sample>, flags: seq<bool>, flag: bool)
    requires |rows| == |flags|
    ensures Ids(Pick(rows, flags, flag)) == Pick(Ids(rows), flags, flag)
  {
    if rows != [] {
      var n := |rows| - 1;
      IdsOfPick(rows[..n], flags[..n], flag);
      assert Ids(rows)[..n] == Ids(rows[..n]);
    }
  }

  lemma IdsOfSurvivors(ids: seq<SampleId>, carry: seq<Carry>, trivial: seq<bool>)
    requires |ids| == |carry| == |trivial|
    ensures Ids(Survivors(Zip(ids, carry), trivial)) == Pick(ids, trivial, false)
  {
    var stamped := seq(|ids|, i requires 0 <= i < |ids| => Stamped(Zip(ids, carry)[i]));
    assert Survivors(Zip(ids, carry), trivial) == Pick(stamped, trivial, false);
    IdsOfPick(stamped, trivial, false);
    assert Ids(stamped) == ids;
  }

  /** Survivors are the picked rows, in order, with their total reward stamped beside it. */
  lemma {:induction false} SurvivorsAreStamped(rows: seq<Sample>, trivial: seq<bool>)
    requires |rows| == |trivial|
    ensures var kept, picked := Survivors(rows, trivial), Pick(rows, trivial, false);
      && |kept| == |picked|
      && forall j :: 0 <= j < |kept| ==>
           kept[j] == Sample(picked[j].id, Carry(picked[j].carry.totalReward, Some(picked[j].carry.totalReward)))
  {
    if rows != [] {
      var n := |rows| - 1;
      SurvivorsAreStamped(rows[..n], trivial[..n]);
      var stamped := seq(|rows|, i requires 0 <= i < |rows| => Stamped(rows[i]));
      assert stamped[..n] == seq(n, i requires 0 <= i < n => Stamped(rows[..n][i]));
    }
  }

  lemma IdsOfParts(a: seq<Sample>, b: seq<Sample>)
    ensures Ids(a + b) == Ids(a) + Ids(b)
  {
  }

  lemma IdsOfCut(rows: seq<Sample>, n: nat)
    requires n <= |rows|
    ensures Ids(rows[..n]) == Ids(rows)[..n] && Ids(rows[n..]) == Ids(rows)[n..]
  {
  }

  lemma IdsOfRows(p: Pending)
    requires p.Aligned()
    ensures Ids(RowsOf(Some(p))) == p.ids
  {
  }

  // ---- prompt groups --------------------------------------------------------------------------

  /** A run of whole groups: `g` consecutive samples of one prompt, then the next group. */
  predicate WholeGroups(ids: seq<SampleId>, g: nat)
    requires g > 0
    decreases |ids|
  {
    ids == [] || (|ids| >= g && (forall i :: 0 <= i < g ==> ids[i].prompt == ids[0].prompt) && WholeGroups(ids[g..], g))
  }

  /** Whole groups, each of them entirely trivial or entirely not. */
  predicate UniformGroups(ids: seq<SampleId>, trivial: seq<bool>, g: nat)
    requires g > 0 && |ids| == |trivial|
    decreases |ids|
  {
    ids == [] ||
    (&& |ids| >= g
     && (forall i :: 0 <= i < g ==> ids[i].prompt == ids[0].prompt && trivial[i] == trivial[0])
     && UniformGroups(ids[g..], trivial[g..], g))
  }

  lemma {:induction false} PickConcat<T>(xs: seq<T>, ys: seq<T>, f: seq<bool>, h: seq<bool>, flag: bool)
    requires |xs| == |f| && |ys| == |h|
    ensures Pick(xs + ys, f + h, flag) == Pick(xs, f, flag) + Pick(ys, h, flag)
    decreases |ys|
  {
    if ys == [] {
      assert xs + ys == xs && f + h == f;
    } else {
      var n := |ys| - 1;
      PickConcat(xs, ys[..n], f, h[..n], flag);
      assert (xs + ys)[..|xs| + n] == xs + ys[..n] && (f + h)[..|xs| + n] == f + h[..n];
    }
  }

  lemma {:induction false} PickConstant<T>(xs: seq<T>, flags: seq<bool>, flag: bool)
    requires |xs| == |flags| && forall i :: 0 <= i < |flags| ==> flags[i] == flags[0]
    ensures Pick(xs, flags, flag) == if flags != [] && flags[0] == flag then xs else []
  {
    if xs != [] {
      PickConstant(xs[..|xs| - 1], flags[..|xs| - 1], flag);
    }
  }

  lemma PickFirstGroup(ids: seq<SampleId>, trivial: seq<bool>, g: nat)
    requires 0 < g <= |ids| == |trivial| && forall i :: 0 <= i < g ==> trivial[i] == trivial[0]
    ensures Pick(ids, trivial, false) == (if trivial[0] then [] else ids[..g]) + Pick(ids[g..], trivial[g..], false)
  {
    assert ids == ids[..g] + ids[g..] && trivial == trivial[..g] + trivial[g..];
    hide Pick;
    PickConcat(ids[..g], ids[g..], trivial[..g], trivial[g..], false);
    PickConstant(ids[..g], trivial[..g], false);
  }

  lemma PrependGroup(first: seq<SampleId>, rest: seq<SampleId>, g: nat)
    requires g > 0 && |first| == g && (forall i :: 0 <= i < g ==> first[i].prompt == first[0].prompt)
    requires WholeGroups(rest, g)
    ensures WholeGroups(first + rest, g)
  {
    assert (first + rest)[g..] == rest;
  }

  /** Dropping trivial samples drops whole groups. */
  lemma {:induction false} FilteringKeepsGroupsWhole(ids: seq<SampleId>, trivial: seq<bool>, g: nat)
    requires g > 0 && |ids| == |trivial| && UniformGroups(ids, trivial, g)
    ensures WholeGroups(Pick(ids, trivial, false), g)
    decreases |ids|
  {
    if ids != [] {
      FilteringKeepsGroupsWhole(ids[g..], trivial[g..], g);
      PickFirstGroup(ids, trivial, g);
      var rest := Pick(ids[g..], trivial[g..], false);
      PrependGroup(ids[..g], rest, g);
      assert [] + rest == rest;
    }
  }

  lemma {:induction false} WholeGroupsConcat(a: seq<SampleId>, b: seq<SampleId>, g: nat)
    requires g > 0 && WholeGroups(a, g) && WholeGroups(b, g)
    ensures WholeGroups(a + b, g)
    decreases |a|
  {
    if a == [] {
      assert a + b == b;
    } else {
      WholeGroupsConcat(a[g..], b, g);
      assert (a + b)[g..] == a[g..] + b;
    }
  }

  /** Cutting at a multiple of the group size splits no group. */
  lemma {:induction false} CutBetweenGroups(ids: seq<SampleId>, g: nat, groups: nat)
    requires g > 0 && WholeGroups(ids, g) && groups * g <= |ids|
    ensures WholeGroups(ids[..groups * g], g) && WholeGroups(ids[groups * g..], g)
    decreases groups
  {
    if groups > 0 {
      var n := groups * g;
      assert (groups - 1) * g == n - g && n >= g;
      CutBetweenGroups(ids[g..], g, groups - 1);
      assert ids[g..][..n - g] == ids[..n][g..];
      assert ids[g..][n - g..] == ids[n..];
    } else {
      assert ids[groups * g..] == ids;
    }
  }

  // ---- one round ------------------------------------------------------------------------------

  datatype Pending = Pending(ids: seq<SampleId>, carry: seq<Carry>)
  {
    predicate Aligned() { |ids| == |carry| }
  }

  /** The accumulated rows; no cache is the same as an empty one. */
  function RowsOf(pending: Option<Pending>): (rows: seq<Sample>)
    requires pending.Some? ==> pending.value.Aligned()
    ensures |rows| == if pending.Some? then |pending.value.ids| else 0
  {
    if pending.Some? then Zip(pending.value.ids, pending.value.carry) else []
  }

  datatype SamplingError = NoTags | TooManyRounds | NothingToTrain

  datatype Round =
    | More(pending: Option<Pending>, unfiltered: seq<real>)
    | Complete(batch: Pending, excess: nat, rounds: nat, unfiltered: seq<real>)

  /** The rows addressed by id in the shared store. */
  class SampleStore {
    var rows: set<SampleId>

    constructor ()
      ensures rows == {}
    {
      rows := {};
    }

    method Put(ids: seq<SampleId>)
      modifies this
      ensures rows == old(rows) + IdSet(ids)
    {
      rows := rows + IdSet(ids);
    }

    method Discard(ids: seq<SampleId>)
      modifies this
      ensures rows == old(rows) - IdSet(ids)
    {
      rows := rows - IdSet(ids);
    }
  }

  /** The cache with a round's survivors appended; a round without survivors leaves it as it is. */
  function Accumulate(pending: Option<Pending>, ids: seq<SampleId>, carry: seq<Carry>): (r: Option<Pending>)
    requires |ids| == |carry| && (pending.Some? ==> pending.value.Aligned())
    ensures r.None? <==> pending.None? && ids == []
    ensures r.Some? ==> r.value.Aligned()
    ensures RowsOf(r) == RowsOf(pending) + Zip(ids, carry)
  {
    if ids == [] then pending
    else
      match pending
      case None => Some(Pending(ids, carry))
      case Some(p) => Some(Pending(p.ids + ids, p.carry + carry))
  }

  /** Survivors with their stamped carry rows, and the keys to drop. */
  method Split(ids: seq<SampleId>, carry: seq<Carry>, trivial: seq<bool>)
    returns (keptIds: seq<SampleId>, keptCarry: seq<Carry>, dropKeys: seq<SampleId>)
    requires |ids| == |carry| == |trivial|
    ensures |keptIds| == |keptCarry| && Zip(keptIds, keptCarry) == Survivors(Zip(ids, carry), trivial)
    ensures dropKeys == Pick(ids, trivial, true)
  {
    keptIds, keptCarry, dropKeys := [], [], [];
    ghost var stamped := seq(|carry|, i requires 0 <= i < |carry| => Stamped(Zip(ids, carry)[i]));
    var i := 0;
    while i < |ids|
      invariant i <= |ids| && |keptIds| == |keptCarry|
      invariant Zip(keptIds, keptCarry) == Pick(stamped[..i], trivial[..i], false)
      invariant dropKeys == Pick(ids[..i], trivial[..i], true)
    {
      PickStep(stamped, trivial, false, i);
      PickStep(ids, trivial, true, i);
      if trivial[i] {
        dropKeys := dropKeys + [ids[i]];
      } else {
        ghost var was := Zip(keptIds, keptCarry);
        keptIds := keptIds + [ids[i]];
        keptCarry := keptCarry + [carry[i].(filteredReward := Some(carry[i].totalReward))];
        assert Zip(keptIds, keptCarry) == was + [stamped[i]];
      }
      i := i + 1;
    }
    assert stamped[..i] == stamped && trivial[..i] == trivial && ids[..i] == ids;
  }

  /** The first rows of a full cache; the others are discarded. */
  method TakeBatch(cache: Pending, size: nat, store: SampleStore) returns (batch: Pending)
    requires cache.Aligned() && |cache.ids| >= size
    modifies store
    ensures batch.Aligned() && RowsOf(Some(batch)) == RowsOf(Some(cache))[..size]
    ensures store.rows == old(store.rows) - IdSet(Ids(RowsOf(Some(cache))[size..]))
  {
    batch := cache;
    assert Ids(RowsOf(Some(cache))[size..]) == cache.ids[size..];
    if |cache.ids| > size {
      store.Discard(cache.ids[size..]);
      batch := Pending(cache.ids[..size], cache.carry[..size]);
    } else {
      assert IdSet(cache.ids[size..]) == {};
    }
  }

  method ApplyDynamicSampling(
    meta: Meta, carry: seq<Carry>, pending: Option<Pending>, unfiltered: seq<real>,
    size: nat, rounds: nat, maxRounds: int, store: SampleStore) returns (r: Result<Round, SamplingError>)
    requires meta.Valid() && |carry| == |meta.ids| && (pending.Some? ==> pending.value.Aligned())
    modifies store
    ensures r == Err(NoTags) <==> meta.tags.None?
    ensures r == Err(NoTags) ==> store.rows == old(store.rows)
    ensures meta.tags.Some? ==>
      var merged := RowsOf(pending) + Survivors(Zip(meta.ids, carry), meta.tags.value);
      var dropped := IdSet(Pick(meta.ids, meta.tags.value, true));
      var all := unfiltered + seq(|carry|, i requires 0 <= i < |carry| => carry[i].totalReward);
      if |merged| < size then
        // Too few rows: an error once the rounds are used up, another round otherwise.
        && store.rows == old(store.rows) - dropped
        && (r == Err(TooManyRounds) <==> rounds > maxRounds)
        && (r.Ok? <==> rounds <= maxRounds)
        && (r.Ok? ==>
              && r.value.More? && r.value.unfiltered == all
              && (r.value.pending.Some? ==> r.value.pending.value.Aligned()) && RowsOf(r.value.pending) == merged)
      else if pending.None? && Survivors(Zip(meta.ids, carry), meta.tags.value) == [] then
        r == Err(NothingToTrain) && store.rows == old(store.rows) - dropped
      else
        // Enough: the first rows are the batch, metadata and carry rows still aligned, and the others are discarded.
        && r.Ok? && r.value.Complete? && r.value.batch.Aligned()
        && RowsOf(Some(r.value.batch)) == merged[..size]
        && r.value.excess == |merged| - size && r.value.rounds == rounds
        && r.value.unfiltered == (if |all| <= size then all else all[..size])
        && store.rows == old(store.rows) - dropped - IdSet(Ids(merged[size..]))
  {
    assert Rewards(carry) == seq(|carry|, i requires 0 <= i < |carry| => carry[i].totalReward);
    hide Pick, Survivors, Zip, Ids, IdSet, Rewards;
    var rewards := unfiltered + Rewards(carry);
    if meta.tags.None? {
      return Err(NoTags);
    }
    var trivial := meta.tags.value;
    var keptIds, keptCarry, dropKeys := Split(meta.ids, carry, trivial);
    IdSetOfNone(store.rows);
    if dropKeys != [] {
      store.Discard(dropKeys);
    }
    var cache := Accumulate(pending, keptIds, keptCarry);
    var n := if cache.Some? then |cache.value.ids| else 0;
    if n < size {
      if rounds > maxRounds {
        return Err(TooManyRounds);
      }
      return Ok(More(cache, rewards));
    }
    if cache.None? {
      return Err(NothingToTrain);
    }
    var batch := TakeBatch(cache.value, size, store);
    r := Ok(Complete(batch, n - size, rounds, if |rewards| <= size then rewards else rewards[..size]));
  }
}
