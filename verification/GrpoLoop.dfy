/**
 The generate-and-train loop: rollouts, sampling rounds, updates and validations, with a flag that says
 whether the generator's weights are behind the policy's.
 */
module GrpoLoop {
  import opened Prelude
  import opened DynamicSampling
  import opened TrainingLog

  datatype Ending =
    | EpochsDone
    | Stopped(stop: Stop)
    | SamplingFailed(error: SamplingError)

  /** Whether the generator must be refitted first: always on a resumed run, else if its synchronizer says so or is missing. */
  predicate InitiallyStale(completedSteps: nat, synchronizerIsStale: Option<bool>)
  {
    completedSteps > 0 || synchronizerIsStale.None? || synchronizerIsStale.value
  }

  lemma NoneBeyond(ids: seq<SampleId>, n: nat)
    requires n <= |ids|
    ensures |ids| == n ==> ids[..n] == ids && IdSet(ids[n..]) == {}
  {
  }

  /** The store once a round's trivial rows and the survivors beyond the batch have left it. */
  function StoreAfterRound(store: set<SampleId>, ids: seq<SampleId>, trivial: seq<bool>, survivors: seq<SampleId>, size: nat)
    : set<SampleId>
    requires |ids| == |trivial|
  {
    store - IdSet(Pick(ids, trivial, true)) - if |survivors| > size then IdSet(survivors[size..]) else {}
  }

  lemma RoundMatches(cfg: Config, l: Ledger, trivial: seq<bool>)
    requires |trivial| == |l.inFlight| && l.pending == l.survivors
    ensures var s := Settled(cfg, l, trivial);
      && s.survivors == l.survivors + Pick(l.inFlight, trivial, false)
      && s.store == StoreAfterRound(l.store, l.inFlight, trivial, s.survivors, cfg.batchSize)
  {
    SettledFacts(cfg, l, trivial);
  }

  /** What a sampling round may answer, given all survivors so far. */
  predicate Answers(r: Result<Round, SamplingError>, survivors: seq<SampleId>, size: nat, rounds: nat, maxRounds: int)
  {
    match r
    case Ok(More(pending, _)) =>
      && (pending.Some? ==> pending.value.Aligned()) && Ids(RowsOf(pending)) == survivors
      && |survivors| < size && rounds <= maxRounds
    case Ok(Complete(batch, _, _, _)) => |survivors| >= size && batch.ids == survivors[..size]
    case Err(TooManyRounds) => |survivors| < size && rounds > maxRounds
    case Err(NothingToTrain) => size == 0
    case Err(NoTags) => false
  }

  /** A sampling round as the ids see it: the result, and what has left the store. */
  method FilterRound(
    meta: Meta, carry: seq<Carry>, pending: Option<Pending>, unfiltered: seq<real>,
    size: nat, rounds: nat, maxRounds: int, store: SampleStore) returns (r: Result<Round, SamplingError>)
    requires meta.Valid() && meta.tags.Some? && |carry| == |meta.ids| && (pending.Some? ==> pending.value.Aligned())
    modifies store
    ensures var merged := Ids(RowsOf(pending)) + Pick(meta.ids, meta.tags.value, false);
      && store.rows == StoreAfterRound(old(store.rows), meta.ids, meta.tags.value, merged, size)
      && Answers(r, merged, size, rounds, maxRounds)
  {
    ghost var trivial := meta.tags.value;
    ghost var merged := RowsOf(pending) + Survivors(Zip(meta.ids, carry), trivial);
    IdsOfSurvivors(meta.ids, carry, trivial);
    IdsOfParts(RowsOf(pending), Survivors(Zip(meta.ids, carry), trivial));
    hide Pick, Survivors, Zip, Ids, IdSet, RowsOf;
    r := ApplyDynamicSampling(meta, carry, pending, unfiltered, size, rounds, maxRounds, store);
    if |merged| >= size {
      IdsOfCut(merged, size);
      NoneBeyond(Ids(merged), size);
    }
    if r.Ok? && r.value.Complete? {
      IdsOfRows(r.value.batch);
    }
  }

  class SyncTrainer {
    const cfg: Config
    const policy: Weights
    const generator: Weights
    const store: SampleStore
    var stale: bool
    var epoch: nat
    var step: nat
    var total: nat
    var position: nat                  // of the loader
    var rolloutsMade: nat
    var rowsMade: nat
    ghost const start: Start
    ghost var log: seq<Event>

    ghost function Now(): Ledger
      reads this
    {
      Replay(cfg, start, log)
    }

    /**
     The fields are what the log says, and an unset flag means equal weights. The step counters are
     bumped at the end of a step, so they may be one behind the updates.
     */
    ghost predicate Accounted(behind: nat)
      reads this, policy, generator
    {
      && policy != generator && start.validateFirst == (cfg.valAtStart && start.step == 0)
      && GoodLog(cfg, start, log)
      && var l := Now();
         && policy.version == l.version && stale == l.stale && (!stale ==> generator.version == policy.version)
         && epoch == l.epoch && step + behind == l.step && total + behind == l.total
         && position == l.drawn && rolloutsMade == l.rollouts && rowsMade == |l.generated|
    }

    /** And the store holds the rows the log leaves in it. */
    ghost predicate Matches(behind: nat)
      reads this, policy, generator, store
    {
      Accounted(behind) && store.rows == Now().store
    }

    ghost predicate Valid()
      reads this, policy, generator, store
    {
      Matches(0)
    }

    constructor (cfg: Config, policy: Weights, generator: Weights, epoch: nat, step: nat, total: nat,
                 position: nat, synchronizerIsStale: Option<bool>)
      requires policy != generator
      requires !InitiallyStale(total, synchronizerIsStale) ==> generator.version == policy.version
      ensures Valid() && log == [] && fresh(store) && this.policy == policy && this.generator == generator
      ensures this.cfg == cfg
      // Only a fresh run whose synchronizer says it is current may generate without a refit.
      ensures !stale <==> total == 0 && synchronizerIsStale == Some(false)
      ensures start == Start(policy.version, epoch, step, total, position, InitiallyStale(total, synchronizerIsStale),
                             cfg.valAtStart && step == 0)
    {
      this.cfg := cfg;
      this.policy := policy;
      this.generator := generator;
      this.store := new SampleStore();
      this.stale := InitiallyStale(total, synchronizerIsStale);
      this.epoch := epoch;
      this.step := step;
      this.total := total;
      this.position := position;
      this.rolloutsMade := 0;
      this.rowsMade := 0;
      this.start := Start(policy.version, epoch, step, total, position, InitiallyStale(total, synchronizerIsStale),
                          cfg.valAtStart && step == 0);
      this.log := [];
    }

    /** Puts an event on the log. */
    ghost method Note(e: Event)
      requires GoodLog(cfg, start, log) && Good(cfg, Now(), e)
      modifies this`log
      ensures log == old(log) + [e] && GoodLog(cfg, start, log) && Now() == Post(cfg, old(Now()), e)
    {
      Extend(cfg, start, log, e);
      log := log + [e];
    }

    /** Before every generation: refit if the flag is set. */
    method PrepareGeneration(ghost behind: nat)
      requires Matches(behind)
      modifies this`stale, this`log, generator
      ensures Matches(behind) && !stale
      ensures Now() == old(Now()).(stale := false)
    {
      if stale {
        generator.version := policy.version;
        stale := false;
        Note(Refit);
      }
    }

    method Validate(step: nat, ghost behind: nat) returns (stop: bool)
      requires Matches(behind)
      requires Now().due == Some(step)
      modifies this`stale, this`log, generator
      ensures Matches(behind) && !stale
      ensures stop == cfg.stops(step)
      ensures Now() == old(Now()).(stale := false, due := None, ended := if stop then Some(StoppedEarly) else old(Now()).ended)
    {
      PrepareGeneration(behind);
      stop := cfg.stops(step);
      Note(Validated(policy.version, generator.version));
    }

    /** One batch of prompts: refit if needed, generate, and put the rows into the store. */
    method RunRollout() returns (meta: Meta, carry: seq<Carry>)
      requires Valid() && !Now().awaiting && Open(Now()) && MaySample(cfg, Now())
      requires position < cfg.loaderLength && epoch < cfg.maxEpochs && total < cfg.maxSteps
      modifies this`stale, this`position, this`rolloutsMade, this`rowsMade, this`log, generator, store
      ensures Valid() && meta.Valid() && meta.tags.Some? && |carry| == |meta.ids| && position == old(position) + 1
      ensures AllFrom(meta.ids, policy.version)
      // The rows are the rollout's, in order.
      ensures var draws := cfg.rollouts(old(rolloutsMade));
        && Made(meta.ids, draws, old(rowsMade), policy.version) && meta.tags.value == Flags(draws)
        && forall i :: 0 <= i < |draws| ==> carry[i] == Carry(draws[i].totalReward, None)
      // A row is flagged exactly when all rows of its prompt have its reward before shaping.
      ensures var draws := cfg.rollouts(old(rolloutsMade));
        |meta.ids| == |draws| &&
        forall i :: 0 <= i < |draws| ==>
          (meta.tags.value[i] <==>
           forall j :: 0 <= j < |draws| && draws[j].prompt == draws[i].prompt ==> draws[j].unshapedReward == draws[i].unshapedReward)
      ensures rolloutsMade == old(rolloutsMade) + 1
      ensures Now() == old(Now()).(stale := false, drawn := position, rollouts := rolloutsMade, rounds := old(Now()).rounds + 1,
                        awaiting := true, inFlight := meta.ids,
                        generated := old(Now()).generated + multiset(meta.ids), store := store.rows)
    {
      hide GoodLog, Replay, Pick, IdSet, IsTrivial, Made, MadeFrom, Flags, AllFrom, Ready;
      PrepareGeneration(0);
      position := position + 1;
      var draws := cfg.rollouts(rolloutsMade);
      rolloutsMade := rolloutsMade + 1;
      var first, version := rowsMade, generator.version;
      var ids := MadeFrom(draws, first, version);
      var trivial := Flags(draws);
      carry := seq(|draws|, i requires 0 <= i < |draws| => Carry(draws[i].totalReward, None));
      store.Put(ids);
      rowsMade := rowsMade + |ids|;
      meta := Meta(ids, Some(trivial));
      MadeSize(ids, draws, first, version);
      FlagsCompareRewards(draws);
      Note(Rollout(ids, policy.version, version));
    }

    /** Logs what the sampling filter has done. */
    ghost method NoteSettled(trivial: seq<bool>)
      requires Accounted(0) && cfg.dynamicSampling
      requires |trivial| == |Now().inFlight| && Now().pending == Now().survivors
      requires Now().awaiting && Now().rollouts > 0 && trivial == Flags(cfg.rollouts(Now().rollouts - 1))
      modifies this`log
      ensures Accounted(0) && Now() == Settled(cfg, old(Now()), trivial)
    {
      hide Pick, Settled, SettledEvents, GoodLog, Replay, Flags, IsTrivial;
      SettledKeeps(cfg, Now(), trivial);
      ExtendSettled(cfg, start, log, trivial);
      log := log + SettledEvents(cfg, Now(), trivial);
    }

    /** The newest rollout goes through the sampling filter; afterwards the cache is incomplete or is the batch. */
    method Sample(meta: Meta, carry: seq<Carry>, pending: Option<Pending>, unfiltered: seq<real>, rounds: nat)
      returns (r: Result<Round, SamplingError>)
      requires Valid() && cfg.dynamicSampling && meta.Valid() && meta.tags.Some? && |carry| == |meta.ids|
      requires Now().awaiting && Now().inFlight == meta.ids
      requires Now().rollouts > 0 && meta.tags.value == Flags(cfg.rollouts(Now().rollouts - 1))
      requires (pending.Some? ==> pending.value.Aligned()) && Ids(RowsOf(pending)) == Now().pending == Now().survivors
      modifies this`log, store
      ensures Valid() && Now() == Settled(cfg, old(Now()), meta.tags.value)
      ensures Answers(r, Now().survivors, cfg.batchSize, rounds, cfg.maxRounds)
    {
      ghost var l, trivial := Now(), meta.tags.value;
      hide Accounted, Answers, Pick, Ids, IdSet, RowsOf, Settled, Good, GoodLog, Replay, Flags, StoreAfterRound;
      r := FilterRound(meta, carry, pending, unfiltered, cfg.batchSize, rounds, cfg.maxRounds, store);
      RoundMatches(cfg, l, trivial);
      NoteSettled(trivial);
    }

    /** Train on the batch, drop it from the store, and see whether this was the last step. */
    method Update(batch: seq<SampleId>) returns (last: bool)
      requires Valid() && Ready(cfg, Now(), batch)
      modifies this`stale, this`log, policy, store
      ensures Matches(1)
      ensures last <==> old(total) + 1 >= cfg.maxSteps || (epoch + 1 == cfg.maxEpochs && old(step) + 1 == cfg.loaderLength)
      ensures var l := Now();
        && !l.awaiting && l.inFlight == [] && l.pending == [] && l.survivors == [] && l.rounds == 0
        && l.due == (if ValidationFollows(cfg, old(total) + 1, last) then Some(old(total) + 1) else None)
        && l.ended == (if cfg.timesOut(old(total) + 1) then Some(TimedOut)
                       else if old(total) + 1 >= cfg.maxSteps then Some(StepsDone) else None)
    {
      hide Ready, GoodLog, Replay, ValidationFollows, IdSet;
      ghost var before := policy.version;
      stale := true;
      policy.version := policy.version + 1;
      store.Discard(batch);
      last := total + 1 >= cfg.maxSteps || (epoch + 1 == cfg.maxEpochs && step + 1 == cfg.loaderLength);
      Note(Trained(batch, before, last));
    }

    /** Between two batches: nothing in flight and no validation owed. */
    ghost predicate Between()
      reads this, policy, generator, store
    {
      Valid() && !Now().awaiting && Now().inFlight == [] && Now().due == None
    }

    /** Train on a complete batch, validate if it is time, advance the counters, and see whether to stop. */
    method FinishStep(batch: seq<SampleId>) returns (ending: Option<Ending>)
      requires Valid() && Ready(cfg, Now(), batch)
      modifies this`stale, this`step, this`total, this`log, policy, generator, store
      ensures Between() && Now().pending == [] && Now().survivors == [] && Now().rounds == 0
      ensures step == old(step) + 1 && total == old(total) + 1
      // The threshold comes before the clock, and the clock before the step limit.
      ensures var last := total >= cfg.maxSteps || (epoch + 1 == cfg.maxEpochs && step == cfg.loaderLength);
        ending ==
        if ((cfg.valPeriod > 0 && total >= cfg.valStartAt && total % cfg.valPeriod == 0) || (cfg.valAtEnd && last)) && cfg.stops(total)
        then Some(Stopped(StoppedEarly))
        else if cfg.timesOut(total) then Some(Stopped(TimedOut))
        else if total >= cfg.maxSteps then Some(Stopped(StepsDone))
        else None
      ensures Now().ended == if ending.Some? then Some(ending.value.stop) else None
    {
      hide Good, GoodLog, Replay, Ready, IsLast;
      var last := Update(batch);
      var stop := false;
      if (cfg.valPeriod > 0 && total + 1 >= cfg.valStartAt && (total + 1) % cfg.valPeriod == 0) || (cfg.valAtEnd && last) {
        stop := Validate(total + 1, 1);
      }
      var timedOut := cfg.timesOut(total + 1);
      step := step + 1;
      total := total + 1;
      if stop {
        return Some(Stopped(StoppedEarly));
      }
      if timedOut {
        return Some(Stopped(TimedOut));
      }
      if total >= cfg.maxSteps {
        return Some(Stopped(StepsDone));
      }
      return None;
    }

    /** Why a run ends: the last update or validation of its log ended it, or none did and there is nothing left to do. */
    ghost predicate EndsFor(ending: Ending)
      reads this
    {
      var l := Now();
      match ending
      case Stopped(stop) => l.ended == Some(stop)
      case EpochsDone =>
        l.ended == None && (epoch >= cfg.maxEpochs || total >= cfg.maxSteps) && l.pending == [] && l.rounds == 0
      case SamplingFailed(error) =>
        && l.ended == None && cfg.dynamicSampling
        && (error == TooManyRounds ==> |l.pending| < cfg.batchSize && l.rounds > cfg.maxRounds)
        && (error == NothingToTrain ==> cfg.batchSize == 0)
        && error != NoTags
    }

    /** The batches of one epoch, until the loader is exhausted or the run ends. */
    method RunEpoch() returns (ending: Option<Ending>)
      requires Between() && Now().pending == [] && Now().survivors == [] && Now().rounds == 0
      requires epoch < cfg.maxEpochs && total < cfg.maxSteps && Now().ended == None
      modifies this`stale, this`step, this`total, this`position, this`rolloutsMade, this`rowsMade, this`log,
               policy, generator, store
      ensures Between()
      ensures ending.None? ==> Now().ended == None
      ensures ending.None? ==> total < cfg.maxSteps && position >= cfg.loaderLength
      ensures ending.None? ==> (Now().rounds > 0 ==> cfg.dynamicSampling && |Now().survivors| < cfg.batchSize)
      ensures ending.Some? ==> EndsFor(ending.value)
    {
      hide Good, GoodLog, Replay, ValidationFollows, Pick, IdSet, Settled, Post;
      var pending: Option<Pending> := None;
      var unfiltered: seq<real>, rounds := [], 0;
      while position < cfg.loaderLength
        invariant Between() && Now().ended == None && epoch < cfg.maxEpochs && total < cfg.maxSteps
        invariant (pending.Some? ==> pending.value.Aligned()) && Ids(RowsOf(pending)) == Now().pending == Now().survivors
        invariant AllFrom(Now().survivors, policy.version)
        invariant rounds == Now().rounds && MaySample(cfg, Now())
        invariant cfg.dynamicSampling || (rounds == 0 && pending == None)
        decreases cfg.loaderLength - position
      {
        var meta, carry := RunRollout();
        rounds := rounds + 1;
        var batch := meta.ids;
        if cfg.dynamicSampling {
          ghost var before := Now();
          var r := Sample(meta, carry, pending, unfiltered, rounds);
          SettledIsReady(cfg, before, meta.tags.value);
          match r {
            case Err(error) =>
              return Some(SamplingFailed(error));
            case Ok(More(p, u)) =>
              pending, unfiltered := p, u;
              continue;
            case Ok(Complete(b, _, _, _)) =>
              batch := b.ids;
          }
        }
        pending, unfiltered, rounds := None, [], 0;
        ending := FinishStep(batch);
        if ending.Some? {
          return;
        }
      }
      ending := None;
    }

    method Run() returns (ending: Ending)
      requires Valid() && log == []
      modifies this`stale, this`epoch, this`step, this`total, this`position, this`rolloutsMade, this`rowsMade, this`log,
               policy, generator, store
      ensures Between() && EndsFor(ending)
      // Every rollout, validation and update of the run was made with the weights of its time, and in its time.
      ensures forall k :: 0 <= k < |log| ==> FreshAt(start, log, k) && InTime(cfg, start, log, k)
      ensures ending == EpochsDone ==> start.epoch + Epochs(log) >= cfg.maxEpochs || start.total + Updates(log) >= cfg.maxSteps
      // Validations come exactly when they are due: before the first step, and after the updates the schedule names.
      ensures ValidatesNext(log, 0) <==> cfg.valAtStart && start.step == 0
      ensures forall k :: 0 <= k < |log| ==> ValidatedOnSchedule(start, log, k, cfg.valPeriod, cfg.valStartAt, cfg.valAtEnd)
      // No event before a later step gave a reason to end the run, and the reason given is the last one's.
      ensures forall k, j :: 0 <= k < j < |log| && IsProgress(log[j]) ==> LeavesOpen(cfg, start, log, k)
      ensures ending.Stopped? ==> exists k :: 0 <= k < |log| && EndsAt(cfg, start, log, k, ending.stop)
    {
      ending := Train();
      LedgerCounts(cfg, start, log);
      ValidationsAreOnSchedule(cfg, start, log, 0);
      hide Replay, GoodLog, FreshAt, InTime, LeavesOpen, EndsAt, ValidatesNext, ValidatedOnSchedule, Updates, Epochs;
      forall k, j | 0 <= k < j < |log| && IsProgress(log[j])
        ensures LeavesOpen(cfg, start, log, k)
      {
        OnlyTheLastEnds(cfg, start, log, k, j);
      }
      if ending.Stopped? {
        ghost var k := SomethingEnded(cfg, start, log, ending.stop);
      }
      forall k | 0 <= k < |log|
        ensures FreshAt(start, log, k) && InTime(cfg, start, log, k)
      {
        GenerationIsNeverStale(cfg, start, log, k);
        EventsAreInTime(cfg, start, log, k);
      }
      forall k | 0 <= k < |log|
        ensures ValidatedOnSchedule(start, log, k, cfg.valPeriod, cfg.valStartAt, cfg.valAtEnd)
      {
        ValidationsAreOnSchedule(cfg, start, log, k);
      }
    }

    /** The loader is exhausted: the counters move on, and the pending cache is dropped without discarding its rows. */
    method EndEpoch()
      requires Between() && Now().ended == None && position >= cfg.loaderLength
      requires Now().rounds > 0 ==> cfg.dynamicSampling && |Now().survivors| < cfg.batchSize
      modifies this`epoch, this`step, this`position, this`log
      ensures Between() && Now().pending == [] && Now().survivors == [] && Now().rounds == 0
      ensures epoch == old(epoch) + 1 && Now().ended == None
    {
      hide Replay, GoodLog, ValidationFollows, Pick, IdSet;
      Note(EpochEnds);
      epoch := epoch + 1;
      step := 0;
      position := 0;
    }

    method Train() returns (ending: Ending)
      requires Valid() && log == []
      modifies this`stale, this`epoch, this`step, this`total, this`position, this`rolloutsMade, this`rowsMade, this`log,
               policy, generator, store
      ensures Between() && EndsFor(ending)
    {
      assert Now() == Opening(start);
      hide Replay, GoodLog, Good, Post;
      if cfg.valAtStart && step == 0 {
        var stop := Validate(0, 0);
        if stop {
          return Stopped(StoppedEarly);
        }
      }
      while epoch < cfg.maxEpochs && total < cfg.maxSteps
        invariant Between() && Now().ended == None
        invariant Now().pending == [] && Now().survivors == [] && Now().rounds == 0
        decreases cfg.maxEpochs - epoch
      {
        var ended := RunEpoch();
        if ended.Some? {
          return ended.value;
        }
        EndEpoch();
      }
      return EpochsDone;
    }
  }
}
