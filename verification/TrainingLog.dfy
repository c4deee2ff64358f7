/**
 What a generate-and-train run does, as a log of events, and what must be true of every such log:
 which weights generate, which rows train, and where every generated row ends up.
 */
module TrainingLog {
  import opened Prelude
  import opened DynamicSampling

  /** The outcome of generating one sample: its prompt, its reward, and its reward before shaping. */
  datatype Draw = Draw(prompt: nat, totalReward: real, unshapedReward: real)

  datatype Config = Config(
    rollouts: nat -> seq<Draw>,  // what the run's first, second, ... rollout yields
    stops: nat -> bool,          // validation after so many steps meets the threshold
    timesOut: nat -> bool,       // the time limit is near after so many steps
    dynamicSampling: bool,
    batchSize: nat,          // prompts per step times generations per prompt
    maxRounds: int,          // dynamic_sampling_max_gen_batches
    maxSteps: int,
    maxEpochs: int,
    loaderLength: nat,
    valPeriod: int,
    valStartAt: int,
    valAtStart: bool,
    valAtEnd: bool)

  /** A set of model weights, known by a version number: a refit copies it, an update bumps it. */
  class Weights {
    var version: nat

    constructor (v: nat)
      ensures version == v
    {
      version := v;
    }
  }

  /** Why an update, or the validation after it, ends the run. */
  datatype Stop = StepsDone | StoppedEarly | TimedOut

  /** Where a run starts: fresh, or from a checkpoint; a validation may be owed before the first step. */
  datatype Start = Start(version: nat, epoch: nat, step: nat, total: nat, position: nat, stale: bool, validateFirst: bool)

  datatype Event =
    | Refit
    | Rollout(rows: seq<SampleId>, policy: nat, generator: nat)  // the versions at the time
    | Filtered(trivial: seq<bool>)                               // the newest rows with equal rewards are discarded
    | Overflow(excess: seq<SampleId>)                            // survivors beyond the batch are discarded
    | Trained(batch: seq<SampleId>, policy: nat, last: bool)     // the version that was updated
    | Validated(policy: nat, generator: nat)
    | EpochEnds                                                  // the pending cache is forgotten

  /** What a log amounts to. */
  datatype Ledger = Ledger(
    version: nat,                      // of the policy
    stale: bool,
    epoch: nat, step: nat, total: nat,
    drawn: nat,                        // batches drawn from the loader in this epoch
    rollouts: nat,                     // in the whole run
    rounds: nat,                       // rollouts since the last update or epoch end
    awaiting: bool,                    // the newest rollout is still to be filtered or trained on
    inFlight: seq<SampleId>,           // its rows until then
    survivors: seq<SampleId>,          // of all rollouts since the last update, in generation order
    pending: seq<SampleId>,            // the survivors that are still in the store
    generated: multiset<SampleId>,
    trained: multiset<SampleId>,
    discarded: multiset<SampleId>,
    lost: multiset<SampleId>,          // pending when an epoch ended
    store: set<SampleId>,
    due: Option<nat>,                  // a validation is owed for this step
    ended: Option<Stop>)

  function Opening(st: Start): Ledger
  {
    Ledger(st.version, st.stale, st.epoch, st.step, st.total, st.position, 0, 0, false, [], [], [],
           multiset{}, multiset{}, multiset{}, multiset{}, {}, if st.validateFirst then Some(0) else None, None)
  }

  predicate ValidationFollows(cfg: Config, total: nat, last: bool)
  {
    (cfg.valPeriod > 0 && total >= cfg.valStartAt && total % cfg.valPeriod == 0) || (cfg.valAtEnd && last)
  }

  function Post(cfg: Config, l: Ledger, e: Event): Ledger
  {
    match e
    case Refit => l.(stale := false)
    case Rollout(rows, _, _) =>
      l.(drawn := l.drawn + 1, rollouts := l.rollouts + 1, rounds := l.rounds + 1, awaiting := true, inFlight := rows,
         generated := l.generated + multiset(rows), store := l.store + IdSet(rows))
    case Filtered(trivial) =>
      if |trivial| != |l.inFlight| then l
      else
        var kept, dropped := Pick(l.inFlight, trivial, false), Pick(l.inFlight, trivial, true);
        l.(awaiting := false, inFlight := [], survivors := l.survivors + kept, pending := l.pending + kept,
           discarded := l.discarded + multiset(dropped), store := l.store - IdSet(dropped))
    case Overflow(excess) =>
      l.(pending := if |l.pending| > cfg.batchSize then l.pending[..cfg.batchSize] else l.pending,
         discarded := l.discarded + multiset(excess), store := l.store - IdSet(excess))
    case Trained(batch, _, last) =>
      l.(version := l.version + 1, stale := true, step := l.step + 1, total := l.total + 1, rounds := 0,
         awaiting := false, inFlight := [], survivors := [], pending := [],
         trained := l.trained + multiset(batch), store := l.store - IdSet(batch),
         due := if ValidationFollows(cfg, l.total + 1, last) then Some(l.total + 1) else None,
         ended := if cfg.timesOut(l.total + 1) then Some(TimedOut) else if l.total + 1 >= cfg.maxSteps then Some(StepsDone) else None)
    case Validated(_, _) =>
      l.(due := None, ended := if l.due.Some? && cfg.stops(l.due.value) then Some(StoppedEarly) else l.ended)
    case EpochEnds =>
      l.(epoch := l.epoch + 1, step := 0, drawn := 0, rounds := 0,
         survivors := [], pending := [], lost := l.lost + multiset(l.pending))
  }

  function Replay(cfg: Config, st: Start, log: seq<Event>): Ledger
  {
    if log == [] then Opening(st) else Post(cfg, Replay(cfg, st, log[..|log| - 1]), log[|log| - 1])
  }

  // ---- what every event must satisfy ------------------------------------------------------------

  predicate AllFrom(ids: seq<SampleId>, version: nat)
  {
    forall i :: 0 <= i < |ids| ==> ids[i].version == version
  }

  predicate Numbered(ids: seq<SampleId>, first: nat)
  {
    forall i :: 0 <= i < |ids| ==> ids[i].serial == first + i
  }

  /** The last step, as the loop computes it. */
  predicate IsLast(cfg: Config, l: Ledger)
  {
    l.total + 1 >= cfg.maxSteps || (l.epoch + 1 == cfg.maxEpochs && l.step + 1 == cfg.loaderLength)
  }

  /** The rows of a rollout: its samples in order, numbered on, and stamped with the generator's version. */
  predicate Made(rows: seq<SampleId>, draws: seq<Draw>, first: nat, version: nat)
  {
    |rows| == |draws| && forall i :: 0 <= i < |rows| ==> rows[i] == SampleId(first + i, draws[i].prompt, version)
  }

  function MadeFrom(draws: seq<Draw>, first: nat, version: nat): (rows: seq<SampleId>)
    ensures Made(rows, draws, first, version) && AllFrom(rows, version)
  {
    seq(|draws|, i requires 0 <= i < |draws| => SampleId(first + i, draws[i].prompt, version))
  }

  /** All samples of a prompt in a rollout got the same reward; a single sample always has. */
  predicate IsTrivial(draws: seq<Draw>, prompt: nat)
  {
    forall i, j :: 0 <= i < |draws| && 0 <= j < |draws| && draws[i].prompt == prompt && draws[j].prompt == prompt ==>
      draws[i].unshapedReward == draws[j].unshapedReward
  }

  function Flags(draws: seq<Draw>): (trivial: seq<bool>)
    ensures |trivial| == |draws|
  {
    seq(|draws|, i requires 0 <= i < |draws| => IsTrivial(draws, draws[i].prompt))
  }

  lemma FlagsCompareRewards(draws: seq<Draw>)
    ensures forall i :: 0 <= i < |draws| ==>
      (Flags(draws)[i] <==>
       forall j :: 0 <= j < |draws| && draws[j].prompt == draws[i].prompt ==> draws[j].unshapedReward == draws[i].unshapedReward)
  {
  }

  /** No validation is owed, and nothing has ended the run. */
  predicate Open(l: Ledger)
  {
    l.due == None && l.ended == None
  }

  /** Sampling goes on only while there are too few survivors and rounds are left; no cache yet means the first round. */
  predicate MaySample(cfg: Config, l: Ledger)
  {
    l.rounds == 0 || (cfg.dynamicSampling && |l.survivors| < cfg.batchSize && l.rounds <= cfg.maxRounds)
  }

  predicate Good(cfg: Config, l: Ledger, e: Event)
  {
    match e
    case Refit => l.stale
    // Never stale: the generator runs the policy's current weights.
    case Rollout(rows, policy, generator) =>
      && policy == l.version && generator == l.version && Made(rows, cfg.rollouts(l.rollouts), |l.generated|, generator)
      && !l.awaiting && MaySample(cfg, l) && Open(l)
      && l.drawn < cfg.loaderLength && l.epoch < cfg.maxEpochs && l.total < cfg.maxSteps
    case Validated(policy, generator) =>
      policy == l.version && generator == l.version && l.due.Some?
    case Filtered(trivial) =>
      && cfg.dynamicSampling && l.awaiting && |trivial| == |l.inFlight|
      && l.rollouts > 0 && trivial == Flags(cfg.rollouts(l.rollouts - 1))
    case Overflow(excess) => cfg.dynamicSampling && |l.pending| > cfg.batchSize && excess == l.pending[cfg.batchSize..]
    // A batch holds the first survivors since the last update, all generated by the version it updates.
    case Trained(batch, policy, last) =>
      policy == l.version && last == IsLast(cfg, l) && Ready(cfg, l, batch)
    case EpochEnds =>
      && !l.awaiting && l.drawn >= cfg.loaderLength && Open(l)
      && (l.rounds > 0 ==> cfg.dynamicSampling && |l.survivors| < cfg.batchSize)
  }

  function Max(a: int, b: int): int { if a >= b then a else b }

  predicate GoodLog(cfg: Config, st: Start, log: seq<Event>)
  {
    log == [] ||
    (GoodLog(cfg, st, log[..|log| - 1]) && Good(cfg, Replay(cfg, st, log[..|log| - 1]), log[|log| - 1]))
  }

  lemma Extend(cfg: Config, st: Start, log: seq<Event>, e: Event)
    requires GoodLog(cfg, st, log) && Good(cfg, Replay(cfg, st, log), e)
    ensures GoodLog(cfg, st, log + [e]) && Replay(cfg, st, log + [e]) == Post(cfg, Replay(cfg, st, log), e)
  {
    assert (log + [e])[..|log|] == log;
  }

  /** Every event of a good log satisfies its rule in the situation it happened in. */
  lemma {:induction false} EveryEventIsGood(cfg: Config, st: Start, log: seq<Event>, k: nat)
    requires GoodLog(cfg, st, log) && k < |log|
    ensures GoodLog(cfg, st, log[..k]) && Good(cfg, Replay(cfg, st, log[..k]), log[k])
    decreases |log|
  {
    hide Good, Post;
    var n := |log| - 1;
    if k < n {
      EveryEventIsGood(cfg, st, log[..n], k);
      assert log[..n][..k] == log[..k];
    }
  }

  // ---- freshness --------------------------------------------------------------------------------

  function Updates(log: seq<Event>): nat
  {
    if log == [] then 0 else Updates(log[..|log| - 1]) + if log[|log| - 1].Trained? then 1 else 0
  }

  function Epochs(log: seq<Event>): nat
  {
    if log == [] then 0 else Epochs(log[..|log| - 1]) + if log[|log| - 1].EpochEnds? then 1 else 0
  }

  function Rollouts(log: seq<Event>): nat
  {
    if log == [] then 0 else Rollouts(log[..|log| - 1]) + if log[|log| - 1].Rollout? then 1 else 0
  }

  /** The loader's position: batches drawn in the current epoch. */
  function Drawn(st: Start, log: seq<Event>): nat
  {
    if log == [] then st.position
    else if log[|log| - 1].EpochEnds? then 0
    else Drawn(st, log[..|log| - 1]) + if log[|log| - 1].Rollout? then 1 else 0
  }

  /** Updates in the current epoch. */
  function StepsIn(st: Start, log: seq<Event>): nat
  {
    if log == [] then st.step
    else if log[|log| - 1].EpochEnds? then 0
    else StepsIn(st, log[..|log| - 1]) + if log[|log| - 1].Trained? then 1 else 0
  }

  /** The ledger's counters count the events. */
  predicate CountsEvents(st: Start, log: seq<Event>, l: Ledger)
  {
    && l.total == st.total + Updates(log) && l.epoch == st.epoch + Epochs(log) && l.rollouts == Rollouts(log)
    && l.drawn == Drawn(st, log) && l.step == StepsIn(st, log)
  }

  lemma CountersMove(cfg: Config, l: Ledger, e: Event)
    ensures var t := Post(cfg, l, e);
      && t.total == l.total + (if e.Trained? then 1 else 0) && t.epoch == l.epoch + (if e.EpochEnds? then 1 else 0)
      && t.rollouts == l.rollouts + (if e.Rollout? then 1 else 0)
      && t.drawn == (if e.EpochEnds? then 0 else l.drawn + if e.Rollout? then 1 else 0)
      && t.step == (if e.EpochEnds? then 0 else l.step + if e.Trained? then 1 else 0)
  {
    hide Pick, IdSet, IsLast, ValidationFollows;
  }

  lemma {:induction false} LedgerCounts(cfg: Config, st: Start, log: seq<Event>)
    ensures CountsEvents(st, log, Replay(cfg, st, log))
    decreases |log|
  {
    if log != [] {
      LedgerCounts(cfg, st, log[..|log| - 1]);
      CountersMove(cfg, Replay(cfg, st, log[..|log| - 1]), log[|log| - 1]);
      hide Post;
    }
  }

  /**
   The event at `k` comes in its time: a rollout while steps, epochs and batches are left, of the samples given for it; an
   update marked as the last one exactly when it is; and an epoch's end once its batches are drawn.
   */
  predicate InTime(cfg: Config, st: Start, log: seq<Event>, k: nat)
    requires k < |log|
  {
    var past := log[..k];
    match log[k]
    case Rollout(rows, _, _) =>
      && st.total + Updates(past) < cfg.maxSteps && st.epoch + Epochs(past) < cfg.maxEpochs
      && Drawn(st, past) < cfg.loaderLength && SamePrompts(rows, cfg.rollouts(Rollouts(past)))
    case Trained(_, _, last) =>
      last <==> st.total + Updates(past) + 1 >= cfg.maxSteps
                || (st.epoch + Epochs(past) + 1 == cfg.maxEpochs && StepsIn(st, past) + 1 == cfg.loaderLength)
    case EpochEnds => Drawn(st, past) >= cfg.loaderLength
    case _ => true
  }

  lemma EventsAreInTime(cfg: Config, st: Start, log: seq<Event>, k: nat)
    requires GoodLog(cfg, st, log) && k < |log|
    ensures InTime(cfg, st, log, k)
  {
    EveryEventIsGood(cfg, st, log, k);
    LedgerCounts(cfg, st, log[..k]);
    hide GoodLog, Replay, AllFrom, Flags, Ready;
  }

  lemma OnlyUpdatesBumpTheVersion(cfg: Config, l: Ledger, e: Event)
    ensures Post(cfg, l, e).version == l.version + if e.Trained? then 1 else 0
  {
    hide Pick, IdSet, IsLast, ValidationFollows;
  }

  lemma {:induction false} VersionCountsUpdates(cfg: Config, st: Start, log: seq<Event>)
    ensures Replay(cfg, st, log).version == st.version + Updates(log)
    decreases |log|
  {
    if log != [] {
      VersionCountsUpdates(cfg, st, log[..|log| - 1]);
      OnlyUpdatesBumpTheVersion(cfg, Replay(cfg, st, log[..|log| - 1]), log[|log| - 1]);
      hide Post;
    }
  }

  /** The event at `k` used the weights left by all updates before it. */
  predicate FreshAt(st: Start, log: seq<Event>, k: nat)
    requires k < |log|
  {
    var current := st.version + Updates(log[..k]);
    match log[k]
    case Rollout(rows, policy, generator) => policy == generator == current && AllFrom(rows, current)
    case Validated(policy, generator) => policy == generator == current
    case Trained(batch, policy, _) => policy == current && AllFrom(batch, current)
    case _ => true
  }

  /**
   Over a whole run: every rollout and validation uses the weights left by all updates so far, and every
   row of a batch, over however many rounds it was collected, was generated by exactly those weights.
   */
  lemma GenerationIsNeverStale(cfg: Config, st: Start, log: seq<Event>, k: nat)
    requires GoodLog(cfg, st, log) && k < |log|
    ensures FreshAt(st, log, k)
  {
    EveryEventIsGood(cfg, st, log, k);
    VersionCountsUpdates(cfg, st, log[..k]);
    if log[k].Rollout? {
      var l := Replay(cfg, st, log[..k]);
      MadeFacts(log[k].rows, cfg.rollouts(l.rollouts), |l.generated|, l.version);
    }
  }

  // ---- endings ----------------------------------------------------------------------------------

  /** Events after which the run has gone on. */
  predicate IsProgress(e: Event)
  {
    e.Rollout? || e.Trained? || e.EpochEnds?
  }

  /** Nothing but a validation that is still owed follows an ending. */
  lemma EndingsLast(cfg: Config, l: Ledger, e: Event)
    requires Good(cfg, l, e) && l.ended.Some?
    ensures !IsProgress(e) && Post(cfg, l, e).ended.Some?
  {
    hide Pick, IdSet, IsLast, ValidationFollows, Made, Flags, AllFrom, MaySample;
  }

  lemma ReplayNext(cfg: Config, st: Start, log: seq<Event>, j: nat)
    requires j < |log|
    ensures Replay(cfg, st, log[..j + 1]) == Post(cfg, Replay(cfg, st, log[..j]), log[j])
  {
    hide Post;
    assert log[..j + 1][..j] == log[..j];
  }

  lemma {:induction false} NoProgressAfterEnding(cfg: Config, st: Start, log: seq<Event>, k: nat, j: nat)
    requires GoodLog(cfg, st, log) && k <= j < |log| && Replay(cfg, st, log[..k]).ended.Some?
    ensures !IsProgress(log[j]) && Replay(cfg, st, log[..j + 1]).ended.Some?
    decreases j
  {
    hide Good, Post, Replay, GoodLog;
    if k < j {
      NoProgressAfterEnding(cfg, st, log, k, j - 1);
    }
    EveryEventIsGood(cfg, st, log, j);
    EndingsLast(cfg, Replay(cfg, st, log[..j]), log[j]);
    ReplayNext(cfg, st, log, j);
  }

  /** The event at `k` gives no reason to end the run. */
  predicate LeavesOpen(cfg: Config, st: Start, log: seq<Event>, k: nat)
    requires k < |log|
  {
    var n := st.total + Updates(log[..k]);
    && (log[k].Trained? ==> !cfg.timesOut(n + 1) && n + 1 < cfg.maxSteps)
    && (log[k].Validated? ==> !cfg.stops(StepValidated(st, log[..k])))
  }

  /** The step a validation is for: that of the newest update, or 0 before the first. */
  function StepValidated(st: Start, past: seq<Event>): nat
  {
    if Updates(past) == 0 then 0 else st.total + Updates(past)
  }

  lemma DueMoves(cfg: Config, l: Ledger, e: Event)
    ensures var t := Post(cfg, l, e);
      if e.Trained? then
        t.due == if ValidationFollows(cfg, l.total + 1, e.last) then Some(l.total + 1) else None
      else if e.Validated? then t.due == None
      else t.due == l.due
  {
    hide Pick, IdSet, ValidationFollows;
  }

  lemma {:induction false} DueForNewest(cfg: Config, st: Start, log: seq<Event>)
    ensures Replay(cfg, st, log).due.Some? ==> Replay(cfg, st, log).due.value == StepValidated(st, log)
    decreases |log|
  {
    if log != [] {
      var past := log[..|log| - 1];
      DueForNewest(cfg, st, past);
      LedgerCounts(cfg, st, past);
      DueMoves(cfg, Replay(cfg, st, past), log[|log| - 1]);
      hide Post, ValidationFollows;
    }
  }

  /**
   A run goes on only past what does not end it: an update before a later step was neither at the step limit nor near
   the time limit, and a validation before it did not meet the threshold.
   */
  lemma OnlyTheLastEnds(cfg: Config, st: Start, log: seq<Event>, k: nat, j: nat)
    requires GoodLog(cfg, st, log) && k < j < |log| && IsProgress(log[j])
    ensures LeavesOpen(cfg, st, log, k)
  {
    hide Replay, GoodLog, Good, Post;
    EveryEventIsGood(cfg, st, log, k);
    ReplayNext(cfg, st, log, k);
    LedgerCounts(cfg, st, log[..k]);
    DueForNewest(cfg, st, log[..k]);
    var l := Replay(cfg, st, log[..k]);
    if Post(cfg, l, log[k]).ended.Some? {
      NoProgressAfterEnding(cfg, st, log, k + 1, j);
    }
    NotEndedBy(cfg, l, log[k]);
  }

  /** The event at `k` ends the run, for this reason, and the run makes no progress after it. */
  predicate EndsAt(cfg: Config, st: Start, log: seq<Event>, k: nat, stop: Stop)
    requires k < |log|
  {
    var n := st.total + Updates(log[..k]);
    && (forall j :: k < j < |log| ==> !IsProgress(log[j]))
    && match stop
       case StoppedEarly => log[k].Validated? && cfg.stops(StepValidated(st, log[..k]))
       case TimedOut => log[k].Trained? && cfg.timesOut(n + 1)
       case StepsDone => log[k].Trained? && !cfg.timesOut(n + 1) && n + 1 >= cfg.maxSteps
  }

  /** Every ending comes from the event that gives the reason. */
  lemma {:induction false} SomethingEnded(cfg: Config, st: Start, log: seq<Event>, stop: Stop) returns (k: nat)
    requires GoodLog(cfg, st, log) && Replay(cfg, st, log).ended == Some(stop)
    ensures k < |log| && EndsAt(cfg, st, log, k, stop)
    decreases |log|
  {
    hide Replay, GoodLog, Post, Good;
    NothingEndedYet(cfg, st);
    assert log != [];
    var n := |log| - 1;
    var past := log[..n];
    var l := Replay(cfg, st, past);
    EndOfLog(cfg, st, log);
    EndedBefore(cfg, l, log[n], stop);
    LedgerCounts(cfg, st, past);
    DueForNewest(cfg, st, past);
    if l.ended == Some(stop) && !EndsNow(cfg, l, log[n], stop) {
      k := SomethingEnded(cfg, st, past, stop);
      assert past[..k] == log[..k] && past[k] == log[k];
    } else {
      k := n;
    }
  }

  lemma NothingEndedYet(cfg: Config, st: Start)
    ensures Replay(cfg, st, []).ended == None
  {
  }

  lemma EndOfLog(cfg: Config, st: Start, log: seq<Event>)
    requires log != [] && GoodLog(cfg, st, log)
    ensures var past := log[..|log| - 1];
      && GoodLog(cfg, st, past) && Good(cfg, Replay(cfg, st, past), log[|log| - 1])
      && Replay(cfg, st, log) == Post(cfg, Replay(cfg, st, past), log[|log| - 1])
  {
  }

  predicate EndsNow(cfg: Config, l: Ledger, e: Event, stop: Stop)
  {
    match stop
    case StoppedEarly => e.Validated? && l.due.Some? && cfg.stops(l.due.value)
    case TimedOut => e.Trained? && cfg.timesOut(l.total + 1)
    case StepsDone => e.Trained? && !cfg.timesOut(l.total + 1) && l.total + 1 >= cfg.maxSteps
  }

  lemma EndedBefore(cfg: Config, l: Ledger, e: Event, stop: Stop)
    requires Good(cfg, l, e) && Post(cfg, l, e).ended == Some(stop)
    ensures EndsNow(cfg, l, e, stop) || (l.ended == Some(stop) && !IsProgress(e))
  {
    hide Pick, IdSet, IsLast, ValidationFollows, Made, Flags, AllFrom, MaySample;
  }

  lemma NotEndedBy(cfg: Config, l: Ledger, e: Event)
    requires Good(cfg, l, e) && Post(cfg, l, e).ended == None
    ensures e.Trained? ==> !cfg.timesOut(l.total + 1) && l.total + 1 < cfg.maxSteps
    ensures e.Validated? ==> l.due.Some? && !cfg.stops(l.due.value)
  {
    hide Pick, IdSet, IsLast, ValidationFollows, Made, Flags, AllFrom, MaySample, Ready;
  }

  // ---- validations ------------------------------------------------------------------------------

  /** From position `k` on, a validation comes before any rollout or update. */
  ghost predicate ValidatesNext(log: seq<Event>, k: nat)
  {
    exists j :: k <= j < |log| && log[j].Validated? && forall i :: k <= i < j ==> !log[i].Rollout? && !log[i].Trained?
  }

  /** An update is followed by a validation exactly when the period and the start, or the last step, demand it. */
  ghost predicate ValidatedOnSchedule(st: Start, log: seq<Event>, k: nat, period: int, startAt: int, atEnd: bool)
    requires k < |log|
  {
    log[k].Trained? ==>
      var n := st.total + Updates(log[..k]) + 1;
      ValidatesNext(log, k + 1) <==> (period > 0 && n >= startAt && n % period == 0) || (atEnd && log[k].last)
  }

  lemma StillDue(cfg: Config, l: Ledger, e: Event)
    requires Good(cfg, l, e) && l.due.Some? && !e.Validated?
    ensures !e.Rollout? && !e.Trained? && Post(cfg, l, e).due.Some?
  {
    DueMoves(cfg, l, e);
    hide Post, IsLast, Made, Flags, AllFrom, MaySample;
  }

  lemma {:induction false} DueComesNext(cfg: Config, st: Start, log: seq<Event>, k: nat)
    requires GoodLog(cfg, st, log) && k <= |log| && Replay(cfg, st, log[..k]).due.Some? && Replay(cfg, st, log).due == None
    ensures ValidatesNext(log, k)
    decreases |log| - k
  {
    hide Replay, GoodLog, Good, Post;
    assert log[..|log|] == log;
    assert k < |log|;
    if !log[k].Validated? {
      EveryEventIsGood(cfg, st, log, k);
      StillDue(cfg, Replay(cfg, st, log[..k]), log[k]);
      ReplayNext(cfg, st, log, k);
      DueComesNext(cfg, st, log, k + 1);
      var j :| k + 1 <= j < |log| && log[j].Validated? && forall i :: k + 1 <= i < j ==> !log[i].Rollout? && !log[i].Trained?;
    }
  }

  lemma {:induction false} NothingBecomesDue(cfg: Config, st: Start, log: seq<Event>, k: nat, j: nat)
    requires k <= j <= |log| && Replay(cfg, st, log[..k]).due == None
    requires forall i :: k <= i < j ==> !log[i].Trained?
    ensures Replay(cfg, st, log[..j]).due == None
    decreases j
  {
    hide Replay, Post;
    if k < j {
      NothingBecomesDue(cfg, st, log, k, j - 1);
      ReplayNext(cfg, st, log, j - 1);
      DueMoves(cfg, Replay(cfg, st, log[..j - 1]), log[j - 1]);
    }
  }

  /** Where nothing is owed at the end, a validation comes next exactly where one is owed. */
  lemma ValidatesNextIff(cfg: Config, st: Start, log: seq<Event>, k: nat)
    requires GoodLog(cfg, st, log) && k <= |log| && Replay(cfg, st, log).due == None
    ensures ValidatesNext(log, k) <==> Replay(cfg, st, log[..k]).due.Some?
  {
    hide Replay, GoodLog;
    if Replay(cfg, st, log[..k]).due.Some? {
      DueComesNext(cfg, st, log, k);
    } else if ValidatesNext(log, k) {
      var j :| k <= j < |log| && log[j].Validated? && forall i :: k <= i < j ==> !log[i].Rollout? && !log[i].Trained?;
      NothingBecomesDue(cfg, st, log, k, j);
      EveryEventIsGood(cfg, st, log, j);
    }
  }

  /**
   Over a run that owes nothing at its end: an update that makes the total `n` is followed by a validation, before the
   next rollout, exactly when `n` is a multiple of the period and past the configured start, or the last step is to be
   validated and this is it; and a validation comes first exactly when one is owed at the start.
   */
  lemma ValidationsAreOnSchedule(cfg: Config, st: Start, log: seq<Event>, k: nat)
    requires GoodLog(cfg, st, log) && Replay(cfg, st, log).due == None
    ensures ValidatesNext(log, 0) <==> st.validateFirst
    ensures k < |log| ==> ValidatedOnSchedule(st, log, k, cfg.valPeriod, cfg.valStartAt, cfg.valAtEnd)
  {
    ValidatesNextIff(cfg, st, log, 0);
    FirstDue(cfg, st, log);
    hide *;
    if k < |log| {
      UpdatesAreOnSchedule(cfg, st, log, k);
    }
  }

  lemma UpdatesAreOnSchedule(cfg: Config, st: Start, log: seq<Event>, k: nat)
    requires GoodLog(cfg, st, log) && Replay(cfg, st, log).due == None && k < |log|
    ensures ValidatedOnSchedule(st, log, k, cfg.valPeriod, cfg.valStartAt, cfg.valAtEnd)
  {
    hide ValidatesNext, Updates, Replay, GoodLog, ValidationFollows;
    if log[k].Trained? {
      UpdateIsFollowed(cfg, st, log, k);
      FollowsIff(cfg, st.total + Updates(log[..k]) + 1, log[k].last);
    }
  }

  lemma FollowsIff(cfg: Config, n: nat, last: bool)
    ensures ValidationFollows(cfg, n, last) <==>
      (cfg.valPeriod > 0 && n >= cfg.valStartAt && n % cfg.valPeriod == 0) || (cfg.valAtEnd && last)
  {
  }

  lemma UpdateIsFollowed(cfg: Config, st: Start, log: seq<Event>, k: nat)
    requires GoodLog(cfg, st, log) && Replay(cfg, st, log).due == None && k < |log| && log[k].Trained?
    ensures ValidatesNext(log, k + 1) <==> ValidationFollows(cfg, st.total + Updates(log[..k]) + 1, log[k].last)
  {
    hide Post, ValidationFollows, Replay, GoodLog, ValidatesNext, Updates, Drawn, StepsIn;
    ValidatesNextIff(cfg, st, log, k + 1);
    ReplayNext(cfg, st, log, k);
    DueMoves(cfg, Replay(cfg, st, log[..k]), log[k]);
    LedgerCounts(cfg, st, log[..k]);
  }

  lemma FirstDue(cfg: Config, st: Start, log: seq<Event>)
    ensures Replay(cfg, st, log[..0]).due.Some? <==> st.validateFirst
  {
  }

  // ---- one sampling round -----------------------------------------------------------------------

  /** The ledger after a round's rows have been filtered, and the overflow, if any, discarded. */
  function Settled(cfg: Config, l: Ledger, trivial: seq<bool>): Ledger
  {
    var filtered := Post(cfg, l, Filtered(trivial));
    if |filtered.pending| > cfg.batchSize then Post(cfg, filtered, Overflow(filtered.pending[cfg.batchSize..])) else filtered
  }

  lemma SettlingIsGood(cfg: Config, l: Ledger, trivial: seq<bool>)
    requires cfg.dynamicSampling && |trivial| == |l.inFlight| && l.pending == l.survivors
    requires l.awaiting && l.rollouts > 0 && trivial == Flags(cfg.rollouts(l.rollouts - 1))
    ensures var filtered := Post(cfg, l, Filtered(trivial));
      && Good(cfg, l, Filtered(trivial))
      && (|filtered.pending| > cfg.batchSize ==> Good(cfg, filtered, Overflow(filtered.pending[cfg.batchSize..])))
  {
    hide Pick;
  }

  /** What a round's filtering adds to the log. */
  function SettledEvents(cfg: Config, l: Ledger, trivial: seq<bool>): seq<Event>
  {
    var filtered := Post(cfg, l, Filtered(trivial));
    [Filtered(trivial)] + if |filtered.pending| > cfg.batchSize then [Overflow(filtered.pending[cfg.batchSize..])] else []
  }

  lemma ExtendSettled(cfg: Config, st: Start, log: seq<Event>, trivial: seq<bool>)
    requires GoodLog(cfg, st, log) && cfg.dynamicSampling
    requires var l := Replay(cfg, st, log);
      && |trivial| == |l.inFlight| && l.pending == l.survivors
      && l.awaiting && l.rollouts > 0 && trivial == Flags(cfg.rollouts(l.rollouts - 1))
    ensures var l := Replay(cfg, st, log);
      var longer := log + SettledEvents(cfg, l, trivial);
      GoodLog(cfg, st, longer) && Replay(cfg, st, longer) == Settled(cfg, l, trivial)
  {
    var l := Replay(cfg, st, log);
    SettlingIsGood(cfg, l, trivial);
    hide Good, GoodLog, Replay, Post, Flags;
    var filtered := Post(cfg, l, Filtered(trivial));
    Extend(cfg, st, log, Filtered(trivial));
    if |filtered.pending| > cfg.batchSize {
      var overflow := Overflow(filtered.pending[cfg.batchSize..]);
      Extend(cfg, st, log + [Filtered(trivial)], overflow);
      assert log + [Filtered(trivial)] + [overflow] == log + SettledEvents(cfg, l, trivial);
    } else {
      assert log + [Filtered(trivial)] == log + SettledEvents(cfg, l, trivial);
    }
  }

  lemma SettledFacts(cfg: Config, l: Ledger, trivial: seq<bool>)
    requires |trivial| == |l.inFlight| && l.pending == l.survivors
    ensures var s := Settled(cfg, l, trivial);
      && s.survivors == l.survivors + Pick(l.inFlight, trivial, false)
      && s.pending == (if |s.survivors| > cfg.batchSize then s.survivors[..cfg.batchSize] else s.survivors)
      && s.store == l.store - IdSet(Pick(l.inFlight, trivial, true))
                    - (if |s.survivors| > cfg.batchSize then IdSet(s.survivors[cfg.batchSize..]) else {})
      && !s.awaiting && s.inFlight == []
  {
    hide Pick, IdSet;
  }

  /** What a round's filtering leaves as it was. */
  lemma SettledKeeps(cfg: Config, l: Ledger, trivial: seq<bool>)
    ensures var s := Settled(cfg, l, trivial);
      && s.version == l.version && s.stale == l.stale && s.epoch == l.epoch && s.step == l.step && s.total == l.total
      && s.drawn == l.drawn && s.rollouts == l.rollouts && s.rounds == l.rounds && s.due == l.due && s.ended == l.ended
      && s.generated == l.generated && s.trained == l.trained && s.lost == l.lost
  {
    hide Pick, IdSet;
  }

  /** When an update may follow a round. */
  predicate Ready(cfg: Config, l: Ledger, batch: seq<SampleId>)
  {
    && AllFrom(batch, l.version) && Open(l) && 1 <= l.rounds
    && if cfg.dynamicSampling then
         && |l.survivors| >= cfg.batchSize && batch == l.survivors[..cfg.batchSize] && batch == l.pending && !l.awaiting
       else batch == l.inFlight && l.awaiting && l.pending == []
  }

  lemma MadeSize(rows: seq<SampleId>, draws: seq<Draw>, first: nat, version: nat)
    requires Made(rows, draws, first, version)
    ensures |rows| == |draws| && |multiset(rows)| == |rows|
  {
  }

  lemma MadeFacts(rows: seq<SampleId>, draws: seq<Draw>, first: nat, version: nat)
    requires Made(rows, draws, first, version)
    ensures AllFrom(rows, version) && Numbered(rows, first)
  {
  }

  lemma PickedAreFrom(ids: seq<SampleId>, flags: seq<bool>, flag: bool, version: nat)
    requires |ids| == |flags| && AllFrom(ids, version)
    ensures AllFrom(Pick(ids, flags, flag), version)
  {
    if ids != [] {
      PickedAreFrom(ids[..|ids| - 1], flags[..|ids| - 1], flag, version);
    }
  }

  /** After a round the survivors still come from the current version, and a full cache is ready to train on. */
  lemma SettledIsReady(cfg: Config, l: Ledger, trivial: seq<bool>)
    requires cfg.dynamicSampling && |trivial| == |l.inFlight| && l.pending == l.survivors
    requires AllFrom(l.survivors, l.version) && AllFrom(l.inFlight, l.version)
    requires Open(l) && 1 <= l.rounds
    ensures var s := Settled(cfg, l, trivial);
      && !s.awaiting && s.inFlight == [] && s.rounds == l.rounds && Open(s) && s.version == l.version
      && AllFrom(s.survivors, s.version)
      && (if |s.survivors| >= cfg.batchSize then Ready(cfg, s, s.survivors[..cfg.batchSize]) else s.pending == s.survivors)
  {
    SettledFacts(cfg, l, trivial);
    SettledKeeps(cfg, l, trivial);
    PickedAreFrom(l.inFlight, trivial, false, l.version);
    hide Pick, Settled;
    var s := Settled(cfg, l, trivial);
    assert |s.survivors| == cfg.batchSize ==> s.survivors[..cfg.batchSize] == s.survivors;
  }

  // ---- conservation -------------------------------------------------------------------------------

  /** Every generated row is accounted for. */
  predicate Balanced(l: Ledger)
  {
    && l.generated == l.trained + l.discarded + l.lost + multiset(l.pending) + multiset(l.inFlight)
    && (!l.awaiting ==> l.inFlight == [])
  }

  predicate Unique(l: Ledger)
  {
    forall id :: id in l.generated ==> l.generated[id] == 1 && id.serial < |l.generated|
  }

  lemma {:induction false} NumberedOnce(ids: seq<SampleId>, first: nat)
    requires Numbered(ids, first)
    ensures forall id :: id in multiset(ids) ==> multiset(ids)[id] == 1 && first <= id.serial < first + |ids|
    ensures |multiset(ids)| == |ids|
  {
    if ids != [] {
      var n := |ids| - 1;
      NumberedOnce(ids[..n], first);
      assert ids == ids[..n] + [ids[n]];
      assert ids[n] !in multiset(ids[..n]);
    }
  }

  lemma FilterKeepsBalance(cfg: Config, l: Ledger, trivial: seq<bool>)
    requires |trivial| == |l.inFlight| && Balanced(l)
    ensures Balanced(Post(cfg, l, Filtered(trivial)))
  {
    PicksPartition(l.inFlight, trivial);
    hide Pick, IdSet;
  }

  lemma OverflowKeepsBalance(cfg: Config, l: Ledger, excess: seq<SampleId>)
    requires |l.pending| > cfg.batchSize && excess == l.pending[cfg.batchSize..] && Balanced(l)
    ensures Balanced(Post(cfg, l, Overflow(excess)))
  {
    hide IdSet;
    assert l.pending == l.pending[..cfg.batchSize] + excess;
  }

  lemma BalanceIsKept(cfg: Config, l: Ledger, e: Event)
    requires Good(cfg, l, e) && Balanced(l)
    ensures Balanced(Post(cfg, l, e))
  {
    hide Pick, IdSet, IsLast, ValidationFollows, AllFrom, Made, Flags, MaySample;
    match e
    case Filtered(trivial) => FilterKeepsBalance(cfg, l, trivial);
    case Overflow(excess) => OverflowKeepsBalance(cfg, l, excess);
    case _ =>
  }

  lemma {:induction false} LedgerBalances(cfg: Config, st: Start, log: seq<Event>)
    requires GoodLog(cfg, st, log)
    ensures Balanced(Replay(cfg, st, log))
    decreases |log|
  {
    if log != [] {
      LedgerBalances(cfg, st, log[..|log| - 1]);
      BalanceIsKept(cfg, Replay(cfg, st, log[..|log| - 1]), log[|log| - 1]);
      hide Post, Good, Balanced;
    }
  }

  lemma UniqueStays(cfg: Config, l: Ledger, e: Event)
    requires Good(cfg, l, e) && Unique(l)
    ensures Unique(Post(cfg, l, e))
  {
    if e.Rollout? {
      MadeFacts(e.rows, cfg.rollouts(l.rollouts), |l.generated|, e.generator);
      NumberedOnce(e.rows, |l.generated|);
    }
    hide Pick, IdSet, IsLast, ValidationFollows, Made, Flags, AllFrom, Ready, MaySample, Numbered;
  }

  lemma {:induction false} LedgerIsUnique(cfg: Config, st: Start, log: seq<Event>)
    requires GoodLog(cfg, st, log)
    ensures Unique(Replay(cfg, st, log))
    decreases |log|
  {
    if log != [] {
      LedgerIsUnique(cfg, st, log[..|log| - 1]);
      UniqueStays(cfg, Replay(cfg, st, log[..|log| - 1]), log[|log| - 1]);
      hide Good, Post, Unique;
    }
  }

  /** The store holds what was generated and neither trained on nor discarded. */
  ghost predicate StoreMatches(l: Ledger)
  {
    forall id :: id in l.store <==> id in l.generated && id !in l.trained && id !in l.discarded
  }

  lemma StoreFollowsRollout(cfg: Config, l: Ledger, e: Event)
    requires e.Rollout? && Good(cfg, l, e) && Balanced(l) && Unique(l) && StoreMatches(l)
    ensures StoreMatches(Post(cfg, l, e))
  {
    MadeFacts(e.rows, cfg.rollouts(l.rollouts), |l.generated|, e.generator);
    NumberedOnce(e.rows, |l.generated|);
    assert forall id :: id in e.rows ==> id in multiset(e.rows);
    assert forall id :: id in e.rows ==> id !in l.generated;
    assert forall id :: id in l.trained || id in l.discarded ==> id in l.generated;
  }

  lemma StoreFollowsOthers(cfg: Config, l: Ledger, e: Event)
    requires !e.Rollout? && StoreMatches(l)
    ensures StoreMatches(Post(cfg, l, e))
  {
    hide Pick, IsLast, ValidationFollows;
  }

  lemma {:induction false} StoreFollows(cfg: Config, st: Start, log: seq<Event>)
    requires GoodLog(cfg, st, log)
    ensures StoreMatches(Replay(cfg, st, log))
    decreases |log|
  {
    if log != [] {
      var l, e := Replay(cfg, st, log[..|log| - 1]), log[|log| - 1];
      StoreFollows(cfg, st, log[..|log| - 1]);
      LedgerBalances(cfg, st, log[..|log| - 1]);
      LedgerIsUnique(cfg, st, log[..|log| - 1]);
      if e.Rollout? { StoreFollowsRollout(cfg, l, e); } else { StoreFollowsOthers(cfg, l, e); }
    }
  }

  /** Every generated row is in exactly one place, and is in the store exactly while it can still be trained on or is lost. */
  lemma RowsAreConserved(cfg: Config, st: Start, log: seq<Event>, id: SampleId)
    requires GoodLog(cfg, st, log)
    ensures var l := Replay(cfg, st, log);
      && (if id in l.generated then 1 else 0)
         == (if id in l.trained then 1 else 0) + (if id in l.discarded then 1 else 0) + (if id in l.pending then 1 else 0)
            + (if id in l.inFlight then 1 else 0) + (if id in l.lost then 1 else 0)
      && (id in l.store <==> id in l.pending || id in l.inFlight || id in l.lost)
  {
    LedgerBalances(cfg, st, log);
    LedgerIsUnique(cfg, st, log);
    StoreFollows(cfg, st, log);
    var l := Replay(cfg, st, log);
    assert l.generated[id] == l.trained[id] + l.discarded[id] + l.lost[id] + multiset(l.pending)[id] + multiset(l.inFlight)[id];
  }

  // ---- prompt groups ------------------------------------------------------------------------------

  /** A rollout of whole groups: `g` samples of one prompt, then the next group. */
  predicate GroupedDraws(draws: seq<Draw>, g: nat)
    requires g > 0
    decreases |draws|
  {
    draws == [] ||
    (|draws| >= g && (forall i :: 0 <= i < g ==> draws[i].prompt == draws[0].prompt) && GroupedDraws(draws[g..], g))
  }

  /** Every rollout repeats each of its prompts `g` times in a row. */
  ghost predicate GroupedRollouts(cfg: Config, g: nat)
    requires g > 0
  {
    forall n: nat :: GroupedDraws(cfg.rollouts(n), g)
  }

  lemma {:induction false} GroupsOfPrompts(rows: seq<SampleId>, draws: seq<Draw>, trivial: seq<bool>, g: nat)
    requires g > 0 && |rows| == |draws| == |trivial| && GroupedDraws(draws, g)
    requires forall i :: 0 <= i < |rows| ==> rows[i].prompt == draws[i].prompt
    requires forall i, j :: 0 <= i < |rows| && 0 <= j < |rows| && rows[i].prompt == rows[j].prompt ==> trivial[i] == trivial[j]
    ensures UniformGroups(rows, trivial, g)
    decreases |rows|
  {
    if rows != [] {
      GroupsOfPrompts(rows[g..], draws[g..], trivial[g..], g);
    }
  }

  predicate SamePrompts(rows: seq<SampleId>, draws: seq<Draw>)
  {
    |rows| == |draws| && forall i :: 0 <= i < |rows| ==> rows[i].prompt == draws[i].prompt
  }

  /** In a rollout of whole groups the flags, computed per prompt, are the same throughout each group. */
  lemma RolloutsAreUniform(rows: seq<SampleId>, draws: seq<Draw>, g: nat)
    requires g > 0 && SamePrompts(rows, draws) && GroupedDraws(draws, g)
    ensures UniformGroups(rows, Flags(draws), g)
  {
    GroupsOfPrompts(rows, draws, Flags(draws), g);
  }

  /** What is in flight is the newest rollout. */
  predicate FlightIsMade(cfg: Config, l: Ledger)
  {
    l.awaiting ==> l.rollouts > 0 && SamePrompts(l.inFlight, cfg.rollouts(l.rollouts - 1))
  }

  lemma FlightStaysMade(cfg: Config, l: Ledger, e: Event)
    requires Good(cfg, l, e) && FlightIsMade(cfg, l)
    ensures FlightIsMade(cfg, Post(cfg, l, e))
  {
    hide Pick, IdSet, IsLast, ValidationFollows, AllFrom, Flags;
  }

  lemma {:induction false} FlightsAreMade(cfg: Config, st: Start, log: seq<Event>)
    requires GoodLog(cfg, st, log)
    ensures FlightIsMade(cfg, Replay(cfg, st, log))
    decreases |log|
  {
    if log != [] {
      FlightsAreMade(cfg, st, log[..|log| - 1]);
      FlightStaysMade(cfg, Replay(cfg, st, log[..|log| - 1]), log[|log| - 1]);
      hide Good, Post, FlightIsMade;
    }
  }

  lemma PendingStaysWhole(cfg: Config, l: Ledger, e: Event, g: nat, groups: nat)
    requires g > 0 && Good(cfg, l, e) && FlightIsMade(cfg, l) && GroupedRollouts(cfg, g)
    requires cfg.dynamicSampling && cfg.batchSize == groups * g && WholeGroups(l.pending, g)
    ensures WholeGroups(Post(cfg, l, e).pending, g)
  {
    hide IdSet, IsLast, ValidationFollows, AllFrom, Pick;
    match e
    case Filtered(trivial) =>
      RolloutsAreUniform(l.inFlight, cfg.rollouts(l.rollouts - 1), g);
      FilteringKeepsGroupsWhole(l.inFlight, trivial, g);
      WholeGroupsConcat(l.pending, Pick(l.inFlight, trivial, false), g);
    case Overflow(_) =>
      CutBetweenGroups(l.pending, g, groups);
    case _ =>
  }

  lemma {:induction false} PendingGroupsAreWhole(cfg: Config, st: Start, log: seq<Event>, g: nat, groups: nat)
    requires g > 0 && GoodLog(cfg, st, log) && GroupedRollouts(cfg, g)
    requires cfg.dynamicSampling && cfg.batchSize == groups * g
    ensures WholeGroups(Replay(cfg, st, log).pending, g)
    decreases |log|
  {
    if log != [] {
      var past := log[..|log| - 1];
      PendingGroupsAreWhole(cfg, st, past, g, groups);
      FlightsAreMade(cfg, st, past);
      PendingStaysWhole(cfg, Replay(cfg, st, past), log[|log| - 1], g, groups);
      hide Good, Post, FlightIsMade, GroupedRollouts;
    }
  }

  /**
   When every rollout repeats its prompts `g` times and the batch is a multiple of `g`, no prompt group is ever split
   between two batches, or between a batch and the overflow.
   */
  lemma GroupsAreNeverSplit(cfg: Config, st: Start, log: seq<Event>, g: nat, groups: nat, k: nat)
    requires g > 0 && GoodLog(cfg, st, log) && k < |log| && GroupedRollouts(cfg, g)
    requires cfg.dynamicSampling && cfg.batchSize == groups * g
    ensures log[k].Trained? ==> WholeGroups(log[k].batch, g) && |log[k].batch| == groups * g
    ensures log[k].Overflow? ==> WholeGroups(log[k].excess, g)
  {
    EveryEventIsGood(cfg, st, log, k);
    PendingGroupsAreWhole(cfg, st, log[..k], g, groups);
    if log[k].Overflow? {
      CutBetweenGroups(Replay(cfg, st, log[..k]).pending, g, groups);
    }
  }

  // ---- sampling rounds ----------------------------------------------------------------------------

  /** Survivors of the `r` rollouts from the `i`-th on. */
  function Kept(cfg: Config, i: nat, r: nat): nat
  {
    if r == 0 then 0 else Kept(cfg, i, r - 1) + KeptOf(Flags(cfg.rollouts(i + r - 1)))
  }

  function KeptOf(trivial: seq<bool>): nat
  {
    if trivial == [] then 0 else KeptOf(trivial[..|trivial| - 1]) + if trivial[|trivial| - 1] then 0 else 1
  }

  lemma {:induction false} PickLength<T>(xs: seq<T>, trivial: seq<bool>)
    requires |xs| == |trivial|
    ensures |Pick(xs, trivial, false)| == KeptOf(trivial)
  {
    if xs != [] {
      PickLength(xs[..|xs| - 1], trivial[..|xs| - 1]);
    }
  }

  lemma {:induction false} KeptGrows(cfg: Config, i: nat, r: nat, t: nat)
    requires r <= t
    ensures Kept(cfg, i, r) <= Kept(cfg, i, t)
  {
    if r < t { KeptGrows(cfg, i, r, t - 1); }
  }

  /** No smaller positive number of rollouts yields enough survivors. */
  predicate TooFewBefore(cfg: Config, i: nat, r: nat)
  {
    forall j: nat :: 0 < j < r ==> Kept(cfg, i, j) < cfg.batchSize
  }

  /** Rounds that have gone through the filter. */
  function RoundsSettled(l: Ledger): nat
    requires l.awaiting ==> l.rounds > 0
  {
    if l.awaiting then l.rounds - 1 else l.rounds
  }

  /** The rounds since the last update, in terms of what the rollouts yield. */
  predicate Counted(cfg: Config, l: Ledger)
  {
    && l.rounds <= l.rollouts && (l.awaiting ==> l.rounds > 0) && (!l.awaiting ==> l.inFlight == [])
    && l.rounds <= Max(cfg.maxRounds, 0) + 1
    && (l.awaiting ==> |l.inFlight| == |cfg.rollouts(l.rollouts - 1)|)
    && var first := l.rollouts - l.rounds;
       && |l.survivors| == Kept(cfg, first, RoundsSettled(l))
       && TooFewBefore(cfg, first, l.rounds)
  }

  lemma RolloutKeepsCounts(cfg: Config, l: Ledger, e: Event)
    requires cfg.dynamicSampling && e.Rollout? && Good(cfg, l, e) && Counted(cfg, l)
    ensures Counted(cfg, Post(cfg, l, e))
  {
    hide IdSet;
  }

  lemma FilterKeepsCounts(cfg: Config, l: Ledger, e: Event)
    requires e.Filtered? && Good(cfg, l, e) && Counted(cfg, l)
    ensures Counted(cfg, Post(cfg, l, e))
  {
    PickLength(l.inFlight, e.trivial);
    hide IdSet, Pick;
  }

  lemma CountsAreKept(cfg: Config, l: Ledger, e: Event)
    requires cfg.dynamicSampling && Good(cfg, l, e) && Counted(cfg, l)
    ensures Counted(cfg, Post(cfg, l, e))
  {
    match e
    case Rollout(_, _, _) => RolloutKeepsCounts(cfg, l, e);
    case Filtered(_) => FilterKeepsCounts(cfg, l, e);
    case _ =>
      hide IsLast, ValidationFollows, AllFrom, IdSet, Pick, Flags, Made;
  }

  lemma {:induction false} RoundsAreCounted(cfg: Config, st: Start, log: seq<Event>)
    requires cfg.dynamicSampling && GoodLog(cfg, st, log)
    ensures Counted(cfg, Replay(cfg, st, log))
    decreases |log|
  {
    if log != [] {
      RoundsAreCounted(cfg, st, log[..|log| - 1]);
      CountsAreKept(cfg, Replay(cfg, st, log[..|log| - 1]), log[|log| - 1]);
      hide Good, Post, Counted;
    }
  }

  /**
   An update comes after the least positive number of rounds whose rollouts yield enough survivors, and after at
   most one round more than the configured number.
   */
  lemma RoundsAreLeast(cfg: Config, st: Start, log: seq<Event>, k: nat)
    requires cfg.dynamicSampling && GoodLog(cfg, st, log) && k < |log| && log[k].Trained?
    ensures var l := Replay(cfg, st, log[..k]);
      && 1 <= l.rounds <= Max(cfg.maxRounds, 0) + 1 && l.rounds <= l.rollouts
      && Kept(cfg, l.rollouts - l.rounds, l.rounds) >= cfg.batchSize
      && TooFewBefore(cfg, l.rollouts - l.rounds, l.rounds)
  {
    hide Replay, GoodLog, Good, Counted, Kept, TooFewBefore;
    EveryEventIsGood(cfg, st, log, k);
    RoundsAreCounted(cfg, st, log[..k]);
    LeastAtUpdate(cfg, Replay(cfg, st, log[..k]), log[k]);
  }

  lemma LeastAtUpdate(cfg: Config, l: Ledger, e: Event)
    requires cfg.dynamicSampling && e.Trained? && Good(cfg, l, e) && Counted(cfg, l)
    ensures 1 <= l.rounds <= Max(cfg.maxRounds, 0) + 1 && l.rounds <= l.rollouts
    ensures Kept(cfg, l.rollouts - l.rounds, l.rounds) >= cfg.batchSize && TooFewBefore(cfg, l.rollouts - l.rounds, l.rounds)
  {
  }

  lemma ExceedsIff(cfg: Config, first: nat, rounds: nat)
    requires 1 <= rounds <= cfg.maxRounds + 1 && TooFewBefore(cfg, first, rounds) && Kept(cfg, first, rounds) >= cfg.batchSize
    ensures rounds == cfg.maxRounds + 1 <==> cfg.maxRounds == 0 || Kept(cfg, first, cfg.maxRounds) < cfg.batchSize
  {
    if rounds <= cfg.maxRounds {
      KeptGrows(cfg, first, rounds, cfg.maxRounds);
    }
  }

  /** It exceeds the configured number exactly when that many rollouts yield too few survivors. */
  lemma RoundsExceedIff(cfg: Config, st: Start, log: seq<Event>, k: nat)
    requires cfg.dynamicSampling && GoodLog(cfg, st, log) && k < |log| && log[k].Trained?
    requires cfg.maxRounds >= 0
    ensures var l := Replay(cfg, st, log[..k]);
      && l.rounds <= l.rollouts
      && (l.rounds == cfg.maxRounds + 1 <==>
            cfg.maxRounds == 0 || Kept(cfg, l.rollouts - l.rounds, cfg.maxRounds) < cfg.batchSize)
  {
    hide Replay, GoodLog, Kept, TooFewBefore;
    RoundsAreLeast(cfg, st, log, k);
    var l := Replay(cfg, st, log[..k]);
    ExceedsIff(cfg, l.rollouts - l.rounds, l.rounds);
  }

  // ---- which rollouts belong together -------------------------------------------------------------

  /** The first rollout since the last update or epoch end, and the loader's position. */
  datatype Plan = Plan(first: nat, drawn: nat)

  /** When the loader is exhausted, the next rollout begins an epoch. */
  function Rolled(cfg: Config, p: Plan, n: nat): (q: Plan)
    requires p.first <= n
    ensures q.first <= n
  {
    if p.drawn >= cfg.loaderLength then Plan(n, 0) else p
  }

  /** After `n` rollouts, and the update the last of them may have led to, from the configuration alone. */
  function PlanAt(cfg: Config, st: Start, n: nat): (p: Plan)
    ensures p.first <= n
  {
    if n == 0 then Plan(0, st.position)
    else
      var p := Rolled(cfg, PlanAt(cfg, st, n - 1), n - 1);
      Plan(if Kept(cfg, p.first, n - p.first) >= cfg.batchSize then n else p.first, p.drawn + 1)
  }

  /** The first of the rollouts that rollout `n` is collected with. */
  function FirstOf(cfg: Config, st: Start, n: nat): (first: nat)
    ensures first <= n
  {
    Rolled(cfg, PlanAt(cfg, st, n), n).first
  }

  /** The ledger is where the plan says. */
  predicate OnPlan(cfg: Config, st: Start, l: Ledger)
  {
    var n := l.rollouts;
    var p := PlanAt(cfg, st, n);
    if l.rounds > 0 then
      && l.rounds <= n
      && var q := Rolled(cfg, PlanAt(cfg, st, n - 1), n - 1);
         n - l.rounds == q.first && l.drawn == q.drawn + 1
    else
      !l.awaiting && ((p.first == n && l.drawn == p.drawn) || (l.drawn == 0 && p.drawn >= cfg.loaderLength))
  }

  /** The plan where no update followed the newest rollout, and where one did. */
  lemma PlanGoesOn(cfg: Config, st: Start, l: Ledger)
    requires cfg.dynamicSampling && OnPlan(cfg, st, l) && Counted(cfg, l) && l.rounds > 0 && !l.awaiting
    ensures var p := PlanAt(cfg, st, l.rollouts);
      && p.drawn == l.drawn
      && p.first == (if |l.survivors| < cfg.batchSize then l.rollouts - l.rounds else l.rollouts)
  {
    hide PlanAt, Rolled, Kept, TooFewBefore;
    PlanNext(cfg, st, l.rollouts);
  }

  lemma PlanNext(cfg: Config, st: Start, n: nat)
    requires n > 0
    ensures var q := Rolled(cfg, PlanAt(cfg, st, n - 1), n - 1);
      PlanAt(cfg, st, n) == Plan(if Kept(cfg, q.first, n - q.first) >= cfg.batchSize then n else q.first, q.drawn + 1)
  {
    hide Kept, Rolled;
  }

  lemma RolloutKeepsPlan(cfg: Config, st: Start, l: Ledger, e: Event)
    requires cfg.dynamicSampling && e.Rollout? && Good(cfg, l, e) && Counted(cfg, l) && OnPlan(cfg, st, l)
    ensures OnPlan(cfg, st, Post(cfg, l, e))
  {
    hide PlanAt, Kept, Made, IdSet, Rolled, OnPlan;
    if l.rounds > 0 {
      PlanGoesOn(cfg, st, l);
    }
    NextRoundOnPlan(cfg, st, l, Post(cfg, l, e));
  }

  /** One more rollout in the same pass over the loader, or the first of a new one. */
  lemma NextRoundOnPlan(cfg: Config, st: Start, l: Ledger, t: Ledger)
    requires OnPlan(cfg, st, l) && !l.awaiting && l.drawn < cfg.loaderLength
    requires l.rounds > 0 ==> PlanAt(cfg, st, l.rollouts) == Plan(l.rollouts - l.rounds, l.drawn)
    requires t.rollouts == l.rollouts + 1 && t.rounds == l.rounds + 1 && t.drawn == l.drawn + 1
    ensures OnPlan(cfg, st, t)
  {
    hide PlanAt;
  }

  lemma UpdateKeepsPlan(cfg: Config, st: Start, l: Ledger, e: Event)
    requires cfg.dynamicSampling && (e.Trained? || e.EpochEnds?) && Good(cfg, l, e) && Counted(cfg, l) && OnPlan(cfg, st, l)
    ensures OnPlan(cfg, st, Post(cfg, l, e))
  {
    if l.rounds > 0 {
      PlanGoesOn(cfg, st, l);
    }
    hide Pick, IdSet, IsLast, ValidationFollows, AllFrom, Counted, PlanAt, Kept;
  }

  lemma PlanIsKept(cfg: Config, st: Start, l: Ledger, e: Event)
    requires cfg.dynamicSampling && Good(cfg, l, e) && Counted(cfg, l) && OnPlan(cfg, st, l)
    ensures OnPlan(cfg, st, Post(cfg, l, e))
  {
    match e
    case Rollout(_, _, _) => RolloutKeepsPlan(cfg, st, l, e);
    case Trained(_, _, _) => UpdateKeepsPlan(cfg, st, l, e);
    case EpochEnds => UpdateKeepsPlan(cfg, st, l, e);
    case _ =>
      hide Pick, IdSet, Made, Flags, Counted, PlanAt, Kept, Rolled;
  }

  lemma {:induction false} RunIsOnPlan(cfg: Config, st: Start, log: seq<Event>)
    requires cfg.dynamicSampling && GoodLog(cfg, st, log)
    ensures OnPlan(cfg, st, Replay(cfg, st, log))
    decreases |log|
  {
    if log != [] {
      RunIsOnPlan(cfg, st, log[..|log| - 1]);
      RoundsAreCounted(cfg, st, log[..|log| - 1]);
      PlanIsKept(cfg, st, Replay(cfg, st, log[..|log| - 1]), log[|log| - 1]);
      hide Good, Post, OnPlan, Counted;
    }
  }

  /**
   Before the run: the update that follows its `n`-th rollout takes exactly the rounds from `FirstOf(n - 1)` on, and it
   takes one more than the configured number exactly when that many rollouts from there yield too few survivors.
   */
  lemma RoundsByPlan(cfg: Config, st: Start, log: seq<Event>, k: nat)
    requires cfg.dynamicSampling && GoodLog(cfg, st, log) && k < |log| && log[k].Trained? && cfg.maxRounds >= 0
    ensures var l := Replay(cfg, st, log[..k]);
      && l.rollouts > 0 && l.rounds == l.rollouts - FirstOf(cfg, st, l.rollouts - 1)
      && (l.rounds == cfg.maxRounds + 1 <==>
            cfg.maxRounds == 0 || Kept(cfg, FirstOf(cfg, st, l.rollouts - 1), cfg.maxRounds) < cfg.batchSize)
  {
    hide Replay, GoodLog, Kept, Good;
    EveryEventIsGood(cfg, st, log, k);
    RunIsOnPlan(cfg, st, log[..k]);
    RoundsAreLeast(cfg, st, log, k);
    RoundsExceedIff(cfg, st, log, k);
  }

  /** Survivors left over after `n` rollouts. */
  function Leftover(cfg: Config, st: Start, n: nat): nat
  {
    var first := PlanAt(cfg, st, n).first;
    Kept(cfg, first, n - first)
  }

  /** If an epoch ends after `n` rollouts, nothing is left over. */
  predicate EndsClean(cfg: Config, st: Start, n: nat)
  {
    PlanAt(cfg, st, n).drawn >= cfg.loaderLength ==> Leftover(cfg, st, n) == 0
  }

  /** The epoch of the newest rollout has been closed. */
  predicate EpochClosed(l: Ledger)
  {
    !l.awaiting && l.rounds == 0 && l.drawn == 0
  }

  ghost predicate EndedClean(cfg: Config, st: Start, l: Ledger)
  {
    forall j: nat :: j < l.rollouts || (j == l.rollouts && EpochClosed(l)) ==> EndsClean(cfg, st, j)
  }

  /** The ledger's losses are the plan's. */
  ghost predicate LossesPlanned(cfg: Config, st: Start, l: Ledger)
  {
    l.lost == multiset{} <==> EndedClean(cfg, st, l)
  }

  lemma RolloutKeepsLosses(cfg: Config, st: Start, l: Ledger, e: Event)
    requires cfg.dynamicSampling && e.Rollout? && Good(cfg, l, e) && Counted(cfg, l) && OnPlan(cfg, st, l)
    requires LossesPlanned(cfg, st, l)
    ensures LossesPlanned(cfg, st, Post(cfg, l, e))
  {
    var n := l.rollouts;
    if l.rounds > 0 {
      PlanGoesOn(cfg, st, l);
    }
    assert EpochClosed(l) || EndsClean(cfg, st, n);
    hide Pick, IdSet, IsLast, ValidationFollows, Made, Flags, AllFrom, Counted, PlanAt, EndsClean, OnPlan;
    var t := Post(cfg, l, e);
    assert t.lost == l.lost && t.rollouts == n + 1 && !EpochClosed(t);
  }

  lemma EpochEndKeepsLosses(cfg: Config, st: Start, l: Ledger)
    requires cfg.dynamicSampling && Good(cfg, l, EpochEnds) && Counted(cfg, l) && OnPlan(cfg, st, l)
    requires HoldsSurvivors(cfg, l) && LossesPlanned(cfg, st, l)
    ensures LossesPlanned(cfg, st, Post(cfg, l, EpochEnds))
  {
    PendingAsPlanned(cfg, st, l);
    LostGrows(cfg, l, EpochEnds);
    var t := Post(cfg, l, EpochEnds);
    assert t.rollouts == l.rollouts && EpochClosed(t);
    hide Good, Post, Counted, EndsClean, OnPlan, HoldsSurvivors;
  }

  /** When an epoch ends, what is pending is what the plan leaves over. */
  lemma PendingAsPlanned(cfg: Config, st: Start, l: Ledger)
    requires cfg.dynamicSampling && Good(cfg, l, EpochEnds) && Counted(cfg, l) && OnPlan(cfg, st, l) && HoldsSurvivors(cfg, l)
    ensures if EpochClosed(l) then l.pending == [] else l.pending == [] <==> EndsClean(cfg, st, l.rollouts)
  {
    PendingAtEnd(cfg, l);
    if l.rounds > 0 {
      PlanGoesOn(cfg, st, l);
    }
    assert l.rounds == 0 ==> Kept(cfg, l.rollouts, 0) == 0;
    assert !l.awaiting && l.drawn >= cfg.loaderLength;
    hide Good, Counted, PlanAt, Kept, HoldsSurvivors;
  }

  lemma LossesStayPlanned(cfg: Config, st: Start, l: Ledger, e: Event)
    requires cfg.dynamicSampling && Good(cfg, l, e) && Counted(cfg, l) && OnPlan(cfg, st, l)
    requires HoldsSurvivors(cfg, l) && LossesPlanned(cfg, st, l)
    ensures LossesPlanned(cfg, st, Post(cfg, l, e))
  {
    match e
    case Rollout(_, _, _) => RolloutKeepsLosses(cfg, st, l, e);
    case EpochEnds => EpochEndKeepsLosses(cfg, st, l);
    case _ =>
      var t := Post(cfg, l, e);
      assert t.lost == l.lost && t.rollouts == l.rollouts && (EpochClosed(t) <==> EpochClosed(l)) by {
        assert e.Trained? || e.Filtered? ==> l.rounds > 0 && l.drawn > 0;
        hide Pick, IdSet, IsLast, ValidationFollows, Made, Flags, AllFrom, PlanAt;
      }
      hide Post, Good, Counted, OnPlan, EndsClean;
  }

  lemma {:induction false} RunLossesPlanned(cfg: Config, st: Start, log: seq<Event>)
    requires cfg.dynamicSampling && GoodLog(cfg, st, log)
    ensures LossesPlanned(cfg, st, Replay(cfg, st, log))
    decreases |log|
  {
    if log != [] {
      var past := log[..|log| - 1];
      RunLossesPlanned(cfg, st, past);
      RunIsOnPlan(cfg, st, past);
      RoundsAreCounted(cfg, st, past);
      CacheHoldsSurvivors(cfg, st, past);
      LossesStayPlanned(cfg, st, Replay(cfg, st, past), log[|log| - 1]);
      hide Good, Post, OnPlan, Counted, HoldsSurvivors, LossesPlanned;
    } else {
      assert Leftover(cfg, st, 0) == 0;
    }
  }

  /**
   Before the run: nothing will be lost exactly when, wherever the plan ends an epoch among the run's rollouts, no
   survivor is left over.
   */
  lemma NothingIsLostByPlan(cfg: Config, st: Start, log: seq<Event>)
    requires cfg.dynamicSampling && GoodLog(cfg, st, log)
    ensures Replay(cfg, st, log).lost == multiset{} <==> EndedClean(cfg, st, Replay(cfg, st, log))
  {
    RunLossesPlanned(cfg, st, log);
  }

  // ---- what an epoch's end loses ------------------------------------------------------------------

  /** If an epoch ends at `k`, it ends with nothing pending. */
  predicate LosesNothingAt(cfg: Config, st: Start, log: seq<Event>, k: nat)
    requires k < |log|
  {
    log[k].EpochEnds? ==> Replay(cfg, st, log[..k]).pending == []
  }

  /** No epoch of the log ends with rows pending. */
  predicate LosesNothing(cfg: Config, st: Start, log: seq<Event>)
  {
    log == [] || (LosesNothing(cfg, st, log[..|log| - 1]) && LosesNothingAt(cfg, st, log, |log| - 1))
  }

  lemma {:induction false} LostIffSome(cfg: Config, st: Start, log: seq<Event>)
    ensures Replay(cfg, st, log).lost == multiset{} <==> LosesNothing(cfg, st, log)
    decreases |log|
  {
    if log != [] {
      var past := log[..|log| - 1];
      LostIffSome(cfg, st, past);
      LostGrows(cfg, Replay(cfg, st, past), log[|log| - 1]);
      hide Post;
    }
  }

  lemma {:induction false} LosesNothingEverywhere(cfg: Config, st: Start, log: seq<Event>)
    ensures LosesNothing(cfg, st, log) <==> forall k :: 0 <= k < |log| ==> LosesNothingAt(cfg, st, log, k)
    decreases |log|
  {
    hide LosesNothingAt;
    if log != [] {
      var n := |log| - 1;
      LosesNothingEverywhere(cfg, st, log[..n]);
      forall k | 0 <= k < n
        ensures LosesNothingAt(cfg, st, log[..n], k) <==> LosesNothingAt(cfg, st, log, k)
      {
        LosesInPrefix(cfg, st, log, k);
      }
    }
  }

  /** Rows are lost exactly when some epoch ends with rows pending. */
  lemma LostIff(cfg: Config, st: Start, log: seq<Event>)
    ensures Replay(cfg, st, log).lost == multiset{} <==> forall k :: 0 <= k < |log| ==> LosesNothingAt(cfg, st, log, k)
  {
    hide Replay, LosesNothingAt, LosesNothing;
    LostIffSome(cfg, st, log);
    LosesNothingEverywhere(cfg, st, log);
  }

  lemma LosesInPrefix(cfg: Config, st: Start, log: seq<Event>, k: nat)
    requires k < |log| - 1
    ensures LosesNothingAt(cfg, st, log[..|log| - 1], k) <==> LosesNothingAt(cfg, st, log, k)
  {
    hide Replay;
    assert log[..|log| - 1][..k] == log[..k];
  }

  lemma LostGrows(cfg: Config, l: Ledger, e: Event)
    ensures Post(cfg, l, e).lost == multiset{} <==> l.lost == multiset{} && (e.EpochEnds? ==> l.pending == [])
  {
    hide Pick, IdSet, ValidationFollows;
    if e.EpochEnds? && l.pending != [] {
      assert l.pending[0] in Post(cfg, l, e).lost;
    }
  }

  /** An incomplete cache holds all survivors. */
  predicate HoldsSurvivors(cfg: Config, l: Ledger)
  {
    |l.survivors| <= cfg.batchSize ==> l.pending == l.survivors
  }

  lemma CacheIsKept(cfg: Config, l: Ledger, e: Event)
    requires Good(cfg, l, e) && HoldsSurvivors(cfg, l)
    ensures HoldsSurvivors(cfg, Post(cfg, l, e))
  {
    hide Pick, IdSet, IsLast, ValidationFollows, Ready, Made, Flags;
  }

  lemma {:induction false} CacheHoldsSurvivors(cfg: Config, st: Start, log: seq<Event>)
    requires GoodLog(cfg, st, log)
    ensures HoldsSurvivors(cfg, Replay(cfg, st, log))
    decreases |log|
  {
    if log != [] {
      CacheHoldsSurvivors(cfg, st, log[..|log| - 1]);
      CacheIsKept(cfg, Replay(cfg, st, log[..|log| - 1]), log[|log| - 1]);
      hide Good, Post;
    }
  }

  /** The rollouts since the last update, when an epoch ends at `k`, yielded no survivor at all. */
  predicate NoSurvivorsAt(cfg: Config, st: Start, log: seq<Event>, k: nat)
    requires k < |log|
  {
    log[k].EpochEnds? ==>
      var l := Replay(cfg, st, log[..k]); l.rounds <= l.rollouts && Kept(cfg, l.rollouts - l.rounds, l.rounds) == 0
  }

  lemma PendingAtEnd(cfg: Config, l: Ledger)
    requires Good(cfg, l, EpochEnds) && Counted(cfg, l) && HoldsSurvivors(cfg, l)
    ensures l.rounds <= l.rollouts && (l.pending == [] <==> Kept(cfg, l.rollouts - l.rounds, l.rounds) == 0)
  {
    assert l.rounds == 0 ==> Kept(cfg, l.rollouts, 0) == 0;
  }

  lemma EpochEndPending(cfg: Config, st: Start, log: seq<Event>, k: nat)
    requires cfg.dynamicSampling && GoodLog(cfg, st, log) && k < |log|
    ensures LosesNothingAt(cfg, st, log, k) <==> NoSurvivorsAt(cfg, st, log, k)
  {
    hide GoodLog, Replay, Good, Counted, HoldsSurvivors, Kept, Post;
    if log[k].EpochEnds? {
      EveryEventIsGood(cfg, st, log, k);
      RoundsAreCounted(cfg, st, log[..k]);
      CacheHoldsSurvivors(cfg, st, log[..k]);
      PendingAtEnd(cfg, Replay(cfg, st, log[..k]));
    }
  }

  /** With dynamic sampling, nothing is lost exactly when every epoch ends right after an update or after rounds without survivors. */
  lemma NothingIsLostIff(cfg: Config, st: Start, log: seq<Event>)
    requires cfg.dynamicSampling && GoodLog(cfg, st, log)
    ensures Replay(cfg, st, log).lost == multiset{} <==> forall k :: 0 <= k < |log| ==> NoSurvivorsAt(cfg, st, log, k)
  {
    LostIff(cfg, st, log);
    forall k | 0 <= k < |log|
      ensures LosesNothingAt(cfg, st, log, k) <==> NoSurvivorsAt(cfg, st, log, k)
    {
      EpochEndPending(cfg, st, log, k);
    }
  }

  /** The store is empty exactly when nothing is pending or in flight and nothing was lost. */
  lemma StoreIsEmptyIff(cfg: Config, st: Start, log: seq<Event>)
    requires GoodLog(cfg, st, log)
    ensures var l := Replay(cfg, st, log);
      l.store == {} <==> l.pending == [] && l.inFlight == [] && l.lost == multiset{}
  {
    var l := Replay(cfg, st, log);
    forall id
      ensures id in l.store <==> id in l.pending || id in l.inFlight || id in l.lost
    {
      RowsAreConserved(cfg, st, log, id);
    }
    hide Replay, GoodLog;
    if l.pending != [] {
      assert l.pending[0] in l.store;
    } else if l.inFlight != [] {
      assert l.inFlight[0] in l.store;
    }
  }

  // ---- the last step ------------------------------------------------------------------------------

  predicate WithinDraws(cfg: Config, l: Ledger)
  {
    l.step + l.rounds <= l.drawn <= cfg.loaderLength
  }

  lemma DrawsAreKept(cfg: Config, l: Ledger, e: Event)
    requires Good(cfg, l, e) && WithinDraws(cfg, l)
    ensures WithinDraws(cfg, Post(cfg, l, e))
  {
    hide Pick, IdSet, IsLast, ValidationFollows, Made, Flags, AllFrom, MaySample;
  }

  lemma {:induction false} StepsWithinDraws(cfg: Config, st: Start, log: seq<Event>)
    requires GoodLog(cfg, st, log) && st.step <= st.position <= cfg.loaderLength
    ensures WithinDraws(cfg, Replay(cfg, st, log))
    decreases |log|
  {
    if log != [] {
      StepsWithinDraws(cfg, st, log[..|log| - 1]);
      DrawsAreKept(cfg, Replay(cfg, st, log[..|log| - 1]), log[|log| - 1]);
      hide Good, Post, WithinDraws;
    }
  }

  /** The last batch of the last epoch has been drawn. */
  predicate AtTheEnd(cfg: Config, l: Ledger)
  {
    l.epoch + 1 == cfg.maxEpochs && l.drawn == cfg.loaderLength
  }

  /** Every batch drawn in this epoch gave a step of its own. */
  predicate NoRoundWasSpent(l: Ledger)
  {
    l.rounds == 1 && l.step + 1 == l.drawn
  }

  /**
   An update is taken for the last one of the run exactly when it is at the step limit, or comes from the last batch of the
   last epoch and no batch of that epoch was used up without an update of its own.
   */
  lemma LastStepIff(cfg: Config, st: Start, log: seq<Event>, k: nat)
    requires GoodLog(cfg, st, log) && st.step <= st.position <= cfg.loaderLength
    requires k < |log| && log[k].Trained?
    ensures var l := Replay(cfg, st, log[..k]);
      log[k].last <==> st.total + Updates(log[..k]) + 1 >= cfg.maxSteps || (AtTheEnd(cfg, l) && NoRoundWasSpent(l))
  {
    EveryEventIsGood(cfg, st, log, k);
    StepsWithinDraws(cfg, st, log[..k]);
    LedgerCounts(cfg, st, log[..k]);
  }
}
