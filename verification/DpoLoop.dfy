/**
 A resumable training loop: epoch and step counters, checkpoints, early stops for time-sliced jobs, and
 a loader that resumes where its checkpoint left it.
 */
module DpoLoop {
  import opened Prelude
  import opened Repetition

  datatype Batch = Batch(id: nat, tokens: nat)

  // ---- the save state -------------------------------------------------------------------------

  datatype SaveState = SaveState(epoch: nat, step: nat, totalSteps: nat, consumedSamples: nat, totalValidTokens: nat)

  const InitialSaveState: SaveState := SaveState(0, 0, 0, 0, 0)

  /** The attributes as saved; metrics may be saved beside them. */
  function Dump(s: SaveState): map<string, nat>
  {
    map["epoch" := s.epoch, "step" := s.step, "total_steps" := s.totalSteps,
        "consumed_samples" := s.consumedSamples, "total_valid_tokens" := s.totalValidTokens]
  }

  function Field(loaded: map<string, nat>, key: string, default: nat): nat
  {
    if key in loaded then loaded[key] else default
  }

  /** Fields that a checkpoint lacks keep their defaults, and attributes that are not fields are ignored. */
  function Restore(loaded: Option<map<string, nat>>): SaveState
  {
    match loaded
    case None => InitialSaveState
    case Some(m) =>
      SaveState(Field(m, "epoch", 0), Field(m, "step", 0), Field(m, "total_steps", 0),
                Field(m, "consumed_samples", 0), Field(m, "total_valid_tokens", 0))
  }

  /** Restoring a saved state gives it back, whatever other attributes were saved with it. */
  lemma RestoreUndoesDump(s: SaveState, others: map<string, nat>)
    ensures Restore(Some(others + Dump(s))) == s
    ensures others.Keys !! Dump(s).Keys ==> Restore(Some(Dump(s) + others)) == s
    // The attributes have the fields' names, and a field that was not saved has its default.
    ensures var d := Dump(s);
      && d.Keys == {"epoch", "step", "total_steps", "consumed_samples", "total_valid_tokens"}
      && d["epoch"] == s.epoch && d["step"] == s.step && d["total_steps"] == s.totalSteps
      && d["consumed_samples"] == s.consumedSamples && d["total_valid_tokens"] == s.totalValidTokens
      && Restore(Some(d - {"total_valid_tokens"})) == s.(totalValidTokens := 0)
    ensures Restore(None) == Restore(Some(map[])) == SaveState(0, 0, 0, 0, 0)
  {
    var a := others + Dump(s);
    assert forall key :: key in Dump(s) ==> key in a && a[key] == Dump(s)[key];
    var b := Dump(s) + others;
    assert others.Keys !! Dump(s).Keys ==> forall key :: key in Dump(s) ==> key in b && b[key] == Dump(s)[key];
  }

  // ---- what a run amounts to ------------------------------------------------------------------

  predicate Multiple(n: nat, d: nat) requires d > 0 { n % d == 0 }

  /** Everything that is saved: counters, the loader's position, and the weights, as what they were trained on. */
  datatype Checkpoint = Checkpoint(state: SaveState, position: nat, history: seq<Batch>)

  function Tokens(h: seq<Batch>): nat
  {
    if h == [] then 0 else Tokens(h[..|h| - 1]) + h[|h| - 1].tokens
  }

  /** The checkpoint after `n` steps, however they were reached: at an epoch's end the next one has not begun. */
  function Snapshot(batches: seq<Batch>, gbs: nat, n: nat): Checkpoint
    requires n > 0 ==> batches != []
  {
    if n == 0 then Checkpoint(InitialSaveState, 0, [])
    else
      var L := |batches|;
      var position := (n - 1) % L + 1;
      Checkpoint(SaveState((n - 1) / L, Wrap(position, L), n, Times(n, gbs), Tokens(First(batches, n))), position, First(batches, n))
  }

  datatype Config = Config(
    maxSteps: nat,
    maxEpochs: nat,
    stopAfter: Option<nat>,
    savePeriod: nat,
    ftSavePeriod: Option<nat>,
    checkpoints: bool,
    mustSaveBy: bool,                  // a time limit is set
    globalBatchSize: nat)
  {
    predicate Valid()
    {
      savePeriod > 0 && (ftSavePeriod.Some? ==> ftSavePeriod.value > 0)
    }
  }

  /** The length of the whole job. */
  function Horizon(cfg: Config, batches: seq<Batch>): nat
  {
    Least(cfg.maxSteps, Times(cfg.maxEpochs, |batches|))
  }

  /** The length of the job up to the configured stop. */
  function Target(cfg: Config, batches: seq<Batch>): nat
  {
    if cfg.stopAfter.Some? then Least(Horizon(cfg, batches), cfg.stopAfter.value) else Horizon(cfg, batches)
  }

  function Least(a: nat, b: nat): nat { if a <= b then a else b }

  function Largest(a: nat, b: nat): nat { if a >= b then a else b }

  predicate StopsAt(cfg: Config, n: nat)
  {
    cfg.stopAfter.Some? && n >= cfg.stopAfter.value
  }

  /** Whether a checkpoint is written after step `n`. */
  predicate SavesAt(cfg: Config, batches: seq<Batch>, timesOut: nat -> bool, n: nat)
    requires cfg.Valid()
  {
    && cfg.checkpoints
    && (|| LastStep(cfg, batches, n) || StopsAt(cfg, n) || Multiple(n, cfg.savePeriod)
        || (cfg.ftSavePeriod.Some? && Multiple(n, cfg.ftSavePeriod.value))
        || LimitNear(cfg, timesOut, n))
  }

  /** The checkpoints written by steps `m + 1` to `n`. */
  function Saves(cfg: Config, batches: seq<Batch>, timesOut: nat -> bool, m: nat, n: nat): seq<Checkpoint>
    requires cfg.Valid() && (n > m ==> batches != [])
  {
    if n <= m then []
    else
      Saves(cfg, batches, timesOut, m, n - 1) + SavedAt(cfg, batches, timesOut, n)
  }

  function SavedAt(cfg: Config, batches: seq<Batch>, timesOut: nat -> bool, n: nat): seq<Checkpoint>
    requires cfg.Valid() && (n > 0 ==> batches != [])
  {
    if SavesAt(cfg, batches, timesOut, n) then [Snapshot(batches, cfg.globalBatchSize, n)] else []
  }

  /** Whether and why the run ends after step `n`. */
  function EndingAt(cfg: Config, batches: seq<Batch>, timesOut: nat -> bool, n: nat): Option<Status>
  {
    if LastStep(cfg, batches, n) then Some(Completed)
    else if LimitNear(cfg, timesOut, n) then Some(TimedOut)
    else if StopsAt(cfg, n) then Some(Completed)
    else None
  }

  /** Step `e * L + p + 1` is the last of `E` epochs exactly when it ends epoch `E`. */
  lemma LastOfEpochs(e: nat, p: nat, L: nat, E: nat)
    requires p < L
    ensures Times(e, L) + p + 1 == Times(E, L) <==> e + 1 == E && p + 1 == L
    ensures if e < E then Times(e, L) + p + 1 <= Times(E, L) else Times(e, L) + p + 1 > Times(E, L)
  {
    assert (e + 1) * L == e * L + L;
    if e + 1 < E {
      ProductAtLeast(E - (e + 1), L);
      assert E * L == (e + 1) * L + (E - (e + 1)) * L;
    } else if e >= E {
      assert e * L == E * L + (e - E) * L && (e - E) * L >= 0;
    }
  }

  lemma OneMore(n: nat, d: nat)
    ensures Times(n + 1, d) == Times(n, d) + d
  {
  }

  /** The snapshot one step after position `p` of epoch `e`. */
  lemma SnapshotAfter(batches: seq<Batch>, gbs: nat, e: nat, p: nat)
    requires p < |batches|
    ensures var L := |batches|;
      var n := Times(e, L) + p;
      Snapshot(batches, gbs, n + 1)
      == Checkpoint(SaveState(e, Wrap(p + 1, L), n + 1, Times(n, gbs) + gbs, Tokens(First(batches, n)) + batches[p].tokens),
                    p + 1, First(batches, n) + [batches[p]])
  {
    QuotientAndRemainder(e, p, |batches|);
    FirstGrows(batches, e, p);
    OneMore(Times(e, |batches|) + p, gbs);
    var h := First(batches, Times(e, |batches|) + p);
    assert (h + [batches[p]])[..|h|] == h;
  }

  lemma SnapshotPosition(batches: seq<Batch>, gbs: nat, n: nat)
    requires n > 0 ==> batches != []
    ensures var c := Snapshot(batches, gbs, n);
      && Times(c.state.epoch, |batches|) + c.position == n && c.position <= |batches|
      && (c.position < |batches| ==> c.state.step == c.position)
  {
    if n > 0 {
      var L := |batches|;
      assert n - 1 == ((n - 1) / L) * L + (n - 1) % L;
      var position := (n - 1) % L + 1;
      if position < L { QuotientAndRemainder(0, position, L); }
    }
  }

  // ---- the objects of a run -------------------------------------------------------------------

  /** The model, known by what it was trained on. */
  class Policy {
    var history: seq<Batch>

    constructor (history: seq<Batch>)
      ensures this.history == history
    {
      this.history := history;
    }
  }

  /** A loader whose iteration starts at its saved position, and at the beginning from then on. */
  class StatefulLoader {
    const batches: seq<Batch>
    var position: nat

    constructor (batches: seq<Batch>, position: nat)
      ensures this.batches == batches && this.position == position
    {
      this.batches := batches;
      this.position := position;
    }
  }

  class DpoSaveState {
    var epoch: nat
    var step: nat
    var totalSteps: nat
    var consumedSamples: nat
    var totalValidTokens: nat

    constructor (s: SaveState)
      ensures Vars() == s
    {
      epoch := s.epoch;
      step := s.step;
      totalSteps := s.totalSteps;
      consumedSamples := s.consumedSamples;
      totalValidTokens := s.totalValidTokens;
    }

    function Vars(): SaveState
      reads this
    {
      SaveState(epoch, step, totalSteps, consumedSamples, totalValidTokens)
    }
  }

  class Checkpointer {
    var saved: seq<Checkpoint>

    constructor ()
      ensures saved == []
    {
      saved := [];
    }
  }

  datatype Status = Completed | TimedOut

  datatype TrainError = TimeLimitNeedsCheckpoints

  /** The loop's variables after `n` steps; within an epoch `step` is the loader's position. */
  datatype Counters = Counters(epoch: nat, step: nat, total: nat, tokens: nat)

  ghost predicate Running(cfg: Config, c: Counters, policy: Policy, loader: StatefulLoader, state: DpoSaveState)
    reads policy, loader, state
  {
    var L := |loader.batches|;
    && c.total == Times(c.epoch, L) + loader.position && loader.position <= L
    && (loader.position < L ==> c.step == loader.position)
    && (c.total > 0 ==> L > 0)
    && policy.history == First(loader.batches, c.total) && c.tokens == Tokens(policy.history)
    && state.consumedSamples == Times(c.total, cfg.globalBatchSize)
  }

  predicate LastStep(cfg: Config, batches: seq<Batch>, n: nat)
  {
    n >= cfg.maxSteps || n == Times(cfg.maxEpochs, |batches|)
  }

  predicate LimitNear(cfg: Config, timesOut: nat -> bool, n: nat)
  {
    cfg.mustSaveBy && timesOut(n)
  }

  /** The save state takes over the counters of a finished step, and a checkpoint is written. */
  method SaveCheckpoint(c: Counters, tokens: nat, policy: Policy, loader: StatefulLoader, state: DpoSaveState,
                        saver: Checkpointer)
    requires loader.batches != []
    modifies state, saver
    ensures state.consumedSamples == old(state.consumedSamples)
    ensures saver.saved == old(saver.saved) +
      [Checkpoint(SaveState(c.epoch, Wrap(c.step + 1, |loader.batches|), c.total + 1, state.consumedSamples, tokens),
                  loader.position, policy.history)]
  {
    state.step := Wrap(c.step + 1, |loader.batches|);
    state.totalSteps := c.total + 1;
    state.epoch := c.epoch;
    state.totalValidTokens := tokens;
    saver.saved := saver.saved + [Checkpoint(state.Vars(), loader.position, policy.history)];
  }

  method SaveIfDue(cfg: Config, c: Counters, tokens: nat, isLast: bool, reachedStop: bool, saveByTimeout: bool,
                   policy: Policy, loader: StatefulLoader, state: DpoSaveState, saver: Checkpointer, timesOut: nat -> bool)
    requires cfg.Valid() && loader.batches != []
    requires isLast == LastStep(cfg, loader.batches, c.total + 1) && reachedStop == StopsAt(cfg, c.total + 1)
    requires saveByTimeout == LimitNear(cfg, timesOut, c.total + 1)
    requires Snapshot(loader.batches, cfg.globalBatchSize, c.total + 1)
          == Checkpoint(SaveState(c.epoch, Wrap(c.step + 1, |loader.batches|), c.total + 1, state.consumedSamples, tokens),
                        loader.position, policy.history)
    modifies state, saver
    ensures state.consumedSamples == old(state.consumedSamples)
    ensures saver.saved == old(saver.saved) + SavedAt(cfg, loader.batches, timesOut, c.total + 1)
  {
    hide Multiple, Snapshot, LastStep, StopsAt, LimitNear, Wrap;
    var saveByStep := isLast || reachedStop || Multiple(c.total + 1, cfg.savePeriod)
      || (cfg.ftSavePeriod.Some? && Multiple(c.total + 1, cfg.ftSavePeriod.value));
    if cfg.checkpoints && (saveByStep || saveByTimeout) {
      SaveCheckpoint(c, tokens, policy, loader, state, saver);
    }
  }

  method TrainBatch(c: Counters, policy: Policy, loader: StatefulLoader) returns (tokens: nat)
    requires loader.position < |loader.batches|
    modifies policy, loader
    ensures loader.position == old(loader.position) + 1
    ensures policy.history == old(policy.history) + [loader.batches[old(loader.position)]]
    ensures tokens == c.tokens + loader.batches[old(loader.position)].tokens
  {
    var batch := loader.batches[loader.position];
    loader.position := loader.position + 1;
    policy.history := policy.history + [batch];
    tokens := c.tokens + batch.tokens;
  }

  /** The conditions of a step, computed from the counters, are conditions on the total alone. */
  lemma StepConditions(cfg: Config, batches: seq<Batch>, c: Counters, position: nat)
    requires position < |batches| && c.total == Times(c.epoch, |batches|) + position && c.step == position
    ensures LastStep(cfg, batches, c.total + 1)
      <==> c.total + 1 >= cfg.maxSteps || (c.epoch + 1 == cfg.maxEpochs && c.step + 1 == |batches|)
  {
    LastOfEpochs(c.epoch, position, |batches|, cfg.maxEpochs);
  }

  /** Training on one more batch gives the next snapshot. */
  lemma NextSnapshot(batches: seq<Batch>, gbs: nat, c: Counters, position: nat)
    requires position < |batches| && c.total == Times(c.epoch, |batches|) + position
    ensures var h := First(batches, c.total) + [batches[position]];
      && First(batches, c.total + 1) == h && Times(c.total + 1, gbs) == Times(c.total, gbs) + gbs
      && Tokens(h) == Tokens(First(batches, c.total)) + batches[position].tokens
      && Snapshot(batches, gbs, c.total + 1)
         == Checkpoint(SaveState(c.epoch, Wrap(position + 1, |batches|), c.total + 1, Times(c.total, gbs) + gbs, Tokens(h)),
                       position + 1, h)
  {
    SnapshotAfter(batches, gbs, c.epoch, position);
    FirstGrows(batches, c.epoch, position);
    OneMore(c.total, gbs);
    var before := First(batches, c.total);
    assert (before + [batches[position]])[..|before|] == before;
  }

  /** One batch: train, save if it is time, and see whether the run ends here. */
  method TakeStep(cfg: Config, c: Counters, policy: Policy, loader: StatefulLoader, state: DpoSaveState,
                  saver: Checkpointer, timesOut: nat -> bool) returns (d: Counters, ending: Option<Status>)
    requires cfg.Valid() && Running(cfg, c, policy, loader, state)
    requires loader.position < |loader.batches| && c.epoch < cfg.maxEpochs && c.total < cfg.maxSteps
    modifies policy, loader, state, saver
    ensures Running(cfg, d, policy, loader, state) && d.epoch == c.epoch && d.total == c.total + 1
    ensures loader.position == old(loader.position) + 1
    ensures saver.saved == old(saver.saved) + SavedAt(cfg, loader.batches, timesOut, d.total)
    ensures ending == EndingAt(cfg, loader.batches, timesOut, d.total)
    // The last step before the clock, and the clock before the stop.
    ensures ending ==
      if d.total >= cfg.maxSteps || (d.epoch + 1 == cfg.maxEpochs && loader.position == |loader.batches|) then Some(Completed)
      else if cfg.mustSaveBy && timesOut(d.total) then Some(TimedOut)
      else if cfg.stopAfter.Some? && d.total >= cfg.stopAfter.value then Some(Completed)
      else None
  {
    StepConditions(cfg, loader.batches, c, loader.position);
    NextSnapshot(loader.batches, cfg.globalBatchSize, c, loader.position);
    hide Times, Wrap, Multiple, First, Tokens, Snapshot, LastStep;
    var tokens := TrainBatch(c, policy, loader);
    var isLast := c.total + 1 >= cfg.maxSteps || (c.epoch + 1 == cfg.maxEpochs && c.step + 1 == |loader.batches|);
    var reachedStop := cfg.stopAfter.Some? && c.total + 1 >= cfg.stopAfter.value;
    state.consumedSamples := state.consumedSamples + cfg.globalBatchSize;
    var saveByTimeout := cfg.mustSaveBy && timesOut(c.total + 1);
    d := Counters(c.epoch, c.step + 1, c.total + 1, tokens);
    ending := if isLast then Some(Completed) else if saveByTimeout then Some(TimedOut)
              else if reachedStop then Some(Completed) else None;
    hide EndingAt;
    SaveIfDue(cfg, c, tokens, isLast, reachedStop, saveByTimeout, policy, loader, state, saver, timesOut);
  }

  /** No step from `m + 1` to `k` ends the run. */
  ghost predicate GoesOn(cfg: Config, batches: seq<Batch>, timesOut: nat -> bool, m: nat, k: nat)
  {
    forall j: nat :: m < j <= k ==> EndingAt(cfg, batches, timesOut, j) == None
  }

  /** The objects are as restored from the snapshot after `n` steps. */
  ghost predicate RestoredAt(cfg: Config, policy: Policy, loader: StatefulLoader, state: DpoSaveState, n: nat)
    reads policy, loader, state
  {
    && (n > 0 ==> loader.batches != [])
    && Checkpoint(state.Vars(), loader.position, policy.history) == Snapshot(loader.batches, cfg.globalBatchSize, n)
  }

  /** What a run from `n` steps to `k` steps is: it stops at the first step that ends it, or has nothing to do. */
  ghost predicate RunsTo(cfg: Config, batches: seq<Batch>, timesOut: nat -> bool, n: nat, k: nat, status: Status)
  {
    if n < Target(cfg, batches) then
      n < k && GoesOn(cfg, batches, timesOut, n, k - 1) && EndingAt(cfg, batches, timesOut, k) == Some(status)
    else k == n && status == Completed
  }

  /** While a batch is left and no limit is reached, the target is ahead. */
  lemma TargetIsAhead(cfg: Config, batches: seq<Batch>, epoch: nat, position: nat)
    requires position < |batches| && epoch < cfg.maxEpochs
    ensures var total := Times(epoch, |batches|) + position;
      total < cfg.maxSteps && !StopsAt(cfg, total) ==> total < Target(cfg, batches)
  {
    LastOfEpochs(epoch, position, |batches|, cfg.maxEpochs);
  }

  /** A step that does not end the run leaves the target ahead. */
  lemma StillAhead(cfg: Config, batches: seq<Batch>, timesOut: nat -> bool, m: nat, k: nat)
    requires k > 0 && m < k <= Target(cfg, batches)
    requires GoesOn(cfg, batches, timesOut, m, k - 1) && EndingAt(cfg, batches, timesOut, k) == None
    ensures GoesOn(cfg, batches, timesOut, m, k) && k < Target(cfg, batches) && !StopsAt(cfg, k)
  {
  }

  /** When no epoch or no step is left, the target is reached. */
  lemma TargetIsReached(cfg: Config, batches: seq<Batch>, epoch: nat, position: nat)
    requires epoch >= cfg.maxEpochs || Times(epoch, |batches|) + position >= cfg.maxSteps
    ensures Times(epoch, |batches|) + position >= Target(cfg, batches)
  {
    if epoch >= cfg.maxEpochs {
      assert epoch * |batches| == cfg.maxEpochs * |batches| + (epoch - cfg.maxEpochs) * |batches|;
      assert (epoch - cfg.maxEpochs) * |batches| >= 0;
    }
  }

  lemma NextEpoch(e: nat, L: nat)
    ensures Times(e + 1, L) + 0 == Times(e, L) + L
  {
  }

  lemma SnapshotTotals(batches: seq<Batch>, gbs: nat, n: nat)
    requires n > 0 ==> batches != []
    ensures var c := Snapshot(batches, gbs, n);
      && c.state.totalSteps == n && c.state.consumedSamples == Times(n, gbs)
      && c.history == First(batches, n) && c.state.totalValidTokens == Tokens(c.history)
  {
  }

  lemma NothingSaved(cfg: Config, batches: seq<Batch>, timesOut: nat -> bool, n: nat, saved: seq<Checkpoint>)
    requires cfg.Valid()
    ensures saved == saved + Saves(cfg, batches, timesOut, n, n)
  {
  }

  /** A run that began after `n` steps is under way and has not met its end. */
  ghost predicate InRun(cfg: Config, c: Counters, n: nat, savedBefore: seq<Checkpoint>, policy: Policy,
                        loader: StatefulLoader, state: DpoSaveState, saver: Checkpointer, timesOut: nat -> bool)
    requires cfg.Valid()
    reads policy, loader, state, saver
  {
    && Running(cfg, c, policy, loader, state) && n <= c.total && !StopsAt(cfg, c.total)
    && GoesOn(cfg, loader.batches, timesOut, n, c.total)
    && saver.saved == savedBefore + Saves(cfg, loader.batches, timesOut, n, c.total)
    && (c.total > n ==> c.total < Target(cfg, loader.batches))
  }

  /** A run that began after `n` steps has ended. */
  ghost predicate RunEnded(cfg: Config, n: nat, savedBefore: seq<Checkpoint>, policy: Policy, loader: StatefulLoader,
                           saver: Checkpointer, timesOut: nat -> bool, status: Status)
    requires cfg.Valid()
    reads policy, loader, saver
  {
    var k := |policy.history|;
    && (k > 0 ==> loader.batches != []) && policy.history == First(loader.batches, k)
    && RunsTo(cfg, loader.batches, timesOut, n, k, status)
    && saver.saved == savedBefore + Saves(cfg, loader.batches, timesOut, n, k)
  }

  /** The saves so far and the next one. */
  lemma SavesGrow(cfg: Config, batches: seq<Batch>, timesOut: nat -> bool, m: nat, n: nat, before: seq<Checkpoint>)
    requires cfg.Valid() && batches != [] && m <= n
    ensures before + Saves(cfg, batches, timesOut, m, n) + SavedAt(cfg, batches, timesOut, n + 1)
         == before + Saves(cfg, batches, timesOut, m, n + 1)
  {
    var a, b := Saves(cfg, batches, timesOut, m, n), SavedAt(cfg, batches, timesOut, n + 1);
    assert before + a + b == before + (a + b);
  }

  /** The batches that are left of an epoch, until the run ends. */
  method RunEpoch(cfg: Config, from: Counters, policy: Policy, loader: StatefulLoader, state: DpoSaveState,
                  saver: Checkpointer, timesOut: nat -> bool, ghost n: nat, ghost savedBefore: seq<Checkpoint>)
    returns (c: Counters, ending: Option<Status>)
    requires cfg.Valid() && InRun(cfg, from, n, savedBefore, policy, loader, state, saver, timesOut)
    requires from.epoch < cfg.maxEpochs && from.total < cfg.maxSteps
    modifies policy, loader, state, saver
    ensures ending.None? ==>
      && InRun(cfg, c, n, savedBefore, policy, loader, state, saver, timesOut)
      && c.epoch == from.epoch && loader.position == |loader.batches|
    ensures ending.Some? ==> RunEnded(cfg, n, savedBefore, policy, loader, saver, timesOut, ending.value)
  {
    hide First, Snapshot, EndingAt, SavedAt, Saves, Tokens, Times, Target, StopsAt, LastStep;
    c := from;
    while loader.position < |loader.batches|
      invariant InRun(cfg, c, n, savedBefore, policy, loader, state, saver, timesOut)
      invariant c.epoch == from.epoch && c.total < cfg.maxSteps
      decreases |loader.batches| - loader.position
    {
      TargetIsAhead(cfg, loader.batches, c.epoch, loader.position);
      SavesGrow(cfg, loader.batches, timesOut, n, c.total, savedBefore);
      c, ending := TakeStep(cfg, c, policy, loader, state, saver, timesOut);
      if ending.Some? {
        return;
      }
      StillAhead(cfg, loader.batches, timesOut, n, c.total);
      TargetIsInReach(cfg, loader.batches);
    }
    ending := None;
  }

  lemma TargetIsInReach(cfg: Config, batches: seq<Batch>)
    ensures Target(cfg, batches) <= Horizon(cfg, batches) <= cfg.maxSteps
  {
  }

  method DpoTrain(cfg: Config, policy: Policy, loader: StatefulLoader, state: DpoSaveState, saver: Checkpointer,
                  timesOut: nat -> bool) returns (r: Result<Status, TrainError>)
    requires cfg.Valid() && RestoredAt(cfg, policy, loader, state, state.totalSteps)
    modifies policy, loader, state, saver
    ensures r.Err? <==> cfg.mustSaveBy && !cfg.checkpoints
    ensures r.Err? ==> policy.history == old(policy.history) && saver.saved == old(saver.saved)
    ensures r.Ok? ==>
      RunEnded(cfg, old(state.totalSteps), old(saver.saved), policy, loader, saver, timesOut, r.value)
  {
    if cfg.mustSaveBy && !cfg.checkpoints {
      return Err(TimeLimitNeedsCheckpoints);
    }
    ghost var n, savedBefore := state.totalSteps, saver.saved;
    SnapshotPosition(loader.batches, cfg.globalBatchSize, n);
    SnapshotTotals(loader.batches, cfg.globalBatchSize, n);
    var c := Counters(state.epoch, state.step, state.totalSteps, state.totalValidTokens);
    assert Running(cfg, c, policy, loader, state);
    NothingSaved(cfg, loader.batches, timesOut, n, saver.saved);
    if cfg.stopAfter.Some? && c.total >= cfg.stopAfter.value {
      return Ok(Completed);
    }
    assert InRun(cfg, c, n, savedBefore, policy, loader, state, saver, timesOut);
    hide First, Snapshot, EndingAt, SavedAt, Saves, Tokens, Times, Target;
    while c.epoch < cfg.maxEpochs && c.total < cfg.maxSteps
      invariant InRun(cfg, c, n, savedBefore, policy, loader, state, saver, timesOut)
      decreases cfg.maxEpochs - c.epoch
    {
      var ending: Option<Status>;
      c, ending := RunEpoch(cfg, c, policy, loader, state, saver, timesOut, n, savedBefore);
      if ending.Some? {
        return Ok(ending.value);
      }
      NextEpoch(c.epoch, |loader.batches|);
      loader.position := 0;
      c := Counters(c.epoch + 1, 0, c.total, c.tokens);
    }
    TargetIsReached(cfg, loader.batches, c.epoch, loader.position);
    return Ok(Completed);
  }

  // ---- time slicing ---------------------------------------------------------------------------

  /** A run that is not cut short by the clock ends exactly at its target; a cut one ends no later. */
  lemma WhereRunsEnd(cfg: Config, batches: seq<Batch>, timesOut: nat -> bool, n: nat, k: nat, status: Status)
    requires RunsTo(cfg, batches, timesOut, n, k, status)
    ensures n <= k <= Largest(n, Target(cfg, batches))
    ensures status == Completed ==> k == Largest(n, Target(cfg, batches))
    ensures status == TimedOut ==> n < k && LimitNear(cfg, timesOut, k)
    ensures (forall j: nat :: n < j <= k ==> !LimitNear(cfg, timesOut, j)) ==> status == Completed
    ensures var horizon := if cfg.maxSteps <= cfg.maxEpochs * |batches| then cfg.maxSteps else cfg.maxEpochs * |batches|;
      var target := if cfg.stopAfter.Some? && cfg.stopAfter.value < horizon then cfg.stopAfter.value else horizon;
      if target <= n then k == n && status == Completed
      else
        // It goes on until the clock cuts it or the target is reached, and it is cut exactly if it was not yet complete.
        && n < k <= target && (forall j: nat :: n < j < k ==> !(cfg.mustSaveBy && timesOut(j)))
        && (k < target ==> cfg.mustSaveBy && timesOut(k))
        && (status == TimedOut <==> cfg.mustSaveBy && timesOut(k) && k < horizon)
  {
    var t := Target(cfg, batches);
    if n < t {
      assert t < k ==> EndingAt(cfg, batches, timesOut, t) == None;
      assert EndingAt(cfg, batches, timesOut, t).Some?;
      forall j: nat | n < j < k
        ensures !(cfg.mustSaveBy && timesOut(j))
      {
        assert EndingAt(cfg, batches, timesOut, j) == None;
      }
    }
  }

  /** The last step of a run is saved, and the others that are saved come before it. */
  lemma {:induction false} SavesAreSnapshots(cfg: Config, batches: seq<Batch>, timesOut: nat -> bool, m: nat, n: nat)
    requires cfg.Valid() && (n > m ==> batches != [])
    ensures forall c :: c in Saves(cfg, batches, timesOut, m, n) ==>
      m < c.state.totalSteps <= n && c == Snapshot(batches, cfg.globalBatchSize, c.state.totalSteps)
    decreases n
  {
    if n > m {
      SavesAreSnapshots(cfg, batches, timesOut, m, n - 1);
      SnapshotTotals(batches, cfg.globalBatchSize, n);
      hide Snapshot;
    }
  }

  /** And they are exactly those due: at the last step, at the stop, at every multiple of a period, and when the clock cuts. */
  lemma {:induction false} SavesAreThoseDue(cfg: Config, batches: seq<Batch>, timesOut: nat -> bool, m: nat, n: nat, j: nat)
    requires cfg.Valid() && batches != [] && m < j <= n
    ensures Snapshot(batches, cfg.globalBatchSize, j) in Saves(cfg, batches, timesOut, m, n) <==>
      cfg.checkpoints &&
      (|| j >= cfg.maxSteps || j == cfg.maxEpochs * |batches|
       || (cfg.stopAfter.Some? && j >= cfg.stopAfter.value)
       || j % cfg.savePeriod == 0 || (cfg.ftSavePeriod.Some? && j % cfg.ftSavePeriod.value == 0)
       || (cfg.mustSaveBy && timesOut(j)))
    decreases n
  {
    if j < n {
      SavesAreThoseDue(cfg, batches, timesOut, m, n - 1, j);
      SnapshotTotals(batches, cfg.globalBatchSize, n);
      SnapshotTotals(batches, cfg.globalBatchSize, j);
      hide Snapshot, SavesAt;
    } else {
      SnapshotTotals(batches, cfg.globalBatchSize, n);
      SavesAreSnapshots(cfg, batches, timesOut, m, n - 1);
      hide Snapshot;
    }
  }

  lemma LastStepIsSaved(cfg: Config, batches: seq<Batch>, timesOut: nat -> bool, n: nat, k: nat, status: Status)
    requires cfg.Valid() && cfg.checkpoints && (k > 0 ==> batches != []) && RunsTo(cfg, batches, timesOut, n, k, status)
    ensures var saves := Saves(cfg, batches, timesOut, n, k);
      if k > n then saves != [] && saves[|saves| - 1] == Snapshot(batches, cfg.globalBatchSize, k) else saves == []
  {
    if k > n {
      assert SavesAt(cfg, batches, timesOut, k);
    }
  }

  /** The clock never cuts a run: there is no time limit, or it is never near. */
  ghost predicate Quiet(limit: bool, clock: nat -> bool)
  {
    limit ==> forall j: nat :: !clock(j)
  }

  /** From one checkpoint to the next by one slice: both in closed form, and the steps between them exactly the slice's. */
  ghost predicate OneSlice(cfg: Config, batches: seq<Batch>, stop: Option<nat>, clock: nat -> bool,
                           from: Checkpoint, to: Checkpoint, status: Status)
  {
    var n, k := from.state.totalSteps, to.state.totalSteps;
    && (k > 0 ==> batches != []) && to == Snapshot(batches, cfg.globalBatchSize, k)
    && RunsTo(cfg.(stopAfter := stop), batches, clock, n, k, status)
  }

  /** How far slices get that no clock cuts: each to its target, unless it is already behind. */
  function Reached(cfg: Config, batches: seq<Batch>, stops: seq<Option<nat>>): nat
  {
    if stops == [] then 0
    else
      var n := |stops| - 1;
      Largest(Reached(cfg, batches, stops[..n]), Target(cfg.(stopAfter := stops[n]), batches))
  }

  /** A job run in slices from the start: one after another, each with its own stop and clock. */
  ghost predicate IsSliced(cfg: Config, batches: seq<Batch>, stops: seq<Option<nat>>, clocks: seq<nat -> bool>,
                           trace: seq<Checkpoint>, statuses: seq<Status>)
  {
    && |clocks| == |statuses| == |stops| && |trace| == |stops| + 1 && trace[0] == Checkpoint(InitialSaveState, 0, [])
    && forall i :: 0 <= i < |stops| ==> OneSlice(cfg, batches, stops[i], clocks[i], trace[i], trace[i + 1], statuses[i])
  }

  lemma SliceEnds(cfg: Config, batches: seq<Batch>, stop: Option<nat>, clock: nat -> bool, from: Checkpoint, to: Checkpoint,
                  status: Status)
    requires OneSlice(cfg, batches, stop, clock, from, to, status)
    ensures var n, k, t := from.state.totalSteps, to.state.totalSteps, Target(cfg.(stopAfter := stop), batches);
      && n <= k <= Largest(n, t) && t <= Horizon(cfg, batches)
      && (status == Completed ==> k == Largest(n, t)) && (Quiet(cfg.mustSaveBy, clock) ==> status == Completed)
  {
    WhereRunsEnd(cfg.(stopAfter := stop), batches, clock, from.state.totalSteps, to.state.totalSteps, status);
  }

  /** Every checkpoint between slices is in closed form. */
  lemma SlicesLeaveSnapshots(cfg: Config, batches: seq<Batch>, stops: seq<Option<nat>>, clocks: seq<nat -> bool>,
                             trace: seq<Checkpoint>, statuses: seq<Status>, m: nat)
    requires IsSliced(cfg, batches, stops, clocks, trace, statuses) && m <= |stops|
    ensures var n := trace[m].state.totalSteps;
      (n > 0 ==> batches != []) && trace[m] == Snapshot(batches, cfg.globalBatchSize, n)
  {
    if m > 0 {
      assert OneSlice(cfg, batches, stops[m - 1], clocks[m - 1], trace[m - 1], trace[m], statuses[m - 1]);
      hide RunsTo, Snapshot;
    }
  }

  /** How far a job of `n` steps is after the first `m` slices. */
  predicate FarEnough(cfg: Config, batches: seq<Batch>, stops: seq<Option<nat>>, statuses: seq<Status>, m: nat, n: nat)
    requires m <= |stops| == |statuses|
  {
    && n <= Horizon(cfg, batches)
    && (forall j :: 0 <= j < m && statuses[j] == Completed ==> n >= Target(cfg.(stopAfter := stops[j]), batches))
    && ((forall j :: 0 <= j < m ==> statuses[j] == Completed) ==> n == Reached(cfg, batches, stops[..m]))
  }

  lemma OneSliceFurther(cfg: Config, batches: seq<Batch>, stops: seq<Option<nat>>, statuses: seq<Status>, m: nat, n: nat, k: nat)
    requires 0 < m <= |stops| == |statuses| && FarEnough(cfg, batches, stops, statuses, m - 1, n)
    requires var t := Target(cfg.(stopAfter := stops[m - 1]), batches);
      n <= k <= Largest(n, t) && t <= Horizon(cfg, batches) && (statuses[m - 1] == Completed ==> k == Largest(n, t))
    ensures FarEnough(cfg, batches, stops, statuses, m, k)
  {
    ReachedNext(cfg, batches, stops, m);
    hide Target, Horizon, Reached;
  }

  lemma {:induction false} SlicesGetFar(cfg: Config, batches: seq<Batch>, stops: seq<Option<nat>>, clocks: seq<nat -> bool>,
                                        trace: seq<Checkpoint>, statuses: seq<Status>, m: nat)
    requires IsSliced(cfg, batches, stops, clocks, trace, statuses) && m <= |stops|
    ensures FarEnough(cfg, batches, stops, statuses, m, trace[m].state.totalSteps)
  {
    if m == 0 {
      assert stops[..0] == [];
    } else {
      SlicesGetFar(cfg, batches, stops, clocks, trace, statuses, m - 1);
      assert OneSlice(cfg, batches, stops[m - 1], clocks[m - 1], trace[m - 1], trace[m], statuses[m - 1]);
      SliceEnds(cfg, batches, stops[m - 1], clocks[m - 1], trace[m - 1], trace[m], statuses[m - 1]);
      hide FarEnough, Target, Horizon, IsSliced, OneSlice, Quiet;
      OneSliceFurther(cfg, batches, stops, statuses, m, trace[m - 1].state.totalSteps, trace[m].state.totalSteps);
    }
  }

  /** The situation after the first `m` slices, whatever their stops and clocks. */
  lemma SlicesReach(cfg: Config, batches: seq<Batch>, stops: seq<Option<nat>>, clocks: seq<nat -> bool>,
                    trace: seq<Checkpoint>, statuses: seq<Status>, m: nat)
    requires IsSliced(cfg, batches, stops, clocks, trace, statuses) && m <= |stops|
    ensures var n := trace[m].state.totalSteps;
      && n <= Horizon(cfg, batches) && (n > 0 ==> batches != []) && trace[m] == Snapshot(batches, cfg.globalBatchSize, n)
      && (forall j :: 0 <= j < m && statuses[j] == Completed ==> n >= Target(cfg.(stopAfter := stops[j]), batches))
      && ((forall j :: 0 <= j < m ==> statuses[j] == Completed) ==> n == Reached(cfg, batches, stops[..m]))
  {
    SlicesLeaveSnapshots(cfg, batches, stops, clocks, trace, statuses, m);
    SlicesGetFar(cfg, batches, stops, clocks, trace, statuses, m);
    hide Snapshot, Target, Horizon, Reached, OneSlice;
  }

  lemma ReachedNext(cfg: Config, batches: seq<Batch>, stops: seq<Option<nat>>, m: nat)
    requires 0 < m <= |stops|
    ensures Reached(cfg, batches, stops[..m])
      == Largest(Reached(cfg, batches, stops[..m - 1]), Target(cfg.(stopAfter := stops[m - 1]), batches))
  {
    assert stops[..m][..m - 1] == stops[..m - 1];
  }

  /**
   Time slicing is invisible. The job is always a prefix of the uninterrupted one, in closed form. A slice
   that no clock cuts completes, a job that none cuts gets exactly as far as its stops allow, and once a slice
   without a nearer stop completes, the job is all of the uninterrupted one.
   */
  lemma SlicingIsInvisible(cfg: Config, batches: seq<Batch>, stops: seq<Option<nat>>, clocks: seq<nat -> bool>,
                           trace: seq<Checkpoint>, statuses: seq<Status>)
    requires IsSliced(cfg, batches, stops, clocks, trace, statuses)
    ensures var c := trace[|stops|]; var n := c.state.totalSteps;
      n <= Horizon(cfg, batches) && (n > 0 ==> batches != []) && c == Snapshot(batches, cfg.globalBatchSize, n)
    ensures forall i :: 0 <= i < |stops| && Quiet(cfg.mustSaveBy, clocks[i]) ==> statuses[i] == Completed
    ensures (forall i :: 0 <= i < |stops| ==> Quiet(cfg.mustSaveBy, clocks[i]))
      ==> trace[|stops|].state.totalSteps == Reached(cfg, batches, stops)
    ensures (exists i :: 0 <= i < |stops| && statuses[i] == Completed && Unbounded(cfg, batches, stops[i]))
      ==> trace[|stops|].state.totalSteps == Horizon(cfg, batches)
  {
    forall i | 0 <= i < |stops|
      ensures Quiet(cfg.mustSaveBy, clocks[i]) ==> statuses[i] == Completed
    {
      SliceEnds(cfg, batches, stops[i], clocks[i], trace[i], trace[i + 1], statuses[i]);
    }
    SlicesReach(cfg, batches, stops, clocks, trace, statuses, |stops|);
    assert stops[..|stops|] == stops;
    forall i | 0 <= i < |stops| && Unbounded(cfg, batches, stops[i])
      ensures Target(cfg.(stopAfter := stops[i]), batches) == Horizon(cfg, batches)
    {
    }
    hide Quiet, OneSlice, Snapshot, Target, Horizon, Unbounded, Reached;
  }

  /** Runs a job in slices, each resumed from the last checkpoint of the one before. */
  method RunSlices(cfg: Config, batches: seq<Batch>, stops: seq<Option<nat>>, clocks: seq<nat -> bool>)
    returns (trace: seq<Checkpoint>, statuses: seq<Status>)
    requires cfg.Valid() && cfg.checkpoints && |clocks| == |stops|
    ensures IsSliced(cfg, batches, stops, clocks, trace, statuses)
    ensures var c := trace[|stops|]; var n := c.state.totalSteps;
      n <= Horizon(cfg, batches) && (n > 0 ==> batches != []) && c == Snapshot(batches, cfg.globalBatchSize, n)
    ensures forall i :: 0 <= i < |stops| && Quiet(cfg.mustSaveBy, clocks[i]) ==> statuses[i] == Completed
    ensures (forall i :: 0 <= i < |stops| ==> Quiet(cfg.mustSaveBy, clocks[i]))
      ==> trace[|stops|].state.totalSteps == Reached(cfg, batches, stops)
    ensures (exists i :: 0 <= i < |stops| && statuses[i] == Completed && Unbounded(cfg, batches, stops[i]))
      ==> trace[|stops|].state.totalSteps == Horizon(cfg, batches)
    ensures forall i :: 0 <= i < |stops| && statuses[i] == Completed ==>
      trace[|stops|].state.totalSteps >= Target(cfg.(stopAfter := stops[i]), batches)
  {
    var c := Checkpoint(InitialSaveState, 0, []);
    trace, statuses := [c], [];
    var i := 0;
    while i < |stops|
      invariant 0 <= i <= |stops| && |statuses| == i && |trace| == i + 1 && trace[i] == c
      invariant trace[0] == Checkpoint(InitialSaveState, 0, [])
      invariant forall j :: 0 <= j < i ==> OneSlice(cfg, batches, stops[j], clocks[j], trace[j], trace[j + 1], statuses[j])
      invariant var n := c.state.totalSteps; (n > 0 ==> batches != []) && c == Snapshot(batches, cfg.globalBatchSize, n)
    {
      hide RunsTo, Snapshot;
      var status;
      c, status := RunSlice(cfg.(stopAfter := stops[i]), batches, c, clocks[i]);
      trace := trace + [c];
      statuses := statuses + [status];
      i := i + 1;
    }
    assert IsSliced(cfg, batches, stops, clocks, trace, statuses);
    SlicingIsInvisible(cfg, batches, stops, clocks, trace, statuses);
    SlicesReach(cfg, batches, stops, clocks, trace, statuses, |stops|);
    hide *;
  }

  predicate Unbounded(cfg: Config, batches: seq<Batch>, stop: Option<nat>)
  {
    stop.None? || stop.value >= Horizon(cfg, batches)
  }

  /** One slice: the objects are built from the checkpoint, the loop runs, and the last checkpoint is what remains. */
  method RunSlice(cfg: Config, batches: seq<Batch>, from: Checkpoint, clock: nat -> bool) returns (c: Checkpoint, status: Status)
    requires cfg.Valid() && cfg.checkpoints
    requires var n := from.state.totalSteps;
      (n > 0 ==> batches != []) && from == Snapshot(batches, cfg.globalBatchSize, n)
    ensures var n, k := from.state.totalSteps, c.state.totalSteps;
      && (k > 0 ==> batches != []) && c == Snapshot(batches, cfg.globalBatchSize, k)
      && RunsTo(cfg, batches, clock, n, k, status)
      && n <= k <= Largest(n, Target(cfg, batches)) && (status == Completed ==> k == Largest(n, Target(cfg, batches)))
    ensures Quiet(cfg.mustSaveBy, clock) ==> status == Completed
  {
    var policy := new Policy(from.history);
    var loader := new StatefulLoader(batches, from.position);
    var state := new DpoSaveState(from.state);
    var saver := new Checkpointer();
    var r := DpoTrain(cfg, policy, loader, state, saver, clock);
    status := r.value;
    c := if saver.saved != [] then saver.saved[|saver.saved| - 1] else from;
    ghost var n, k := from.state.totalSteps, |policy.history|;
    LastStepIsSaved(cfg, batches, clock, n, k, status);
    WhereRunsEnd(cfg, batches, clock, n, k, status);
    if k > 0 { SnapshotTotals(batches, cfg.globalBatchSize, k); }
  }
}
