/**
 The distillation loop: the same staleness protocol without sampling rounds. The student may have a
 generation engine of its own, or generate by itself, in which case no refit is ever needed.
 */
module DistillationLoop {
  import opened Prelude
  import opened DynamicSampling
  import opened TrainingLog

  datatype DistillationConfig = DistillationConfig(
    rollouts: nat -> seq<nat>,         // the prompts of the samples of the run's first, second, ... rollout
    timesOut: nat -> bool,             // the time limit is near after so many steps
    maxSteps: int,
    maxEpochs: int,
    loaderLength: nat,
    valPeriod: int,
    valAtStart: bool,
    valAtEnd: bool)

  /** The rules of the log for this loop: no sampling rounds, and no step before which validation waits. */
  function Rules(c: DistillationConfig): Config
  {
    Config((n: nat) => Draws(c.rollouts(n)), n => false, c.timesOut, false, 0, 0, c.maxSteps, c.maxEpochs, c.loaderLength, c.valPeriod, 0,
           c.valAtStart, c.valAtEnd)
  }

  /** A rollout's samples; rewards play no part here. */
  function Draws(prompts: seq<nat>): seq<Draw>
  {
    seq(|prompts|, i requires 0 <= i < |prompts| => Draw(prompts[i], 0.0, 0.0))
  }

  predicate SamePromptsDrawn(draws: seq<Draw>, prompts: seq<nat>)
  {
    |draws| == |prompts| && forall i :: 0 <= i < |draws| ==> draws[i].prompt == prompts[i]
  }

  datatype Ending = EpochsDone | Stopped(stop: Stop)

  class DistillationTrainer {
    const cfg: DistillationConfig
    ghost const rules: Config
    const student: Weights
    const generation: Weights
    const needRefit: bool
    var stale: bool
    var epoch: nat
    var step: nat
    var total: nat
    var position: nat
    var rolloutsMade: nat
    var rowsMade: nat
    ghost const start: Start
    ghost var log: seq<Event>

    ghost function Now(): Ledger
      reads this
    {
      Replay(rules, start, log)
    }

    /** The fields are what the log says; weights are equal when the flag is unset, or are the same object. */
    ghost predicate Matches(behind: nat)
      reads this, student, generation
    {
      && rules == Rules(cfg) && (!needRefit ==> generation == student)
      && start.validateFirst == (cfg.valAtStart && start.total == 0)
      && GoodLog(rules, start, log)
      && var l := Now();
         && student.version == l.version && stale == l.stale
         && (needRefit && !stale ==> generation.version == student.version)
         && epoch == l.epoch && step + behind == l.step && total + behind == l.total
         && position == l.drawn && rolloutsMade == l.rollouts && rowsMade == |l.generated|
    }

    /** Between two batches: nothing in flight and no validation owed. */
    ghost predicate Between()
      reads this, student, generation
    {
      Matches(0) && var l := Now(); !l.awaiting && l.inFlight == [] && l.pending == [] && l.rounds == 0 && l.due == None
    }

    constructor (cfg: DistillationConfig, student: Weights, studentGeneration: Option<Weights>,
                 epoch: nat, step: nat, total: nat, position: nat)
      ensures Matches(0) && log == [] && this.cfg == cfg && this.student == student
      ensures generation == if studentGeneration.Some? then studentGeneration.value else student
      ensures start == Start(student.version, epoch, step, total, position, true, cfg.valAtStart && total == 0)
    {
      this.cfg := cfg;
      this.rules := Rules(cfg);
      this.student := student;
      this.generation := if studentGeneration.Some? then studentGeneration.value else student;
      this.needRefit := studentGeneration.Some?;
      this.stale := true;
      this.epoch := epoch;
      this.step := step;
      this.total := total;
      this.position := position;
      this.rolloutsMade := 0;
      this.rowsMade := 0;
      this.start := Start(student.version, epoch, step, total, position, true, cfg.valAtStart && total == 0);
      this.log := [];
    }

    ghost method Note(e: Event)
      requires GoodLog(rules, start, log) && Good(rules, Now(), e)
      modifies this`log
      ensures log == old(log) + [e] && GoodLog(rules, start, log) && Now() == Post(rules, old(Now()), e)
    {
      Extend(rules, start, log, e);
      log := log + [e];
    }

    /** Before every generation: refit if there is an engine of its own and the flag is set. */
    method PrepareGeneration(ghost behind: nat)
      requires Matches(behind)
      modifies this`stale, this`log, generation`version
      ensures Matches(behind) && generation.version == student.version && student.version == old(student.version)
      ensures Now() == old(Now()).(stale := stale)
    {
      if needRefit && stale {
        generation.version := student.version;
        stale := false;
        Note(Refit);
      }
    }

    method Validate(ghost behind: nat)
      requires Matches(behind)
      requires Now().due.Some?
      modifies this`stale, this`log, generation`version
      ensures Matches(behind) && Now() == old(Now()).(stale := stale, due := None)
    {
      PrepareGeneration(behind);
      Note(Validated(student.version, generation.version));
    }

    method RunRollout() returns (batch: seq<SampleId>)
      requires Between() && Now().ended == None && position < cfg.loaderLength && epoch < cfg.maxEpochs && total < cfg.maxSteps
      modifies this`stale, this`position, this`rolloutsMade, this`rowsMade, this`log, generation`version
      ensures Matches(0) && position == old(position) + 1
      ensures Ready(rules, Now(), batch)
      // The rows are the rollout's, in order.
      ensures Made(batch, Draws(cfg.rollouts(old(rolloutsMade))), old(rowsMade), student.version)
      ensures rolloutsMade == old(rolloutsMade) + 1
    {
      hide GoodLog, Replay, Pick, IdSet, Made, MadeFrom, Flags, AllFrom;
      PrepareGeneration(0);
      position := position + 1;
      var prompts := cfg.rollouts(rolloutsMade);
      rolloutsMade := rolloutsMade + 1;
      var first, version := rowsMade, generation.version;
      batch := MadeFrom(Draws(prompts), first, version);
      rowsMade := rowsMade + |batch|;
      MadeSize(batch, Draws(prompts), first, version);
      Note(Rollout(batch, student.version, version));
    }

    /** Train on the batch, and see whether this was the last step. */
    method Update(batch: seq<SampleId>) returns (last: bool)
      requires Matches(0) && Ready(rules, Now(), batch)
      modifies this`stale, this`log, student`version
      ensures Matches(1)
      ensures last <==> old(total) + 1 >= cfg.maxSteps || (epoch + 1 == cfg.maxEpochs && old(step) + 1 == cfg.loaderLength)
      ensures var l := Now();
        && !l.awaiting && l.inFlight == [] && l.pending == [] && l.rounds == 0
        && l.due == (if ValidationFollows(rules, old(total) + 1, last) then Some(old(total) + 1) else None)
        && l.ended == (if cfg.timesOut(old(total) + 1) then Some(TimedOut)
                       else if old(total) + 1 >= cfg.maxSteps then Some(StepsDone) else None)
    {
      hide Ready, GoodLog, Replay, ValidationFollows, IdSet;
      ghost var before := student.version;
      stale := true;
      student.version := student.version + 1;
      last := total + 1 >= cfg.maxSteps || (epoch + 1 == cfg.maxEpochs && step + 1 == cfg.loaderLength);
      Note(Trained(batch, before, last));
    }

    method FinishStep(batch: seq<SampleId>) returns (ending: Option<Ending>)
      requires Matches(0) && Ready(rules, Now(), batch)
      modifies this`stale, this`step, this`total, this`log, student`version, generation`version
      ensures Between() && step == old(step) + 1 && total == old(total) + 1
      ensures ending == if Now().ended.Some? then Some(Stopped(Now().ended.value)) else None
      ensures ending ==
        if cfg.timesOut(total) then Some(Stopped(TimedOut)) else if total >= cfg.maxSteps then Some(Stopped(StepsDone)) else None
    {
      hide Good, GoodLog, Replay, Ready, IsLast;
      var last := Update(batch);
      if (cfg.valPeriod > 0 && (total + 1) % cfg.valPeriod == 0) || (cfg.valAtEnd && last) {
        Validate(1);
      }
      var timedOut := cfg.timesOut(total + 1);
      step := step + 1;
      total := total + 1;
      ending := if timedOut then Some(Stopped(TimedOut)) else if total >= cfg.maxSteps then Some(Stopped(StepsDone)) else None;
    }

    /** Why a run ends: its last update ended it, or none did and there is nothing left to do. */
    ghost predicate EndsFor(ending: Ending)
      reads this
    {
      match ending
      case Stopped(stop) => Now().ended == Some(stop)
      case EpochsDone => Now().ended == None && (epoch >= cfg.maxEpochs || total >= cfg.maxSteps)
    }

    method Run() returns (ending: Ending)
      requires Matches(0) && log == []
      modifies this`stale, this`epoch, this`step, this`total, this`position, this`rolloutsMade, this`rowsMade, this`log,
               student`version, generation`version
      ensures Between() && EndsFor(ending)
      // The rules are the configuration's: its rollouts, clock and limits, and no sampling rounds.
      ensures forall n: nat :: SamePromptsDrawn(rules.rollouts(n), cfg.rollouts(n))
      ensures rules.timesOut == cfg.timesOut && rules.maxSteps == cfg.maxSteps && rules.maxEpochs == cfg.maxEpochs
      ensures rules.loaderLength == cfg.loaderLength && !rules.dynamicSampling && forall n: nat :: !rules.stops(n)
      // Every rollout, validation and update of the run was made with the weights of its time, and in its time.
      ensures forall k :: 0 <= k < |log| ==> FreshAt(start, log, k) && InTime(rules, start, log, k)
      ensures ending == EpochsDone ==> start.epoch + Epochs(log) >= cfg.maxEpochs || start.total + Updates(log) >= cfg.maxSteps
      // Validations come exactly when they are due: before the first step, and after the updates the schedule names.
      ensures ValidatesNext(log, 0) <==> cfg.valAtStart && start.total == 0
      ensures forall k :: 0 <= k < |log| ==> ValidatedOnSchedule(start, log, k, cfg.valPeriod, 0, cfg.valAtEnd)
      // No event before a later step gave a reason to end the run, and the reason given is the last one's.
      ensures forall k, j :: 0 <= k < j < |log| && IsProgress(log[j]) ==> LeavesOpen(rules, start, log, k)
      ensures ending.Stopped? ==> exists k :: 0 <= k < |log| && EndsAt(rules, start, log, k, ending.stop)
    {
      ending := Train();
      LedgerCounts(rules, start, log);
      ValidationsAreOnSchedule(rules, start, log, 0);
      hide Replay, GoodLog, FreshAt, InTime, LeavesOpen, EndsAt, ValidatesNext, ValidatedOnSchedule, Updates, Epochs;
      forall k, j | 0 <= k < j < |log| && IsProgress(log[j])
        ensures LeavesOpen(rules, start, log, k)
      {
        OnlyTheLastEnds(rules, start, log, k, j);
      }
      if ending.Stopped? {
        ghost var k := SomethingEnded(rules, start, log, ending.stop);
      }
      forall k | 0 <= k < |log|
        ensures FreshAt(start, log, k) && InTime(rules, start, log, k)
      {
        GenerationIsNeverStale(rules, start, log, k);
        EventsAreInTime(rules, start, log, k);
      }
      forall k | 0 <= k < |log|
        ensures ValidatedOnSchedule(start, log, k, cfg.valPeriod, 0, cfg.valAtEnd)
      {
        ValidationsAreOnSchedule(rules, start, log, k);
      }
    }

    /** The batches of one epoch, until the loader is exhausted or the run ends. */
    method RunEpoch() returns (ending: Option<Ending>)
      requires Between() && Now().ended == None && epoch < cfg.maxEpochs && total < cfg.maxSteps
      modifies this`stale, this`step, this`total, this`position, this`rolloutsMade, this`rowsMade, this`log,
               student`version, generation`version
      ensures Between()
      ensures ending.None? ==> Now().ended == None && position >= cfg.loaderLength && total < cfg.maxSteps
      ensures ending.Some? ==> EndsFor(ending.value)
    {
      hide Good, GoodLog, Replay, Ready;
      while position < cfg.loaderLength
        invariant Between() && Now().ended == None && epoch < cfg.maxEpochs && total < cfg.maxSteps
        decreases cfg.loaderLength - position
      {
        var batch := RunRollout();
        ending := FinishStep(batch);
        if ending.Some? {
          return;
        }
      }
      ending := None;
    }

    method EndEpoch()
      requires Between() && Now().ended == None && position >= cfg.loaderLength
      modifies this`epoch, this`step, this`position, this`log
      ensures Between() && Now().ended == None && epoch == old(epoch) + 1
    {
      hide Replay, GoodLog, ValidationFollows, Pick, IdSet, Made, Flags, AllFrom;
      Note(EpochEnds);
      epoch := epoch + 1;
      step := 0;
      position := 0;
    }

    method Train() returns (ending: Ending)
      requires Matches(0) && log == []
      modifies this`stale, this`epoch, this`step, this`total, this`position, this`rolloutsMade, this`rowsMade, this`log,
               student`version, generation`version
      ensures Between() && EndsFor(ending)
    {
      assert Now() == Opening(start);
      hide Replay, GoodLog, Good, Post;
      if cfg.valAtStart && total == 0 {
        Validate(0);
      }
      while total < cfg.maxSteps && epoch < cfg.maxEpochs
        invariant Between() && Now().ended == None
        decreases cfg.maxEpochs - epoch
      {
        var ended := RunEpoch();
        if ended.Some? {
          return ended.value;
        }
        EndEpoch();
      }
      return EpochsDone;
    }
  }
}
