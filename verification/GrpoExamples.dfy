/** Runs of the trainer in which sampling wastes rounds, and in which an epoch's end loses rows. */
module GrpoExamples {
  import opened Prelude
  import opened DynamicSampling
  import opened TrainingLog
  import opened GrpoLoop

  /** A first run on a generator that has not been synchronised yet. */
  function FreshStart(version: nat): Start
  {
    Start(version, 0, 0, 0, 0, true, false)
  }

  /** Where no validation meets the threshold and the clock never runs out, only the step limit ends a run. */
  lemma NeverStopped(cfg: Config, st: Start, log: seq<Event>)
    requires GoodLog(cfg, st, log) && (forall n: nat :: !cfg.stops(n) && !cfg.timesOut(n))
    ensures var l := Replay(cfg, st, log); l.ended.Some? ==> l.ended == Some(StepsDone) && l.total >= cfg.maxSteps
  {
    hide GoodLog, Replay, Post, Updates, Drawn, StepsIn, Epochs, Rollouts;
    var l := Replay(cfg, st, log);
    if l.ended.Some? {
      var k := SomethingEnded(cfg, st, log, l.ended.value);
      EveryEventIsGood(cfg, st, log, k);
      ReplayNext(cfg, st, log, k);
      LedgerCounts(cfg, st, log[..k]);
      OnlyUpdatesCount(cfg, Replay(cfg, st, log[..k]), log[k]);
      TotalNeverFalls(cfg, st, log, k + 1);
    }
  }

  lemma {:induction false} TotalNeverFalls(cfg: Config, st: Start, log: seq<Event>, k: nat)
    requires k <= |log|
    ensures Replay(cfg, st, log).total >= Replay(cfg, st, log[..k]).total
    decreases |log|
  {
    hide Replay, Post;
    var n := |log| - 1;
    if k <= n {
      TotalNeverFalls(cfg, st, log[..n], k);
      assert log[..n][..k] == log[..k];
      OnlyUpdatesCount(cfg, Replay(cfg, st, log[..n]), log[n]);
      ReplayNext(cfg, st, log, n);
      assert log[..n + 1] == log;
    } else {
      assert log[..k] == log;
    }
  }

  // ---- one round too many -----------------------------------------------------------------------

  /** Two samples of a prompt whose rewards before shaping are the same, or differ; the shaped ones are the other way round. */
  function Pair(prompt: nat, same: bool): (draws: seq<Draw>)
    ensures |draws| == 2
  {
    [Draw(prompt, 1.0, 0.0)] + [if same then Draw(prompt, 0.0, 0.0) else Draw(prompt, 1.0, 1.0)]
  }

  /** One prompt a batch, sampled twice: in the first `m` rollouts its rewards are the same, in the later ones they differ. */
  function WastefulConfig(m: nat): Config
  {
    Config((n: nat) => Pair(n, n < m), n => false, n => false, true, 2, m, 2, 1, m + 1, 0, 0, false, false)
  }

  lemma PairFlags(prompt: nat, same: bool)
    ensures Flags(Pair(prompt, same)) == [same, same] && KeptOf([same, same]) == (if same then 0 else 2)
    ensures GroupedDraws(Pair(prompt, same), 2)
  {
    var draws := Pair(prompt, same);
    assert draws[0].unshapedReward == 0.0 && draws[1].unshapedReward == if same then 0.0 else 1.0;
    assert IsTrivial(draws, prompt) == same;
    TwoFlags(same, same);
  }

  lemma TwoFlags(a: bool, b: bool)
    ensures KeptOf([a, b]) == (if a then 0 else 1) + (if b then 0 else 1)
  {
    assert [a, b][..1] == [a] && [a][..0] == [];
    assert KeptOf([a]) == if a then 0 else 1;
  }

  lemma {:induction false} WastefulKept(m: nat, r: nat)
    ensures Kept(WastefulConfig(m), 0, r) == if r <= m then 0 else 2 * (r - m)
  {
    if r > 0 {
      WastefulKept(m, r - 1);
      PairFlags(r - 1, r - 1 < m);
    }
  }

  lemma WastefulGroups(m: nat)
    ensures GroupedRollouts(WastefulConfig(m), 2)
    ensures forall n: nat :: |WastefulConfig(m).rollouts(n)| == 2
  {
    forall n: nat
      ensures GroupedDraws(WastefulConfig(m).rollouts(n), 2) && |WastefulConfig(m).rollouts(n)| == 2
    {
      PairFlags(n, n < m);
      assert WastefulConfig(m).rollouts(n) == Pair(n, n < m);
    }
  }

  /** Before the first update all rollouts belong to it, and the only epoch is not over. */
  predicate NoUpdateYet(l: Ledger)
  {
    l.total == 0 ==> l.epoch == 0 && l.rounds == l.rollouts == l.drawn
  }

  lemma WastefulStep(m: nat, l: Ledger, e: Event)
    requires Good(WastefulConfig(m), l, e) && Counted(WastefulConfig(m), l) && NoUpdateYet(l)
    ensures NoUpdateYet(Post(WastefulConfig(m), l, e))
  {
    hide Pick, IdSet, IsLast, ValidationFollows, Flags, Made, AllFrom;
    if e.EpochEnds? {
      WastefulKept(m, l.rounds);
    }
  }

  lemma {:induction false} WastefulStart(m: nat, st: Start, log: seq<Event>)
    requires st == FreshStart(st.version) && GoodLog(WastefulConfig(m), st, log)
    ensures NoUpdateYet(Replay(WastefulConfig(m), st, log))
    decreases |log|
  {
    if log != [] {
      var past := log[..|log| - 1];
      WastefulStart(m, st, past);
      RoundsAreCounted(WastefulConfig(m), st, past);
      WastefulStep(m, Replay(WastefulConfig(m), st, past), log[|log| - 1]);
      hide Good, Post, Counted, NoUpdateYet;
    }
  }

  /** Somewhere the total begins to grow. */
  lemma {:induction false} FirstUpdate(cfg: Config, st: Start, log: seq<Event>) returns (k: nat)
    requires Replay(cfg, st, log).total > st.total
    ensures k < |log| && log[k].Trained? && Replay(cfg, st, log[..k]).total == st.total
    decreases |log|
  {
    hide Replay, Post;
    NothingCounted(cfg, st);
    assert log != [];
    var n := |log| - 1;
    var past := log[..n];
    ReplayNext(cfg, st, log, n);
    assert log[..n + 1] == log;
    OnlyUpdatesCount(cfg, Replay(cfg, st, past), log[n]);
    TotalGrows(cfg, st, past);
    if Replay(cfg, st, past).total > st.total {
      k := FirstUpdate(cfg, st, past);
      assert past[..k] == log[..k];
    } else {
      k := n;
    }
  }

  lemma NothingCounted(cfg: Config, st: Start)
    ensures Replay(cfg, st, []).total == st.total
  {
  }

  lemma OnlyUpdatesCount(cfg: Config, l: Ledger, e: Event)
    ensures Post(cfg, l, e).total == l.total + if e.Trained? then 1 else 0
  {
    hide Pick, IdSet, IsLast, ValidationFollows;
  }

  lemma {:induction false} TotalGrows(cfg: Config, st: Start, log: seq<Event>)
    ensures Replay(cfg, st, log).total >= st.total
    decreases |log|
  {
    if log != [] {
      hide Replay, Post;
      var n := |log| - 1;
      TotalGrows(cfg, st, log[..n]);
      OnlyUpdatesCount(cfg, Replay(cfg, st, log[..n]), log[n]);
      ReplayNext(cfg, st, log, n);
      assert log[..n + 1] == log;
    }
  }

  /** What the first update of such a run looks like. */
  lemma WastefulUpdate(m: nat, st: Start, log: seq<Event>, k: nat)
    requires m > 0 && st == FreshStart(st.version) && GoodLog(WastefulConfig(m), st, log)
    requires k < |log| && log[k].Trained? && Replay(WastefulConfig(m), st, log[..k]).total == 0
    ensures var l := Replay(WastefulConfig(m), st, log[..k]);
      l.rounds == m + 1 && AtTheEnd(WastefulConfig(m), l) && !log[k].last
  {
    var cfg := WastefulConfig(m);
    hide Replay, GoodLog, Good, Kept;
    EveryEventIsGood(cfg, st, log, k);
    WastefulStart(m, st, log[..k]);
    WastefulKept(m, m);
    RoundsExceedIff(cfg, st, log, k);
    LastStepIff(cfg, st, log, k);
    LedgerCounts(cfg, st, log[..k]);
  }

  /** The run does not end without an update. */
  lemma WastefulRunUpdates(m: nat, t: SyncTrainer, ending: Ending)
    requires t.cfg == WastefulConfig(m) && t.start == FreshStart(t.start.version)
    requires t.Between() && t.EndsFor(ending)
    ensures t.Now().total > 0
  {
    hide GoodLog, Replay, Counted, HoldsSurvivors;
    WastefulStart(m, t.start, t.log);
    NeverStopped(t.cfg, t.start, t.log);
    RoundsAreCounted(t.cfg, t.start, t.log);
    CacheHoldsSurvivors(t.cfg, t.start, t.log);
    if t.Now().total == 0 {
      RoundsSuffice(m, t.Now());
    }
  }

  lemma RoundsSuffice(m: nat, l: Ledger)
    requires Counted(WastefulConfig(m), l) && HoldsSurvivors(WastefulConfig(m), l) && NoUpdateYet(l)
    requires l.total == 0 && !l.awaiting
    ensures l.rounds > m ==> |l.pending| >= 2
  {
    WastefulKept(m, l.rounds);
  }

  /**
   A run of the trainer, for any limit `m > 0`, whose update takes `m + 1` rounds of a full batch each. The update comes
   from the last batch of the last epoch, yet is not taken for the last step.
   */
  method WastefulRun(m: nat) returns (t: SyncTrainer, ghost k: nat)
    requires m > 0
    ensures t.Valid() && t.cfg == WastefulConfig(m) && t.cfg.maxRounds == m && GroupedRollouts(t.cfg, 2)
    ensures forall n: nat :: |t.cfg.rollouts(n)| == t.cfg.batchSize
    ensures k < |t.log| && t.log[k].Trained?
    ensures var l := Replay(t.cfg, t.start, t.log[..k]);
      l.rounds == m + 1 && AtTheEnd(t.cfg, l) && !t.log[k].last
  {
    var policy := new Weights(0);
    var generator := new Weights(0);
    t := new SyncTrainer(WastefulConfig(m), policy, generator, 0, 0, 0, 0, None);
    var ending := t.Run();
    hide Replay, GoodLog, Kept, WastefulConfig, Flags, AtTheEnd;
    WastefulRunUpdates(m, t, ending);
    k := FirstUpdate(t.cfg, t.start, t.log);
    WastefulUpdate(m, t.start, t.log, k);
    WastefulGroups(m);
  }

  // ---- lost rows ----------------------------------------------------------------------------------

  /** Two prompts a batch, sampled twice, one of them with different rewards; the loader has a single batch. */
  const LeakyConfig: Config :=
    Config((n: nat) => Pair(2 * n, false) + Pair(2 * n + 1, true), n => false, n => false, true, 4, 1, 1, 1, 1, 0, 0, false, false)

  lemma LeakyFlags(n: nat)
    ensures var draws := LeakyConfig.rollouts(n);
      && Flags(draws) == [false, false, true, true] && KeptOf(Flags(draws)) == 2 && GroupedDraws(draws, 2)
  {
    var a, b := Pair(2 * n, false), Pair(2 * n + 1, true);
    LeakyDraws(n, a + b);
    FourFlags();
    assert (a + b)[2..] == b;
    hide Flags, KeptOf;
    PairFlags(2 * n + 1, true);
  }

  lemma LeakyDraws(n: nat, draws: seq<Draw>)
    requires draws == Pair(2 * n, false) + Pair(2 * n + 1, true)
    ensures Flags(draws) == [false, false, true, true]
  {
    assert draws[0] == Draw(2 * n, 1.0, 0.0) && draws[1] == Draw(2 * n, 1.0, 1.0);
    assert draws[2] == Draw(2 * n + 1, 1.0, 0.0) && draws[3] == Draw(2 * n + 1, 0.0, 0.0);
    assert !IsTrivial(draws, 2 * n) && IsTrivial(draws, 2 * n + 1);
  }

  lemma FourFlags()
    ensures KeptOf([false, false, true, true]) == 2
  {
    assert [false, false, true, true][..3] == [false, false, true] && [false, false, true][..2] == [false, false];
    TwoFlags(false, false);
    assert KeptOf([false, false, true]) == 2;
  }

  lemma {:induction false} LeakyKept(i: nat, r: nat)
    ensures Kept(LeakyConfig, i, r) == 2 * r
  {
    if r > 0 {
      LeakyKept(i, r - 1);
      LeakyFlags(i + r - 1);
    }
  }

  /** There is no update, and the end of the epoch loses rows. */
  predicate Leaks(l: Ledger)
  {
    l.total == 0 && (if l.epoch == 0 then l.rounds == l.drawn else l.lost != multiset{})
  }

  lemma LeakyEnd(l: Ledger)
    requires Good(LeakyConfig, l, EpochEnds) && Counted(LeakyConfig, l) && HoldsSurvivors(LeakyConfig, l)
    requires Leaks(l) && l.epoch == 0 && l.step + l.rounds <= l.drawn <= 1
    ensures Post(LeakyConfig, l, EpochEnds).lost != multiset{}
  {
    PendingAtEnd(LeakyConfig, l);
    LeakyKept(l.rollouts - l.rounds, l.rounds);
    LostGrows(LeakyConfig, l, EpochEnds);
  }

  lemma LeakyUpdate(l: Ledger, e: Event)
    requires e.Trained? && Good(LeakyConfig, l, e) && Counted(LeakyConfig, l)
    ensures l.rounds > 1
  {
    LeastAtUpdate(LeakyConfig, l, e);
    LeakyKept(l.rollouts - l.rounds, l.rounds);
  }

  lemma LeakyStep(l: Ledger, e: Event)
    requires Good(LeakyConfig, l, e) && Counted(LeakyConfig, l) && HoldsSurvivors(LeakyConfig, l)
    requires Leaks(l) && l.step + l.rounds <= l.drawn <= 1
    ensures Leaks(Post(LeakyConfig, l, e))
  {
    if e.EpochEnds? && l.epoch == 0 {
      LeakyEnd(l);
    } else if e.Trained? {
      LeakyUpdate(l, e);
    }
    hide Pick, IdSet, IsLast, ValidationFollows, Flags, Made, AllFrom, Counted, HoldsSurvivors, Ready;
  }

  lemma {:induction false} LeakyStart(st: Start, log: seq<Event>)
    requires st == FreshStart(st.version) && GoodLog(LeakyConfig, st, log)
    ensures Leaks(Replay(LeakyConfig, st, log))
    decreases |log|
  {
    if log != [] {
      var past := log[..|log| - 1];
      LeakyStart(st, past);
      RoundsAreCounted(LeakyConfig, st, past);
      CacheHoldsSurvivors(LeakyConfig, st, past);
      StepsWithinDraws(LeakyConfig, st, past);
      LeakyStep(Replay(LeakyConfig, st, past), log[|log| - 1]);
      hide Good, Post, Counted, HoldsSurvivors, Leaks;
    }
  }

  /** A run of the trainer that ends with all epochs done and with rows left in the store for good. */
  method LeakyRun() returns (t: SyncTrainer, ending: Ending)
    ensures t.Valid() && t.cfg == LeakyConfig && ending == EpochsDone && GroupedRollouts(t.cfg, 2)
    ensures forall n: nat :: |t.cfg.rollouts(n)| == t.cfg.batchSize
    ensures var l := Replay(t.cfg, t.start, t.log);
      l.lost != multiset{} && l.pending == [] && l.inFlight == [] && t.store.rows != {}
  {
    var policy := new Weights(0);
    var generator := new Weights(0);
    t := new SyncTrainer(LeakyConfig, policy, generator, 0, 0, 0, 0, None);
    ending := t.Run();
    LeakyGroups();
    hide Replay, GoodLog, Kept, Flags, Pick;
    LeakyStart(t.start, t.log);
    NeverStopped(t.cfg, t.start, t.log);
    StepsWithinDraws(t.cfg, t.start, t.log);
    StoreIsEmptyIff(t.cfg, t.start, t.log);
  }

  lemma LeakyGroups()
    ensures GroupedRollouts(LeakyConfig, 2) && forall n: nat :: |LeakyConfig.rollouts(n)| == LeakyConfig.batchSize
  {
    forall n: nat ensures GroupedDraws(LeakyConfig.rollouts(n), 2) { LeakyFlags(n); }
  }
}
