/**
 Endless data sources over finite loaders: sampling from several loaders in turn, and one loader cycled.
 A loader is its batches; an iterator over it is a position, replaced by a new one when it is exhausted.
 */
module DataSources {
  import opened Prelude
  import opened Repetition

  /** A batch is the list of its prompts. */
  type Batch = seq<nat>

  datatype SourceError =
    | Exhausted            // the loader has no batches at all
    | NoChosenTask
    | UnknownTask
    | CountMismatch
    | MissingRecords
    | TwoEmptyEpochs

  function Merged(batches: seq<Batch>): seq<nat>
  {
    if batches == [] then [] else Merged(batches[..|batches| - 1]) + batches[|batches| - 1]
  }

  /** The task visited at draw `i`. */
  function Turn(chosen: seq<string>, i: nat): string
    requires chosen != []
  {
    chosen[Wrap(i, |chosen|)]
  }

  /** The batches a task gets when draws go round the chosen tasks. */
  function RoundRobin(chosen: seq<string>, drawn: seq<Batch>, task: string): seq<Batch>
    requires drawn != [] ==> chosen != []
  {
    if drawn == [] then []
    else
      var n := |drawn| - 1;
      RoundRobin(chosen, drawn[..n], task) + if Turn(chosen, n) == task then [drawn[n]] else []
  }

  /** Every task has been served its share of the draws, on top of what it was served before. */
  ghost predicate SharesOut(was: map<string, Past>, now: map<string, Past>, chosen: seq<string>, drawn: seq<Batch>)
  {
    && (drawn != [] ==> chosen != []) && was.Keys == now.Keys
    && (forall i :: 0 <= i < |drawn| ==> Turn(chosen, i) in was)
    && forall t :: t in was ==> now[t].served == was[t].served + RoundRobin(chosen, drawn, t)
  }

  lemma SharesOutNothing(past: map<string, Past>, chosen: seq<string>)
    ensures SharesOut(past, past, chosen, [])
  {
  }

  lemma SharesOutSame(was: map<string, Past>, mid: map<string, Past>, now: map<string, Past>, chosen: seq<string>,
                      drawn: seq<Batch>)
    requires SharesOut(was, mid, chosen, drawn) && mid.Keys == now.Keys
    requires forall t :: t in now ==> now[t].served == mid[t].served
    ensures SharesOut(was, now, chosen, drawn)
  {
  }

  lemma SharesOutOneMore(was: map<string, Past>, mid: map<string, Past>, now: map<string, Past>, chosen: seq<string>,
                         drawn: seq<Batch>, batch: Batch)
    requires SharesOut(was, mid, chosen, drawn) && chosen != [] && mid.Keys == now.Keys && Turn(chosen, |drawn|) in now
    requires forall t :: t in now ==>
      now[t].served == mid[t].served + (if t == Turn(chosen, |drawn|) then [batch] else [])
    ensures SharesOut(was, now, chosen, drawn + [batch])
  {
    assert (drawn + [batch])[..|drawn|] == drawn;
  }

  lemma MergedOneMore(drawn: seq<Batch>, batch: Batch)
    ensures |Merged(drawn + [batch])| == |Merged(drawn)| + |batch|
  {
    assert (drawn + [batch])[..|drawn|] == drawn;
  }

  /** The prompts drawn are those of the batches, one batch after another. */
  lemma {:induction false} MergedInOrder(drawn: seq<Batch>, i: nat)
    requires i < |drawn|
    ensures var from, to := |Merged(drawn[..i])|, |Merged(drawn[..i + 1])|;
      to == from + |drawn[i]| <= |Merged(drawn)| && Merged(drawn)[from..to] == drawn[i]
    ensures Merged(drawn[..0]) == [] && Merged(drawn[..|drawn|]) == Merged(drawn)
    decreases |drawn|
  {
    var n := |drawn| - 1;
    assert drawn[..|drawn|] == drawn;
    if i < n {
      MergedInOrder(drawn[..n], i);
      assert drawn[..n][..i] == drawn[..i] && drawn[..n][..i + 1] == drawn[..i + 1];
    } else {
      assert Merged(drawn)[|Merged(drawn[..n])|..] == drawn[n];
    }
  }

  lemma NextTurn(n: nat, m: nat)
    requires m > 0
    ensures Wrap(n + 1, m) == Wrap(Wrap(n, m) + 1, m)
  {
    var q, r := n / m, n % m;
    assert n == Times(q, m) + r;
    if r + 1 < m {
      QuotientAndRemainder(q, r + 1, m);
      QuotientAndRemainder(0, r + 1, m);
    } else {
      assert Times(q + 1, m) == Times(q, m) + m;
      QuotientAndRemainder(q + 1, 0, m);
      QuotientAndRemainder(1, 0, m);
    }
  }

  predicate Distinct(names: seq<string>)
  {
    forall i, j :: 0 <= i < j < |names| ==> names[i] != names[j]
  }

  /** What was served is the loader repeated, and the position, in a later or the first pass, is where that left it. */
  ghost predicate InPlace(loader: seq<Batch>, served: seq<Batch>, position: nat, epoch: nat)
  {
    && position <= |loader| && (served != [] ==> loader != [])
    && |served| == Times(epoch, |loader|) + position && served == First(loader, |served|)
  }

  /** The batch that follows those served, when the loader is repeated. */
  function Following(loader: seq<Batch>, served: seq<Batch>): Batch
    requires loader != []
  {
    loader[Wrap(|served|, |loader|)]
  }

  lemma AtMostAll(loader: seq<Batch>, served: seq<Batch>, position: nat, epoch: nat)
    requires InPlace(loader, served, position, epoch)
    ensures position <= |loader|
  {
  }

  lemma StartInPlace(loader: seq<Batch>)
    ensures InPlace(loader, [], 0, 0)
  {
  }

  lemma Restart(loader: seq<Batch>, served: seq<Batch>, epoch: nat)
    requires InPlace(loader, served, |loader|, epoch)
    ensures InPlace(loader, served, 0, epoch + 1)
  {
    assert (epoch + 1) * |loader| == epoch * |loader| + |loader|;
  }

  lemma Advance(loader: seq<Batch>, served: seq<Batch>, position: nat, epoch: nat)
    requires InPlace(loader, served, position, epoch) && position < |loader|
    ensures InPlace(loader, served + [loader[position]], position + 1, epoch)
    ensures Following(loader, served) == loader[position]
  {
    FirstGrows(loader, epoch, position);
    QuotientAndRemainder(epoch, position, |loader|);
  }

  // ---- when the chosen tasks can supply enough --------------------------------------------------

  /** A place the draws will come to: a turn that fails, or one whose loader has a batch with prompts. */
  datatype Place = Place(turn: nat, batch: nat)

  predicate Stops(loaders: map<string, seq<Batch>>, chosen: seq<string>, w: Place)
  {
    && w.turn < |chosen|
    && var t := chosen[w.turn];
       t !in loaders || loaders[t] == [] || (w.batch < |loaders[t]| && loaders[t][w.batch] != [])
  }

  /** The draws come to an end. */
  ghost predicate Ends(loaders: map<string, seq<Batch>>, chosen: seq<string>, expected: int)
  {
    expected <= 0 || chosen == [] || exists w :: Stops(loaders, chosen, w)
  }

  /** Draws until the turn comes round. */
  function TurnsLeft(index: nat, turn: nat, m: nat): nat
    requires index < m && turn < m
  {
    if index <= turn then turn - index else m - index + turn
  }

  /** Visits to a loader until it yields a given batch. */
  function VisitsLeft(loader: seq<Batch>, served: seq<Batch>, batch: nat): nat
    requires batch < |loader|
  {
    TurnsLeft(Wrap(|served|, |loader|), batch, |loader|)
  }

  lemma OneTurnFewer(index: nat, turn: nat, m: nat)
    requires index < m && turn < m && index != turn
    ensures TurnsLeft(Wrap(index + 1, m), turn, m) < TurnsLeft(index, turn, m)
  {
    WrapPositions(m);
    assert index + 1 == m || index + 1 < m;
  }

  lemma OneVisitFewer(loader: seq<Batch>, served: seq<Batch>, batch: nat, drawn: Batch)
    requires batch < |loader| && Following(loader, served) != loader[batch]
    ensures VisitsLeft(loader, served + [drawn], batch) < VisitsLeft(loader, served, batch)
  {
    var q := Wrap(|served|, |loader|);
    NextTurn(|served|, |loader|);
    OneTurnFewer(q, batch, |loader|);
  }

  lemma WrapPositions(m: nat)
    requires m > 0
    ensures Wrap(m, m) == 0 && forall p: nat :: p < m ==> Wrap(p, m) == p
  {
    QuotientAndRemainder(1, 0, m);
    forall p: nat | p < m ensures Wrap(p, m) == p { QuotientAndRemainder(0, p, m); }
  }

  /** What has been drawn from a loader so far, and how many passes over it have been finished. */
  datatype Past = Past(served: seq<Batch>, epoch: nat)

  /** The batch is the one that follows, and is what was served in addition. */
  predicate DrewNext(loader: seq<Batch>, was: Past, now: Past, batch: Batch)
    requires loader != []
  {
    batch == Following(loader, was.served) && now.served == was.served + [batch]
  }

  /** The loaders and their iterators. */
  class Sources {
    const order: seq<string>
    const loaders: map<string, seq<Batch>>
    var iterators: map<string, nat>
    ghost var past: map<string, Past>

    ghost predicate Valid()
      reads this
    {
      && loaders.Keys == iterators.Keys == past.Keys
      && (forall t :: t in order ==> t in loaders)
      && (forall t :: t in loaders ==> InPlace(loaders[t], past[t].served, iterators[t], past[t].epoch))
    }

    /** For every task, what was served is a prefix of its batches repeated forever. */
    ghost predicate ServesRepetitions()
      reads this
    {
      && past.Keys == loaders.Keys
      && forall t :: t in loaders ==>
           (past[t].served != [] ==> loaders[t] != []) && past[t].served == First(loaders[t], |past[t].served|)
    }

    lemma SourcesServeRepetitions()
      requires Valid()
      ensures ServesRepetitions()
    {
    }

    constructor (order: seq<string>, loaders: map<string, seq<Batch>>)
      requires forall t :: t in order ==> t in loaders
      ensures Valid() && this.order == order && this.loaders == loaders
      ensures forall t :: t in loaders ==> past[t].served == []
    {
      this.order := order;
      this.loaders := loaders;
      this.iterators := map t | t in loaders :: 0;
      this.past := map t | t in loaders :: Past([], 0);
      new;
      forall t | t in loaders ensures InPlace(loaders[t], [], 0, 0) { StartInPlace(loaders[t]); }
    }

    /** The next batch of a task; an exhausted iterator is replaced by a new one first. */
    method Draw(task: string) returns (r: Result<Batch, SourceError>)
      requires Valid() && task in loaders
      modifies this
      ensures Valid() && ServesRepetitions()
      ensures r == if loaders[task] == [] then Err(Exhausted) else Ok(Following(loaders[task], old(past)[task].served))
      ensures past[task].served == old(past)[task].served + (if r.Ok? then [r.value] else [])
      ensures forall t :: t in loaders && t != task ==> past[t] == old(past)[t]
    {
      hide InPlace, First, Following;
      var loader := loaders[task];
      var position := iterators[task];
      ghost var done, epoch := past[task].served, past[task].epoch;
      AtMostAll(loader, done, position, epoch);
      if position >= |loader| {
        Restart(loader, done, epoch);
        position := 0;
        epoch := epoch + 1;
      }
      if loader == [] {
        r := Err(Exhausted);
      } else {
        Advance(loader, done, position, epoch);
        r := Ok(loader[position]);
        position := position + 1;
        done := done + [r.value];
      }
      iterators := iterators[task := position];
      past := past[task := Past(done, epoch)];
      SourcesServeRepetitions();
    }

    /** One batch from every loader. */
    method DrawEach() returns (r: Result<seq<Batch>, SourceError>)
      requires Valid() && Distinct(order)
      modifies this
      ensures Valid()
      ensures r.Ok? <==> forall t :: t in order ==> loaders[t] != []
      ensures r.Err? ==> r.error == Exhausted
      ensures r.Ok? ==>
        && |r.value| == |order|
        && forall i :: 0 <= i < |order| ==>
             && loaders[order[i]] != [] && DrewNext(loaders[order[i]], old(past)[order[i]], past[order[i]], r.value[i])
    {
      var drawn: seq<Batch> := [];
      while |drawn| < |order|
        invariant |drawn| <= |order| && EachSoFar(old(past), drawn)
        decreases |order| - |drawn|
      {
        hide InPlace, First, Following, DrewNext, Distinct;
        var batch := DrawNextOf(drawn, old(past));
        if batch.Err? {
          return Err(batch.error);
        }
        drawn := drawn + [batch.value];
      }
      r := Ok(drawn);
    }

    /** The first tasks in order have been drawn from once, the others not at all. */
    ghost predicate EachSoFar(was: map<string, Past>, drawn: seq<Batch>)
      requires |drawn| <= |order|
      reads this
    {
      && Valid() && was.Keys == loaders.Keys
      && (forall j :: 0 <= j < |drawn| ==>
            loaders[order[j]] != [] && DrewNext(loaders[order[j]], was[order[j]], past[order[j]], drawn[j]))
      && (forall j :: |drawn| <= j < |order| ==> past[order[j]] == was[order[j]])
    }

    method DrawNextOf(drawn: seq<Batch>, ghost was: map<string, Past>) returns (r: Result<Batch, SourceError>)
      requires |drawn| < |order| && EachSoFar(was, drawn) && Distinct(order)
      modifies this
      ensures Valid()
      ensures r.Ok? ==> EachSoFar(was, drawn + [r.value])
      ensures r.Err? ==> r.error == Exhausted && loaders[order[|drawn|]] == []
    {
      hide InPlace, First, Following;
      var n := |drawn|;
      r := Draw(order[n]);
      assert r.Ok? ==> DrewNext(loaders[order[n]], was[order[n]], past[order[n]], r.value);
      hide DrewNext;
    }

    /** The draws so far, as the loop of `DrawChosen` keeps them. */
    ghost predicate Gathered(was: map<string, Past>, chosen: seq<string>, expected: int, drawn: seq<Batch>, index: nat, count: nat)
      reads this
    {
      && Valid() && SharesOut(was, past, chosen, drawn)
      && (chosen != [] ==> index == Wrap(|drawn|, |chosen|))
      && count == |Merged(drawn)| && (drawn == [] ==> count == 0)
      && (drawn != [] ==> count - |drawn[|drawn| - 1]| < expected)
    }

    /** How far the draws are from a place where they stop or make progress. */
    ghost function VisitsTo(chosen: seq<string>, w: Place): nat
      requires Valid() && Stops(loaders, chosen, w)
      reads this
    {
      var t := chosen[w.turn];
      if t in loaders && loaders[t] != [] then VisitsLeft(loaders[t], past[t].served, w.batch) else 0
    }

    /** One draw of the round. */
    method DrawTurn(chosen: seq<string>, expected: int, drawn: seq<Batch>, index: nat, count: nat,
                    ghost was: map<string, Past>, ghost w: Place)
      returns (r: Result<Batch, SourceError>)
      requires Gathered(was, chosen, expected, drawn, index, count) && count < expected
      requires chosen == [] || Stops(loaders, chosen, w)
      modifies this
      ensures r.Ok? ==> chosen != []
      ensures r.Ok? ==>
        Gathered(was, chosen, expected, drawn + [r.value], Wrap(index + 1, |chosen|), count + |r.value|)
      ensures r.Err? ==> Gathered(was, chosen, expected, drawn, index, count) && Fails(chosen, |drawn|, r.error)
      // A draw without prompts brings the place closer.
      ensures r.Ok? && r.value == [] ==>
        VisitsTo(chosen, w) < old(VisitsTo(chosen, w)) ||
        (VisitsTo(chosen, w) == old(VisitsTo(chosen, w)) &&
          TurnsLeft(Wrap(index + 1, |chosen|), w.turn, |chosen|) < TurnsLeft(index, w.turn, |chosen|))
    {
      hide InPlace, SharesOut, Wrap, Merged, Following, TurnsLeft;
      if chosen == [] {
        return Err(NoChosenTask);
      }
      var task := chosen[index];
      if task !in loaders {
        return Err(UnknownTask);
      }
      ghost var before := past;
      r := Draw(task);
      if r.Err? {
        SharesOutSame(was, before, past, chosen, drawn);
      } else {
        SharesOutOneMore(was, before, past, chosen, drawn, r.value);
        MergedOneMore(drawn, r.value);
        NextTurn(|drawn|, |chosen|);
        Closer(chosen, w, index, before, past, r.value);
      }
    }

    lemma Closer(chosen: seq<string>, w: Place, index: nat, before: map<string, Past>, now: map<string, Past>, value: Batch)
      requires Stops(loaders, chosen, w) && index < |chosen| && chosen[index] in loaders && loaders[chosen[index]] != []
      requires before.Keys == now.Keys == loaders.Keys
      requires value == Following(loaders[chosen[index]], before[chosen[index]].served)
      requires now[chosen[index]].served == before[chosen[index]].served + [value]
      requires forall t :: t in loaders && t != chosen[index] ==> now[t] == before[t]
      ensures value == [] ==>
        var t := chosen[w.turn];
        if t == chosen[index] then
          VisitsLeft(loaders[t], now[t].served, w.batch) < VisitsLeft(loaders[t], before[t].served, w.batch)
        else
          && (t in loaders ==> now[t] == before[t])
          && TurnsLeft(Wrap(index + 1, |chosen|), w.turn, |chosen|) < TurnsLeft(index, w.turn, |chosen|)
    {
      var t := chosen[w.turn];
      if value == [] {
        if t == chosen[index] {
          OneVisitFewer(loaders[t], before[t].served, w.batch, value);
        } else {
          OneTurnFewer(index, w.turn, |chosen|);
        }
      }
    }

    /** Batches from the chosen tasks in turn, until there are enough prompts. */
    method DrawChosen(chosen: seq<string>, expected: int) returns (drawn: seq<Batch>, error: Option<SourceError>)
      requires Valid() && Ends(loaders, chosen, expected)
      modifies this
      ensures Valid()
      // Round-robin: draw i is for task i modulo the number of tasks, and every task's draws continue its repetition.
      ensures SharesOut(old(past), past, chosen, drawn)
      ensures DrawnInTurn(loaders, old(past), chosen, drawn)
      // Enough prompts, and not before the last batch.
      ensures error.None? ==> |Merged(drawn)| >= expected && (drawn == [] ==> expected <= 0)
      ensures error.None? && drawn != [] ==> |Merged(drawn)| - |drawn[|drawn| - 1]| < expected
      ensures error.Some? ==> |Merged(drawn)| < expected && Fails(chosen, |drawn|, error.value)
    {
      drawn := [];
      var index, count := 0, 0;
      error := None;
      SharesOutNothing(past, chosen);
      assert chosen != [] ==> Wrap(0, |chosen|) == 0 by { if chosen != [] { QuotientAndRemainder(0, 0, |chosen|); } }
      ghost var w := Place(0, 0);
      if expected > 0 && chosen != [] {
        w :| Stops(loaders, chosen, w);
      }
      while count < expected
        invariant Gathered(old(past), chosen, expected, drawn, index, count)
        decreases expected - count,
          if expected > 0 && chosen != [] then VisitsTo(chosen, w) else 0,
          if expected > 0 && chosen != [] then TurnsLeft(index, w.turn, |chosen|) else 0
      {
        hide InPlace, SharesOut, Wrap, Merged, VisitsLeft, TurnsLeft;
        var batch := DrawTurn(chosen, expected, drawn, index, count, old(past), w);
        if batch.Err? {
          TakenInTurn(old(past), chosen, drawn);
          error := Some(batch.error);
          return;
        }
        drawn := drawn + [batch.value];
        count := count + |batch.value|;
        index := Wrap(index + 1, |chosen|);
      }
      TakenInTurn(old(past), chosen, drawn);
      hide *;
    }

    lemma TakenInTurn(was: map<string, Past>, chosen: seq<string>, drawn: seq<Batch>)
      requires Valid() && SharesOut(was, past, chosen, drawn)
      ensures DrawnInTurn(loaders, was, chosen, drawn)
    {
      SourcesServeRepetitions();
      hide SharesOut, InPlace, First;
      SharesAreInTurn(loaders, was, past, chosen, drawn);
    }

    /** Why the draw after the first `n` fails. */
    predicate Fails(chosen: seq<string>, n: nat, error: SourceError)
    {
      if chosen == [] then error == NoChosenTask
      else if Turn(chosen, n) !in loaders then error == UnknownTask
      else loaders[Turn(chosen, n)] == [] && error == Exhausted
    }
  }

  /** Where `Ends` does not hold, no number of draws is enough and none fails: the loop would not end. */
  lemma {:induction false} NeverEnough(sources: Sources, was: map<string, Past>, chosen: seq<string>, expected: int,
                                       drawn: seq<Batch>)
    requires sources.Valid() && !Ends(sources.loaders, chosen, expected) && SharesOut(was, sources.past, chosen, drawn)
    ensures |Merged(drawn)| < expected && forall error :: !sources.Fails(chosen, |drawn|, error)
  {
    sources.SourcesServeRepetitions();
    forall i | 0 <= i < |drawn|
      ensures drawn[i] == []
    {
      var t := Turn(chosen, i);
      var turn := Wrap(i, |chosen|);
      RoundRobinHas(chosen, drawn, t, i);
      assert drawn[i] in sources.past[t].served;
      var j :| 0 <= j < |sources.past[t].served| && sources.past[t].served[j] == drawn[i];
      assert drawn[i] == sources.loaders[t][j % |sources.loaders[t]|];
      assert !Stops(sources.loaders, chosen, Place(turn, j % |sources.loaders[t]|));
    }
    NothingMerged(drawn);
    assert !Stops(sources.loaders, chosen, Place(Wrap(|drawn|, |chosen|), 0));
  }

  lemma {:induction false} NothingMerged(drawn: seq<Batch>)
    requires forall i :: 0 <= i < |drawn| ==> drawn[i] == []
    ensures Merged(drawn) == []
  {
    if drawn != [] { NothingMerged(drawn[..|drawn| - 1]); }
  }

  // ---- prompt counts --------------------------------------------------------------------------

  predicate FixedSize(loaders: map<string, seq<Batch>>, b: nat)
  {
    forall t :: t in loaders ==> AllOfSize(loaders[t], b)
  }

  /** `k` batches of the loaders' fixed size make up the expectation. */
  predicate Divides(loaders: map<string, seq<Batch>>, b: nat, k: nat, expected: int)
  {
    b > 0 && FixedSize(loaders, b) && expected == Times(k, b)
  }

  predicate AllOfSize(batches: seq<Batch>, b: nat)
  {
    forall i :: 0 <= i < |batches| ==> |batches[i]| == b
  }

  lemma {:induction false} MergedOfFixedSize(drawn: seq<Batch>, b: nat)
    requires AllOfSize(drawn, b)
    ensures |Merged(drawn)| == Times(|drawn|, b)
  {
    if drawn != [] {
      MergedOfFixedSize(drawn[..|drawn| - 1], b);
      assert |drawn| * b == (|drawn| - 1) * b + b;
    }
  }

  /** Draws that stop at the first batch reaching a multiple of the batch size hit it exactly. */
  lemma MultipleIsHit(drawn: seq<Batch>, b: nat, k: nat)
    requires b > 0 && AllOfSize(drawn, b) && (drawn == [] ==> k == 0)
    requires Times(k, b) <= |Merged(drawn)| && (drawn != [] ==> |Merged(drawn)| - b < Times(k, b))
    ensures |Merged(drawn)| == Times(k, b)
  {
    MergedOfFixedSize(drawn, b);
    var n := |drawn|;
    if n > k {
      ProductAtLeast(n - k, b);
    } else if k > n {
      ProductAtLeast(k - n, b);
    }
  }

  /** What a task is served, when every one of its batches has a fixed size, has that size. */
  lemma {:induction false} DrawnOfFixedSize(loaders: map<string, seq<Batch>>, was: map<string, Past>, now: map<string, Past>,
                                           chosen: seq<string>, drawn: seq<Batch>, b: nat)
    requires FixedSize(loaders, b) && SharesOut(was, now, chosen, drawn) && now.Keys == loaders.Keys
    requires forall t :: t in loaders ==>
      (now[t].served != [] ==> loaders[t] != []) && now[t].served == First(loaders[t], |now[t].served|)
    ensures AllOfSize(drawn, b)
  {
    forall i | 0 <= i < |drawn|
      ensures |drawn[i]| == b
    {
      var t := Turn(chosen, i);
      RoundRobinHas(chosen, drawn, t, i);
      assert drawn[i] in now[t].served;
      assert AllOfSize(loaders[t], b);
    }
  }

  lemma {:induction false} RoundRobinHas(chosen: seq<string>, drawn: seq<Batch>, t: string, i: nat)
    requires chosen != [] && i < |drawn| && Turn(chosen, i) == t
    ensures drawn[i] in RoundRobin(chosen, drawn, t)
    decreases |drawn|
  {
    if i < |drawn| - 1 {
      RoundRobinHas(chosen, drawn[..|drawn| - 1], t, i);
    }
  }

  /** How often a task had its turn before draw `i`. */
  ghost function TurnsBefore(chosen: seq<string>, i: nat, t: string): set<nat>
    requires chosen != []
  {
    set j: nat | j < i && chosen[j % |chosen|] == t
  }

  lemma {:induction false} RoundRobinLength(chosen: seq<string>, drawn: seq<Batch>, t: string)
    requires chosen != []
    ensures |RoundRobin(chosen, drawn, t)| == |TurnsBefore(chosen, |drawn|, t)|
    decreases |drawn|
  {
    if drawn != [] {
      var n := |drawn| - 1;
      RoundRobinLength(chosen, drawn[..n], t);
      assert TurnsBefore(chosen, n + 1, t) == TurnsBefore(chosen, n, t) + if chosen[n % |chosen|] == t then {n} else {};
    }
  }

  lemma {:induction false} RoundRobinAt(chosen: seq<string>, drawn: seq<Batch>, i: nat)
    requires chosen != [] && i < |drawn|
    ensures var t := chosen[i % |chosen|]; var m := |TurnsBefore(chosen, i, t)|;
      m < |RoundRobin(chosen, drawn, t)| && RoundRobin(chosen, drawn, t)[m] == drawn[i]
    decreases |drawn|
  {
    var n := |drawn| - 1;
    if i < n {
      RoundRobinAt(chosen, drawn[..n], i);
    } else {
      RoundRobinLength(chosen, drawn[..n], chosen[n % |chosen|]);
    }
  }

  /** Draw `i` is for task `i` modulo the number of tasks, and is the batch its loader, repeated, has come to. */
  ghost predicate DrawnInTurn(loaders: map<string, seq<Batch>>, was: map<string, Past>, chosen: seq<string>, drawn: seq<Batch>)
  {
    forall i :: 0 <= i < |drawn| ==> IsTurnOf(loaders, was, chosen, i, drawn[i])
  }

  ghost predicate IsTurnOf(loaders: map<string, seq<Batch>>, was: map<string, Past>, chosen: seq<string>, i: nat, batch: Batch)
  {
    && chosen != []
    && var t := chosen[i % |chosen|];
       && t in loaders && t in was && loaders[t] != []
       && batch == loaders[t][(|was[t].served| + |TurnsBefore(chosen, i, t)|) % |loaders[t]|]
  }

  lemma SharesAreInTurn(loaders: map<string, seq<Batch>>, was: map<string, Past>, now: map<string, Past>,
                        chosen: seq<string>, drawn: seq<Batch>)
    requires SharesOut(was, now, chosen, drawn) && now.Keys == loaders.Keys
    requires forall t :: t in loaders ==>
      (now[t].served != [] ==> loaders[t] != []) && now[t].served == First(loaders[t], |now[t].served|)
    ensures DrawnInTurn(loaders, was, chosen, drawn)
  {
    hide RoundRobin, TurnsBefore, First, IsTurnOf;
    forall i | 0 <= i < |drawn|
      ensures IsTurnOf(loaders, was, chosen, i, drawn[i])
    {
      var t := Turn(chosen, i);
      assert now[t].served == was[t].served + RoundRobin(chosen, drawn, t);
      TurnComesRound(loaders, was, chosen, drawn, i, now[t].served);
    }
  }

  lemma TurnComesRound(loaders: map<string, seq<Batch>>, was: map<string, Past>, chosen: seq<string>, drawn: seq<Batch>,
                       i: nat, served: seq<Batch>)
    requires chosen != [] && i < |drawn| && Turn(chosen, i) in loaders && Turn(chosen, i) in was
    requires served == was[Turn(chosen, i)].served + RoundRobin(chosen, drawn, Turn(chosen, i))
    requires (served != [] ==> loaders[Turn(chosen, i)] != []) && served == First(loaders[Turn(chosen, i)], |served|)
    ensures IsTurnOf(loaders, was, chosen, i, drawn[i])
  {
    var t := Turn(chosen, i);
    RoundRobinAt(chosen, drawn, i);
    hide RoundRobin, TurnsBefore, First;
    PartOfRepetition(loaders[t], was[t].served, RoundRobin(chosen, drawn, t), |TurnsBefore(chosen, i, t)|);
  }

  /** An entry of what was served in addition, as an entry of the repetition. */
  lemma PartOfRepetition(loader: seq<Batch>, before: seq<Batch>, more: seq<Batch>, m: nat)
    requires m < |more| && loader != [] && before + more == First(loader, |before + more|)
    ensures more[m] == loader[(|before| + m) % |loader|]
  {
    assert more[m] == (before + more)[|before| + m];
  }

  lemma {:induction false} EachOfFixedSize(loaders: map<string, seq<Batch>>, order: seq<string>, drawn: seq<Batch>,
                                          past: map<string, Past>, b: nat)
    requires FixedSize(loaders, b) && |drawn| == |order| && past.Keys == loaders.Keys
    requires forall i :: 0 <= i < |order| ==>
      order[i] in loaders && loaders[order[i]] != [] && drawn[i] == Following(loaders[order[i]], past[order[i]].served)
    ensures AllOfSize(drawn, b)
  {
    forall i | 0 <= i < |drawn|
      ensures |drawn[i]| == b
    {
      assert AllOfSize(loaders[order[i]], b);
    }
  }

  datatype Records = Records(chosenTask: seq<string>, expectedNumPrompts: int)

  /** The infinite iterator over several loaders: draws by one of the two sampling functions and checks the count. */
  class MultipleDataloaderWrapper {
    const expectedNumPrompts: int
    const sources: Sources
    const byTask: bool
    var records: Option<Records>

    constructor (expectedNumPrompts: int, sources: Sources, byTask: bool)
      ensures this.expectedNumPrompts == expectedNumPrompts && this.sources == sources && this.byTask == byTask
      ensures records == None
    {
      this.expectedNumPrompts := expectedNumPrompts;
      this.sources := sources;
      this.byTask := byTask;
      this.records := None;
    }

    method SetRecords(r: Records)
      modifies this
      ensures records == Some(r)
    {
      records := Some(r);
    }

    /** The next prompts; `drawn` are the batches the sampling function drew. */
    method Next() returns (r: Result<seq<nat>, SourceError>, ghost drawn: seq<Batch>)
      requires sources.Valid() && Distinct(sources.order)
      requires records.Some? ==> Ends(sources.loaders, records.value.chosenTask, records.value.expectedNumPrompts)
      modifies this, sources
      ensures sources.Valid()
      ensures r.Ok? ==> r.value == Merged(drawn) && |r.value| == expectedNumPrompts && records == None
      ensures r.Err? ==> records == old(records)
      ensures byTask && old(records).None? ==> r == Err(MissingRecords)
      // What is drawn: the chosen tasks' batches in turn, up to the expectation, or the next batch of every task.
      ensures byTask && r.Ok? ==>
        && old(records).Some? && SharesOut(old(sources.past), sources.past, old(records).value.chosenTask, drawn)
        && DrawnInTurn(sources.loaders, old(sources.past), old(records).value.chosenTask, drawn)
        && Enough(drawn, old(records).value.expectedNumPrompts)
      ensures !byTask && r.Ok? ==>
        && |drawn| == |sources.order|
        && forall i :: 0 <= i < |drawn| ==>
             && sources.loaders[sources.order[i]] != []
             && DrewNext(sources.loaders[sources.order[i]], old(sources.past)[sources.order[i]], sources.past[sources.order[i]], drawn[i])
      // Where every batch has a fixed size that divides the expectation, the count is right.
      ensures byTask && old(records).Some? && old(records).value.expectedNumPrompts == expectedNumPrompts ==>
        forall b: nat, k: nat :: Divides(sources.loaders, b, k, expectedNumPrompts) ==> r != Err(CountMismatch)
      // Sampling from each loader, it is right exactly when one batch of each makes up the expectation.
      ensures forall b: nat :: !byTask && FixedSize(sources.loaders, b) ==>
        (r == Err(CountMismatch) <==>
          (forall t :: t in sources.order ==> sources.loaders[t] != []) && expectedNumPrompts != Times(|sources.order|, b))
    {
      var result: seq<nat>;
      if byTask {
        if records.None? {
          return Err(MissingRecords), [];
        }
        ghost var was := sources.past;
        var batches, error := sources.DrawChosen(records.value.chosenTask, records.value.expectedNumPrompts);
        if error.Some? {
          return Err(error.value), batches;
        }
        CountIsRight(sources, was, records.value, batches);
        drawn := batches;
        result := Merged(batches);
      } else {
        ghost var was := sources.past;
        var each := sources.DrawEach();
        if each.Err? {
          return Err(each.error), [];
        }
        drawn := each.value;
        result := Merged(each.value);
        forall b: nat | FixedSize(sources.loaders, b)
          ensures |Merged(drawn)| == Times(|sources.order|, b)
        {
          EachOfFixedSize(sources.loaders, sources.order, drawn, was, b);
          MergedOfFixedSize(drawn, b);
        }
      }
      if |result| != expectedNumPrompts {
        return Err(CountMismatch), drawn;
      }
      records := None;
      r := Ok(result);
    }
  }

  /** Enough prompts, and not before the last batch. */
  predicate Enough(drawn: seq<Batch>, expected: int)
  {
    && |Merged(drawn)| >= expected && (drawn == [] ==> expected <= 0)
    && (drawn != [] ==> |Merged(drawn)| - |drawn[|drawn| - 1]| < expected)
  }

  lemma CountIsRight(sources: Sources, was: map<string, Past>, records: Records, drawn: seq<Batch>)
    requires sources.Valid() && SharesOut(was, sources.past, records.chosenTask, drawn)
    requires Enough(drawn, records.expectedNumPrompts)
    ensures forall b: nat, k: nat :: Divides(sources.loaders, b, k, records.expectedNumPrompts) ==>
      |Merged(drawn)| == Times(k, b)
  {
    forall b: nat, k: nat | Divides(sources.loaders, b, k, records.expectedNumPrompts)
      ensures |Merged(drawn)| == Times(k, b)
    {
      sources.SourcesServeRepetitions();
      DrawnOfFixedSize(sources.loaders, was, sources.past, records.chosenTask, drawn, b);
      if drawn == [] { ZeroProduct(k, b); }
      MultipleIsHit(drawn, b, k);
    }
  }

  lemma ZeroProduct(k: nat, b: nat)
    requires b > 0 && Times(k, b) <= 0
    ensures k == 0
  {
    if k > 0 { ProductAtLeast(k, b); }
  }

  // ---- one loader, cycled -----------------------------------------------------------------------

  lemma WrapStep(a: nat, b: nat, m: nat)
    requires m > 0 && Wrap(a, m) == Wrap(b, m)
    ensures Wrap(a + 1, m) == Wrap(b + 1, m)
  {
    NextTurn(a, m);
    NextTurn(b, m);
  }

  /** A generator over one loader, resumed at every `Next`; its first pass starts where the loader was left. */
  class CyclingDataLoader {
    const loader: seq<Batch>
    var position: nat
    var producedThisEpoch: bool
    var consecutiveEmptyEpochs: nat
    ghost const start: nat
    ghost var yielded: nat

    ghost predicate Valid()
      reads this
    {
      && start <= |loader| && position <= |loader|
      && (loader != [] ==> Wrap(start + yielded, |loader|) == Wrap(position, |loader|))
      && consecutiveEmptyEpochs <= (if producedThisEpoch then 1 else 0)
      && (producedThisEpoch <==> yielded > 0) && (producedThisEpoch ==> loader != [])
      && (!producedThisEpoch ==> position == start)
    }

    constructor (loader: seq<Batch>, position: nat)
      requires position <= |loader|
      ensures Valid() && start == position && yielded == 0 && this.loader == loader
    {
      this.loader := loader;
      this.position := position;
      this.producedThisEpoch := false;
      this.consecutiveEmptyEpochs := 0;
      this.start := position;
      this.yielded := 0;
    }

    /** The next batch of the repetition, however many passes it takes; only an empty loader fails. */
    method Next() returns (r: Result<Batch, SourceError>)
      requires Valid()
      modifies this
      ensures r == if loader == [] then Err(TwoEmptyEpochs) else Ok(loader[Wrap(start + old(yielded), |loader|)])
      ensures r.Ok? ==> Valid() && yielded == old(yielded) + 1
    {
      if loader != [] { WrapPositions(|loader|); }
      hide Wrap;
      while position >= |loader|
        invariant position <= |loader| && yielded == old(yielded) && consecutiveEmptyEpochs <= 1
        invariant loader != [] ==> Wrap(start + yielded, |loader|) == Wrap(position, |loader|)
        invariant !producedThisEpoch && consecutiveEmptyEpochs == 1 && loader != [] ==> position == 0
        invariant producedThisEpoch ==> loader != []
        decreases if producedThisEpoch then 3 else 2 - consecutiveEmptyEpochs
      {
        if producedThisEpoch {
          consecutiveEmptyEpochs := 0;
        } else {
          consecutiveEmptyEpochs := consecutiveEmptyEpochs + 1;
          if consecutiveEmptyEpochs >= 2 {
            return Err(TwoEmptyEpochs);
          }
        }
        producedThisEpoch := false;
        position := 0;
      }
      r := Ok(loader[position]);
      producedThisEpoch := true;
      WrapStep(start + yielded, position, |loader|);
      position := position + 1;
      yielded := yielded + 1;
    }
  }
}
