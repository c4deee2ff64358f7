/**
 The work of one teacher enrichment: padding rows in, inference, padding rows out, on every exit; and
 the activity counters of the coordinator that drains them. Calls into the shared store and the
 teacher workers may fail half-way: which rows each one still reached is a parameter.
 */
module TeacherSync {
  import opened Prelude
  import TeacherProtocol

  datatype Row = Row(inputIds: seq<int>, inputLength: nat, logprobs: Option<seq<real>>)

  type Rows = map<string, Row>

  /** What a teacher computes for a row depends on the row's input columns alone. */
  type Score = (seq<int>, nat) -> seq<real>

  function Scored(row: Row, score: Score): Row
  {
    row.(logprobs := Some(score(row.inputIds, row.inputLength)))
  }

  /** The rows with the teacher column of some of them written. */
  function ScoreThese(rows: Rows, ids: set<string>, score: Score): Rows
  {
    map id | id in rows :: if id in ids then Scored(rows[id], score) else rows[id]
  }

  function Elements(ids: seq<string>): set<string>
  {
    set id | id in ids
  }

  /** Copies of one row under new ids, without a teacher column. */
  function Copies(ids: set<string>, row: Row): Rows
  {
    map id | id in ids :: row.(logprobs := None)
  }

  // ---- names of padding rows ------------------------------------------------------------------

  function PadId(last: string, uuid: string, index: nat): string
  {
    last + "__teacher_pad_" + uuid + "_" + Decimal(index)
  }

  function PadIds(last: string, uuid: string, n: nat): (ids: seq<string>)
  {
    seq(n, i requires 0 <= i < n => PadId(last, uuid, i))
  }

  lemma PadIdsDistinct(last: string, uuid: string, i: nat, j: nat)
    requires PadId(last, uuid, i) == PadId(last, uuid, j)
    ensures i == j
  {
    var stem := last + "__teacher_pad_" + uuid + "_";
    assert PadId(last, uuid, i) == stem + Decimal(i) && PadId(last, uuid, j) == stem + Decimal(j);
    assert (stem + Decimal(i))[|stem|..] == Decimal(i) && (stem + Decimal(j))[|stem|..] == Decimal(j);
    DecimalInjective(i, j);
  }

  // ---- the shared store -----------------------------------------------------------------------

  class RowStore {
    var rows: Rows

    constructor (initial: Rows)
      ensures rows == initial
    {
      rows := initial;
    }

    method ReadRow(id: string, fails: bool) returns (row: Option<Row>)
      ensures row == if fails || id !in rows then None else Some(rows[id])
    {
      row := if fails || id !in rows then None else Some(rows[id]);
    }

    /** A failing write may leave any of its rows behind. */
    method WriteCopies(ids: seq<string>, row: Row, failsWith: Option<set<string>>) returns (ok: bool)
      modifies this
      ensures ok == failsWith.None?
      ensures rows == old(rows) + Copies(if ok then Elements(ids) else Elements(ids) * failsWith.value, row)
    {
      ok := failsWith.None?;
      rows := rows + Copies(if ok then Elements(ids) else Elements(ids) * failsWith.value, row);
    }

    /** The workers split the batch evenly among them; a failing one may have written any of its rows. */
    method Infer(ids: seq<string>, dp: int, score: Score, failsWith: Option<set<string>>) returns (ok: bool)
      requires dp > 0 && |ids| % dp == 0
      modifies this
      ensures ok == (failsWith.None? && Elements(ids) <= old(rows).Keys)
      ensures rows == ScoreThese(old(rows), Reached(ids, ok, failsWith), score)
    {
      ok := failsWith.None? && Elements(ids) <= rows.Keys;
      rows := ScoreThese(rows, Reached(ids, ok, failsWith), score);
    }

    /** A failing removal may leave any of its rows behind. */
    method ClearRows(ids: seq<string>, failsWith: Option<set<string>>) returns (ok: bool)
      modifies this
      ensures ok == failsWith.None?
      ensures rows == old(rows) - (if ok then Elements(ids) else Elements(ids) - failsWith.value)
    {
      ok := failsWith.None?;
      rows := rows - (if ok then Elements(ids) else Elements(ids) - failsWith.value);
    }
  }

  /** The rows an inference has written to. */
  function Reached(ids: seq<string>, ok: bool, failsWith: Option<set<string>>): set<string>
  {
    if ok then Elements(ids) else if failsWith.Some? then Elements(ids) * failsWith.value else {}
  }

  // ---- one enrichment -------------------------------------------------------------------------

  datatype Batch = Batch(ids: seq<string>, lengths: Option<seq<nat>>)
  {
    /** Sequence lengths, when known, are aligned with the ids. */
    predicate Aligned() { lengths.Some? ==> |lengths.value| == |ids| }

    predicate HasLengths() { lengths.Some? && lengths.value != [] }
  }

  /** What goes wrong in the calls into the store and the teacher. */
  datatype Faults = Faults(
    read: bool,
    padWrite: Option<set<string>>,
    infer: Option<set<string>>,
    clear: Option<set<string>>)

  datatype EnrichError =
    | NoLengths
    | BadDpSize
    | ReadFailed
    | PadWriteFailed
    | InferenceFailed
    | CleanupFailed
    | BothFailed(first: EnrichError)

  predicate CleanupOk(r: Result<seq<string>, EnrichError>)
  {
    r.Err? ==> !r.error.CleanupFailed? && !r.error.BothFailed?
  }

  /** Every row of before is still there with its input columns, and no row outside the batch has changed. */
  predicate Preserves(was: Rows, now: Rows, batch: set<string>)
  {
    forall id :: id in was ==>
      && id in now && now[id].inputIds == was[id].inputIds && now[id].inputLength == was[id].inputLength
      && (id !in batch ==> now[id] == was[id])
  }

  /** The failure the steps up to the inference run into, if any. */
  function Failure(rows: Rows, batch: Batch, padding: nat, faults: Faults): Option<EnrichError>
    requires batch.ids != []
  {
    if padding > 0 && (faults.read || batch.ids[|batch.ids| - 1] !in rows) then Some(ReadFailed)
    else if padding > 0 && faults.padWrite.Some? then Some(PadWriteFailed)
    else if faults.infer.Some? || !(Elements(batch.ids) <= rows.Keys) then Some(InferenceFailed)
    else None
  }

  /** What the call returns or raises. */
  function Outcome(rows: Rows, batch: Batch, dp: int, uuid: string, faults: Faults): Result<seq<string>, EnrichError>
    requires batch.Aligned()
  {
    if !batch.HasLengths() then Err(NoLengths)
    else if dp <= 0 then Err(BadDpSize)
    else
      var padding := TeacherProtocol.PadCount(|batch.ids|, dp);
      var failure := Failure(rows, batch, padding, faults);
      var padsNamed := padding > 0 && failure != Some(ReadFailed);
      if padsNamed && faults.clear.Some? then Err(if failure.None? then CleanupFailed else BothFailed(failure.value))
      else if failure.Some? then Err(failure.value)
      else Ok(batch.ids + PadIds(batch.ids[|batch.ids| - 1], uuid, padding))
  }

  /** The rows of the batch the teacher column was written to. */
  function Written(rows: Rows, batch: Batch, padding: nat, faults: Faults): set<string>
    requires batch.ids != []
  {
    match Failure(rows, batch, padding, faults)
    case None => Elements(batch.ids)
    case Some(InferenceFailed) => Reached(batch.ids, false, faults.infer)
    case Some(_) => {}
  }

  /** A uuid makes the padding ids new, both to the store and to the batch. */
  ghost predicate IsFresh(uuid: string, rows: Rows, ids: seq<string>)
  {
    ids != [] ==> NamesNothing(ids[|ids| - 1], uuid, rows.Keys + Elements(ids))
  }

  ghost predicate NamesNothing(last: string, uuid: string, ids: set<string>)
  {
    forall i: nat :: PadId(last, uuid, i) !in ids
  }

  lemma PadsAreNew(rows: Rows, ids: seq<string>, uuid: string, n: nat)
    requires ids != [] && IsFresh(uuid, rows, ids)
    ensures Elements(PadIds(ids[|ids| - 1], uuid, n)) !! rows.Keys + Elements(ids)
    ensures PadIds(ids[|ids| - 1], uuid, n) == [] <==> n == 0
  {
    forall id | id in PadIds(ids[|ids| - 1], uuid, n)
      ensures id !in rows.Keys + Elements(ids)
    {
    }
  }

  lemma ElementsOfBoth(a: seq<string>, b: seq<string>)
    ensures Elements(a + b) == Elements(a) + Elements(b)
  {
  }

  /** Scoring a padded batch and dropping the padding is scoring the batch. */
  lemma ScoreThenDrop(rows: Rows, dropped: set<string>, all: set<string>, some: set<string>, score: Score)
    requires all - dropped == some - dropped
    ensures ScoreThese(rows, all, score) - dropped == ScoreThese(rows - dropped, some, score)
  {
    forall id | id in rows && id !in dropped
      ensures id in all <==> id in some
    {
      assert id in all - dropped <==> id in some - dropped;
    }
  }

  /** Padding and inference, up to the first failure; `pads` are the padding rows to clean up. */
  method PadAndInfer(store: RowStore, batch: Batch, dp: int, score: Score, uuid: string, faults: Faults)
    returns (sent: seq<string>, pads: seq<string>, error: Option<EnrichError>)
    requires dp > 0 && batch.ids != [] && IsFresh(uuid, store.rows, batch.ids)
    modifies store
    ensures var n := TeacherProtocol.PadCount(|batch.ids|, dp);
      var allPads := PadIds(batch.ids[|batch.ids| - 1], uuid, n);
      && error == Failure(old(store.rows), batch, n, faults)
      && pads == (if n > 0 && error != Some(ReadFailed) then allPads else [])
      && (error.None? ==> sent == batch.ids + allPads)
      && (pads == [] ==> store.rows.Keys !! Elements(allPads))
      && PadsAreCopies(old(store.rows), store.rows, batch.ids[|batch.ids| - 1])
      && store.rows - Elements(allPads) == ScoreThese(old(store.rows), Written(old(store.rows), batch, n, faults), score)
  {
    var padding := TeacherProtocol.PadCount(|batch.ids|, dp);
    var last := batch.ids[|batch.ids| - 1];
    sent, pads, error := batch.ids, [], None;
    ghost var was := store.rows;
    ghost var allPads := PadIds(last, uuid, padding);
    PadsAreNew(was, batch.ids, uuid, padding);
    if padding > 0 {
      var source := store.ReadRow(last, faults.read);
      if source.None? {
        error := Some(ReadFailed);
      } else {
        pads := PadIds(last, uuid, padding);
        var written := store.WriteCopies(pads, source.value, faults.padWrite);
        if written {
          sent := batch.ids + pads;
          ElementsOfBoth(batch.ids, pads);
        } else {
          error := Some(PadWriteFailed);
        }
      }
    }
    assert store.rows - Elements(allPads) == was;
    if error.None? {
      ghost var padded := store.rows;
      var inferred := store.Infer(sent, dp, score, faults.infer);
      if !inferred {
        error := Some(InferenceFailed);
      }
      ScoreThenDrop(padded, Elements(allPads), Reached(sent, inferred, faults.infer),
                    Reached(batch.ids, inferred, faults.infer), score);
    } else {
      assert ScoreThese(was, {}, score) == was;
    }
    assert batch.ids + [] == batch.ids;
  }

  /** Rows that were not there before are copies of the batch's last row, but for the teacher column. */
  predicate PadsAreCopies(was: Rows, now: Rows, last: string)
  {
    forall id :: id in now && id !in was ==>
      last in was && now[id].inputIds == was[last].inputIds && now[id].inputLength == was[last].inputLength
  }

  /** The rows after a success: those of the batch have the teacher's answer to their input, the others are as before. */
  ghost predicate IsEnriched(was: Rows, now: Rows, ids: seq<string>, score: Score)
  {
    && now.Keys == was.Keys
    && forall id :: id in was ==>
         now[id] == if id in ids then Row(was[id].inputIds, was[id].inputLength, Some(score(was[id].inputIds, was[id].inputLength)))
                    else was[id]
  }

  lemma SuccessEnriches(was: Rows, now: Rows, ids: seq<string>, pads: set<string>, score: Score)
    requires now.Keys !! pads && now - pads == ScoreThese(was, Elements(ids), score)
    ensures IsEnriched(was, now, ids, score)
  {
    assert now - pads == now;
  }

  /** When a call succeeds and why it fails, from what goes wrong in the calls it makes. */
  lemma FaultsDecide(rows: Rows, batch: Batch, dp: int, uuid: string, faults: Faults)
    requires batch.Aligned()
    ensures var r := Outcome(rows, batch, dp, uuid, faults);
      var n := |batch.ids|;
      var valid := n > 0 && batch.lengths.Some? && dp > 0;
      var readFails := valid && n % dp != 0 && (faults.read || batch.ids[n - 1] !in rows);
      var writeFails := valid && n % dp != 0 && !readFails && faults.padWrite.Some?;
      var inferFails := valid && !readFails && !writeFails && (faults.infer.Some? || exists id :: id in batch.ids && id !in rows);
      var cleanupFails := valid && n % dp != 0 && !readFails && faults.clear.Some?;
      && (r == Err(NoLengths) <==> n == 0 || batch.lengths.None?)
      && (r == Err(BadDpSize) <==> n > 0 && batch.lengths.Some? && dp <= 0)
      && (r == Err(ReadFailed) <==> readFails)
      && (r == Err(PadWriteFailed) <==> writeFails && !cleanupFails)
      && (r == Err(InferenceFailed) <==> inferFails && !cleanupFails)
      && (r == Err(CleanupFailed) <==> cleanupFails && !writeFails && !inferFails)
      && (r == Err(BothFailed(PadWriteFailed)) <==> cleanupFails && writeFails)
      && (r == Err(BothFailed(InferenceFailed)) <==> cleanupFails && inferFails)
      && (r.Ok? <==> valid && !readFails && !writeFails && !inferFails && !cleanupFails)
  {
    if batch.HasLengths() && dp > 0 {
      var n := |batch.ids|;
      PaddingIffRemainder(n, dp);
      assert Elements(batch.ids) <= rows.Keys <==> !exists id :: id in batch.ids && id !in rows;
      hide TeacherProtocol.PadCount;
    }
  }

  lemma PaddingIffRemainder(n: nat, dp: int)
    requires dp > 0
    ensures TeacherProtocol.PadCount(n, dp) > 0 <==> n % dp != 0
  {
  }

  method EnrichSync(store: RowStore, batch: Batch, dp: int, score: Score, uuid: string, faults: Faults)
    returns (r: Result<seq<string>, EnrichError>)
    requires batch.Aligned() && IsFresh(uuid, store.rows, batch.ids)
    modifies store
    // What is returned or raised, fault by fault.
    ensures r == Outcome(old(store.rows), batch, dp, uuid, faults)
    // A rejected batch leaves the store alone.
    ensures !batch.HasLengths() || dp <= 0 ==> store.rows == old(store.rows)
    // Whatever happened, dropping the padding rows leaves the old rows with the teacher column as written ...
    ensures batch.HasLengths() && dp > 0 ==>
      var n := TeacherProtocol.PadCount(|batch.ids|, dp);
      var pads := Elements(PadIds(batch.ids[|batch.ids| - 1], uuid, n));
      && store.rows - pads == ScoreThese(old(store.rows), Written(old(store.rows), batch, n, faults), score)
      // ... and unless the cleanup itself failed there is no padding row to drop.
      && (CleanupOk(r) ==> store.rows.Keys !! pads)
      && (!CleanupOk(r) ==> store.rows.Keys * pads <= faults.clear.value)
    // In particular, a success writes the teacher's answer to every row of the batch and nothing else.
    ensures r.Ok? ==> IsEnriched(old(store.rows), store.rows, batch.ids, score)
    // What a failed cleanup leaves behind are copies of the last row.
    ensures batch.ids != [] ==> PadsAreCopies(old(store.rows), store.rows, batch.ids[|batch.ids| - 1])
    // So every old row keeps its input columns, rows outside the batch keep everything, and no id is added.
    ensures Preserves(old(store.rows), store.rows, Elements(batch.ids))
    ensures CleanupOk(r) ==> store.rows.Keys == old(store.rows).Keys
  {
    if !batch.HasLengths() {
      return Err(NoLengths);
    }
    if dp <= 0 {
      return Err(BadDpSize);
    }
    ghost var was := store.rows;
    var sent, pads, error := PadAndInfer(store, batch, dp, score, uuid, faults);
    ghost var n := TeacherProtocol.PadCount(|batch.ids|, dp);
    ghost var allPads := PadIds(batch.ids[|batch.ids| - 1], uuid, n);
    ghost var scored := ScoreThese(was, Written(was, batch, n, faults), score);
    var cleared := true;
    if pads != [] {
      ghost var before := store.rows;
      cleared := store.ClearRows(pads, faults.clear);
      assert store.rows - Elements(allPads) == before - Elements(allPads);
    }
    EveryExitPreserves(was, store.rows, batch, n, uuid, faults, score);
    if cleared && error.None? {
      SuccessEnriches(was, store.rows, batch.ids, Elements(allPads), score);
    }
    hide IsEnriched;
    if !cleared {
      r := Err(if error.None? then CleanupFailed else BothFailed(error.value));
    } else {
      r := if error.Some? then Err(error.value) else Ok(sent);
    }
  }

  lemma PaddingIsNewAndDistinct(rows: Rows, ids: seq<string>, uuid: string, n: nat)
    requires ids != [] && IsFresh(uuid, rows, ids)
    ensures var pads := PadIds(ids[|ids| - 1], uuid, n);
      && (forall i :: 0 <= i < n ==> pads[i] !in rows && pads[i] !in ids)
      && (forall i, j :: 0 <= i < j < n ==> pads[i] != pads[j])
  {
    var last := ids[|ids| - 1];
    var pads := PadIds(last, uuid, n);
    PadsAreNew(rows, ids, uuid, n);
    assert forall i :: 0 <= i < n ==> pads[i] in Elements(pads);
    forall i, j | 0 <= i < j < n
      ensures pads[i] != pads[j]
    {
      if pads[i] == pads[j] { PadIdsDistinct(last, uuid, i, j); }
    }
  }

  /** What is sent to the teacher on success: the batch, then fewer than `dp` new, distinct ids, evenly divisible. */
  lemma SentBatchDivides(rows: Rows, batch: Batch, dp: int, uuid: string, faults: Faults)
    requires batch.Aligned() && IsFresh(uuid, rows, batch.ids)
    requires Outcome(rows, batch, dp, uuid, faults).Ok?
    ensures var sent := Outcome(rows, batch, dp, uuid, faults).value;
      && dp > 0 && |sent| % dp == 0 && |batch.ids| <= |sent| < |batch.ids| + dp && sent[..|batch.ids|] == batch.ids
      && var pads := sent[|batch.ids|..];
         && (forall i :: 0 <= i < |pads| ==> pads[i] !in rows && pads[i] !in batch.ids)
         && (forall i, j :: 0 <= i < j < |pads| ==> pads[i] != pads[j])
  {
    var n := TeacherProtocol.PadCount(|batch.ids|, dp);
    var pads := PadIds(batch.ids[|batch.ids| - 1], uuid, n);
    PaddingIsNewAndDistinct(rows, batch.ids, uuid, n);
    assert Outcome(rows, batch, dp, uuid, faults) == Ok(batch.ids + pads);
    hide *;
    assert (batch.ids + pads)[|batch.ids|..] == pads && |batch.ids + pads| == |batch.ids| + n;
  }

  /** The old rows survive every exit of the call: input columns intact, rows outside the batch untouched. */
  lemma EveryExitPreserves(was: Rows, now: Rows, batch: Batch, padding: nat, uuid: string, faults: Faults, score: Score)
    requires batch.ids != [] && IsFresh(uuid, was, batch.ids)
    requires now - Elements(PadIds(batch.ids[|batch.ids| - 1], uuid, padding))
          == ScoreThese(was, Written(was, batch, padding, faults), score)
    ensures Preserves(was, now, Elements(batch.ids))
    ensures now.Keys !! Elements(PadIds(batch.ids[|batch.ids| - 1], uuid, padding)) ==> now.Keys == was.Keys
  {
    var pads := Elements(PadIds(batch.ids[|batch.ids| - 1], uuid, padding));
    var scored := ScoreThese(was, Written(was, batch, padding, faults), score);
    PadsAreNew(was, batch.ids, uuid, padding);
    forall id | id in was
      ensures id in now && now[id] == scored[id]
    {
      assert id in scored && id in now - pads;
    }
    if now.Keys !! pads {
      assert now - pads == now;
      assert scored.Keys == was.Keys;
    }
  }

  // ---- activity counters ----------------------------------------------------------------------

  datatype Counters = Counters(
    batches: nat, samples: nat, payloadTokens: nat, aliases: set<string>,
    totalTime: real, inferenceTime: real, lockWaitTime: real)
  {
    function Plus(other: Counters): Counters
    {
      Counters(batches + other.batches, samples + other.samples, payloadTokens + other.payloadTokens, aliases + other.aliases,
               totalTime + other.totalTime, inferenceTime + other.inferenceTime, lockWaitTime + other.lockWaitTime)
    }
  }

  const Idle: Counters := Counters(0, 0, 0, {}, 0.0, 0.0, 0.0)

  function Longest(lengths: seq<nat>): (m: nat)
    ensures forall i :: 0 <= i < |lengths| ==> lengths[i] <= m
    ensures m in lengths || (m == 0 && lengths == [])
  {
    if lengths == [] then 0
    else
      var rest := Longest(lengths[1..]);
      if lengths[0] >= rest then lengths[0] else rest
  }

  /** What the clock says about one call. */
  datatype Times = Times(total: real, inference: real, lockWait: real)

  /** The activity of one successful call. */
  function ActivityOf(alias: string, batch: Batch, full: bool, times: Times): Counters
  {
    var longest := match batch.lengths case Some(ls) => Longest(ls) case None => 0;
    Counters(1, |batch.ids|, if full then |batch.ids| * longest else 0, {alias}, times.total, times.inference, times.lockWait)
  }

  // ---- what a drain reports -------------------------------------------------------------------

  /** How many aliases and models were in use, and models per alias. */
  datatype RoutingMetrics = RoutingMetrics(aliasUnique: nat, modelUnique: nat, compression: real)

  datatype Metrics = Metrics(
    batches: nat, samples: nat, totalTime: real, inferenceTime: real, lockWaitTime: real,
    payloadTokens: Option<nat>, routing: Option<RoutingMetrics>)

  datatype DrainError = UnknownAlias

  function ModelsOf(models: map<string, string>, aliases: set<string>): set<string>
    requires aliases <= models.Keys
  {
    set a | a in aliases :: models[a]
  }

  function RoutingOf(models: map<string, string>, aliases: set<string>): RoutingMetrics
    requires aliases <= models.Keys
  {
    var a, m := |aliases|, |ModelsOf(models, aliases)|;
    RoutingMetrics(a, m, m as real / (if a >= 1 then a else 1) as real)
  }

  lemma {:induction false} ModelsAtMostAliases(models: map<string, string>, aliases: set<string>)
    requires aliases <= models.Keys
    ensures |ModelsOf(models, aliases)| <= |aliases|
    ensures aliases != {} ==> ModelsOf(models, aliases) != {}
    decreases |aliases|
  {
    if aliases != {} {
      var a :| a in aliases;
      var rest := aliases - {a};
      ModelsAtMostAliases(models, rest);
      assert ModelsOf(models, aliases) == ModelsOf(models, rest) + {models[a]};
      assert models[a] in ModelsOf(models, aliases);
    }
  }

  /** The reported ratio is positive and at most one once an alias was seen, and zero otherwise. */
  lemma CompressionRange(models: map<string, string>, aliases: set<string>)
    requires aliases <= models.Keys
    ensures var c := RoutingOf(models, aliases).compression;
      if aliases == {} then c == 0.0 else 0.0 < c <= 1.0
  {
    ModelsAtMostAliases(models, aliases);
    var a, m := |aliases|, |ModelsOf(models, aliases)|;
    if aliases != {} {
      assert m > 0 && a > 0;
      RatioAtMostOne(m, a);
    } else {
      assert ModelsOf(models, aliases) == {};
    }
  }

  lemma RatioAtMostOne(m: nat, a: nat)
    requires 0 < m <= a
    ensures 0.0 < m as real / a as real <= 1.0
  {
  }

  datatype CallError = Routing(routing: TeacherProtocol.RoutingError) | Enrichment(enrichment: EnrichError)

  class Coordinator {
    const cfg: TeacherProtocol.Config
    const full: bool
    var counters: Counters

    constructor (cfg: TeacherProtocol.Config, full: bool)
      ensures this.cfg == cfg && this.full == full && counters == Idle && Known()
    {
      this.cfg := cfg;
      this.full := full;
      counters := Idle;
    }

    /** Every alias seen has a model, so no drain fails. */
    ghost predicate Known()
      reads this
    {
      counters.aliases <= cfg.teacherModelByAgent.Keys
    }

    /** Counts a call only if it succeeds; a rejected or failed one leaves the counters alone. */
    method Enrich(store: RowStore, agent: Option<string>, batch: Batch, score: Score, uuid: string, faults: Faults,
                  times: Times)
      returns (r: Result<seq<string>, CallError>)
      requires batch.Aligned() && IsFresh(uuid, store.rows, batch.ids)
      modifies store, this`counters
      ensures match TeacherProtocol.ResolveTeacher(cfg, agent)
        case Err(e) => r == Err(Routing(e)) && store.rows == old(store.rows)
        case Ok(g) =>
          match Outcome(old(store.rows), batch, cfg.dpSize[g], uuid, faults)
          case Err(e) =>
            // The store as the failed enrichment leaves it: dropping its padding gives the old rows, some of them scored.
            && r == Err(Enrichment(e))
            && (e.NoLengths? || e.BadDpSize? ==> store.rows == old(store.rows))
            && (!e.NoLengths? && !e.BadDpSize? ==>
                  var n := TeacherProtocol.PadCount(|batch.ids|, cfg.dpSize[g]);
                  store.rows - Elements(PadIds(batch.ids[|batch.ids| - 1], uuid, n))
                  == ScoreThese(old(store.rows), Written(old(store.rows), batch, n, faults), score))
            && Preserves(old(store.rows), store.rows, Elements(batch.ids))
            && (CleanupOk(Err(e)) ==> store.rows.Keys == old(store.rows).Keys)
          case Ok(sent) => r == Ok(sent) && IsEnriched(old(store.rows), store.rows, batch.ids, score)
      ensures r.Err? ==> counters == old(counters)
      ensures r.Ok? ==>
        && agent.Some? && batch.lengths.Some?
        && var alias := if agent.value in cfg.teacherModelByAgent || cfg.defaultAlias.None? then agent.value else cfg.defaultAlias.value;
           var was := old(counters);
           counters == Counters(
             was.batches + 1, was.samples + |batch.ids|,
             was.payloadTokens + if full then |batch.ids| * Longest(batch.lengths.value) else 0,
             was.aliases + {alias},
             was.totalTime + times.total, was.inferenceTime + times.inference, was.lockWaitTime + times.lockWait)
      ensures TeacherProtocol.Validated(cfg) && old(Known()) ==> Known()
    {
      match TeacherProtocol.ResolveTeacher(cfg, agent) {
        case Err(e) =>
          return Err(Routing(e));
        case Ok(group) =>
          var enriched := EnrichSync(store, batch, cfg.dpSize[group], score, uuid, faults);
          match enriched {
            case Err(e) =>
              return Err(Enrichment(e));
            case Ok(sent) =>
              DroppingNothing(store.rows, Elements(PadIds(batch.ids[|batch.ids| - 1], uuid,
                TeacherProtocol.PadCount(|batch.ids|, cfg.dpSize[group]))));
              counters := counters.Plus(ActivityOf(TeacherProtocol.ResolveAlias(cfg, agent).value, batch, full, times));
              return Ok(sent);
          }
      }
    }

    /**
     Reports the activity since the last drain and resets the counters. An alias without a model would make the report
     fail before the reset; a validated configuration has none.
     */
    method DrainMetrics() returns (r: Result<Metrics, DrainError>)
      modifies this`counters
      ensures r.Err? <==> old(counters).batches > 0 && !(old(counters).aliases <= cfg.teacherModelByAgent.Keys)
      ensures r.Err? ==> counters == old(counters)
      ensures old(Known()) ==> r.Ok? && Known()
      ensures r.Ok? ==> counters == Idle && Reports(r.value, old(counters))
    {
      if counters.batches > 0 && !(counters.aliases <= cfg.teacherModelByAgent.Keys) {
        return Err(UnknownAlias);
      }
      var routing := None;
      if counters.batches > 0 {
        routing := Some(RoutingOf(cfg.teacherModelByAgent, counters.aliases));
        CompressionRange(cfg.teacherModelByAgent, counters.aliases);
      }
      r := Ok(Metrics(counters.batches, counters.samples, counters.totalTime, counters.inferenceTime, counters.lockWaitTime,
                      if full then Some(counters.payloadTokens) else None, routing));
      counters := Idle;
    }

    /** Everything counted is reported; the routing only when something ran, the payload only when it is configured. */
    predicate Reports(m: Metrics, c: Counters)
    {
      && m.batches == c.batches && m.samples == c.samples
      && m.totalTime == c.totalTime && m.inferenceTime == c.inferenceTime && m.lockWaitTime == c.lockWaitTime
      && m.payloadTokens == (if full then Some(c.payloadTokens) else None)
      && (m.routing.Some? <==> c.batches > 0)
      && (m.routing.Some? ==>
            && c.aliases <= cfg.teacherModelByAgent.Keys
            && m.routing.value.aliasUnique == |c.aliases|
            && m.routing.value.modelUnique == |set a | a in c.aliases :: cfg.teacherModelByAgent[a]|
            && m.routing.value.compression
               == m.routing.value.modelUnique as real / (if c.aliases == {} then 1 else |c.aliases|) as real
            && (c.aliases != {} ==> 0.0 < m.routing.value.compression <= 1.0))
    }
  }

  lemma DroppingNothing(rows: Rows, ids: set<string>)
    requires rows.Keys !! ids
    ensures rows - ids == rows
  {
  }

  /** One event in the coordinator's life: a successful call's activity, or a drain. */
  datatype Activity = Recorded(c: Counters) | Drained

  /** The counters after some events, and what the drains among them returned, in order. */
  function Life(c: Counters, events: seq<Activity>): (Counters, seq<Counters>)
    decreases |events|
  {
    if events == [] then (c, [])
    else
      match events[0]
      case Recorded(a) => Life(c.Plus(a), events[1..])
      case Drained => var rest := Life(Idle, events[1..]); (rest.0, [c] + rest.1)
  }

  function Total(cs: seq<Counters>): Counters
  {
    if cs == [] then Idle else cs[0].Plus(Total(cs[1..]))
  }

  function AllRecorded(events: seq<Activity>): Counters
  {
    if events == [] then Idle
    else if events[0].Recorded? then events[0].c.Plus(AllRecorded(events[1..]))
    else AllRecorded(events[1..])
  }

  /** However the drains fall, every activity is reported once: drained in all, plus what is left. */
  lemma {:induction false} DrainsConserve(c: Counters, events: seq<Activity>)
    ensures Total(Life(c, events).1).Plus(Life(c, events).0) == c.Plus(AllRecorded(events))
    decreases |events|
  {
    if events != [] {
      match events[0]
      case Recorded(a) => DrainsConserve(c.Plus(a), events[1..]);
      case Drained =>
        DrainsConserve(Idle, events[1..]);
        var rest := Life(Idle, events[1..]);
        assert ([c] + rest.1)[1..] == rest.1;
    }
  }
}
