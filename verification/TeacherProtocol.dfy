/**
 Concurrent teacher enrichment: per-group locks, one non-cancellable worker thread per call shielded
 from the task's cancellation, temporary padding rows in the shared store, and rollback by others.
 A state machine over every interleaving of the calls' steps.
 */
module TeacherProtocol {
  import opened Prelude

  type Group = string
  type CallId = nat

  /** Rows of the shared store: data rows, and the padding rows a call names with its own fresh prefix. */
  datatype RowId = Data(id: nat) | Pad(call: CallId, index: nat)

  // ---- routing ------------------------------------------------------------------------------

  datatype Config = Config(
    teacherModelByAgent: map<string, string>,  // agent names with a teacher of their own, and its model
    strictMatch: bool,
    defaultAlias: Option<string>,
    aliasToGroup: map<string, Group>,
    dpSize: map<Group, int>)               // the physical worker groups and their data-parallel sizes

  datatype RoutingError = NoAgentRef | NoTeacherForAgent | GroupUnavailable

  /** The routing alias of an agent: a teacher of its own, or the default one when names need not match. */
  function ResolveAlias(cfg: Config, agent: Option<string>): Result<string, RoutingError>
  {
    match agent
    case None => Err(NoAgentRef)
    case Some(name) =>
      if name in cfg.teacherModelByAgent then Ok(name)
      else if cfg.strictMatch then Err(NoTeacherForAgent)
      else if cfg.defaultAlias.Some? && cfg.defaultAlias.value != "" then Ok(cfg.defaultAlias.value)
      else Err(NoTeacherForAgent)
  }

  /** The group behind an alias; several aliases may share one. */
  function GroupOf(cfg: Config, alias: string): Group
  {
    if alias in cfg.aliasToGroup then cfg.aliasToGroup[alias] else alias
  }

  /** The alias an agent without a teacher of its own falls back to, if any. */
  predicate HasFallback(cfg: Config)
  {
    !cfg.strictMatch && cfg.defaultAlias.Some? && cfg.defaultAlias.value != ""
  }

  /** What the configuration check demands: a fallback is itself an agent with a teacher. */
  predicate Validated(cfg: Config)
  {
    !cfg.strictMatch && cfg.defaultAlias.Some? ==> cfg.defaultAlias.value in cfg.teacherModelByAgent
  }

  /** Then every alias that is ever used has a model. */
  lemma AliasesHaveModels(cfg: Config, agent: Option<string>)
    requires Validated(cfg) && ResolveAlias(cfg, agent).Ok?
    ensures ResolveAlias(cfg, agent).value in cfg.teacherModelByAgent
  {
  }

  /** The physical group that serves an agent, and why there may be none. */
  function ResolveTeacher(cfg: Config, agent: Option<string>): (r: Result<Group, RoutingError>)
    ensures r == Err(NoAgentRef) <==> agent == None
    ensures r == Err(NoTeacherForAgent) <==> agent.Some? && agent.value !in cfg.teacherModelByAgent && !HasFallback(cfg)
    ensures agent.Some? && (agent.value in cfg.teacherModelByAgent || HasFallback(cfg)) ==>
      var alias := if agent.value in cfg.teacherModelByAgent then agent.value else cfg.defaultAlias.value;
      r == if GroupOf(cfg, alias) in cfg.dpSize then Ok(GroupOf(cfg, alias)) else Err(GroupUnavailable)
    ensures r.Ok? ==> r.value in cfg.dpSize
  {
    match ResolveAlias(cfg, agent)
    case Err(e) => Err(e)
    case Ok(alias) => if GroupOf(cfg, alias) in cfg.dpSize then Ok(GroupOf(cfg, alias)) else Err(GroupUnavailable)
  }

  // ---- state --------------------------------------------------------------------------------

  datatype Outcome = Returned | Raised | Cancelled | Rejected

  /** Where the calling task is. */
  datatype Phase = Waiting | Guarding | Draining | Finished(outcome: Outcome)

  /** Where the worker thread is. */
  datatype Thread =
    | NotStarted
    | Queued
    | Padding(written: nat)
    | Inferring
    | Clearing(ok: bool)
    | Done(ok: bool, cleaned: bool)

  datatype Call = Call(group: Group, rows: set<RowId>, phase: Phase, thread: Thread, cancels: nat)

  datatype Lock = Lock(holder: Option<CallId>, queue: seq<CallId>)

  datatype State = State(calls: map<CallId, Call>, locks: map<Group, Lock>, store: set<RowId>)

  /** The thread may still read or write rows. */
  predicate Active(t: Thread)
  {
    t.Queued? || t.Padding? || t.Inferring? || t.Clearing?
  }

  predicate HoldsLock(p: Phase) { p.Guarding? || p.Draining? }

  /** Rows to add so that the batch divides among the data-parallel workers. */
  function PadCount(size: nat, dp: int): (n: nat)
    requires dp > 0
    ensures n < dp && (size + n) % dp == 0
  {
    if size % dp == 0 then 0
    else
      PaddedDivides(size, dp);
      dp - size % dp
  }

  lemma PaddedDivides(size: nat, dp: int)
    requires dp > 0
    ensures (size + (dp - size % dp)) % dp == 0
  {
    assert size + (dp - size % dp) == (size / dp + 1) * dp;
    QuotientAndRemainder(size / dp + 1, 0, dp);
  }

  function PadsOf(c: CallId, n: nat): (s: set<RowId>)
    ensures forall r :: r in s <==> r.Pad? && r.call == c && r.index < n
  {
    set i: nat | i < n :: Pad(c, i)
  }

  // ---- events -------------------------------------------------------------------------------

  datatype Event =
    | Begin(c: CallId, agent: Option<string>, rows: set<RowId>)  // enrich is called
    | Grant(c: CallId)                                           // lock acquired, thread created and shielded
    | Start(c: CallId)                                           // the thread runs its checks
    | ReadFails(c: CallId)                                       // reading the last row fails, before any pad is named
    | WritePad(c: CallId)
    | PadWriteFails(c: CallId)
    | PadsWritten(c: CallId)
    | InferSucceeds(c: CallId)
    | InferFails(c: CallId)
    | Clear(c: CallId)
    | ClearFails(c: CallId, left: set<RowId>)                    // some pads may stay behind
    | Deliver(c: CallId)                                         // the task sees the thread's result
    | Cancel(c: CallId)                                          // somebody cancels the task
    | RollBack(c: CallId)                                        // the caller, done with the call's rows, drops them

  function Pads(cfg: Config, call: Call): nat
  {
    if call.group in cfg.dpSize && cfg.dpSize[call.group] > 0 then PadCount(|call.rows|, cfg.dpSize[call.group]) else 0
  }

  predicate Enabled(cfg: Config, s: State, e: Event)
  {
    match e
    case Begin(c, agent, rows) =>
      && c !in s.calls && rows <= s.store
      && (forall r :: r in rows ==> r.Data?)
      && (forall d :: d in s.calls && !s.calls[d].phase.Finished? ==> s.calls[d].rows !! rows)
    case Grant(c) =>
      && c in s.calls && s.calls[c].phase.Waiting? && s.calls[c].group in s.locks
      && var lock := s.locks[s.calls[c].group];
         lock.holder == None && lock.queue != [] && lock.queue[0] == c
    case Start(c) => c in s.calls && s.calls[c].thread.Queued?
    case ReadFails(c) => c in s.calls && s.calls[c].thread == Padding(0)
    case WritePad(c) => c in s.calls && s.calls[c].thread.Padding? && s.calls[c].thread.written < Pads(cfg, s.calls[c])
    case PadWriteFails(c) => c in s.calls && s.calls[c].thread.Padding?
    case PadsWritten(c) => c in s.calls && s.calls[c].thread == Padding(Pads(cfg, s.calls[c]))
    case InferSucceeds(c) => c in s.calls && s.calls[c].thread.Inferring?
    case InferFails(c) => c in s.calls && s.calls[c].thread.Inferring?
    case Clear(c) => c in s.calls && s.calls[c].thread.Clearing?
    case ClearFails(c, left) => c in s.calls && s.calls[c].thread.Clearing? && left <= PadsOf(c, Pads(cfg, s.calls[c])) * s.store
    case Deliver(c) => c in s.calls && HoldsLock(s.calls[c].phase) && s.calls[c].thread.Done? && s.calls[c].group in s.locks
    case Cancel(c) => c in s.calls && !s.calls[c].phase.Finished? && s.calls[c].group in s.locks
    case RollBack(c) =>
      && c in s.calls && s.calls[c].phase.Finished?
      && (forall d :: d in s.calls && !s.calls[d].phase.Finished? ==> s.calls[d].rows !! s.calls[c].rows)
  }

  function SetThread(s: State, c: CallId, t: Thread): State
    requires c in s.calls
  {
    s.(calls := s.calls[c := s.calls[c].(thread := t)])
  }

  function Without(q: seq<CallId>, c: CallId): (r: seq<CallId>)
  {
    if q == [] then [] else (if q[0] == c then [] else [q[0]]) + Without(q[1..], c)
  }

  /** The task leaves the `async with` block: the lock is free again. */
  function Leave(s: State, c: CallId, outcome: Outcome): State
    requires c in s.calls && s.calls[c].group in s.locks
  {
    var call := s.calls[c];
    var lock := s.locks[call.group];
    s.(calls := s.calls[c := call.(phase := Finished(outcome))], locks := s.locks[call.group := lock.(holder := None)])
  }

  /** Where a finished inference goes: to the cleanup when there are pads, straight to the end otherwise. */
  function AfterInference(cfg: Config, call: Call, ok: bool): Thread
  {
    if Pads(cfg, call) > 0 then Clearing(ok) else Done(ok, true)
  }

  function Apply(cfg: Config, s: State, e: Event): State
    requires Enabled(cfg, s, e)
  {
    match e
    case Begin(c, agent, rows) =>
      (match ResolveTeacher(cfg, agent)
       case Err(_) => s.(calls := s.calls[c := Call("", rows, Finished(Rejected), NotStarted, 0)])
       case Ok(g) =>
         var lock := if g in s.locks then s.locks[g] else Lock(None, []);
         s.(calls := s.calls[c := Call(g, rows, Waiting, NotStarted, 0)],
            locks := s.locks[g := lock.(queue := lock.queue + [c])]))
    case Grant(c) =>
      var call := s.calls[c];
      var lock := s.locks[call.group];
      s.(calls := s.calls[c := call.(phase := Guarding, thread := Queued)],
         locks := s.locks[call.group := Lock(Some(c), lock.queue[1..])])
    case Start(c) =>
      var call := s.calls[c];
      var bad := call.rows == {} || call.group !in cfg.dpSize || cfg.dpSize[call.group] <= 0;
      SetThread(s, c, if bad then Done(false, true) else if Pads(cfg, call) > 0 then Padding(0) else Inferring)
    case ReadFails(c) => SetThread(s, c, Done(false, true))
    case WritePad(c) =>
      var n := s.calls[c].thread.written;
      SetThread(s, c, Padding(n + 1)).(store := s.store + {Pad(c, n)})
    case PadWriteFails(c) => SetThread(s, c, Clearing(false))
    case PadsWritten(c) => SetThread(s, c, Inferring)
    case InferSucceeds(c) => SetThread(s, c, AfterInference(cfg, s.calls[c], true))
    case InferFails(c) => SetThread(s, c, AfterInference(cfg, s.calls[c], false))
    case Clear(c) =>
      SetThread(s, c, Done(s.calls[c].thread.ok, true)).(store := s.store - PadsOf(c, Pads(cfg, s.calls[c])))
    case ClearFails(c, left) =>
      SetThread(s, c, Done(false, false)).(store := s.store - PadsOf(c, Pads(cfg, s.calls[c])) + left)
    case Deliver(c) =>
      Leave(s, c, if s.calls[c].phase.Draining? then Cancelled else if s.calls[c].thread.ok then Returned else Raised)
    case Cancel(c) =>
      var call := s.calls[c].(cancels := s.calls[c].cancels + 1);
      var t := s.(calls := s.calls[c := call]);
      match call.phase {
        case Waiting =>
          var lock := s.locks[call.group];
          t.(calls := t.calls[c := call.(phase := Finished(Cancelled))],
             locks := s.locks[call.group := lock.(queue := Without(lock.queue, c))])
        case Guarding => t.(calls := t.calls[c := call.(phase := Draining)])
        case Draining =>
          // The drain awaits the task itself, so a second cancellation cancels that task: a thread
          // not yet started never runs, a running one goes on unobserved, and the lock is released.
          Leave(if call.thread.Queued? then SetThread(t, c, Done(false, true)) else t, c, Cancelled)
        case Finished(_) => t
      }
    case RollBack(c) => s.(store := s.store - s.calls[c].rows)
  }

  // ---- runs ---------------------------------------------------------------------------------

  predicate Runs(cfg: Config, s: State, es: seq<Event>)
    decreases |es|
  {
    es == [] || (Enabled(cfg, s, es[0]) && Runs(cfg, Apply(cfg, s, es[0]), es[1..]))
  }

  function Run(cfg: Config, s: State, es: seq<Event>): State
    requires Runs(cfg, s, es)
    decreases |es|
  {
    if es == [] then s else Run(cfg, Apply(cfg, s, es[0]), es[1..])
  }

  /** Nothing called yet, all locks free, any data rows in the store. */
  predicate Init(s: State)
  {
    s.calls == map[] && s.locks == map[] && forall r :: r in s.store ==> r.Data?
  }

  predicate CancelledAtMostOnce(s: State)
  {
    forall c :: c in s.calls ==> s.calls[c].cancels <= 1
  }

  /** The thread is past its start, so nothing can stop it any more. */
  predicate Running(t: Thread)
  {
    t.Padding? || t.Inferring? || t.Clearing?
  }

  /** A cancellation that hits a call while it is draining a running thread. */
  predicate CutsDrain(s: State, e: Event)
  {
    e.Cancel? && e.c in s.calls && s.calls[e.c].phase.Draining? && Running(s.calls[e.c].thread)
  }

  predicate NoDrainIsCut(cfg: Config, s: State, es: seq<Event>)
    requires Runs(cfg, s, es)
    decreases |es|
  {
    es == [] || (!CutsDrain(s, es[0]) && NoDrainIsCut(cfg, Apply(cfg, s, es[0]), es[1..]))
  }

  predicate AlwaysSafe(cfg: Config, s: State, es: seq<Event>)
    requires Runs(cfg, s, es)
    decreases |es|
  {
    Safe(s) && (es == [] || AlwaysSafe(cfg, Apply(cfg, s, es[0]), es[1..]))
  }

  // ---- what must hold -----------------------------------------------------------------------

  predicate ActiveFor(call: Call, g: Group)
  {
    Active(call.thread) && call.group == g
  }

  /** At most one worker thread per physical group. */
  predicate MutualExclusion(s: State)
  {
    forall c, d :: c in s.calls && d in s.calls && ActiveFor(s.calls[c], s.calls[d].group) && Active(s.calls[d].thread) ==> c == d
  }

  /** A call that has returned or raised has no thread at work. */
  predicate NoThreadOutlivesCall(s: State)
  {
    forall c :: c in s.calls && s.calls[c].phase.Finished? ==> !Active(s.calls[c].thread)
  }

  /** A working thread's rows are all still in the store. */
  predicate RowsPresentWhileWorking(s: State)
  {
    forall c :: c in s.calls && Active(s.calls[c].thread) ==> s.calls[c].rows <= s.store
  }

  /** Every padding row in the store belongs to a working thread, or to a cleanup that failed. */
  predicate PadsAccountedFor(s: State)
  {
    forall r :: r in s.store && r.Pad? ==>
      r.call in s.calls && (Active(s.calls[r.call].thread) || (s.calls[r.call].thread.Done? && !s.calls[r.call].thread.cleaned))
  }

  predicate Safe(s: State)
  {
    MutualExclusion(s) && NoThreadOutlivesCall(s) && RowsPresentWhileWorking(s) && PadsAccountedFor(s)
  }

  // ---- the invariant ------------------------------------------------------------------------

  /** A call in the block holds its group's lock, and only such a call has a thread at work. */
  predicate CallInv(s: State, c: CallId)
    requires c in s.calls
  {
    var call := s.calls[c];
    && (HoldsLock(call.phase) ==> call.group in s.locks && s.locks[call.group].holder == Some(c))
    && (call.phase.Waiting? ==> call.thread.NotStarted?)
    && (Active(call.thread) ==> HoldsLock(call.phase))
    && (call.phase.Guarding? ==> call.cancels == 0)
    && (call.phase.Draining? ==> call.cancels == 1)
    && (call.phase.Waiting? ==> call.cancels == 0)
    && (!call.phase.Finished? ==> call.rows <= s.store)
    && (forall r :: r in call.rows ==> r.Data?)
  }

  predicate Inv(cfg: Config, s: State)
  {
    && (forall c :: c in s.calls ==> CallInv(s, c))
    && (forall c, d :: c in s.calls && d in s.calls && c != d && !s.calls[c].phase.Finished? && !s.calls[d].phase.Finished? ==>
          s.calls[c].rows !! s.calls[d].rows)
    && (forall g :: g in s.locks && s.locks[g].holder.Some? ==>
          var c := s.locks[g].holder.value;
          c in s.calls && s.calls[c].group == g && HoldsLock(s.calls[c].phase))
    && PadInv(cfg, s)
  }

  predicate PadInv(cfg: Config, s: State)
  {
    forall r :: r in s.store && r.Pad? ==> r.call in s.calls && PadBelongs(cfg, s.calls[r.call], r.index)
  }

  /** A call at this point may have this padding row in the store. */
  predicate PadBelongs(cfg: Config, call: Call, index: nat)
  {
    && index < Pads(cfg, call)
    && match call.thread
       case Padding(n) => index < n
       case Inferring => true
       case Clearing(_) => true
       case Done(_, cleaned) => !cleaned
       case _ => false
  }

  lemma InvIsSafe(cfg: Config, s: State)
    requires Inv(cfg, s)
    ensures Safe(s)
  {
    forall c, d | c in s.calls && d in s.calls && ActiveFor(s.calls[c], s.calls[d].group) && Active(s.calls[d].thread)
      ensures c == d
    {
      assert CallInv(s, c) && CallInv(s, d);
    }
    forall c | c in s.calls && Active(s.calls[c].thread)
      ensures s.calls[c].rows <= s.store && !s.calls[c].phase.Finished?
    {
      assert CallInv(s, c);
    }
  }

  /** Every step keeps the invariant, except a second cancellation that cuts a drain short. */
  lemma StepKeepsInv(cfg: Config, s: State, e: Event)
    requires Inv(cfg, s) && Enabled(cfg, s, e) && !CutsDrain(s, e)
    ensures Inv(cfg, Apply(cfg, s, e))
  {
    match e
    case Begin(_, _, _) => BeginKeepsInv(cfg, s, e);
    case Grant(_) => GrantKeepsInv(cfg, s, e);
    case Deliver(_) => LeaveKeepsInv(cfg, s, e);
    case Cancel(c) => if s.calls[c].phase.Draining? { LeaveKeepsInv(cfg, s, e); } else { CancelKeepsInv(cfg, s, e); }
    case RollBack(_) => RollBackKeepsInv(cfg, s, e);
    case _ => ThreadKeepsInv(cfg, s, e);
  }

  lemma BeginKeepsInv(cfg: Config, s: State, e: Event)
    requires e.Begin? && Inv(cfg, s) && Enabled(cfg, s, e)
    ensures Inv(cfg, Apply(cfg, s, e))
  {
    var t := Apply(cfg, s, e);
    forall c | c in t.calls
      ensures CallInv(t, c)
    {
      if c != e.c { assert CallInv(s, c); }
    }
    assert forall r :: r in s.store && r.Pad? ==> r.call in s.calls && t.calls[r.call] == s.calls[r.call];
  }

  lemma GrantKeepsInv(cfg: Config, s: State, e: Event)
    requires e.Grant? && Inv(cfg, s) && Enabled(cfg, s, e)
    ensures Inv(cfg, Apply(cfg, s, e))
  {
    var t := Apply(cfg, s, e);
    forall c | c in t.calls
      ensures CallInv(t, c)
    {
      assert CallInv(s, c);
    }
    assert CallInv(s, e.c);
    assert forall r :: r in s.store && r.Pad? ==> r.call != e.c && t.calls[r.call] == s.calls[r.call];
  }

  /** The state after the call has left the block. */
  predicate LeftBlock(s: State, t: State, c: CallId)
    requires c in s.calls && s.calls[c].group in s.locks
  {
    var was := s.calls[c];
    && c in t.calls && t.store == s.store && t.calls == s.calls[c := t.calls[c]]
    && t.locks == s.locks[was.group := s.locks[was.group].(holder := None)]
    && t.calls[c].rows == was.rows && t.calls[c].group == was.group
    && t.calls[c].phase.Finished? && !Active(t.calls[c].thread)
    && (t.calls[c].thread == was.thread || was.thread.Queued?)
  }

  /** The call leaves the block: its result is delivered, or its drain is cancelled with no thread running. */
  lemma LeaveKeepsInv(cfg: Config, s: State, e: Event)
    requires e.Deliver? || (e.Cancel? && e.c in s.calls && s.calls[e.c].phase.Draining?)
    requires Inv(cfg, s) && Enabled(cfg, s, e) && !CutsDrain(s, e)
    ensures Inv(cfg, Apply(cfg, s, e))
  {
    assert LeftBlock(s, Apply(cfg, s, e), e.c);
    assert HoldsLock(s.calls[e.c].phase);
    LeftBlockKeepsInv(cfg, s, Apply(cfg, s, e), e.c);
  }

  lemma LeftBlockKeepsInv(cfg: Config, s: State, t: State, c: CallId)
    requires Inv(cfg, s) && c in s.calls && s.calls[c].group in s.locks && HoldsLock(s.calls[c].phase)
    requires LeftBlock(s, t, c)
    ensures Inv(cfg, t)
  {
    assert CallInv(s, c);
    OthersKeepInv(cfg, s, t, c);
    assert PadInv(cfg, t) by {
      assert Pads(cfg, t.calls[c]) == Pads(cfg, s.calls[c]);
    }
  }

  lemma OthersKeepInv(cfg: Config, s: State, t: State, c: CallId)
    requires (forall d :: d in s.calls ==> CallInv(s, d)) && c in s.calls
    requires t.store == s.store && t.calls.Keys == s.calls.Keys
    requires forall d :: d in s.calls && d != c ==> t.calls[d] == s.calls[d]
    requires forall g :: g in s.locks && g != s.calls[c].group ==> g in t.locks && t.locks[g] == s.locks[g]
    requires HoldsLock(s.calls[c].phase)
    ensures forall d :: d in t.calls && d != c ==> CallInv(t, d)
  {
    forall d | d in t.calls && d != c
      ensures CallInv(t, d)
    {
      assert CallInv(s, d) && CallInv(s, c);
    }
  }

  /** The call starts draining, or leaves the lock's queue. */
  lemma CancelKeepsInv(cfg: Config, s: State, e: Event)
    requires e.Cancel? && e.c in s.calls && !s.calls[e.c].phase.Draining?
    requires Inv(cfg, s) && Enabled(cfg, s, e)
    ensures Inv(cfg, Apply(cfg, s, e))
  {
    var t := Apply(cfg, s, e);
    assert CallInv(s, e.c);
    forall c | c in t.calls
      ensures CallInv(t, c)
    {
      assert CallInv(s, c);
    }
    assert PadInv(cfg, t) by {
      assert t.calls[e.c].thread == s.calls[e.c].thread && Pads(cfg, t.calls[e.c]) == Pads(cfg, s.calls[e.c]);
    }
  }

  lemma RollBackKeepsInv(cfg: Config, s: State, e: Event)
    requires e.RollBack? && Inv(cfg, s) && Enabled(cfg, s, e)
    ensures Inv(cfg, Apply(cfg, s, e))
  {
    var t := Apply(cfg, s, e);
    forall c | c in t.calls
      ensures CallInv(t, c)
    {
      assert CallInv(s, c);
    }
  }

  predicate IsThreadStep(e: Event)
  {
    !e.Begin? && !e.Grant? && !e.Deliver? && !e.Cancel? && !e.RollBack?
  }

  lemma ThreadKeepsInv(cfg: Config, s: State, e: Event)
    requires IsThreadStep(e) && Inv(cfg, s) && Enabled(cfg, s, e)
    ensures Inv(cfg, Apply(cfg, s, e))
  {
    var t := Apply(cfg, s, e);
    ThreadKeepsCalls(cfg, s, e);
    ThreadKeepsPads(cfg, s, e);
  }

  /** Only the thread of `c` and padding rows differ; a thread that was not at work is not now. */
  predicate ThreadMoved(s: State, t: State, c: CallId)
  {
    && c in s.calls && c in t.calls && t.locks == s.locks
    && t.calls == s.calls[c := s.calls[c].(thread := t.calls[c].thread)]
    && !s.calls[c].thread.NotStarted? && (Active(t.calls[c].thread) ==> Active(s.calls[c].thread))
    && (forall r :: r in s.store && r.Data? ==> r in t.store)
  }

  lemma ThreadStepMoves(cfg: Config, s: State, e: Event)
    requires IsThreadStep(e) && Enabled(cfg, s, e)
    ensures ThreadMoved(s, Apply(cfg, s, e), e.c)
  {
    hide Pads, ResolveTeacher, Without;
  }

  lemma ThreadMovedKeepsCalls(s: State, t: State, c: CallId)
    requires ThreadMoved(s, t, c) && forall d :: d in s.calls ==> CallInv(s, d)
    ensures forall d :: d in t.calls ==> CallInv(t, d)
  {
    forall d | d in t.calls
      ensures CallInv(t, d)
    {
      assert CallInv(s, d);
    }
  }

  lemma ThreadKeepsCalls(cfg: Config, s: State, e: Event)
    requires IsThreadStep(e) && Inv(cfg, s) && Enabled(cfg, s, e)
    ensures var t := Apply(cfg, s, e);
            && t.locks == s.locks && t.calls.Keys == s.calls.Keys
            && (forall c :: c in t.calls ==> t.calls[c].(thread := s.calls[c].thread) == s.calls[c])
            && (forall c :: c in t.calls && c != e.c ==> t.calls[c] == s.calls[c])
            && (forall c :: c in t.calls ==> CallInv(t, c))
  {
    ThreadStepMoves(cfg, s, e);
    hide Apply, Enabled;
    ThreadMovedKeepsCalls(s, Apply(cfg, s, e), e.c);
  }

  lemma ThreadKeepsPads(cfg: Config, s: State, e: Event)
    requires IsThreadStep(e) && Inv(cfg, s) && Enabled(cfg, s, e)
    ensures PadInv(cfg, Apply(cfg, s, e))
  {
    var t := Apply(cfg, s, e);
    ThreadKeepsCalls(cfg, s, e);
    forall r | r in t.store && r.Pad?
      ensures r.call in t.calls && PadBelongs(cfg, t.calls[r.call], r.index)
    {
      if r.call == e.c { OwnPads(cfg, s, e, r.index); } else { OtherPads(cfg, s, e, r); }
    }
  }

  lemma OwnPads(cfg: Config, s: State, e: Event, i: nat)
    requires IsThreadStep(e) && PadInv(cfg, s) && Enabled(cfg, s, e)
    requires Pad(e.c, i) in Apply(cfg, s, e).store
    ensures e.c in Apply(cfg, s, e).calls && PadBelongs(cfg, Apply(cfg, s, e).calls[e.c], i)
  {
    var t := Apply(cfg, s, e);
    assert Pads(cfg, t.calls[e.c]) == Pads(cfg, s.calls[e.c]);
    assert Pad(e.c, i) in s.store ==> PadBelongs(cfg, s.calls[e.c], i);
  }

  lemma OtherPads(cfg: Config, s: State, e: Event, r: RowId)
    requires IsThreadStep(e) && Enabled(cfg, s, e)
    requires r in Apply(cfg, s, e).store && r.Pad? && r.call != e.c
    ensures r in s.store
  {
  }

  lemma {:induction false} CancelsOnlyGrow(cfg: Config, s: State, es: seq<Event>)
    requires Runs(cfg, s, es) && CancelledAtMostOnce(Run(cfg, s, es))
    ensures CancelledAtMostOnce(s)
    decreases |es|
  {
    if es != [] {
      var t := Apply(cfg, s, es[0]);
      CancelsOnlyGrow(cfg, t, es[1..]);
      assert forall c :: c in s.calls ==> c in t.calls && s.calls[c].cancels <= t.calls[c].cancels;
    }
  }

  /** From any state of a good run, the rest of the run is safe exactly when it cuts no drain. */
  lemma {:induction false} RunSafeIff(cfg: Config, s: State, es: seq<Event>)
    requires Inv(cfg, s) && Runs(cfg, s, es)
    ensures AlwaysSafe(cfg, s, es) <==> NoDrainIsCut(cfg, s, es)
    decreases |es|
  {
    InvIsSafe(cfg, s);
    if es != [] {
      var t := Apply(cfg, s, es[0]);
      if CutsDrain(s, es[0]) {
        assert t.calls[es[0].c].phase.Finished? && Active(t.calls[es[0].c].thread);
        assert !NoThreadOutlivesCall(t);
      } else {
        StepKeepsInv(cfg, s, es[0]);
        RunSafeIff(cfg, t, es[1..]);
      }
    }
  }

  /** Over every interleaving: the protocol is safe throughout if and only if no drain is cut short. */
  lemma SafeIffNoDrainIsCut(cfg: Config, s: State, es: seq<Event>)
    requires Init(s) && Runs(cfg, s, es)
    ensures AlwaysSafe(cfg, s, es) <==> NoDrainIsCut(cfg, s, es)
  {
    RunSafeIff(cfg, s, es);
  }

  lemma CutIsSecondCancel(cfg: Config, s: State, e: Event)
    requires Inv(cfg, s) && Enabled(cfg, s, e) && CutsDrain(s, e)
    ensures !CancelledAtMostOnce(Apply(cfg, s, e))
  {
    assert CallInv(s, e.c);
    assert Apply(cfg, s, e).calls[e.c].cancels == 2;
  }

  lemma {:induction false} OneCancelCutsNoDrain(cfg: Config, s: State, es: seq<Event>)
    requires Inv(cfg, s) && Runs(cfg, s, es) && CancelledAtMostOnce(Run(cfg, s, es))
    ensures NoDrainIsCut(cfg, s, es)
    decreases |es|
  {
    if es != [] {
      var t := Apply(cfg, s, es[0]);
      CancelsOnlyGrow(cfg, t, es[1..]);
      if CutsDrain(s, es[0]) {
        CutIsSecondCancel(cfg, s, es[0]);
      } else {
        StepKeepsInv(cfg, s, es[0]);
        OneCancelCutsNoDrain(cfg, t, es[1..]);
      }
    }
  }

  /** In particular it is safe whenever no call is cancelled twice. */
  lemma AtMostOneCancelIsSafe(cfg: Config, s: State, es: seq<Event>)
    requires Init(s) && Runs(cfg, s, es) && CancelledAtMostOnce(Run(cfg, s, es))
    ensures AlwaysSafe(cfg, s, es)
  {
    OneCancelCutsNoDrain(cfg, s, es);
    RunSafeIff(cfg, s, es);
  }

  // ---- progress -------------------------------------------------------------------------------

  predicate NoRepeats(q: seq<CallId>)
  {
    forall i, j :: 0 <= i < j < |q| ==> q[i] != q[j]
  }

  /** A waiting call is queued once at its group's lock, and nothing else is queued. */
  predicate QueueInv(s: State)
  {
    && (forall c :: c in s.calls && s.calls[c].phase.Waiting? ==>
          s.calls[c].group in s.locks && c in s.locks[s.calls[c].group].queue)
    && (forall g :: g in s.locks ==> NoRepeats(s.locks[g].queue))
    && (forall g :: g in s.locks ==> AllWaiting(s, g, s.locks[g].queue))
  }

  predicate AllWaiting(s: State, g: Group, q: seq<CallId>)
  {
    forall c :: c in q ==> c in s.calls && s.calls[c].phase.Waiting? && s.calls[c].group == g
  }

  /** A call in the block has a thread, and a padding thread has written no more rows than it needs. */
  predicate ThreadInv(cfg: Config, s: State)
  {
    forall c :: c in s.calls ==> ThreadFits(cfg, s.calls[c])
  }

  predicate ThreadFits(cfg: Config, call: Call)
  {
    && (HoldsLock(call.phase) ==> !call.thread.NotStarted?)
    && (call.thread.Padding? ==> call.thread.written <= Pads(cfg, call))
  }

  lemma {:induction false} WithoutKeepsOthers(q: seq<CallId>, c: CallId)
    ensures forall d :: d in Without(q, c) <==> d in q && d != c
    ensures NoRepeats(q) ==> NoRepeats(Without(q, c))
  {
    if q != [] {
      var rest := q[1..];
      WithoutKeepsOthers(rest, c);
      assert q == [q[0]] + rest;
      if NoRepeats(q) {
        assert NoRepeats(rest) && q[0] !in rest;
        var w := Without(rest, c);
        assert NoRepeats([q[0]] + w) && [] + w == w;
      }
    }
  }

  lemma JoiningKeepsQueues(s: State, t: State, c: CallId, g: Group)
    requires QueueInv(s) && c !in s.calls && c in t.calls
    requires t.calls == s.calls[c := t.calls[c]] && t.calls[c].phase.Waiting? && t.calls[c].group == g
    requires var lock := if g in s.locks then s.locks[g] else Lock(None, []);
      t.locks == s.locks[g := lock.(queue := lock.queue + [c])]
    ensures QueueInv(t)
  {
    assert forall h :: h in s.locks ==> AllWaiting(s, h, s.locks[h].queue) && c !in s.locks[h].queue;
  }

  lemma BeginKeepsQueues(cfg: Config, s: State, e: Event)
    requires e.Begin? && QueueInv(s) && Enabled(cfg, s, e)
    ensures QueueInv(Apply(cfg, s, e))
  {
    match ResolveTeacher(cfg, e.agent)
    case Err(_) =>
      assert forall g :: g in s.locks ==> AllWaiting(s, g, s.locks[g].queue);
    case Ok(g) =>
      hide QueueInv;
      JoiningKeepsQueues(s, Apply(cfg, s, e), e.c, g);
  }

  lemma GrantKeepsQueues(cfg: Config, s: State, e: Event)
    requires e.Grant? && QueueInv(s) && Enabled(cfg, s, e)
    ensures QueueInv(Apply(cfg, s, e))
  {
    var t := Apply(cfg, s, e);
    TakingKeepsQueues(s, t, e.c);
  }

  lemma TakingKeepsQueues(s: State, t: State, c: CallId)
    requires QueueInv(s) && c in s.calls && c in t.calls && !t.calls[c].phase.Waiting?
    requires var g := s.calls[c].group;
      && g in s.locks && s.locks[g].queue != [] && s.locks[g].queue[0] == c
      && t.locks == s.locks[g := Lock(Some(c), s.locks[g].queue[1..])]
    requires t.calls == s.calls[c := t.calls[c]]
    ensures QueueInv(t)
  {
    var q := s.locks[s.calls[c].group].queue;
    assert q == [q[0]] + q[1..];
    assert forall g :: g in s.locks ==> AllWaiting(s, g, s.locks[g].queue);
    assert c !in q[1..];
  }

  lemma SameQueues(s: State, t: State)
    requires QueueInv(s) && t.calls.Keys == s.calls.Keys && t.locks.Keys == s.locks.Keys
    requires forall g :: g in s.locks ==> t.locks[g].queue == s.locks[g].queue
    requires forall c :: c in s.calls ==>
      t.calls[c].group == s.calls[c].group && (t.calls[c].phase.Waiting? <==> s.calls[c].phase.Waiting?)
    ensures QueueInv(t)
  {
    assert forall g :: g in s.locks ==> AllWaiting(s, g, s.locks[g].queue);
  }

  lemma LeavingKeepsQueues(s: State, t: State, c: CallId)
    requires QueueInv(s) && c in s.calls && s.calls[c].group in s.locks && c in t.calls && !t.calls[c].phase.Waiting?
    requires t.calls == s.calls[c := t.calls[c]]
    requires var g := s.calls[c].group;
      t.locks == s.locks[g := s.locks[g].(queue := Without(s.locks[g].queue, c))]
    ensures QueueInv(t)
  {
    WithoutKeepsOthers(s.locks[s.calls[c].group].queue, c);
    hide Without, NoRepeats;
    forall g | g in t.locks
      ensures AllWaiting(t, g, t.locks[g].queue)
    {
      assert AllWaiting(s, g, s.locks[g].queue);
    }
  }

  lemma CancelKeepsQueues(cfg: Config, s: State, e: Event)
    requires e.Cancel? && QueueInv(s) && Enabled(cfg, s, e)
    ensures QueueInv(Apply(cfg, s, e))
  {
    hide QueueInv, Without;
    if s.calls[e.c].phase.Waiting? {
      LeavingKeepsQueues(s, Apply(cfg, s, e), e.c);
    } else {
      SameQueues(s, Apply(cfg, s, e));
    }
  }

  lemma OthersKeepQueues(cfg: Config, s: State, e: Event)
    requires !e.Begin? && !e.Grant? && !e.Cancel? && QueueInv(s) && Enabled(cfg, s, e)
    ensures QueueInv(Apply(cfg, s, e))
  {
    hide QueueInv, Pads, PadsOf;
    if IsThreadStep(e) {
      ThreadStepMoves(cfg, s, e);
      ThreadMovedKeepsQueues(s, Apply(cfg, s, e), e.c);
    } else {
      SameQueues(s, Apply(cfg, s, e));
    }
  }

  lemma ThreadMovedKeepsQueues(s: State, t: State, c: CallId)
    requires ThreadMoved(s, t, c) && QueueInv(s)
    ensures QueueInv(t)
  {
    hide QueueInv;
    SameQueues(s, t);
  }

  lemma StepKeepsThreads(cfg: Config, s: State, e: Event)
    requires ThreadInv(cfg, s) && Enabled(cfg, s, e)
    ensures ThreadInv(cfg, Apply(cfg, s, e))
  {
    var t := Apply(cfg, s, e);
    assert forall c :: c in t.calls && c != e.c ==> c in s.calls && t.calls[c] == s.calls[c];
    OwnThreadFits(cfg, s, e);
  }

  lemma OwnThreadFits(cfg: Config, s: State, e: Event)
    requires Enabled(cfg, s, e) && (e.c in s.calls ==> ThreadFits(cfg, s.calls[e.c]))
    ensures e.c in Apply(cfg, s, e).calls && ThreadFits(cfg, Apply(cfg, s, e).calls[e.c])
  {
    var t := Apply(cfg, s, e);
    assert e.c in s.calls ==> Pads(cfg, t.calls[e.c]) == Pads(cfg, s.calls[e.c]);
    hide PadsOf, ResolveTeacher, Without;
  }

  /** A step by a call or its thread, rather than by whoever calls or cancels it. */
  predicate IsOwnStep(e: Event)
  {
    !e.Begin? && !e.Cancel? && !e.RollBack?
  }

  /** Some thread or task can always take a step of its own while any call is unfinished. */
  lemma NoDeadlock(cfg: Config, s: State, c: CallId) returns (e: Event)
    requires Inv(cfg, s) && QueueInv(s) && ThreadInv(cfg, s)
    requires c in s.calls && !s.calls[c].phase.Finished?
    ensures IsOwnStep(e) && Enabled(cfg, s, e)
  {
    if s.calls[c].phase.Waiting? {
      var lock := s.locks[s.calls[c].group];
      assert AllWaiting(s, s.calls[c].group, lock.queue);
      if lock.holder.None? {
        e := Grant(lock.queue[0]);
        assert lock.queue[0] in lock.queue;
      } else {
        e := NextOwnStep(cfg, s, lock.holder.value);
      }
    } else {
      e := NextOwnStep(cfg, s, c);
    }
  }

  lemma NextOwnStep(cfg: Config, s: State, c: CallId) returns (e: Event)
    requires Inv(cfg, s) && ThreadInv(cfg, s) && c in s.calls && HoldsLock(s.calls[c].phase)
    ensures IsOwnStep(e) && Enabled(cfg, s, e)
  {
    assert CallInv(s, c);
    match s.calls[c].thread
    case Queued => e := Start(c);
    case Padding(n) => e := if n < Pads(cfg, s.calls[c]) then WritePad(c) else PadsWritten(c);
    case Inferring => e := InferSucceeds(c);
    case Clearing(_) => e := Clear(c);
    case Done(_, _) => e := Deliver(c);
  }

  /** How many steps of its own a call has left at most. */
  function Work(cfg: Config, call: Call): nat
  {
    match call.phase
    case Finished(_) => 0
    case _ =>
      match call.thread
      case NotStarted => Pads(cfg, call) + 7
      case Queued => Pads(cfg, call) + 6
      case Padding(n) => (if n <= Pads(cfg, call) then Pads(cfg, call) - n else 0) + 4
      case Inferring => 3
      case Clearing(_) => 2
      case Done(_, _) => 1
  }

  /** Every step of its own brings a call closer to its end and leaves the other calls where they are. */
  lemma OwnStepsMakeProgress(cfg: Config, s: State, e: Event)
    requires Inv(cfg, s) && ThreadInv(cfg, s) && IsOwnStep(e) && Enabled(cfg, s, e)
    ensures var t := Apply(cfg, s, e);
      && Work(cfg, t.calls[e.c]) < Work(cfg, s.calls[e.c])
      && forall d :: d in s.calls && d != e.c ==> d in t.calls && t.calls[d] == s.calls[d]
  {
    assert CallInv(s, e.c) && ThreadFits(cfg, s.calls[e.c]);
    hide Inv, ThreadInv;
    if IsThreadStep(e) {
      ThreadStepsMakeProgress(cfg, s, e);
    } else {
      LockStepsMakeProgress(cfg, s, e);
    }
  }

  lemma ThreadStepsMakeProgress(cfg: Config, s: State, e: Event)
    requires IsThreadStep(e) && Enabled(cfg, s, e) && CallInv(s, e.c) && ThreadFits(cfg, s.calls[e.c])
    ensures var t := Apply(cfg, s, e);
      && Work(cfg, t.calls[e.c]) < Work(cfg, s.calls[e.c])
      && forall d :: d in s.calls && d != e.c ==> d in t.calls && t.calls[d] == s.calls[d]
  {
    var t := Apply(cfg, s, e);
    assert Pads(cfg, t.calls[e.c]) == Pads(cfg, s.calls[e.c]);
    hide PadsOf, ResolveTeacher, Without, Pads;
  }

  lemma LockStepsMakeProgress(cfg: Config, s: State, e: Event)
    requires (e.Grant? || e.Deliver?) && Enabled(cfg, s, e) && CallInv(s, e.c)
    ensures var t := Apply(cfg, s, e);
      && Work(cfg, t.calls[e.c]) < Work(cfg, s.calls[e.c])
      && forall d :: d in s.calls && d != e.c ==> d in t.calls && t.calls[d] == s.calls[d]
  {
    var t := Apply(cfg, s, e);
    assert Pads(cfg, t.calls[e.c]) == Pads(cfg, s.calls[e.c]);
    hide PadsOf, ResolveTeacher, Without, Pads;
  }

  /** All three invariants hold throughout every run that cuts no drain. */
  lemma {:induction false} RunKeepsProgress(cfg: Config, s: State, es: seq<Event>)
    requires Inv(cfg, s) && QueueInv(s) && ThreadInv(cfg, s) && Runs(cfg, s, es) && NoDrainIsCut(cfg, s, es)
    ensures var t := Run(cfg, s, es); Inv(cfg, t) && QueueInv(t) && ThreadInv(cfg, t)
    decreases |es|
  {
    if es != [] {
      var e := es[0];
      StepKeepsInv(cfg, s, e);
      StepKeepsThreads(cfg, s, e);
      match e {
        case Begin(_, _, _) => BeginKeepsQueues(cfg, s, e);
        case Grant(_) => GrantKeepsQueues(cfg, s, e);
        case Cancel(_) => CancelKeepsQueues(cfg, s, e);
        case _ => OthersKeepQueues(cfg, s, e);
      }
      hide Inv, QueueInv, ThreadInv, Enabled, Apply;
      RunKeepsProgress(cfg, Apply(cfg, s, e), es[1..]);
    }
  }

  /** After any run that cuts no drain, an unfinished call means that some step towards its end is possible. */
  lemma RunsNeverDeadlock(cfg: Config, s: State, es: seq<Event>, c: CallId) returns (e: Event)
    requires Init(s) && Runs(cfg, s, es) && NoDrainIsCut(cfg, s, es)
    requires c in Run(cfg, s, es).calls && !Run(cfg, s, es).calls[c].phase.Finished?
    ensures var t := Run(cfg, s, es);
      && IsOwnStep(e) && Enabled(cfg, t, e) && e.c in t.calls && e.c in Apply(cfg, t, e).calls
      && Work(cfg, Apply(cfg, t, e).calls[e.c]) < Work(cfg, t.calls[e.c])
  {
    RunKeepsProgress(cfg, s, es);
    var t := Run(cfg, s, es);
    e := NoDeadlock(cfg, t, c);
    OwnStepsMakeProgress(cfg, t, e);
  }

  // ---- what an inference is run on ----------------------------------------------------------------

  /** A thread past its checks has the padding rows it has written so far, and all of them once it runs the inference. */
  predicate IsPadded(cfg: Config, c: CallId, call: Call, store: set<RowId>)
  {
    && (forall r :: r in call.rows ==> r.Data?)
    && (call.thread.Padding? || call.thread.Inferring? ==>
          call.rows != {} && call.group in cfg.dpSize && cfg.dpSize[call.group] > 0)
    && (call.thread.Padding? ==> forall i: nat :: i < call.thread.written ==> Pad(c, i) in store)
    && (call.thread.Inferring? ==> forall i: nat :: i < Pads(cfg, call) ==> Pad(c, i) in store)
  }

  predicate AllPadded(cfg: Config, s: State)
  {
    forall c :: c in s.calls ==> IsPadded(cfg, c, s.calls[c], s.store)
  }

  lemma OwnStepKeepsPadded(cfg: Config, s: State, e: Event)
    requires Enabled(cfg, s, e) && (e.c in s.calls ==> IsPadded(cfg, e.c, s.calls[e.c], s.store))
    ensures var t := Apply(cfg, s, e); e.c in t.calls && IsPadded(cfg, e.c, t.calls[e.c], t.store)
  {
    CalledBefore(cfg, s, e);
    if e.Begin? {
      hide Pads, PadsOf;
    } else if IsThreadStep(e) {
      ThreadKeepsPadded(cfg, s, e);
    } else {
      TaskStepMoves(cfg, s, e);
      hide ResolveTeacher, Without, PadsOf;
    }
  }

  lemma ThreadKeepsPadded(cfg: Config, s: State, e: Event)
    requires IsThreadStep(e) && Enabled(cfg, s, e) && e.c in s.calls && IsPadded(cfg, e.c, s.calls[e.c], s.store)
    ensures var t := Apply(cfg, s, e); e.c in t.calls && IsPadded(cfg, e.c, t.calls[e.c], t.store)
  {
    var t := Apply(cfg, s, e);
    assert t.calls[e.c].rows == s.calls[e.c].rows && Pads(cfg, t.calls[e.c]) == Pads(cfg, s.calls[e.c]);
    hide Pads, PadsOf, ResolveTeacher;
    ThreadStepLeads(cfg, s, e);
  }

  /** Padding rows of other calls stay. */
  lemma StepKeepsOtherPads(cfg: Config, s: State, e: Event, c: CallId, i: nat)
    requires Enabled(cfg, s, e) && c != e.c && Pad(c, i) in s.store
    requires e.c in s.calls ==> forall r :: r in s.calls[e.c].rows ==> r.Data?
    ensures Pad(c, i) in Apply(cfg, s, e).store
  {
    hide ResolveTeacher, Without, Pads;
  }

  lemma StepKeepsPadded(cfg: Config, s: State, e: Event)
    requires AllPadded(cfg, s) && Enabled(cfg, s, e)
    ensures AllPadded(cfg, Apply(cfg, s, e))
  {
    var t := Apply(cfg, s, e);
    OthersUntouched(cfg, s, e);
    OwnStepKeepsPadded(cfg, s, e);
    forall c, i: nat | c in s.calls && c != e.c && Pad(c, i) in s.store
      ensures Pad(c, i) in t.store
    {
      StepKeepsOtherPads(cfg, s, e, c, i);
    }
    hide Apply, Enabled, Pads;
  }

  lemma {:induction false} RunKeepsPadded(cfg: Config, s: State, es: seq<Event>)
    requires AllPadded(cfg, s) && Runs(cfg, s, es)
    ensures AllPadded(cfg, Run(cfg, s, es))
    decreases |es|
  {
    if es != [] {
      StepKeepsPadded(cfg, s, es[0]);
      hide AllPadded, Apply, Enabled;
      RunKeepsPadded(cfg, Apply(cfg, s, es[0]), es[1..]);
    }
  }

  /**
   Over every interleaving, cancelled or not: while an inference runs, the store holds enough padding rows of its own call
   that the batch and they divide evenly among the workers, and not one row more than needed for that.
   */
  lemma InferenceIsPadded(cfg: Config, s: State, es: seq<Event>, c: CallId) returns (n: nat)
    requires Init(s) && Runs(cfg, s, es) && c in Run(cfg, s, es).calls && Run(cfg, s, es).calls[c].thread.Inferring?
    ensures var t := Run(cfg, s, es); var call := t.calls[c];
      && call.rows != {} && call.group in cfg.dpSize
      && n < cfg.dpSize[call.group] && (|call.rows| + n) % cfg.dpSize[call.group] == 0
      && forall i: nat :: i < n ==> Pad(c, i) in t.store
  {
    RunKeepsPadded(cfg, s, es);
    hide Run, Runs;
    assert IsPadded(cfg, c, Run(cfg, s, es).calls[c], Run(cfg, s, es).store);
    n := Pads(cfg, Run(cfg, s, es).calls[c]);
  }

  // ---- how calls end ----------------------------------------------------------------------------

  /** No physical teacher serves the agent the call was made for. */
  ghost predicate RoutingFails(cfg: Config, es: seq<Event>, c: CallId)
  {
    exists e :: e in es && e.Begin? && e.c == c && ResolveTeacher(cfg, e.agent).Err?
  }

  /** The thread started on an empty batch, or for a group without workers. */
  ghost predicate CheckFails(cfg: Config, es: seq<Event>, c: CallId)
  {
    Start(c) in es && HasBadBatch(cfg, es, c)
  }

  ghost predicate HasBadBatch(cfg: Config, es: seq<Event>, c: CallId)
  {
    exists e :: e in es && e.Begin? && e.c == c && IsBadBatch(cfg, e.agent, e.rows)
  }

  predicate IsBadBatch(cfg: Config, agent: Option<string>, rows: set<RowId>)
  {
    ResolveTeacher(cfg, agent).Ok? && (rows == {} || cfg.dpSize[ResolveTeacher(cfg, agent).value] <= 0)
  }

  ghost predicate CleanupFails(es: seq<Event>, c: CallId)
  {
    exists e :: e in es && e.ClearFails? && e.c == c
  }

  /** A check, a read, a write, the inference or the cleanup of the call failed. */
  ghost predicate WorkFails(cfg: Config, es: seq<Event>, c: CallId)
  {
    CheckFails(cfg, es, c) || ReadFails(c) in es || PadWriteFails(c) in es || InferFails(c) in es || CleanupFails(es, c)
  }

  /** Where the thread of a call that nobody has cancelled is, given what has happened. */
  ghost predicate ThreadFollows(cfg: Config, es: seq<Event>, c: CallId, t: Thread)
  {
    match t
    case NotStarted => Start(c) !in es && InferSucceeds(c) !in es && !WorkFails(cfg, es, c)
    case Queued => Start(c) !in es && InferSucceeds(c) !in es && !WorkFails(cfg, es, c)
    case Padding(_) => InferSucceeds(c) !in es && !WorkFails(cfg, es, c)
    case Inferring => InferSucceeds(c) !in es && !WorkFails(cfg, es, c)
    case Clearing(ok) => !CleanupFails(es, c) && (ok <==> InferSucceeds(c) in es) && (ok <==> !WorkFails(cfg, es, c))
    case Done(ok, _) => (ok <==> InferSucceeds(c) in es && !CleanupFails(es, c)) && (ok <==> !WorkFails(cfg, es, c))
  }

  /** The call was begun, once, with its rows, for an agent of its group. */
  ghost predicate BegunAs(cfg: Config, es: seq<Event>, c: CallId, call: Call)
  {
    && (exists e :: e in es && e.Begin? && e.c == c)
    && forall e :: e in es && e.Begin? && e.c == c ==>
         && e.rows == call.rows && (ResolveTeacher(cfg, e.agent).Err? <==> call.phase == Finished(Rejected))
         && (ResolveTeacher(cfg, e.agent).Ok? ==> ResolveTeacher(cfg, e.agent).value == call.group)
  }

  /** Where the call's task is, given what has happened. */
  ghost predicate PhaseFollows(es: seq<Event>, c: CallId, call: Call)
  {
    && (Cancel(c) in es <==> call.phase.Draining? || call.phase == Finished(Cancelled))
    && (call.phase.Waiting? || call.phase == Finished(Rejected) ==> call.thread.NotStarted?)
    && (call.phase == Finished(Returned) ==> call.thread.Done? && call.thread.ok)
    && (call.phase == Finished(Raised) ==> call.thread.Done? && !call.thread.ok)
  }

  ghost predicate CallFollows(cfg: Config, es: seq<Event>, c: CallId, call: Call)
  {
    BegunAs(cfg, es, c, call) && PhaseFollows(es, c, call) && (Cancel(c) !in es ==> ThreadFollows(cfg, es, c, call.thread))
  }

  ghost predicate Unmentioned(es: seq<Event>, c: CallId)
  {
    forall e :: e in es ==> e.c != c
  }

  /** The state is what the events so far have made of it. */
  ghost predicate Follows(cfg: Config, es: seq<Event>, s: State)
  {
    forall c: CallId :: if c in s.calls then CallFollows(cfg, es, c, s.calls[c]) else Unmentioned(es, c)
  }

  /** What one more event adds. */
  lemma OneMoreEvent(cfg: Config, es: seq<Event>, e: Event, c: CallId)
    requires !e.Begin? && e.c == c
    ensures forall x: Event :: x in es + [e] <==> x in es || x == e
    ensures CleanupFails(es + [e], c) <==> CleanupFails(es, c) || e.ClearFails?
    ensures WorkFails(cfg, es + [e], c) <==>
      WorkFails(cfg, es, c) || e.ReadFails? || e.PadWriteFails? || e.InferFails? || e.ClearFails?
      || (e.Start? && HasBadBatch(cfg, es, c))
    ensures forall call :: BegunAs(cfg, es, c, call) ==> BegunAs(cfg, es + [e], c, call)
  {
    assert forall x: Event :: x in es + [e] <==> x in es || x == e;
    assert HasBadBatch(cfg, es + [e], c) <==> HasBadBatch(cfg, es, c) by { hide IsBadBatch; }
    hide IsBadBatch, HasBadBatch, ResolveTeacher;
  }

  /** Whether the batch is bad is what the thread checks. */
  lemma BadBatchIsChecked(cfg: Config, es: seq<Event>, c: CallId, call: Call)
    requires BegunAs(cfg, es, c, call) && call.phase != Finished(Rejected)
    ensures call.group in cfg.dpSize
    ensures HasBadBatch(cfg, es, c) <==> call.rows == {} || cfg.dpSize[call.group] <= 0
  {
    var e :| e in es && e.Begin? && e.c == c;
    assert IsBadBatch(cfg, e.agent, e.rows) <==> call.rows == {} || cfg.dpSize[call.group] <= 0;
  }

  lemma SameEvents(cfg: Config, es: seq<Event>, e: Event, c: CallId, call: Call)
    requires e.c != c
    ensures CallFollows(cfg, es + [e], c, call) <==> CallFollows(cfg, es, c, call)
    ensures Unmentioned(es + [e], c) <==> Unmentioned(es, c)
  {
    assert forall x :: x in es + [e] <==> x in es || x == e;
    hide ResolveTeacher, IsBadBatch;
    SameWork(cfg, es, e, c);
    assert BegunAs(cfg, es + [e], c, call) <==> BegunAs(cfg, es, c, call);
    assert PhaseFollows(es + [e], c, call) <==> PhaseFollows(es, c, call) by { hide BegunAs, WorkFails, CleanupFails; }
    hide WorkFails, CleanupFails, BegunAs, PhaseFollows;
  }

  lemma SameWork(cfg: Config, es: seq<Event>, e: Event, c: CallId)
    requires e.c != c
    ensures WorkFails(cfg, es + [e], c) <==> WorkFails(cfg, es, c)
    ensures CleanupFails(es + [e], c) <==> CleanupFails(es, c)
  {
    assert forall x :: x in es + [e] <==> x in es || x == e;
    hide IsBadBatch;
  }

  lemma BeginFollows(cfg: Config, es: seq<Event>, s: State, e: Event)
    requires e.Begin? && Enabled(cfg, s, e) && Unmentioned(es, e.c)
    ensures e.c in Apply(cfg, s, e).calls && CallFollows(cfg, es + [e], e.c, Apply(cfg, s, e).calls[e.c])
  {
    assert forall x :: x in es + [e] <==> x in es || x == e;
    hide ResolveTeacher;
  }

  lemma TaskFollows(cfg: Config, es: seq<Event>, s: State, e: Event)
    requires (e.Grant? || e.Deliver? || e.Cancel? || e.RollBack?) && Enabled(cfg, s, e)
    requires e.c in s.calls && CallFollows(cfg, es, e.c, s.calls[e.c])
    ensures e.c in Apply(cfg, s, e).calls && CallFollows(cfg, es + [e], e.c, Apply(cfg, s, e).calls[e.c])
  {
    hide Apply, Enabled, BegunAs, PhaseFollows, ThreadFollows;
    TaskStepMoves(cfg, s, e);
    var was, now := s.calls[e.c], Apply(cfg, s, e).calls[e.c];
    TaskPhaseFollows(es, e, was, now);
    StillBegun(cfg, es, e, was, now);
    if Cancel(e.c) !in es + [e] {
      assert Cancel(e.c) !in es && !e.Cancel? by { assert e in es + [e] && forall x :: x in es ==> x in es + [e]; }
      SameThreadFollows(cfg, es, e, was.thread, now.thread);
    }
  }

  lemma StillBegun(cfg: Config, es: seq<Event>, e: Event, was: Call, now: Call)
    requires !e.Begin? && BegunAs(cfg, es, e.c, was) && now.rows == was.rows && now.group == was.group
    requires now.phase == Finished(Rejected) <==> was.phase == Finished(Rejected)
    ensures BegunAs(cfg, es + [e], e.c, now)
  {
    OneMoreEvent(cfg, es, e, e.c);
    hide ResolveTeacher;
    assert BegunAs(cfg, es + [e], e.c, was);
  }

  lemma TaskPhaseFollows(es: seq<Event>, e: Event, was: Call, now: Call)
    requires PhaseFollows(es, e.c, was) && (e.Grant? || e.Deliver? || e.Cancel? || e.RollBack?)
    requires e.Grant? ==> was.phase.Waiting? && now.phase.Guarding? && now.thread.Queued?
    requires e.Deliver? ==>
      && now.thread == was.thread && was.thread.Done? && HoldsLock(was.phase)
      && now.phase == Finished(if was.phase.Draining? then Cancelled else if was.thread.ok then Returned else Raised)
    requires e.Cancel? ==> !was.phase.Finished? && (now.phase.Draining? || now.phase == Finished(Cancelled))
    requires e.RollBack? ==> now == was
    ensures PhaseFollows(es + [e], e.c, now)
    ensures now.phase == Finished(Rejected) <==> was.phase == Finished(Rejected)
    ensures !e.Cancel? ==> now.thread == was.thread || (was.thread.NotStarted? && now.thread.Queued?)
  {
    assert forall x :: x in es + [e] <==> x in es || x == e;
  }

  lemma SameThreadFollows(cfg: Config, es: seq<Event>, e: Event, was: Thread, now: Thread)
    requires e.Grant? || e.Deliver? || e.RollBack?
    requires ThreadFollows(cfg, es, e.c, was) && (now == was || (was.NotStarted? && now.Queued?))
    ensures ThreadFollows(cfg, es + [e], e.c, now)
  {
    OneMoreEvent(cfg, es, e, e.c);
    hide WorkFails, CleanupFails, HasBadBatch, BegunAs;
  }

  /** What the steps of a task do to its call. */
  lemma TaskStepMoves(cfg: Config, s: State, e: Event)
    requires (e.Grant? || e.Deliver? || e.Cancel? || e.RollBack?) && Enabled(cfg, s, e)
    ensures e.c in Apply(cfg, s, e).calls && e.c in s.calls
    ensures var was, now := s.calls[e.c], Apply(cfg, s, e).calls[e.c];
      && now.rows == was.rows && now.group == was.group
      && (e.Grant? ==> was.phase.Waiting? && now.phase.Guarding? && now.thread.Queued?)
      && (e.Deliver? ==>
            && now.thread == was.thread && was.thread.Done? && HoldsLock(was.phase)
            && now.phase == Finished(if was.phase.Draining? then Cancelled else if was.thread.ok then Returned else Raised))
      && (e.Cancel? ==> !was.phase.Finished? && (now.phase.Draining? || now.phase == Finished(Cancelled)))
      && (e.RollBack? ==> now == was)
  {
    hide ResolveTeacher, Pads, PadsOf, Without;
  }

  lemma ThreadStepFollows(cfg: Config, es: seq<Event>, s: State, e: Event)
    requires IsThreadStep(e) && Enabled(cfg, s, e)
    requires e.c in s.calls && CallFollows(cfg, es, e.c, s.calls[e.c])
    ensures e.c in Apply(cfg, s, e).calls && CallFollows(cfg, es + [e], e.c, Apply(cfg, s, e).calls[e.c])
  {
    hide Apply, Enabled, BegunAs, ThreadFollows;
    ThreadStepMoves(cfg, s, e);
    ThreadStepLeads(cfg, s, e);
    var was, now := s.calls[e.c], Apply(cfg, s, e).calls[e.c];
    assert now == was.(thread := now.thread);
    BadBatchIsChecked(cfg, es, e.c, was);
    StillBegun(cfg, es, e, was, now);
    assert Cancel(e.c) in es <==> Cancel(e.c) in es + [e];
    if Cancel(e.c) !in es {
      ThreadFollowsStep(cfg, es, s, e);
    }
  }

  /** Where each step takes the thread. */
  lemma ThreadStepLeads(cfg: Config, s: State, e: Event)
    requires IsThreadStep(e) && Enabled(cfg, s, e)
    ensures e.c in Apply(cfg, s, e).calls && e.c in s.calls
    ensures var call, was, now := s.calls[e.c], s.calls[e.c].thread, Apply(cfg, s, e).calls[e.c].thread;
      match e
      case Start(_) =>
        && was.Queued?
        && if call.rows == {} || call.group !in cfg.dpSize || cfg.dpSize[call.group] <= 0 then now == Done(false, true)
           else now.Padding? || now.Inferring?
      case ReadFails(_) => was.Padding? && now == Done(false, true)
      case WritePad(_) => was.Padding? && now.Padding?
      case PadWriteFails(_) => was.Padding? && now == Clearing(false)
      case PadsWritten(_) => was.Padding? && now.Inferring?
      case InferSucceeds(_) => was.Inferring? && (now == Clearing(true) || now == Done(true, true))
      case InferFails(_) => was.Inferring? && (now == Clearing(false) || now == Done(false, true))
      case Clear(_) => was.Clearing? && now == Done(was.ok, true)
      case ClearFails(_, _) => was.Clearing? && now == Done(false, false)
      case _ => false
  {
    hide Pads, PadsOf;
  }

  lemma ThreadFollowsStep(cfg: Config, es: seq<Event>, s: State, e: Event)
    requires IsThreadStep(e) && Enabled(cfg, s, e) && e.c in s.calls
    requires var call := s.calls[e.c];
      && ThreadFollows(cfg, es, e.c, call.thread) && call.group in cfg.dpSize
      && (HasBadBatch(cfg, es, e.c) <==> call.rows == {} || cfg.dpSize[call.group] <= 0)
    ensures e.c in Apply(cfg, s, e).calls && ThreadFollows(cfg, es + [e], e.c, Apply(cfg, s, e).calls[e.c].thread)
  {
    OneMoreEvent(cfg, es, e, e.c);
    ThreadStepLeads(cfg, s, e);
    hide Apply, Enabled, WorkFails, CleanupFails, HasBadBatch, BegunAs;
  }

  /** An event concerns one call. */
  lemma OthersUntouched(cfg: Config, s: State, e: Event)
    requires Enabled(cfg, s, e)
    ensures Apply(cfg, s, e).calls.Keys == s.calls.Keys + {e.c}
    ensures forall c :: c in s.calls && c != e.c ==> Apply(cfg, s, e).calls[c] == s.calls[c]
  {
    hide ResolveTeacher, Pads, PadsOf, Without, AfterInference;
    if IsThreadStep(e) {
      ThreadStepMoves(cfg, s, e);
      hide Apply, Enabled;
    }
  }

  lemma CalledBefore(cfg: Config, s: State, e: Event)
    requires Enabled(cfg, s, e)
    ensures e.Begin? <==> e.c !in s.calls
  {
  }

  lemma OwnCallFollows(cfg: Config, es: seq<Event>, s: State, e: Event)
    requires Follows(cfg, es, s) && Enabled(cfg, s, e)
    ensures e.c in Apply(cfg, s, e).calls && CallFollows(cfg, es + [e], e.c, Apply(cfg, s, e).calls[e.c])
  {
    hide Apply, Enabled, CallFollows, Unmentioned;
    CalledBefore(cfg, s, e);
    if e.Begin? {
      BeginFollows(cfg, es, s, e);
    } else if IsThreadStep(e) {
      ThreadStepFollows(cfg, es, s, e);
    } else {
      TaskFollows(cfg, es, s, e);
    }
  }

  lemma StepFollows(cfg: Config, es: seq<Event>, s: State, e: Event)
    requires Follows(cfg, es, s) && Enabled(cfg, s, e)
    ensures Follows(cfg, es + [e], Apply(cfg, s, e))
  {
    hide Apply, Enabled, CallFollows, Unmentioned, IsThreadStep;
    var t := Apply(cfg, s, e);
    OthersUntouched(cfg, s, e);
    OwnCallFollows(cfg, es, s, e);
    forall c: CallId
      ensures if c in t.calls then CallFollows(cfg, es + [e], c, t.calls[c]) else Unmentioned(es + [e], c)
    {
      if c != e.c {
        SameEvents(cfg, es, e, c, if c in s.calls then s.calls[c] else t.calls[e.c]);
      }
    }
  }

  lemma {:induction false} RunFollows(cfg: Config, past: seq<Event>, s: State, es: seq<Event>)
    requires Follows(cfg, past, s) && Runs(cfg, s, es)
    ensures Follows(cfg, past + es, Run(cfg, s, es))
    decreases |es|
  {
    if es == [] {
      assert past + es == past;
    } else {
      StepFollows(cfg, past, s, es[0]);
      assert past + [es[0]] + es[1..] == past + es;
      hide Follows, Apply, Enabled;
      RunFollows(cfg, past + [es[0]], Apply(cfg, s, es[0]), es[1..]);
    }
  }

  /**
   Over every interleaving: a finished call was rejected exactly when its routing failed, and cancelled exactly when it was
   hit by a cancellation; otherwise it returned exactly when its inference succeeded and its cleanup, if any, did not
   fail, and raised exactly when a check, read, write, inference or cleanup failed.
   */
  lemma CallsEndAsTheirWorkWent(cfg: Config, s: State, es: seq<Event>, c: CallId)
    requires Init(s) && Runs(cfg, s, es) && c in Run(cfg, s, es).calls && Run(cfg, s, es).calls[c].phase.Finished?
    ensures var outcome := Run(cfg, s, es).calls[c].phase.outcome;
      && (outcome == Rejected <==> RoutingFails(cfg, es, c))
      && (outcome == Cancelled <==> Cancel(c) in es)
      && (outcome == Returned <==> Cancel(c) !in es && InferSucceeds(c) in es && !CleanupFails(es, c))
      && (outcome == Raised <==> Cancel(c) !in es && WorkFails(cfg, es, c))
  {
    assert Follows(cfg, [], s);
    RunFollows(cfg, [], s, es);
    assert [] + es == es;
    hide Follows, Run, Runs;
    FinishedCallFollows(cfg, es, Run(cfg, s, es), c);
  }

  lemma FinishedCallFollows(cfg: Config, es: seq<Event>, s: State, c: CallId)
    requires Follows(cfg, es, s) && c in s.calls && s.calls[c].phase.Finished?
    ensures var outcome := s.calls[c].phase.outcome;
      && (outcome == Rejected <==> RoutingFails(cfg, es, c))
      && (outcome == Cancelled <==> Cancel(c) in es)
      && (outcome == Returned <==> Cancel(c) !in es && InferSucceeds(c) in es && !CleanupFails(es, c))
      && (outcome == Raised <==> Cancel(c) !in es && WorkFails(cfg, es, c))
  {
    assert CallFollows(cfg, es, c, s.calls[c]);
    hide ResolveTeacher, WorkFails, CleanupFails, Follows;
  }

  // ---- the order of the grants --------------------------------------------------------------------

  ghost predicate BeganBefore(es: seq<Event>, c: CallId, d: CallId)
  {
    exists i, j :: 0 <= i < j < |es| && es[i].Begin? && es[i].c == c && es[j].Begin? && es[j].c == d
  }

  /** No call is begun twice. */
  ghost predicate BegunOnce(es: seq<Event>)
  {
    forall i, j :: 0 <= i < j < |es| && es[i].Begin? && es[j].Begin? ==> es[i].c != es[j].c
  }

  /** The queue lists calls in the order they began. */
  ghost predicate InOrder(es: seq<Event>, q: seq<CallId>)
  {
    forall a, b :: 0 <= a < b < |q| ==> BeganBefore(es, q[a], q[b])
  }

  ghost predicate QueuesInOrder(es: seq<Event>, s: State)
  {
    forall g :: g in s.locks ==> InOrder(es, s.locks[g].queue)
  }

  /** A call that has been neither granted, nor cancelled, nor rejected is still waiting. */
  ghost predicate WaitsUntilMoved(es: seq<Event>, s: State)
  {
    forall c :: c in s.calls && Grant(c) !in es && Cancel(c) !in es && s.calls[c].phase != Finished(Rejected) ==>
      s.calls[c].phase.Waiting?
  }

  lemma BeganStays(es: seq<Event>, e: Event, q: seq<CallId>)
    requires InOrder(es, q)
    ensures InOrder(es + [e], q)
  {
    forall a, b | 0 <= a < b < |q|
      ensures BeganBefore(es + [e], q[a], q[b])
    {
      assert BeganBefore(es, q[a], q[b]);
      var i, j :| 0 <= i < j < |es| && es[i].Begin? && es[i].c == q[a] && es[j].Begin? && es[j].c == q[b];
      assert (es + [e])[i] == es[i] && (es + [e])[j] == es[j];
    }
  }

  lemma {:induction false} OrderWithout(es: seq<Event>, q: seq<CallId>, c: CallId)
    requires InOrder(es, q)
    ensures InOrder(es, Without(q, c))
  {
    if q != [] {
      var w := Without(q[1..], c);
      OrderOfRest(es, q);
      assert Without(q, c) == if q[0] == c then w else [q[0]] + w by { assert [] + w == w; }
      hide Without, InOrder;
      OrderWithout(es, q[1..], c);
      WithoutKeepsOthers(q[1..], c);
      OrderPrepended(es, q, w);
    }
  }

  lemma OrderOfRest(es: seq<Event>, q: seq<CallId>)
    requires q != [] && InOrder(es, q)
    ensures InOrder(es, q[1..])
  {
    hide BeganBefore;
  }

  lemma OrderPrepended(es: seq<Event>, q: seq<CallId>, w: seq<CallId>)
    requires q != [] && InOrder(es, q) && InOrder(es, w) && forall d :: d in w ==> d in q[1..]
    ensures InOrder(es, [q[0]] + w)
  {
    hide BeganBefore;
    forall b | 0 <= b < |w|
      ensures BeganBefore(es, q[0], w[b])
    {
      assert w[b] in q[1..];
      var k :| 0 <= k < |q[1..]| && q[1..][k] == w[b];
      assert q[k + 1] == w[b];
    }
  }

  lemma OrderJoined(es: seq<Event>, e: Event, q: seq<CallId>)
    requires e.Begin? && InOrder(es, q) && forall d :: d in q ==> exists x :: x in es && x.Begin? && x.c == d
    ensures InOrder(es + [e], q + [e.c])
  {
    BeganStays(es, e, q);
    forall a | 0 <= a < |q|
      ensures BeganBefore(es + [e], q[a], e.c)
    {
      assert q[a] in q;
      var x :| x in es && x.Begin? && x.c == q[a];
      var i :| 0 <= i < |es| && es[i] == x;
      assert (es + [e])[i] == x && (es + [e])[|es|] == e;
    }
    hide BeganBefore;
  }

  lemma BeginKeepsOrder(cfg: Config, es: seq<Event>, s: State, e: Event)
    requires e.Begin? && Follows(cfg, es, s) && Enabled(cfg, s, e) && QueueInv(s) && QueuesInOrder(es, s)
    ensures QueuesInOrder(es + [e], Apply(cfg, s, e))
  {
    var t := Apply(cfg, s, e);
    forall g | g in t.locks
      ensures InOrder(es + [e], t.locks[g].queue)
    {
      var q := if g in s.locks then s.locks[g].queue else [];
      assert InOrder(es, q);
      BeganStays(es, e, q);
      assert t.locks[g].queue == q || t.locks[g].queue == q + [e.c];
      if t.locks[g].queue == q + [e.c] {
        forall d | d in q
          ensures exists x :: x in es && x.Begin? && x.c == d
        {
          assert AllWaiting(s, g, q) && CallFollows(cfg, es, d, s.calls[d]);
        }
        OrderJoined(es, e, q);
      }
    }
  }

  /** What a step does to the queues, if it begins no call. */
  lemma QueuesMove(cfg: Config, s: State, e: Event)
    requires !e.Begin? && Enabled(cfg, s, e)
    ensures var t := Apply(cfg, s, e);
      && t.locks.Keys == s.locks.Keys && e.c in s.calls
      && forall g :: g in s.locks ==>
           var q := s.locks[g].queue;
           || t.locks[g].queue == q || (q != [] && t.locks[g].queue == q[1..]) || t.locks[g].queue == Without(q, e.c)
  {
    hide Without, Pads, PadsOf;
    if IsThreadStep(e) {
      ThreadStepMoves(cfg, s, e);
      hide Apply, Enabled;
    }
  }

  lemma OthersKeepOrder(cfg: Config, es: seq<Event>, s: State, e: Event)
    requires !e.Begin? && Enabled(cfg, s, e) && QueuesInOrder(es, s)
    ensures QueuesInOrder(es + [e], Apply(cfg, s, e))
  {
    hide Apply, Enabled;
    QueuesMove(cfg, s, e);
    var t := Apply(cfg, s, e);
    forall g | g in t.locks
      ensures InOrder(es + [e], t.locks[g].queue)
    {
      var q := s.locks[g].queue;
      BeganStays(es, e, q);
      OrderWithout(es + [e], q, e.c);
      assert q != [] ==> InOrder(es + [e], q[1..]) by { hide BeganBefore; }
    }
  }

  lemma StepKeepsWaiting(cfg: Config, es: seq<Event>, s: State, e: Event)
    requires Enabled(cfg, s, e) && WaitsUntilMoved(es, s)
    ensures WaitsUntilMoved(es + [e], Apply(cfg, s, e))
  {
    assert forall x :: x in es + [e] <==> x in es || x == e;
    OthersUntouched(cfg, s, e);
    CalledBefore(cfg, s, e);
    if e.Begin? {
      hide ResolveTeacher;
    } else if IsThreadStep(e) {
      ThreadStepMoves(cfg, s, e);
      hide Apply, Enabled;
    } else {
      TaskStepMoves(cfg, s, e);
      hide Apply, Enabled;
    }
  }

  lemma StepBeginsOnce(cfg: Config, es: seq<Event>, s: State, e: Event)
    requires Enabled(cfg, s, e) && Follows(cfg, es, s) && BegunOnce(es)
    ensures BegunOnce(es + [e])
  {
    CalledBefore(cfg, s, e);
    if e.Begin? {
      assert Unmentioned(es, e.c);
      assert forall i :: 0 <= i < |es| ==> es[i] in es;
    }
  }

  ghost predicate Fair(cfg: Config, es: seq<Event>, s: State)
  {
    Follows(cfg, es, s) && QueueInv(s) && BegunOnce(es) && QueuesInOrder(es, s) && WaitsUntilMoved(es, s)
  }

  lemma StepKeepsFair(cfg: Config, es: seq<Event>, s: State, e: Event)
    requires Fair(cfg, es, s) && Enabled(cfg, s, e)
    ensures Fair(cfg, es + [e], Apply(cfg, s, e))
  {
    hide Follows, QueueInv, BegunOnce, QueuesInOrder, WaitsUntilMoved, Enabled, Apply;
    StepFollows(cfg, es, s, e);
    StepBeginsOnce(cfg, es, s, e);
    StepKeepsWaiting(cfg, es, s, e);
    if e.Begin? { BeginKeepsOrder(cfg, es, s, e); } else { OthersKeepOrder(cfg, es, s, e); }
    match e {
      case Begin(_, _, _) => BeginKeepsQueues(cfg, s, e);
      case Grant(_) => GrantKeepsQueues(cfg, s, e);
      case Cancel(_) => CancelKeepsQueues(cfg, s, e);
      case _ => OthersKeepQueues(cfg, s, e);
    }
  }

  lemma {:induction false} RunKeepsFair(cfg: Config, past: seq<Event>, s: State, es: seq<Event>)
    requires Fair(cfg, past, s) && Runs(cfg, s, es)
    ensures Fair(cfg, past + es, Run(cfg, s, es))
    decreases |es|
  {
    if es == [] {
      assert past + es == past;
    } else {
      StepKeepsFair(cfg, past, s, es[0]);
      assert past + [es[0]] + es[1..] == past + es;
      hide Fair, Apply, Enabled;
      RunKeepsFair(cfg, past + [es[0]], Apply(cfg, s, es[0]), es[1..]);
    }
  }

  /**
   Over every interleaving: a group's lock is granted in the order the calls began. When it may be granted to a call, every
   call of the group that began before has been granted or cancelled.
   */
  lemma GrantsAreInOrder(cfg: Config, s: State, es: seq<Event>, c: CallId, d: CallId)
    requires Init(s) && Runs(cfg, s, es) && Enabled(cfg, Run(cfg, s, es), Grant(d)) && BeganBefore(es, c, d)
    requires var t := Run(cfg, s, es); c in t.calls && d in t.calls && t.calls[c].group == t.calls[d].group
    requires !RoutingFails(cfg, es, c)
    ensures Grant(c) in es || Cancel(c) in es
  {
    hide Run, Runs, Fair, Enabled, BeganBefore, RoutingFails;
    NothingBegun(cfg, s);
    RunKeepsFair(cfg, [], s, es);
    assert [] + es == es;
    GrantedInOrder(cfg, es, Run(cfg, s, es), c, d);
  }

  lemma NothingBegun(cfg: Config, s: State)
    requires Init(s)
    ensures Fair(cfg, [], s)
  {
  }

  lemma GrantedInOrder(cfg: Config, es: seq<Event>, s: State, c: CallId, d: CallId)
    requires Fair(cfg, es, s) && Enabled(cfg, s, Grant(d)) && BeganBefore(es, c, d)
    requires c in s.calls && s.calls[c].group == s.calls[d].group && !RoutingFails(cfg, es, c)
    ensures Grant(c) in es || Cancel(c) in es
  {
    assert CallFollows(cfg, es, c, s.calls[c]);
    assert s.calls[c].phase != Finished(Rejected) by { hide ResolveTeacher; }
    hide Follows, CallFollows, BeganBefore, BegunOnce, InOrder, RoutingFails;
    FirstBeganFirst(es, s.locks[s.calls[d].group].queue, c, d);
    assert !s.calls[c].phase.Waiting?;
  }

  /** A call that began before the first of a queue is not in it. */
  lemma FirstBeganFirst(es: seq<Event>, q: seq<CallId>, c: CallId, d: CallId)
    requires BegunOnce(es) && InOrder(es, q) && q != [] && q[0] == d && BeganBefore(es, c, d)
    ensures c !in q
  {
    NotBothOrders(es, c, d);
    forall b | 0 <= b < |q|
      ensures q[b] != c
    {
      if b > 0 { assert BeganBefore(es, q[0], q[b]); }
    }
  }

  lemma NotBothOrders(es: seq<Event>, c: CallId, d: CallId)
    requires BegunOnce(es) && BeganBefore(es, c, d)
    ensures !BeganBefore(es, d, c) && c != d
  {
    var i, j :| 0 <= i < j < |es| && es[i].Begin? && es[i].c == c && es[j].Begin? && es[j].c == d;
    forall k, l | 0 <= k < l < |es| && es[k].Begin? && es[l].Begin? && es[k].c == d
      ensures es[l].c != c
    {
    }
  }

  // ---- what a second cancellation does --------------------------------------------------------

  const TwoAliases: Config := Config(map["a" := "m", "b" := "m"], true, None, map["a" := "g", "b" := "g"], map["g" := 1])

  const TwoRows: State := State(map[], map[], {Data(0), Data(1)})

  /** The first call is cancelled twice during its inference; its rows are dropped and a second call starts. */
  const TwoCancels: seq<Event> :=
    [Begin(0, Some("a"), {Data(0)}), Grant(0), Start(0), Cancel(0), Cancel(0), RollBack(0),
     Begin(1, Some("b"), {Data(1)}), Grant(1)]

  const InBlock: map<Group, Lock> := map["g" := Lock(Some(0), [])]

  const Orphaned: Call := Call("g", {Data(0)}, Finished(Cancelled), Inferring, 2)

  const TwoCancelStates: seq<State> :=
    [TwoRows,
     State(map[0 := Call("g", {Data(0)}, Waiting, NotStarted, 0)], map["g" := Lock(None, [0])], {Data(0), Data(1)}),
     State(map[0 := Call("g", {Data(0)}, Guarding, Queued, 0)], InBlock, {Data(0), Data(1)}),
     State(map[0 := Call("g", {Data(0)}, Guarding, Inferring, 0)], InBlock, {Data(0), Data(1)}),
     State(map[0 := Call("g", {Data(0)}, Draining, Inferring, 1)], InBlock, {Data(0), Data(1)}),
     State(map[0 := Orphaned], map["g" := Lock(None, [])], {Data(0), Data(1)}),
     State(map[0 := Orphaned], map["g" := Lock(None, [])], {Data(1)}),
     State(map[0 := Orphaned, 1 := Call("g", {Data(1)}, Waiting, NotStarted, 0)], map["g" := Lock(None, [1])], {Data(1)}),
     State(map[0 := Orphaned, 1 := Call("g", {Data(1)}, Guarding, Queued, 0)], map["g" := Lock(Some(1), [])], {Data(1)})]

  predicate Step(cfg: Config, s: State, e: Event, t: State)
  {
    && Enabled(cfg, s, e)
    && var u := Apply(cfg, s, e);
       u.calls == t.calls && u.locks == t.locks && u.store == t.store
  }

  lemma {:induction false} RunAlong(cfg: Config, states: seq<State>, es: seq<Event>)
    requires |states| == |es| + 1 && forall i :: 0 <= i < |es| ==> Step(cfg, states[i], es[i], states[i + 1])
    ensures Runs(cfg, states[0], es) && Run(cfg, states[0], es) == states[|es|]
    decreases |es|
  {
    if es != [] {
      assert Step(cfg, states[0], es[0], states[1]);
      RunAlong(cfg, states[1..], es[1..]);
    }
  }

  lemma FirstCallIsGranted()
    ensures forall i :: 0 <= i < 2 ==> Step(TwoAliases, TwoCancelStates[i], TwoCancels[i], TwoCancelStates[i + 1])
  {
    var cfg, states, es := TwoAliases, TwoCancelStates, TwoCancels;
    assert [] + [0] == [0] && [0][1..] == [];
    assert Step(cfg, states[0], es[0], states[1]);
    assert Step(cfg, states[1], es[1], states[2]);
  }

  lemma FirstThreadStarts()
    ensures Step(TwoAliases, TwoCancelStates[2], TwoCancels[2], TwoCancelStates[3])
  {
    assert Pads(TwoAliases, TwoCancelStates[2].calls[0]) == 0;
  }

  lemma CancelledTwice()
    ensures forall i :: 3 <= i < 5 ==> Step(TwoAliases, TwoCancelStates[i], TwoCancels[i], TwoCancelStates[i + 1])
  {
    var cfg, states, es := TwoAliases, TwoCancelStates, TwoCancels;
    assert Step(cfg, states[3], es[3], states[4]);
    assert Step(cfg, states[4], es[4], states[5]);
  }

  lemma NextCallStarts()
    ensures forall i :: 5 <= i < 8 ==> Step(TwoAliases, TwoCancelStates[i], TwoCancels[i], TwoCancelStates[i + 1])
  {
    var cfg, states, es := TwoAliases, TwoCancelStates, TwoCancels;
    assert [] + [1] == [1] && [1][1..] == [];
    assert Step(cfg, states[5], es[5], states[6]);
    assert Step(cfg, states[6], es[6], states[7]);
    assert Step(cfg, states[7], es[7], states[8]);
  }

  /** Two cancellations suffice for two threads in one group, one of them on rows that are gone. */
  lemma SecondCancelBreaksSafety()
    ensures Init(TwoRows) && Runs(TwoAliases, TwoRows, TwoCancels)
    ensures var s := Run(TwoAliases, TwoRows, TwoCancels);
            !MutualExclusion(s) && !NoThreadOutlivesCall(s) && !RowsPresentWhileWorking(s)
  {
    hide Runs, Run, Step, MutualExclusion, NoThreadOutlivesCall, RowsPresentWhileWorking;
    FirstCallIsGranted();
    FirstThreadStarts();
    CancelledTwice();
    NextCallStarts();
    LastStateIsUnsafe(TwoCancelStates[8]);
    RunAlong(TwoAliases, TwoCancelStates, TwoCancels);
  }

  lemma LastStateIsUnsafe(s: State)
    requires s == TwoCancelStates[8]
    ensures !MutualExclusion(s) && !NoThreadOutlivesCall(s) && !RowsPresentWhileWorking(s)
  {
    assert ActiveFor(s.calls[0], s.calls[1].group) && Active(s.calls[1].thread);
    assert Data(0) in s.calls[0].rows && Data(0) !in s.store;
  }
}
