/** Termination and conservation of cycles, whatever the gates, agents and clocks do. */
module CycleConservation {
  import opened CycleCreate
  import opened CycleDriver
  import opened CycleOps
  import opened CycleOrchestrator
  import opened CycleRun
  import opened CycleTypes
  import opened Ledger
  import Seal
  import Stuck
  import opened TurnTypes
  import opened Wrappers

  function Count(entries: seq<Entry>, typ: EventType): nat
  {
    if entries == [] then 0
    else Count(entries[..|entries| - 1], typ) + if entries[|entries| - 1].typ == typ then 1 else 0
  }

  lemma {:induction false} CountAppend(a: seq<Entry>, b: seq<Entry>, typ: EventType)
    ensures Count(a + b, typ) == Count(a, typ) + Count(b, typ)
  {
    if b == [] {
      assert a + b == a;
    } else {
      var n := |b| - 1;
      assert (a + b)[..|a| + n] == a + b[..n];
      CountAppend(a, b[..n], typ);
    }
  }

  lemma {:induction false} CountNone(entries: seq<Entry>, typ: EventType)
    requires forall e | e in entries :: e.typ != typ
    ensures Count(entries, typ) == 0
  {
    if entries != [] {
      assert entries[|entries| - 1] in entries;
      CountNone(entries[..|entries| - 1], typ);
    }
  }

  lemma CountPair(a: Entry, b: Entry, typ: EventType)
    ensures Count([a, b], typ) == (if a.typ == typ then 1 else 0) + if b.typ == typ then 1 else 0
  {
    assert [a, b][..1] == [a] && [a][..0] == [];
    assert Count([a], typ) == Count([], typ) + if a.typ == typ then 1 else 0;
  }

  /** The ledger shows n greens and n completions. */
  predicate Tally(ledger: seq<Entry>, n: int)
  {
    Count(ledger, ValidationGreen) == n && Count(ledger, CycleCompleted) == n
  }

  predicate Inert(entries: seq<Entry>)
  {
    forall e | e in entries :: !e.typ.ValidationGreen? && !e.typ.CycleCompleted?
  }

  lemma TallyAppend(ledger: seq<Entry>, more: seq<Entry>, n: int, k: int)
    requires Tally(ledger, n) && Tally(more, k)
    ensures Tally(ledger + more, n + k)
  {
    CountAppend(ledger, more, ValidationGreen);
    CountAppend(ledger, more, CycleCompleted);
  }

  lemma InertTally(more: seq<Entry>)
    requires Inert(more)
    ensures Tally(more, 0)
  {
    CountNone(more, ValidationGreen);
    CountNone(more, CycleCompleted);
  }

  lemma GreenTally(a: seq<Entry>, now: int, id: string)
    requires Inert(a)
    ensures Tally(a + [GreenEntry(now, id), CompletedEntry(now, id)], 1)
  {
    InertTally(a);
    var pair := [GreenEntry(now, id), CompletedEntry(now, id)];
    CountPair(pair[0], pair[1], ValidationGreen);
    CountPair(pair[0], pair[1], CycleCompleted);
    TallyAppend(a, pair, 0, 1);
  }

  /** A gated step that succeeds is counted once in the state and once on the ledger; one that does
      not is counted nowhere. */
  lemma StepTally(gates: Pipeline, s: CycleState, now: int)
    requires PipelineKeepsCounters(gates)
    ensures var r := Stepped(gates, s, now);
      var n := if r.err.None? then 1 else 0;
      && Tally(StepEntries(gates, s, now), n)
      && r.value.completedCycles == s.completedCycles + n
      && r.value.maxCycles == s.maxCycles && r.value.id == s.id
  {
    ExecuteKeepsCounters(gates, s, [], now);
    var r := Stepped(gates, s, now);
    var entries := StepEntries(gates, s, now);
    if r.err.Some? {
      InertTally(entries);
    } else {
      var front := [PinEntry(now, s)] + GateEntries(now, r.value.id, r.reports);
      GreenTally(front, now, r.value.id);
      assert entries == front + [GreenEntry(now, r.value.id), CompletedEntry(now, r.value.id)];
    }
  }

  // ---- Conservation over whole runs ------------------------------------------------------------

  predicate Bounded(s: CycleState) { s.maxCycles > 0 ==> s.completedCycles <= s.maxCycles }

  /** Greens, completions and the counter agree, and the counter respects the cap. */
  predicate Conserved(f: Files)
  {
    f.state.Some? && Tally(f.ledger, f.state.value.completedCycles) && Bounded(f.state.value)
  }

  predicate SameCounters(a: CycleState, b: CycleState)
  {
    a.completedCycles == b.completedCycles && a.maxCycles == b.maxCycles && a.id == b.id
  }

  ghost predicate FactoryKeepsCounters(pipeline: CycleState -> Pipeline)
  {
    forall s :: PipelineKeepsCounters(pipeline(s))
  }

  ghost predicate TicksKeepCounters(ticks: seq<Tick>)
  {
    forall t | t in ticks :: FactoryKeepsCounters(t.pipeline)
  }

  lemma HaltConserves(f: Files, s: CycleState, reason: HaltReason, now: int, ok: bool)
    requires f.state.Some? && SameCounters(f.state.value, s) && Tally(f.ledger, s.completedCycles) && Bounded(s)
    ensures var f' := HaltHere(f, s, reason, now, ok).0; Conserved(f') && SameCounters(f'.state.value, s)
  {
    InertTally([HaltEntry(now, s.id, reason)]);
    TallyAppend(f.ledger, [HaltEntry(now, s.id, reason)], s.completedCycles, 0);
  }

  /** The cycle id and the cap are as before, and one more cycle is counted iff the iteration advanced. */
  predicate CountsOutcome(before: CycleState, f: Files, outcome: Outcome)
  {
    && f.state.Some? && f.state.value.maxCycles == before.maxCycles && f.state.value.id == before.id
    && f.state.value.completedCycles == before.completedCycles + if outcome.Advanced? then 1 else 0
  }

  /** The gates pass and the advanced state cannot be written: the ledger has the step, the state not. */
  predicate LosesStep(gates: Pipeline, s: CycleState, tick: Tick)
  {
    Stepped(gates, s, tick.now).err.None? && !tick.io.stateWrite
  }

  /** The state and file a gated step is about to run on, in the middle of an iteration. */
  predicate Underway(f: Files, s: CycleState)
  {
    && f.state.Some? && SameCounters(f.state.value, s) && Tally(f.ledger, s.completedCycles)
    && (s.maxCycles > 0 ==> s.completedCycles < s.maxCycles)
  }

  /** What a gated step leaves, whichever way the write of its state goes. */
  lemma StepLedger(f: Files, gates: Pipeline, s: CycleState, now: int)
    requires Underway(f, s) && PipelineKeepsCounters(gates)
    ensures var r := Stepped(gates, s, now);
      && r.value.maxCycles == s.maxCycles && r.value.id == s.id
      && r.value.completedCycles == s.completedCycles + (if r.err.None? then 1 else 0)
      && Tally(f.ledger + StepEntries(gates, s, now), r.value.completedCycles)
  {
    StepTally(gates, s, now);
    TallyAppend(f.ledger, StepEntries(gates, s, now), s.completedCycles,
      if Stepped(gates, s, now).err.None? then 1 else 0);
  }

  lemma GatedStepConserves(f: Files, s: CycleState, tick: Tick)
    requires Underway(f, s) && FactoryKeepsCounters(tick.pipeline)
    ensures var (f', outcome) := GatedStep(f, s, tick);
      CountsOutcome(s, f', outcome) && (Conserved(f') <==> !LosesStep(tick.pipeline(s), s, tick))
  {
    assert PipelineKeepsCounters(tick.pipeline(s));
    StepLedger(f, tick.pipeline(s), s, tick.now);
  }

  /** The turn's handshake lets the iteration go on to the gates. */
  predicate Proceeds(decode: Decoder, resp: TurnResponse)
  {
    var payload := ParseTurnPayload(decode, resp.summary);
    payload.Some? && !payload.value.haltRequested
  }

  function AfterHandshake(decode: Decoder, s: CycleState, resp: TurnResponse, now: int): CycleState
    requires Proceeds(decode, resp)
  {
    Applied(s, ParseTurnPayload(decode, resp.summary).value, now)
  }

  predicate LosesTurn(decode: Decoder, s: CycleState, resp: TurnResponse, tick: Tick)
  {
    && Proceeds(decode, resp)
    && var s' := AfterHandshake(decode, s, resp, tick.now); LosesStep(tick.pipeline(s'), s', tick)
  }

  lemma AfterTurnConserves(decode: Decoder, f: Files, s: CycleState, resp: TurnResponse, tick: Tick)
    requires Underway(f, s) && FactoryKeepsCounters(tick.pipeline)
    ensures var (f', outcome) := AfterTurn(decode, f, s, resp, tick);
      CountsOutcome(s, f', outcome) && (Conserved(f') <==> !LosesTurn(decode, s, resp, tick))
  {
    var payload := ParseTurnPayload(decode, resp.summary);
    if Proceeds(decode, resp) {
      GatedStepConserves(f, Applied(s, payload.value, tick.now), tick);
    } else {
      HaltConserves(f, s, if payload.None? then UNPARSEABLE_TURN else USER_REQUESTED, tick.now, tick.io.stateWrite);
    }
  }

  /** Both breakers let the iteration take a turn, and the agent answers. */
  ghost predicate TakesTurn(cfg: Config, f: Files, s: CycleState, tick: Tick)
  {
    && cfg.agents != [] && CanAdvance(s, tick.before) && tick.io.ledgerRead
    && !Stuck.IsStuck(f.ledger) && !Stuck.ExceedsCeiling(f.ledger, cfg.maxLifetimeTurns)
    && tick.adapters(AgentFor(cfg, s.completedCycles)).Response?
  }

  function Answer(cfg: Config, s: CycleState, tick: Tick): TurnResponse
    requires cfg.agents != [] && tick.adapters(AgentFor(cfg, s.completedCycles)).Response?
  {
    tick.adapters(AgentFor(cfg, s.completedCycles)).resp
  }

  ghost predicate LosesIteration(decode: Decoder, cfg: Config, f: Files, s: CycleState, tick: Tick)
  {
    TakesTurn(cfg, f, s, tick) && LosesTurn(decode, s, Answer(cfg, s, tick), tick)
  }

  lemma TurnUnderway(f: Files, s: CycleState, agent: string, resp: TurnResponse, now: int)
    requires Underway(f, s)
    ensures Underway(Turned(f, s, agent, resp, now), s)
  {
    InertTally(TurnEntries(now, s.id, agent, resp));
    TallyAppend(f.ledger, TurnEntries(now, s.id, agent, resp), s.completedCycles, 0);
  }

  lemma TurnIsTaken(decode: Decoder, cfg: Config, f: Files, s: CycleState, tick: Tick)
    requires TakesTurn(cfg, f, s, tick)
    ensures var agent, resp := AgentFor(cfg, s.completedCycles), Answer(cfg, s, tick);
      Iteration(decode, cfg, f, s, tick) == AfterTurn(decode, Turned(f, s, agent, resp, tick.now), s, resp, tick)
  {
  }

  /** Without a turn an iteration halts on a breaker or changes nothing. */
  lemma NoTurnIsTaken(decode: Decoder, cfg: Config, f: Files, s: CycleState, tick: Tick)
    requires !TakesTurn(cfg, f, s, tick)
    ensures var (f', outcome) := Iteration(decode, cfg, f, s, tick);
      && !outcome.Advanced?
      && (|| f' == f || f' == HaltHere(f, s, STUCK, tick.now, tick.io.stateWrite).0
          || f' == HaltHere(f, s, BUDGET_EXCEEDED, tick.now, tick.io.stateWrite).0)
  {
  }

  /** An iteration conserves exactly when it does not lose the state of a step that passed. */
  lemma IterationConserves(decode: Decoder, cfg: Config, f: Files, s: CycleState, tick: Tick)
    requires Conserved(f) && SameCounters(f.state.value, s) && FactoryKeepsCounters(tick.pipeline)
    ensures var (f', outcome) := Iteration(decode, cfg, f, s, tick);
      CountsOutcome(s, f', outcome) && (Conserved(f') <==> !LosesIteration(decode, cfg, f, s, tick))
  {
    if TakesTurn(cfg, f, s, tick) {
      var agent, resp := AgentFor(cfg, s.completedCycles), Answer(cfg, s, tick);
      TurnIsTaken(decode, cfg, f, s, tick);
      TurnUnderway(f, s, agent, resp, tick.now);
      AfterTurnConserves(decode, Turned(f, s, agent, resp, tick.now), s, resp, tick);
    } else {
      NoTurnIsTaken(decode, cfg, f, s, tick);
      HaltConserves(f, s, STUCK, tick.now, tick.io.stateWrite);
      HaltConserves(f, s, BUDGET_EXCEEDED, tick.now, tick.io.stateWrite);
    }
  }

  lemma {:induction false} LoopConserves(decode: Decoder, cfg: Config, f: Files, ticks: seq<Tick>)
    requires Conserved(f) && TicksKeepCounters(ticks) && forall t | t in ticks :: t.io.stateWrite
    ensures var f' := RunLoop(decode, cfg, f, ticks).0;
      Conserved(f') && f'.state.value.maxCycles == f.state.value.maxCycles
    decreases |ticks|
  {
    if ticks != [] {
      assert ticks[0] in ticks;
      IterationConserves(decode, cfg, f, f.state.value, ticks[0]);
      var (f', outcome) := Iteration(decode, cfg, f, f.state.value, ticks[0]);
      if ticks[0].io.stateRead && outcome == Advanced(false) && ticks[0].io.slept {
        LoopConserves(decode, cfg, f', ticks[1..]);
      }
    }
  }

  /** A step passed, and goal discovery or the write of the state failed: the greens are on the ledger,
      and the loop goes on without the state. */
  predicate DriverLosesStep(f: Files, tick: DriverTick)
  {
    var s := ReadState(f.state);
    var r := Stepped(tick.gates, s, tick.now);
    && tick.io.stateRead && CanAdvance(s, tick.before) && r.err.None?
    && ((r.value.autoGoal && tick.discovered.None?) || !tick.io.stateWrite)
  }

  /** What one iteration of the driver loop leaves of a cycle that conserved. */
  predicate IterationKeeps(f: Files, tick: DriverTick, one: Iterated)
    requires f.state.Some?
  {
    && one.file.Some? && one.file.value.maxCycles == f.state.value.maxCycles
    && (Conserved(Files(one.file, f.ledger + one.entries)) <==> !DriverLosesStep(f, tick))
    && (one.outcome.Running? ==> one.file.value.completedCycles == f.state.value.completedCycles + 1
                                 && CanAdvance(one.file.value, tick.after) && !DriverLosesStep(f, tick))
  }

  /** One iteration of the driver loop conserves exactly when it loses no step, and a loop that goes
      on has completed one more cycle and is still under the cap. */
  lemma DriverIterationConserves(f: Files, tick: DriverTick)
    requires Conserved(f) && PipelineKeepsCounters(tick.gates)
    ensures IterationKeeps(f, tick, DriverIteration(f.state, tick))
  {
    if tick.io.stateRead && CanAdvance(f.state.value, tick.before) {
      if Stepped(tick.gates, f.state.value, tick.now).err.None? {
        PassingIterationConserves(f, tick);
      } else {
        FailingIterationConserves(f, tick);
      }
    } else {
      assert f.ledger + [] == f.ledger;
    }
  }

  lemma PassingIterationConserves(f: Files, tick: DriverTick)
    requires Conserved(f) && PipelineKeepsCounters(tick.gates)
    requires tick.io.stateRead && CanAdvance(f.state.value, tick.before)
    requires Stepped(tick.gates, f.state.value, tick.now).err.None?
    ensures IterationKeeps(f, tick, DriverIteration(f.state, tick))
  {
    var r := Stepped(tick.gates, f.state.value, tick.now);
    StepLedger(f, tick.gates, f.state.value, tick.now);
    StepUnhalted(tick.gates, f.state.value, tick.now);
    AfterStepWrites(f.state, r.value, StepEntries(tick.gates, f.state.value, tick.now), tick);
  }

  lemma FailingIterationConserves(f: Files, tick: DriverTick)
    requires Conserved(f) && PipelineKeepsCounters(tick.gates)
    requires tick.io.stateRead && CanAdvance(f.state.value, tick.before)
    requires Stepped(tick.gates, f.state.value, tick.now).err.Some?
    ensures IterationKeeps(f, tick, DriverIteration(f.state, tick))
  {
    StepLedger(f, tick.gates, f.state.value, tick.now);
  }

  /** After a step that passed the file holds its counters exactly when the step is not lost. */
  lemma AfterStepWrites(file: Option<CycleState>, s: CycleState, entries: seq<Entry>, tick: DriverTick)
    requires file.Some? && s.nextCycleGoal == "" && !s.halted
    ensures var one := AfterStep(file, s, entries, tick);
      && one.entries == entries && one.file.Some?
      && (if (s.autoGoal && tick.discovered.None?) || !tick.io.stateWrite then one.file == file && !one.outcome.Running?
          else SameCounters(one.file.value, s))
      && (one.outcome.Running? ==> CanAdvance(one.file.value, tick.after))
  {
  }

  ghost predicate DriverTicksKeepCounters(ticks: seq<DriverTick>)
  {
    forall t | t in ticks :: PipelineKeepsCounters(t.gates)
  }

  /** Goal discovery answers and the state can be written. */
  predicate Lossless(t: DriverTick) { t.discovered.Some? && t.io.stateWrite }

  lemma {:induction false} DriverRunConserves(f: Files, ticks: seq<DriverTick>)
    requires Conserved(f) && DriverTicksKeepCounters(ticks) && forall t | t in ticks :: Lossless(t)
    ensures var run := DriverRun(f.state, f.ledger, ticks);
      Conserved(Files(run.file, run.entries)) && run.file.value.maxCycles == f.state.value.maxCycles
    decreases |ticks|
  {
    if ticks != [] {
      assert ticks[0] in ticks;
      DriverIterationConserves(f, ticks[0]);
      var one := DriverIteration(f.state, ticks[0]);
      if one.outcome.Running? {
        DriverRunConserves(Files(one.file, f.ledger + one.entries), ticks[1..]);
      }
    }
  }

  ghost predicate LosesReference(opts: Options, f: Files, s: CycleState, tick: Tick)
  {
    && !Stuck.IsStuck(f.ledger) && !Stuck.ExceedsCeiling(f.ledger, opts.maxLifetimeTurns)
    && LosesStep(tick.pipeline(s), s, tick)
  }

  lemma ReferenceStepConserves(f: Files, s: CycleState, tick: Tick)
    requires Underway(f, s) && FactoryKeepsCounters(tick.pipeline)
    ensures var f' := ReferenceStep(f, s, tick).0;
      && f'.state.Some? && f'.state.value.maxCycles == s.maxCycles
      && (Conserved(f') <==> !LosesStep(tick.pipeline(s), s, tick))
  {
    var gates := tick.pipeline(s);
    assert PipelineKeepsCounters(gates);
    StepLedger(f, gates, s, tick.now);
    var r := Stepped(gates, s, tick.now);
    if r.err.Some? && r.err.value.HaltedError? {
      var stepped := f.(ledger := f.ledger + StepEntries(gates, s, tick.now));
      HaltConserves(stepped, r.value, r.err.value.reason, tick.now, tick.io.stateWrite);
    }
  }

  lemma ReferencePassConserves(opts: Options, f: Files, s: CycleState, tick: Tick)
    requires Underway(f, s) && FactoryKeepsCounters(tick.pipeline)
    ensures var f' := ReferencePass(opts, f, s, tick).0;
      && f'.state.Some? && f'.state.value.maxCycles == s.maxCycles
      && (Conserved(f') <==> !LosesReference(opts, f, s, tick))
  {
    HaltConserves(f, s, STUCK, tick.now, tick.io.stateWrite);
    HaltConserves(f, s, BUDGET_EXCEEDED, tick.now, tick.io.stateWrite);
    ReferenceStepConserves(f, s, tick);
  }

  /** The pass gets past its first checks. */
  predicate Starts(f: Files, start: Start)
  {
    var s := ReadState(f.state);
    && start.stateRead && s.id != "" && !s.halted && CanAdvance(s, start.elapsed)
    && start.ledgerRead && !Seal.Sealed(f.ledger)
  }

  ghost predicate LosesPass(decode: Decoder, opts: Options, f: Files, start: Start, tick: Tick)
  {
    && Starts(f, start)
    && var s := WithGoal(ReadState(f.state), opts.goal);
       if opts.agents != [] then LosesIteration(decode, OnceConfig(opts), f, s, tick)
       else LosesReference(opts, f, s, tick)
  }

  /** So does a one-shot pass. */
  lemma PassConserves(decode: Decoder, opts: Options, f: Files, start: Start, tick: Tick)
    requires Conserved(f) && FactoryKeepsCounters(tick.pipeline)
    ensures var f' := Pass(decode, opts, f, start, tick).0;
      && f'.state.Some? && f'.state.value.maxCycles == f.state.value.maxCycles
      && (Conserved(f') <==> !LosesPass(decode, opts, f, start, tick))
  {
    if Starts(f, start) {
      var s := WithGoal(f.state.value, opts.goal);
      if opts.agents != [] {
        IterationConserves(decode, OnceConfig(opts), f, s, tick);
      } else {
        ReferencePassConserves(opts, f, s, tick);
      }
    }
  }

  /** The operations conservation holds for: no broker step, no halt that removes the state file, and
      none that loses the state of a step that passed. */
  ghost predicate Conserving(op: Op)
  {
    match op
    case OneShot(_, _, tick) => FactoryKeepsCounters(tick.pipeline) && tick.io.stateWrite
    case DriveLoop(ticks) => DriverTicksKeepCounters(ticks) && forall t | t in ticks :: Lossless(t)
    case OrchestrateHandler(_, _, _, _, _, ticks) =>
      TicksKeepCounters(ticks) && forall t | t in ticks :: t.io.stateWrite
    case ToolUse(_, _, _) => true
    case StepHandler(_, _, _, _) => false
    case HaltHandler(_, _, _, _) => false
  }

  lemma OpConserves(decode: Decoder, id: string, w: World, op: Op)
    requires Conserved(w.files) && Conserving(op)
    ensures var w' := Apply(decode, id, w, op);
      Conserved(w'.files) && w'.files.state.value.maxCycles == w.files.state.value.maxCycles
  {
    if op.OneShot? {
      PassConserves(decode, op.opts, w.files, op.start, op.tick);
    } else if op.DriveLoop? {
      DriverRunConserves(w.files, op.driverTicks);
    } else if op.OrchestrateHandler? {
      assert Get(w, op.io.stateRead).files == w.files;
      LoopConserves(decode, op.cfg, w.files, op.ticks);
    } else if op.ToolUse? {
      var record := [ToolUseEntry(op.now, id, op.summary)];
      InertTally(record);
      TallyAppend(w.files.ledger, record, w.files.state.value.completedCycles, 0);
    }
  }

  /** Over any run of one-shot passes, driver loops, orchestrations and tool-use records: as many
      greens as completions as counted cycles, and never more than the cap. */
  lemma {:induction false} RunConserves(decode: Decoder, id: string, w: World, ops: seq<Op>)
    requires Conserved(w.files) && forall op | op in ops :: Conserving(op)
    ensures var w' := ApplyAll(decode, id, w, ops);
      Conserved(w'.files) && w'.files.state.value.maxCycles == w.files.state.value.maxCycles
    decreases |ops|
  {
    if ops != [] {
      assert ops[0] in ops;
      OpConserves(decode, id, w, ops[0]);
      RunConserves(decode, id, Apply(decode, id, w, ops[0]), ops[1..]);
    }
  }

  /** The cycle a request creates, in files that did not exist. */
  function Newborn(req: NewCycleRequest, id: string, now: int): World
  {
    CreateCycle(World(Files(None, []), None, false), id, req, now, true)
  }

  /** Every created cycle conserves, has a positive cap whatever was asked for, and is not halted: so over
      any run of operations that lose no step it completes at most that many cycles, and as many as the
      ledger says. */
  lemma CreatedCyclesConserve(decode: Decoder, req: NewCycleRequest, id: string, now: int, ops: seq<Op>)
    requires FirstState(req, id, now).Ok? && forall op | op in ops :: Conserving(op)
    ensures var w := Newborn(req, id, now);
      && Conserved(w.files) && w.files.state.value.maxCycles > 0 && !w.files.state.value.halted
      && (req.maxCycles > 0 ==> w.files.state.value.maxCycles == req.maxCycles)
      && var f := ApplyAll(decode, id, w, ops).files;
         && f.state.Some? && Tally(f.ledger, f.state.value.completedCycles)
         && f.state.value.completedCycles <= w.files.state.value.maxCycles
  {
    var w := Newborn(req, id, now);
    var first := [CreatedEntry(now, id, req.pendingFiles)];
    InertTally(first);
    assert w.files.ledger == first;
    RunConserves(decode, id, w, ops);
  }

  function Sample(goal: string, cap: int, auto: bool): CycleState
  {
    CycleState("c", Preflight, 0, cap, [], goal, false, "", 0, "", auto, 0, 0)
  }

  function UndiscoveredTick(): DriverTick { DriverTick(0, 0, 0, [PassingGate], None, Io(true, true, true, true)) }

  /** A fresh capped cycle that finds its own goals, whose first step passes and whose goal discovery
      fails: the step is lost. */
  lemma DriverLosesStepHappens()
    ensures var f, tick := Files(Some(Sample("g", 1, true)), []), UndiscoveredTick();
      var one := DriverIteration(f.state, tick);
      Conserved(f) && DriverLosesStep(f, tick) && !Conserved(Files(one.file, f.ledger + one.entries))
  {
    var f, tick := Files(Some(Sample("g", 1, true)), []), UndiscoveredTick();
    assert "g"[0] in f.state.value.nextCycleGoal && !IsSpace("g"[0]);
    PassingStep(f.state.value, 0);
    assert PipelineKeepsCounters(tick.gates);
    DriverIterationConserves(f, tick);
  }

  /** What the one-gate pipeline that passes does to a cycle with a goal. */
  lemma PassingStep(s: CycleState, now: int)
    ensures ExecuteFrom([PassingGate], s, [], now) == StepResult(s, None, [PassingGate(s).0.report])
    ensures !s.halted && !Blank(s.nextCycleGoal) ==>
      Stepped([PassingGate], s, now) == StepResult(Completed(s, now), None, [PassingGate(s).0.report])
  {
    var gates: Pipeline := [PassingGate];
    assert gates[1..] == [];
    var reports := [] + [PassingGate(s).0.report];
    assert ExecuteFrom(gates, s, [], now) == ExecuteFrom([], s, reports, now);
    assert reports == [PassingGate(s).0.report];
  }

  // ---- The broker's own step --------------------------------------------------------------------

  lemma {:induction false} ReportsInert(now: int, id: string, reports: seq<GateReport>)
    ensures Inert(AllReportEntries(now, id, reports))
  {
    if reports != [] {
      ReportsInert(now, id, reports[..|reports| - 1]);
    }
  }

  /** The broker step records completion without looking at what completing answered: it conserves
      exactly when the pipeline failed, or left the cycle unhalted and the state could be written. */
  lemma BrokerRecordConserves(w: World, id: string, s: CycleState, r: StepResult, now: int, ok: bool)
    requires w.synced && w.files.state.Some? && SameCounters(w.files.state.value, s)
    requires Tally(w.files.ledger, s.completedCycles) && SameCounters(r.value, s)
    ensures var w' := Record(w, id, r, now, ok);
      && w'.files.state.Some?
      && (Tally(w'.files.ledger, w'.files.state.value.completedCycles) <==> (r.err.Some? || (ok && !r.value.halted)))
  {
    var reports := AllReportEntries(now, id, r.reports);
    ReportsInert(now, id, r.reports);
    InertTally(reports);
    if r.err.None? {
      GreenTally([], now, id);
      var pair := [GreenEntry(now, id), CompletedEntry(now, id)];
      assert [] + pair == pair;
      TallyAppend(pair, reports, 1, 0);
      TallyAppend(w.files.ledger, pair + reports, s.completedCycles, 1);
    } else {
      assert StepRecord(now, id, r) == reports;
      TallyAppend(w.files.ledger, reports, s.completedCycles, 0);
    }
  }

  function StepOp(goal: string, now: int): Op
  {
    StepHandler(goal, now, (s: CycleState) => [PassingGate], Io(true, true, true, true))
  }

  /** A broker world whose cache and file agree on an unhalted cycle. */
  predicate Steppable(w: World)
  {
    && w.cache.Some? && w.synced && w.files.state == w.cache && w.cache.value.id != "" && !w.cache.value.halted
    && !Seal.Sealed(w.files.ledger)
  }

  lemma BrokerStepCompletes(w: World, id: string, goal: string, now: int)
    requires Steppable(w) && !Blank(goal)
    ensures var w' := StepCycle(w, id, StepOp(goal, now));
      && Steppable(w') && w'.cache.value.completedCycles == w.cache.value.completedCycles + 1
      && w'.cache.value.maxCycles == w.cache.value.maxCycles
  {
    var s := StepInput(w.cache.value, goal);
    PassingStep(s, now);
    var r := StepResult(s, None, [PassingGate(s).0.report]);
    var record := StepRecord(now, id, r);
    assert AllReportEntries(now, id, r.reports) == [GateEntry(now, id, r.reports[0])] by {
      assert r.reports[..0] == [];
    }
    var green := w.files.ledger + [GreenEntry(now, id)];
    var rest := [CompletedEntry(now, id), GateEntry(now, id, r.reports[0])];
    assert w.files.ledger + record == green + rest;
    Seal.SealIgnores(green, rest);
  }

  function BrokerSteps(w: World, id: string, goal: string, n: nat): World
  {
    if n == 0 then w else StepCycle(BrokerSteps(w, id, goal, n - 1), id, StepOp(goal, 0))
  }

  /** The broker's step ignores the cap altogether: whatever it is, n steps that pass complete n cycles. */
  lemma {:induction false} BrokerStepsIgnoreCap(w: World, id: string, goal: string, n: nat)
    requires Steppable(w) && !Blank(goal)
    ensures var w' := BrokerSteps(w, id, goal, n);
      && Steppable(w') && w'.cache.value.maxCycles == w.cache.value.maxCycles
      && w'.files.state.value.completedCycles == w.cache.value.completedCycles + n
      && (w.cache.value.maxCycles > 0 && n > w.cache.value.maxCycles ==> !Bounded(w'.files.state.value))
  {
    if n > 0 {
      BrokerStepsIgnoreCap(w, id, goal, n - 1);
      BrokerStepCompletes(BrokerSteps(w, id, goal, n - 1), id, goal, 0);
    }
  }

  // ---- Termination -------------------------------------------------------------------------------

  /** A capped orchestration ends within its remaining cycles, whatever else goes wrong. */
  lemma {:induction false} LoopEnds(decode: Decoder, cfg: Config, f: Files, ticks: seq<Tick>)
    requires Conserved(f) && TicksKeepCounters(ticks)
    requires f.state.value.maxCycles > 0
    requires |ticks| >= 1 && |ticks| >= f.state.value.maxCycles - f.state.value.completedCycles
    ensures RunLoop(decode, cfg, f, ticks).1.Some?
    decreases |ticks|
  {
    assert ticks[0] in ticks;
    IterationConserves(decode, cfg, f, f.state.value, ticks[0]);
    var (f', outcome) := Iteration(decode, cfg, f, f.state.value, ticks[0]);
    if ticks[0].io.stateRead && outcome == Advanced(false) && ticks[0].io.slept {
      AdvancingLeavesRoom(decode, cfg, f, f.state.value, ticks[0]);
      LoopEnds(decode, cfg, f', ticks[1..]);
    }
  }

  lemma AdvancingLeavesRoom(decode: Decoder, cfg: Config, f: Files, s: CycleState, tick: Tick)
    requires Iteration(decode, cfg, f, s, tick).1 == Advanced(false)
    ensures var f' := Iteration(decode, cfg, f, s, tick).0;
      && f'.state.Some? && CanAdvance(f'.state.value, tick.after) && !LosesIteration(decode, cfg, f, s, tick)
  {
  }

  /** So does a capped driver loop. */
  lemma {:induction false} DriverEnds(f: Files, ticks: seq<DriverTick>)
    requires Conserved(f) && DriverTicksKeepCounters(ticks)
    requires f.state.value.maxCycles > 0
    requires |ticks| >= 1 && |ticks| >= f.state.value.maxCycles - f.state.value.completedCycles
    ensures !DriverRun(f.state, f.ledger, ticks).outcome.Running?
    decreases |ticks|
  {
    assert ticks[0] in ticks;
    DriverIterationConserves(f, ticks[0]);
    var one := DriverIteration(f.state, ticks[0]);
    if one.outcome.Running? {
      DriverEnds(Files(one.file, f.ledger + one.entries), ticks[1..]);
    }
  }

  function PassingGate(s: CycleState): (GateResult, CycleState)
  {
    (GateSuccess(GateReport("pass", true, "", "", [])), s)
  }

  /** A gate that passes and has the cycle look for its next goal itself. */
  function GoalSeekingGate(s: CycleState): (GateResult, CycleState)
  {
    (PassingGate(s).0, s.(autoGoal := true))
  }

  function EndlessTick(now: int): DriverTick
  {
    DriverTick(now, 0, 0, [GoalSeekingGate], Some("g"), Io(true, true, true, true))
  }

  /** An unhalted cycle with a goal and without a cap. */
  predicate Endless(file: Option<CycleState>)
  {
    file.Some? && !file.value.halted && file.value.maxCycles <= 0 && !Blank(file.value.nextCycleGoal)
  }

  /** n iterations whose gates leave the counters alone, with the loop still going. */
  ghost predicate Outlasts(file: Option<CycleState>, ledger: seq<Entry>, n: nat)
  {
    exists ticks: seq<DriverTick> :: |ticks| == n && StillRunning(file, ledger, ticks)
  }

  ghost predicate StillRunning(file: Option<CycleState>, ledger: seq<Entry>, ticks: seq<DriverTick>)
  {
    DriverTicksKeepCounters(ticks) && DriverRun(file, ledger, ticks).outcome.Running?
  }

  /** The driver loop can outlast any number of iterations exactly when the cycle has no cap, is not
      halted, and has a goal to start with: neither a deadline nor the lack of automatic goals is a bound. */
  lemma RunsOnIff(f: Files)
    requires Conserved(f)
    ensures (forall n: nat :: Outlasts(f.state, f.ledger, n)) <==> Endless(f.state)
  {
    if Endless(f.state) {
      forall n: nat
        ensures Outlasts(f.state, f.ledger, n)
      {
        EndlessRunsOn(f.state, f.ledger, n);
      }
    } else {
      var s := f.state.value;
      var n := if s.maxCycles > s.completedCycles then s.maxCycles - s.completedCycles else 1;
      forall ticks: seq<DriverTick> | |ticks| == n
        ensures !StillRunning(f.state, f.ledger, ticks)
      {
        if DriverTicksKeepCounters(ticks) {
          OthersEnd(f, ticks);
        }
      }
      assert !Outlasts(f.state, f.ledger, n);
    }
  }

  lemma OthersEnd(f: Files, ticks: seq<DriverTick>)
    requires Conserved(f) && DriverTicksKeepCounters(ticks) && !Endless(f.state)
    requires |ticks| >= 1 && |ticks| >= f.state.value.maxCycles - f.state.value.completedCycles
    ensures !DriverRun(f.state, f.ledger, ticks).outcome.Running?
  {
    if f.state.value.maxCycles > 0 {
      DriverEnds(f, ticks);
    } else {
      StoppedAtOnce(f.state, ticks[0]);
    }
  }

  lemma StoppedAtOnce(file: Option<CycleState>, tick: DriverTick)
    requires file.Some? && (file.value.halted || Blank(file.value.nextCycleGoal))
    ensures !DriverIteration(file, tick).outcome.Running?
  {
    assert Stepped(tick.gates, file.value, tick.now).err.Some? || file.value.halted;
  }

  lemma {:induction false} EndlessRunsOn(file: Option<CycleState>, ledger: seq<Entry>, n: nat)
    requires Endless(file)
    ensures Outlasts(file, ledger, n)
    decreases n
  {
    if n == 0 {
      assert StillRunning(file, ledger, []);
    } else {
      EndlessIteration(file);
      var tick := EndlessTick(0);
      var one := DriverIteration(file, tick);
      EndlessRunsOn(one.file, ledger + one.entries, n - 1);
      var rest: seq<DriverTick> :| |rest| == n - 1 && StillRunning(one.file, ledger + one.entries, rest);
      assert ([tick] + rest)[0] == tick && ([tick] + rest)[1..] == rest;
      assert PipelineKeepsCounters(tick.gates);
      assert StillRunning(file, ledger, [tick] + rest);
    }
  }

  lemma EndlessIteration(file: Option<CycleState>)
    requires Endless(file)
    ensures var one := DriverIteration(file, EndlessTick(0)); one.outcome.Running? && Endless(one.file)
  {
    var s := file.value;
    var gates: Pipeline := [GoalSeekingGate];
    assert gates[1..] == [];
    assert ExecuteFrom(gates, s, [], 0) == StepResult(s.(autoGoal := true), None, [] + [PassingGate(s).0.report]);
    assert "g"[0] in "g" && !IsSpace("g"[0]);
  }
}
