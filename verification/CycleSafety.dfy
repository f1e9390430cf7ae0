/** The halt seal and the anti-spin bound over whole runs of operations on one cycle. */
module CycleSafety {
  import opened CycleConservation
  import opened CycleDriver
  import opened CycleOps
  import opened CycleOrchestrator
  import opened CycleRun
  import opened CycleTypes
  import opened Ledger
  import Seal
  import Stuck
  import opened TurnTypes
  import opened Wrappers

  // ---- The seal is absorbing ----------------------------------------------------------------------

  /** Entries that record no progress. */
  predicate OnlyRecords(entries: seq<Entry>)
  {
    forall e | e in entries :: e.typ.CycleHalted? || e.typ.ToolUseDecision?
  }

  /** The ledger has grown by nothing but records, and it is still sealed. */
  predicate StillSealed(ledger: seq<Entry>, ledger': seq<Entry>)
  {
    ledger <= ledger' && OnlyRecords(ledger'[|ledger|..]) && Seal.Sealed(ledger')
  }

  lemma RecordKeepsSeal(ledger: seq<Entry>, e: Entry)
    requires Seal.Sealed(ledger) && OnlyRecords([e])
    ensures StillSealed(ledger, ledger + [e])
  {
    assert e in [e];
    assert (ledger + [e])[..|ledger|] == ledger;
    assert (ledger + [e])[|ledger|..] == [e];
  }

  /** One operation on a sealed cycle. Only the bare driver loop, which reads no ledger, is left out. */
  lemma OpKeepsSeal(decode: Decoder, id: string, w: World, op: Op)
    requires Seal.Sealed(w.files.ledger) && !op.DriveLoop?
    ensures StillSealed(w.files.ledger, Apply(decode, id, w, op).files.ledger)
  {
    assert w.files.ledger[|w.files.ledger|..] == [];
    if op.HaltHandler? && Get(w, op.io.stateRead).cache.Some? {
      RecordKeepsSeal(w.files.ledger, HaltEntry(op.now, id, HaltReasonOf(op.reason)));
    } else if op.ToolUse? && op.blocking {
      RecordKeepsSeal(w.files.ledger, ToolUseEntry(op.now, id, op.summary));
    }
  }

  lemma StillSealedTransitive(a: seq<Entry>, b: seq<Entry>, c: seq<Entry>)
    requires StillSealed(a, b) && StillSealed(b, c)
    ensures StillSealed(a, c)
  {
    var x, y := b[|a|..], c[|b|..];
    assert b == a + x && c == b + y;
    assert c[|a|..] == x + y;
  }

  /** Once halted without later progress, a cycle stays sealed under every sequence of operations, and
      its ledger never again shows a turn, a gate, a green or a completion. */
  lemma {:induction false} SealIsAbsorbing(decode: Decoder, id: string, w: World, ops: seq<Op>)
    requires Seal.Sealed(w.files.ledger) && forall op | op in ops :: !op.DriveLoop?
    ensures StillSealed(w.files.ledger, ApplyAll(decode, id, w, ops).files.ledger)
    decreases |ops|
  {
    if ops == [] {
      assert w.files.ledger[|w.files.ledger|..] == [];
    } else {
      assert ops[0] in ops;
      var w' := Apply(decode, id, w, ops[0]);
      OpKeepsSeal(decode, id, w, ops[0]);
      SealIsAbsorbing(decode, id, w', ops[1..]);
      StillSealedTransitive(w.files.ledger, w'.files.ledger, ApplyAll(decode, id, w', ops[1..]).files.ledger);
    }
  }

  /** A green lifts the seal, whatever came before. So the bare driver loop, stepping a cycle whose
      ledger is sealed, unseals it. */
  lemma GreenLiftsSeal(ledger: seq<Entry>, gates: Pipeline, s: CycleState, now: int)
    requires Stepped(gates, s, now).err.None?
    ensures !Seal.Sealed(ledger + StepEntries(gates, s, now))
  {
    var r := Stepped(gates, s, now);
    var front := ledger + ([PinEntry(now, s)] + GateEntries(now, r.value.id, r.reports));
    var green := front + [GreenEntry(now, r.value.id)];
    assert Seal.SealReason(green).None?;
    Seal.SealIgnores(green, [CompletedEntry(now, r.value.id)]);
    assert green + [CompletedEntry(now, r.value.id)] == ledger + StepEntries(gates, s, now);
  }

  // ---- Which halts seal ------------------------------------------------------------------------------

  lemma HaltEntrySeals(ledger: seq<Entry>, now: int, id: string, reason: HaltReason)
    ensures Seal.SealReason(ledger + [HaltEntry(now, id, reason)]) == Some(Seal.ParseHaltReasonOrStuck(reason))
  {
  }

  /** What a failed step records does not touch the seal. */
  lemma FailedStepKeepsSeal(ledger: seq<Entry>, gates: Pipeline, s: CycleState, now: int)
    requires Stepped(gates, s, now).err.Some?
    ensures Seal.SealReason(ledger + StepEntries(gates, s, now)) == Seal.SealReason(ledger)
  {
    Seal.SealIgnores(ledger, StepEntries(gates, s, now));
  }

  lemma TurnKeepsSeal(ledger: seq<Entry>, now: int, id: string, agent: string, resp: TurnResponse)
    ensures Seal.SealReason(ledger + TurnEntries(now, id, agent, resp)) == Seal.SealReason(ledger)
  {
    Seal.SealIgnores(ledger, TurnEntries(now, id, agent, resp));
  }

  /** A breaker trips, or the agent's handshake does not let the iteration reach the gates. */
  ghost predicate HaltsBeforeGates(decode: Decoder, cfg: Config, f: Files, s: CycleState, tick: Tick)
  {
    || Stuck.IsStuck(f.ledger) || Stuck.ExceedsCeiling(f.ledger, cfg.maxLifetimeTurns)
    || (TakesTurn(cfg, f, s, tick) && !Proceeds(decode, Answer(cfg, s, tick)))
  }

  lemma AfterTurnSeals(decode: Decoder, f: Files, s: CycleState, resp: TurnResponse, tick: Tick)
    requires !Seal.Sealed(f.ledger)
    ensures var (f', outcome) := AfterTurn(decode, f, s, resp, tick);
      outcome.HaltedWith? ==> (Seal.Sealed(f'.ledger) <==> !Proceeds(decode, resp))
  {
    HaltEntrySeals(f.ledger, tick.now, s.id, UNPARSEABLE_TURN);
    HaltEntrySeals(f.ledger, tick.now, s.id, USER_REQUESTED);
    if Proceeds(decode, resp) {
      var s' := AfterHandshake(decode, s, resp, tick.now);
      if Stepped(tick.pipeline(s'), s', tick.now).err.Some? {
        FailedStepKeepsSeal(f.ledger, tick.pipeline(s'), s', tick.now);
      }
    }
  }

  /** A halted iteration seals the ledger exactly when it halted ahead of the gates: the breakers and
      the handshake record the halt, a gate failure does not. */
  lemma IterationSeals(decode: Decoder, cfg: Config, f: Files, s: CycleState, tick: Tick)
    requires !Seal.Sealed(f.ledger)
    ensures var (f', outcome) := Iteration(decode, cfg, f, s, tick);
      outcome.HaltedWith? ==> (Seal.Sealed(f'.ledger) <==> HaltsBeforeGates(decode, cfg, f, s, tick))
  {
    HaltEntrySeals(f.ledger, tick.now, s.id, STUCK);
    HaltEntrySeals(f.ledger, tick.now, s.id, BUDGET_EXCEEDED);
    if TakesTurn(cfg, f, s, tick) {
      var agent, resp := AgentFor(cfg, s.completedCycles), Answer(cfg, s, tick);
      TurnKeepsSeal(f.ledger, tick.now, s.id, agent, resp);
      AfterTurnSeals(decode, Turned(f, s, agent, resp, tick.now), s, resp, tick);
    }
  }

  /** The reference pass seals on every halt it reports. */
  lemma ReferencePassSeals(opts: Options, f: Files, s: CycleState, tick: Tick)
    ensures var (f', exit) := ReferencePass(opts, f, s, tick);
      exit.Reported? ==> Seal.SealReason(f'.ledger) == Some(Seal.ParseHaltReasonOrStuck(exit.reason))
  {
    HaltEntrySeals(f.ledger, tick.now, s.id, STUCK);
    HaltEntrySeals(f.ledger, tick.now, s.id, BUDGET_EXCEEDED);
    var gates := tick.pipeline(s);
    var r := Stepped(gates, s, tick.now);
    if r.err.Some? && r.err.value.HaltedError? {
      HaltEntrySeals(f.ledger + StepEntries(gates, s, tick.now), tick.now, r.value.id, r.err.value.reason);
    }
  }

  // ---- Halts that reach the disk out of band ------------------------------------------------------------

  /** The gate neither halts a cycle itself nor lifts a halt. */
  ghost predicate KeepsHalted(g: Gate) { forall s :: g(s).1.halted == s.halted }

  lemma {:induction false} ExecuteKeepsHalted(gates: Pipeline, s: CycleState, reports: seq<GateReport>, now: int)
    requires forall g | g in gates :: KeepsHalted(g)
    ensures var r := ExecuteFrom(gates, s, reports, now); r.err.None? ==> r.value.halted == s.halted
    decreases |gates|
  {
    if gates != [] {
      assert gates[0] in gates && KeepsHalted(gates[0]);
      ExecuteKeepsHalted(gates[1..], gates[0](s).1, reports + [gates[0](s).0.report], now);
    }
  }

  /** A broker step whose gates all pass, and neither halt a cycle themselves nor lift a halt, leaves a
      halt that another process wrote in force exactly when the disk copy is at least as fresh as the
      broker's own, or that copy is halted too. A newer unhalted copy overwrites it. */
  lemma StepKeepsDiskHaltIff(w: World, id: string, op: Op)
    requires op.StepHandler? && op.io == Io(true, true, true, op.io.slept) && !Blank(op.goal)
    requires OnDisk(w, true) && w.files.state.value.halted && w.synced && !Seal.Sealed(w.files.ledger)
    requires var s := StepInput(Get(Refresh(w, true), true).cache.value, op.goal);
      && (forall g | g in op.pipeline(s) :: KeepsHalted(g)) && ExecuteFrom(op.pipeline(s), s, [], op.now).err.None?
    ensures var w' := StepCycle(w, id, op);
      && w'.files.state.Some?
      && (w'.files.state.value.halted <==>
            w.cache.None? || w.cache.value.updatedAt <= w.files.state.value.updatedAt || w.cache.value.halted)
  {
    var s := StepInput(Get(Refresh(w, true), true).cache.value, op.goal);
    ExecuteKeepsHalted(op.pipeline(s), s, [], op.now);
  }

  // ---- Re-triggering ---------------------------------------------------------------------------------

  /** The state file is sealed too, for this reason. */
  predicate HaltedFor(f: Files, reason: HaltReason)
  {
    f.state.Some? && f.state.value.id != "" && f.state.value.halted && f.state.value.haltReason == reason
  }

  /** A pass over a halted state that reads reports its reason; in any case it changes nothing. */
  lemma HaltedPassRepeats(decode: Decoder, opts: Options, f: Files, reason: HaltReason, start: Start, tick: Tick)
    requires HaltedFor(f, reason)
    ensures Pass(decode, opts, f, start, tick)
         == (f, if start.stateRead then Reported(reason, "") else OperationalError)
  {
  }

  lemma StepHaltsFor(gates: Pipeline, s: CycleState, now: int)
    requires PipelineKeepsCounters(gates)
    ensures var r := Stepped(gates, s, now);
      r.err.Some? && r.err.value.HaltedError? ==>
        r.value.id == s.id && r.value.halted && r.value.haltReason == r.err.value.reason
  {
    ExecuteKeepsCounters(gates, s, [], now);
    ExecuteErrsOnlyByHalting(gates, s, [], now);
  }

  lemma IterationHaltsFor(decode: Decoder, cfg: Config, f: Files, s: CycleState, tick: Tick)
    requires s.id != "" && FactoryKeepsCounters(tick.pipeline)
    ensures var (f', outcome) := Iteration(decode, cfg, f, s, tick);
      outcome.HaltedWith? ==> if tick.io.stateWrite then HaltedFor(f', outcome.reason) else f'.state == f.state
  {
    if TakesTurn(cfg, f, s, tick) && Proceeds(decode, Answer(cfg, s, tick)) {
      var s' := AfterHandshake(decode, s, Answer(cfg, s, tick), tick.now);
      assert PipelineKeepsCounters(tick.pipeline(s'));
      StepHaltsFor(tick.pipeline(s'), s', tick.now);
    }
  }

  lemma ReferencePassHaltsFor(opts: Options, f: Files, s: CycleState, tick: Tick)
    requires s.id != "" && FactoryKeepsCounters(tick.pipeline)
    ensures var (f', exit) := ReferencePass(opts, f, s, tick);
      exit.Reported? ==> HaltedFor(f', exit.reason)
  {
    assert PipelineKeepsCounters(tick.pipeline(s));
    StepHaltsFor(tick.pipeline(s), s, tick.now);
  }

  /** Refused on the ledger's seal alone, with a state file that does not say halted. */
  predicate RefusedBySealOnly(f: Files, start: Start)
  {
    && start.stateRead && f.state.Some? && f.state.value.id != "" && CanAdvance(f.state.value, start.elapsed)
    && start.ledgerRead && Seal.Sealed(f.ledger)
  }

  /** A pass with agents whose state cannot be written: the orchestrator ignores that error. */
  predicate WritesUnnoticed(opts: Options, f: Files, start: Start, tick: Tick)
  {
    Starts(f, start) && opts.agents != [] && !tick.io.stateWrite
  }

  /** A pass that reports a halt leaves a state file halted for that reason, exactly unless it was the seal
      alone that refused, or the write failed and was not noticed; either of those leaves the state file
      as it was, which is not halted. */
  lemma ReportingPassHalts(decode: Decoder, opts: Options, f: Files, start: Start, tick: Tick)
    requires FactoryKeepsCounters(tick.pipeline)
    requires Pass(decode, opts, f, start, tick).1.Reported?
    ensures var (f', exit) := Pass(decode, opts, f, start, tick);
      && (HaltedFor(f', exit.reason) <==> !RefusedBySealOnly(f, start) && !WritesUnnoticed(opts, f, start, tick))
      && (!HaltedFor(f', exit.reason) ==> f'.state == f.state && f.state.Some? && !f.state.value.halted)
  {
    if Starts(f, start) {
      var s := WithGoal(f.state.value, opts.goal);
      if opts.agents != [] {
        IterationHaltsFor(decode, OnceConfig(opts), f, s, tick);
      } else {
        ReferencePassHaltsFor(opts, f, s, tick);
      }
    }
  }

  /** The later passes, whose state file reads. */
  ghost predicate Retriggers(ops: seq<Op>)
  {
    forall op | op in ops :: op.OneShot? && op.start.stateRead
  }

  /** After a pass that sealed the cycle, every later pass changes nothing and exits with the same code. */
  lemma {:induction false} RetriggersKeepTheCode(
      decode: Decoder, id: string, opts: Options, w: World, start: Start, tick: Tick, ops: seq<Op>)
    requires FactoryKeepsCounters(tick.pipeline) && tick.io.stateWrite
    requires Pass(decode, opts, w.files, start, tick).1.Reported?
    requires !RefusedBySealOnly(w.files, start) && Retriggers(ops)
    ensures var (f, exit) := Pass(decode, opts, w.files, start, tick);
      var w' := w.(files := f);
      && ApplyAll(decode, id, w', ops) == w'
      && forall op | op in ops :: ExitCode(Pass(decode, op.opts, f, op.start, op.tick).1) == ExitCode(exit)
  {
    ReportingPassHalts(decode, opts, w.files, start, tick);
    var (f, exit) := Pass(decode, opts, w.files, start, tick);
    HaltedWorldIsFixed(decode, id, w.(files := f), exit.reason, ops);
    forall op | op in ops
      ensures ExitCode(Pass(decode, op.opts, f, op.start, op.tick).1) == ExitCode(exit)
    {
      HaltedPassRepeats(decode, op.opts, f, exit.reason, op.start, op.tick);
    }
  }

  lemma {:induction false} HaltedWorldIsFixed(decode: Decoder, id: string, w: World, reason: HaltReason, ops: seq<Op>)
    requires HaltedFor(w.files, reason) && Retriggers(ops)
    ensures ApplyAll(decode, id, w, ops) == w
    decreases |ops|
  {
    if ops != [] {
      assert ops[0] in ops;
      HaltedPassRepeats(decode, ops[0].opts, w.files, reason, ops[0].start, ops[0].tick);
      HaltedWorldIsFixed(decode, id, w, reason, ops[1..]);
    }
  }

  /** Where only the seal refuses, a later pass exits with the same code exactly as long as the state
      could still advance, or when the halt was a success: past its deadline the same cycle exits 0, for
      that check comes first. */
  lemma SealOnlyRefusalRepeats(
      decode: Decoder, opts: Options, f: Files, start: Start, opts': Options, start': Start, tick: Tick, tick': Tick)
    requires RefusedBySealOnly(f, start) && start'.stateRead && start'.ledgerRead
    ensures ExitCode(Pass(decode, opts', f, start', tick').1) == ExitCode(Pass(decode, opts, f, start, tick).1)
        <==> CanAdvance(f.state.value, start'.elapsed) || Seal.SealReason(f.ledger) == Some(SUCCESS)
  {
    ExitCodeIdentifiesReason(SUCCESS, Seal.SealReason(f.ledger).value);
  }

  /** How such a cycle comes about: a reference pass writes its halt entry and then cannot write the
      state. It exits 1, and every pass that starts while the state could advance is refused by the seal
      alone. */
  lemma TornHaltIsRefusedBySealOnly(decode: Decoder, opts: Options, f: Files, start: Start, tick: Tick, start': Start)
    requires Starts(f, start) && opts.agents == [] && !tick.io.stateWrite
    requires Stuck.IsStuck(f.ledger) || Stuck.ExceedsCeiling(f.ledger, opts.maxLifetimeTurns)
    ensures var (f', exit) := Pass(decode, opts, f, start, tick);
      && exit == OperationalError && f'.state == f.state
      && (start'.stateRead && start'.ledgerRead ==>
            (RefusedBySealOnly(f', start') <==> CanAdvance(f.state.value, start'.elapsed)))
  {
    HaltEntrySeals(f.ledger, tick.now, f.state.value.id, STUCK);
    HaltEntrySeals(f.ledger, tick.now, f.state.value.id, BUDGET_EXCEEDED);
  }

  /** A concrete one: one recorded turn, a ceiling of one, a five-minute deadline. The torn pass exits 1,
      the next one 11, and the one past the deadline 0. */
  lemma TornHaltHappens(decode: Decoder, tick: Tick)
    requires !tick.io.stateWrite
    ensures var opts := Options("", 1, []);
      var f := Files(Some(Sample("g", 0, false).(maxDurationMinutes := 5, startedAt := 1)), [OneTurn()]);
      var f' := Pass(decode, opts, f, Start(0, true, true), tick).0;
      && ExitCode(Pass(decode, opts, f, Start(0, true, true), tick).1) == EXIT_OPERATIONAL
      && ExitCode(Pass(decode, opts, f', Start(0, true, true), tick).1) == EXIT_BUDGET
      && ExitCode(Pass(decode, opts, f', Start(5, true, true), tick).1) == EXIT_CLEAN_PASS
  {
    var opts := Options("", 1, []);
    var f := Files(Some(Sample("g", 0, false).(maxDurationMinutes := 5, startedAt := 1)), [OneTurn()]);
    OneTurnIsNotStuck();
    HaltEntrySeals(f.ledger, tick.now, "c", BUDGET_EXCEEDED);
    assert WithGoal(f.state.value, "") == f.state.value;
    Seal.SealIgnores([], [OneTurn()]);
    assert [] + [OneTurn()] == [OneTurn()];
  }

  function OneTurn(): Entry { NewEntry(0, "c", AgentTurn, "t", []) }

  lemma OneTurnIsNotStuck()
    ensures |Stuck.Fingerprints([OneTurn()])| == 1 && !Stuck.IsStuck([OneTurn()])
  {
    assert Stuck.EqualTurns(OneTurn(), 1) == [OneTurn()];
    Stuck.EqualFingerprints(OneTurn(), 1);
    Stuck.FewEqualTurns(OneTurn(), 1);
  }

  // ---- The anti-spin bound ----------------------------------------------------------------------------

  /** From ledger to ledger', every agent turn was granted by both breakers. */
  ghost predicate Guarded(ledger: seq<Entry>, ledger': seq<Entry>, ceiling: int)
  {
    ledger <= ledger' && Stuck.GuardedFrom(ledger', |ledger|, ceiling)
  }

  lemma QuietIsGuarded(ledger: seq<Entry>, more: seq<Entry>, ceiling: int)
    requires forall e | e in more :: !e.typ.AgentTurn?
    ensures Guarded(ledger, ledger + more, ceiling)
  {
    var all := ledger + more;
    forall i | |ledger| <= i < |all|
      ensures !all[i].typ.AgentTurn?
    {
      assert all[i] == more[i - |ledger|];
    }
  }

  lemma GrantIsGuarded(ledger: seq<Entry>, turn: Entry, ceiling: int)
    requires !Stuck.IsStuck(ledger) && !Stuck.ExceedsCeiling(ledger, ceiling)
    ensures Guarded(ledger, ledger + [turn], ceiling)
  {
    assert (ledger + [turn])[..|ledger|] == ledger;
  }

  lemma GuardedTransitive(a: seq<Entry>, b: seq<Entry>, c: seq<Entry>, ceiling: int)
    requires Guarded(a, b, ceiling) && Guarded(b, c, ceiling)
    ensures Guarded(a, c, ceiling)
  {
    forall i | |a| <= i < |c| && c[i].typ.AgentTurn?
      ensures !Stuck.IsStuck(c[..i]) && !Stuck.ExceedsCeiling(c[..i], ceiling)
    {
      if i < |b| {
        assert c[..i] == b[..i] && c[i] == b[i];
      }
    }
  }

  lemma StepIsQuiet(ledger: seq<Entry>, gates: Pipeline, s: CycleState, now: int, ceiling: int)
    ensures Guarded(ledger, ledger + StepEntries(gates, s, now), ceiling)
  {
    QuietIsGuarded(ledger, StepEntries(gates, s, now), ceiling);
  }

  lemma HaltIsQuiet(ledger: seq<Entry>, now: int, id: string, reason: HaltReason, ceiling: int)
    ensures Guarded(ledger, ledger + [HaltEntry(now, id, reason)], ceiling)
  {
    QuietIsGuarded(ledger, [HaltEntry(now, id, reason)], ceiling);
  }

  lemma TurnIsGuarded(ledger: seq<Entry>, now: int, id: string, agent: string, resp: TurnResponse, ceiling: int)
    requires !Stuck.IsStuck(ledger) && !Stuck.ExceedsCeiling(ledger, ceiling)
    ensures Guarded(ledger, ledger + TurnEntries(now, id, agent, resp), ceiling)
  {
    var entries := TurnEntries(now, id, agent, resp);
    var granted := ledger + [entries[0]];
    GrantIsGuarded(ledger, entries[0], ceiling);
    QuietIsGuarded(granted, entries[1..], ceiling);
    GuardedTransitive(ledger, granted, granted + entries[1..], ceiling);
    assert granted + entries[1..] == ledger + entries;
  }

  lemma AfterTurnIsGuarded(decode: Decoder, f: Files, s: CycleState, resp: TurnResponse, tick: Tick, ceiling: int)
    ensures Guarded(f.ledger, AfterTurn(decode, f, s, resp, tick).0.ledger, ceiling)
  {
    HaltIsQuiet(f.ledger, tick.now, s.id, UNPARSEABLE_TURN, ceiling);
    HaltIsQuiet(f.ledger, tick.now, s.id, USER_REQUESTED, ceiling);
    if Proceeds(decode, resp) {
      var s' := AfterHandshake(decode, s, resp, tick.now);
      StepIsQuiet(f.ledger, tick.pipeline(s'), s', tick.now, ceiling);
    }
  }

  lemma NothingIsGuarded(ledger: seq<Entry>, ceiling: int)
    ensures Guarded(ledger, ledger, ceiling)
  {
    QuietIsGuarded(ledger, [], ceiling);
    assert ledger + [] == ledger;
  }

  lemma IterationIsGuarded(decode: Decoder, cfg: Config, f: Files, s: CycleState, tick: Tick)
    ensures Guarded(f.ledger, Iteration(decode, cfg, f, s, tick).0.ledger, cfg.maxLifetimeTurns)
  {
    var ceiling := cfg.maxLifetimeTurns;
    HaltIsQuiet(f.ledger, tick.now, s.id, STUCK, ceiling);
    HaltIsQuiet(f.ledger, tick.now, s.id, BUDGET_EXCEEDED, ceiling);
    NothingIsGuarded(f.ledger, ceiling);
    if TakesTurn(cfg, f, s, tick) {
      var agent, resp := AgentFor(cfg, s.completedCycles), Answer(cfg, s, tick);
      var turned := Turned(f, s, agent, resp, tick.now);
      TurnIsGuarded(f.ledger, tick.now, s.id, agent, resp, ceiling);
      AfterTurnIsGuarded(decode, turned, s, resp, tick, ceiling);
      GuardedTransitive(f.ledger, turned.ledger, AfterTurn(decode, turned, s, resp, tick).0.ledger, ceiling);
    }
  }

  lemma {:induction false} LoopIsGuarded(decode: Decoder, cfg: Config, f: Files, ticks: seq<Tick>)
    ensures Guarded(f.ledger, RunLoop(decode, cfg, f, ticks).0.ledger, cfg.maxLifetimeTurns)
    decreases |ticks|
  {
    NothingIsGuarded(f.ledger, cfg.maxLifetimeTurns);
    if ticks != [] && ticks[0].io.stateRead {
      var s := ReadState(f.state);
      IterationIsGuarded(decode, cfg, f, s, ticks[0]);
      var (f', outcome) := Iteration(decode, cfg, f, s, ticks[0]);
      if outcome == Advanced(false) && ticks[0].io.slept {
        LoopIsGuarded(decode, cfg, f', ticks[1..]);
        var end := RunLoop(decode, cfg, f', ticks[1..]).0;
        GuardedTransitive(f.ledger, f'.ledger, end.ledger, cfg.maxLifetimeTurns);
      }
    }
  }

  lemma DriverIterationIsQuiet(file: Option<CycleState>, ledger: seq<Entry>, tick: DriverTick, ceiling: int)
    ensures Guarded(ledger, ledger + DriverIteration(file, tick).entries, ceiling)
  {
    QuietIsGuarded(ledger, [], ceiling);
    StepIsQuiet(ledger, tick.gates, ReadState(file), tick.now, ceiling);
  }

  lemma {:induction false} DriverIsQuiet(
      file: Option<CycleState>, ledger: seq<Entry>, ticks: seq<DriverTick>, ceiling: int)
    ensures Guarded(ledger, DriverRun(file, ledger, ticks).entries, ceiling)
    decreases |ticks|
  {
    NothingIsGuarded(ledger, ceiling);
    if ticks != [] {
      var one := DriverIteration(file, ticks[0]);
      DriverIterationIsQuiet(file, ledger, ticks[0], ceiling);
      if one.outcome.Running? {
        DriverIsQuiet(one.file, ledger + one.entries, ticks[1..], ceiling);
        var end := DriverRun(one.file, ledger + one.entries, ticks[1..]);
        GuardedTransitive(ledger, ledger + one.entries, end.entries, ceiling);
      }
    }
  }

  lemma ReferencePassIsQuiet(opts: Options, f: Files, s: CycleState, tick: Tick, ceiling: int)
    ensures Guarded(f.ledger, ReferencePass(opts, f, s, tick).0.ledger, ceiling)
  {
    HaltIsQuiet(f.ledger, tick.now, s.id, STUCK, ceiling);
    HaltIsQuiet(f.ledger, tick.now, s.id, BUDGET_EXCEEDED, ceiling);
    var gates := tick.pipeline(s);
    var r := Stepped(gates, s, tick.now);
    var ledger := f.ledger + StepEntries(gates, s, tick.now);
    StepIsQuiet(f.ledger, gates, s, tick.now, ceiling);
    if r.err.Some? && r.err.value.HaltedError? {
      HaltIsQuiet(ledger, tick.now, r.value.id, r.err.value.reason, ceiling);
      GuardedTransitive(f.ledger, ledger, ledger + [HaltEntry(tick.now, r.value.id, r.err.value.reason)], ceiling);
    }
  }

  lemma {:induction false} ReportsAreQuiet(now: int, id: string, reports: seq<GateReport>)
    ensures forall e | e in AllReportEntries(now, id, reports) :: !e.typ.AgentTurn?
  {
    if reports != [] {
      ReportsAreQuiet(now, id, reports[..|reports| - 1]);
    }
  }

  lemma BrokerStepIsQuiet(w: World, id: string, r: StepResult, now: int, ok: bool, ceiling: int)
    ensures Guarded(w.files.ledger, Record(w, id, r, now, ok).files.ledger, ceiling)
  {
    ReportsAreQuiet(now, id, r.reports);
    QuietIsGuarded(w.files.ledger, StepRecord(now, id, r), ceiling);
  }

  /** All operations that can start a turn use the same ceiling. */
  predicate UsesCeiling(op: Op, ceiling: int)
  {
    && (op.OneShot? ==> op.opts.maxLifetimeTurns == ceiling)
    && (op.OrchestrateHandler? ==> op.cfg.maxLifetimeTurns == ceiling)
  }

  lemma OpIsGuarded(decode: Decoder, id: string, w: World, op: Op, ceiling: int)
    requires UsesCeiling(op, ceiling)
    ensures Guarded(w.files.ledger, Apply(decode, id, w, op).files.ledger, ceiling)
  {
    NothingIsGuarded(w.files.ledger, ceiling);
    if op.OneShot? {
      var s := WithGoal(ReadState(w.files.state), op.opts.goal);
      IterationIsGuarded(decode, OnceConfig(op.opts), w.files, s, op.tick);
      ReferencePassIsQuiet(op.opts, w.files, s, op.tick, ceiling);
    } else if op.DriveLoop? {
      DriverIsQuiet(w.files.state, w.files.ledger, op.driverTicks, ceiling);
    } else if op.OrchestrateHandler? {
      LoopIsGuarded(decode, op.cfg, w.files, op.ticks);
    } else {
      HandlerIsQuiet(decode, id, w, op, ceiling);
    }
  }

  lemma HandlerIsQuiet(decode: Decoder, id: string, w: World, op: Op, ceiling: int)
    requires op.StepHandler? || op.HaltHandler? || op.ToolUse?
    ensures Guarded(w.files.ledger, Apply(decode, id, w, op).files.ledger, ceiling)
  {
    NothingIsGuarded(w.files.ledger, ceiling);
    if op.ToolUse? {
      QuietIsGuarded(w.files.ledger, [ToolUseEntry(op.now, id, op.summary)], ceiling);
    } else if op.HaltHandler? {
      HaltIsQuiet(w.files.ledger, op.now, id, HaltReasonOf(op.reason), ceiling);
    } else {
      var w' := Get(Refresh(w, op.io.stateRead), op.io.stateRead);
      if w'.cache.Some? {
        var s := StepInput(w'.cache.value, op.goal);
        BrokerStepIsQuiet(w', id, ExecuteFrom(op.pipeline(s), s, [], op.now), op.now, op.io.stateWrite, ceiling);
      }
    }
  }

  lemma {:induction false} RunIsGuarded(decode: Decoder, id: string, w: World, ops: seq<Op>, ceiling: int)
    requires forall op | op in ops :: UsesCeiling(op, ceiling)
    ensures Guarded(w.files.ledger, ApplyAll(decode, id, w, ops).files.ledger, ceiling)
    decreases |ops|
  {
    NothingIsGuarded(w.files.ledger, ceiling);
    if ops != [] {
      assert ops[0] in ops;
      var w' := Apply(decode, id, w, ops[0]);
      OpIsGuarded(decode, id, w, ops[0], ceiling);
      RunIsGuarded(decode, id, w', ops[1..], ceiling);
      GuardedTransitive(w.files.ledger, w'.files.ledger, ApplyAll(decode, id, w', ops[1..]).files.ledger, ceiling);
    }
  }

  /** Across any revivals, a cycle is granted turns only up to 3d + 1 for its d distinct turn
      fingerprints, and only up to a positive ceiling. */
  lemma RevivalsAreBounded(decode: Decoder, id: string, w: World, ops: seq<Op>, ceiling: int)
    requires forall op | op in ops :: UsesCeiling(op, ceiling)
    ensures var before, after := w.files.ledger, ApplyAll(decode, id, w, ops).files.ledger;
      |Stuck.Fingerprints(after)| > |Stuck.Fingerprints(before)| ==>
        && |Stuck.Fingerprints(after)| <= 3 * |Stuck.Distinct(after)| + 1
        && (ceiling > 0 ==> |Stuck.Fingerprints(after)| <= ceiling)
  {
    var before, after := w.files.ledger, ApplyAll(decode, id, w, ops).files.ledger;
    RunIsGuarded(decode, id, w, ops, ceiling);
    Stuck.TurnsAreBounded(after, |before|, ceiling);
    assert after[..|before|] == before;
  }

  // ---- A halted cycle the ledger does not seal ------------------------------------------------------

  /** A gate failure in an orchestrated iteration halts the state but leaves the ledger unsealed, so a
      later broker step whose gates pass puts a green and a completion on the ledger without counting
      a cycle. */
  lemma GateHaltThenBrokerStepMiscounts(
      decode: Decoder, cfg: Config, f: Files, tick: Tick, id: string, goal: string, now: int)
    requires Conserved(f) && f.state.value.id != "" && !Seal.Sealed(f.ledger)
    requires FactoryKeepsCounters(tick.pipeline) && tick.io.stateWrite && !Blank(goal)
    requires TakesTurn(cfg, f, f.state.value, tick) && Proceeds(decode, Answer(cfg, f.state.value, tick))
    requires var s := AfterHandshake(decode, f.state.value, Answer(cfg, f.state.value, tick), tick.now);
      var r := Stepped(tick.pipeline(s), s, tick.now);
      r.err.Some? && r.err.value.HaltedError?
    ensures var f' := Iteration(decode, cfg, f, f.state.value, tick).0;
      var w := StepCycle(World(f', None, false), id, StepOp(goal, now));
      && Conserved(f') && f'.state.value.halted && !Seal.Sealed(f'.ledger)
      && w.files.state.Some? && !Tally(w.files.ledger, w.files.state.value.completedCycles)
  {
    var s := f.state.value;
    IterationConserves(decode, cfg, f, s, tick);
    IterationSeals(decode, cfg, f, s, tick);
    IterationHaltsFor(decode, cfg, f, s, tick);
    var f' := Iteration(decode, cfg, f, s, tick).0;
    var w := World(f', f'.state, true);
    var s' := StepInput(f'.state.value, goal);
    PassingStep(s', now);
    BrokerRecordConserves(w, id, s', ExecuteFrom([PassingGate], s', [], now), now, true);
  }

  function FailingGate(s: CycleState): (GateResult, CycleState)
  {
    (GateFailure(GateReport("fail", false, "", "", []), GATE_FAILURE), s)
  }

  lemma FailingStep(s: CycleState, now: int)
    requires !Blank(s.nextCycleGoal)
    ensures var r := Stepped([FailingGate], s, now); r.err.Some? && r.err.value.HaltedError?
  {
  }

  /** A concrete one: a fresh cycle, an agent that answers nothing, and a gate that fails. */
  lemma GateHaltMiscountHappens(decode: Decoder)
    ensures var tick := Tick(0, 0, 0, (name: string) => Response(TurnResponse(false, "", "", [], "", None)),
              (s: CycleState) => [FailingGate], Io(true, true, true, true));
      var f := Files(Some(Sample("g", 1, false)), []);
      var f' := Iteration(decode, Config(["a"], 0, 0), f, f.state.value, tick).0;
      var w := StepCycle(World(f', None, false), "c", StepOp("g", 0));
      && Conserved(f) && Conserved(f') && f'.state.value.halted
      && w.files.state.Some? && !Tally(w.files.ledger, w.files.state.value.completedCycles)
  {
    var tick := Tick(0, 0, 0, (name: string) => Response(TurnResponse(false, "", "", [], "", None)),
      (s: CycleState) => [FailingGate], Io(true, true, true, true));
    var cfg, f := Config(["a"], 0, 0), Files(Some(Sample("g", 1, false)), []);
    var s := f.state.value;
    assert Stuck.EqualTurns(OneTurn(), 0) == [];
    Stuck.FewEqualTurns(OneTurn(), 0);
    assert "g"[0] in s.nextCycleGoal && !IsSpace("g"[0]);
    assert TakesTurn(cfg, f, s, tick) && Proceeds(decode, Answer(cfg, s, tick));
    FailingStep(AfterHandshake(decode, s, Answer(cfg, s, tick), tick.now), 0);
    GateHaltThenBrokerStepMiscounts(decode, cfg, f, tick, "c", "g", 0);
  }
}
