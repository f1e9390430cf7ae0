/** What single operations on a cycle leave, told from what the gates answer: which state each gate is
    handed, which entries reach the ledger in which order, and which fields change. */
module CycleSteps {
  import opened CycleConservation
  import CycleCreate
  import opened CycleDriver
  import opened CycleOps
  import opened CycleOrchestrator
  import opened CycleRun
  import opened CycleTypes
  import opened Ledger
  import Seal
  import Stuck
  import StuckPositions
  import opened TurnTypes
  import opened Wrappers

  // ---- Entries ---------------------------------------------------------------------------------------

  /** An entry before it is linked, with no agent, handoff or gate. */
  function Note(now: int, id: string, typ: EventType, summary: string, files: seq<string>): Entry
  {
    Entry("1", now, id, typ, "", "", "", summary, files, None, [], [])
  }

  /** A report under its gate's name: what it printed if it passed, the error otherwise. */
  function ReportNote(now: int, id: string, r: GateReport): Entry
  {
    if r.passed then Entry("1", now, id, GatePassed, "", "", r.gate, r.stdout, [], None, [], [])
    else Entry("1", now, id, GateFailed, "", "", r.gate, r.stderr, [], None, [], [])
  }

  ghost predicate AreNotesOf(entries: seq<Entry>, now: int, id: string, reports: seq<GateReport>)
  {
    |entries| == |reports| && forall i | 0 <= i < |reports| :: entries[i] == ReportNote(now, id, reports[i])
  }

  /** The turn under the agent's name, and behind it the handoff if the agent names someone. */
  function TurnNotes(now: int, id: string, agent: string, resp: TurnResponse): seq<Entry>
  {
    var turn := Entry("1", now, id, AgentTurn, agent, "", "", resp.summary, resp.artifacts, None, [], []);
    if resp.handoffTo == "" then [turn]
    else [turn, turn.(typ := HandoffCreated, handoffTo := resp.handoffTo)]
  }

  // ---- White space -----------------------------------------------------------------------------------

  /** White space by code point, as Unicode has it. */
  predicate IsSpaceCode(n: int)
  {
    || 9 <= n < 14 || n == 32 || n == 133 || n == 160 || n == 5760 || 8192 <= n < 8203
    || n == 8232 || n == 8233 || n == 8239 || n == 8287 || n == 12288
  }

  lemma SpacesAre(c: char)
    ensures IsSpace(c) <==> IsSpaceCode(c as int)
  {
    assert c in " \U{0085}\U{00A0}\U{1680}" <==> c in [' ', '\U{0085}', '\U{00A0}', '\U{1680}'];
  }

  // ---- Going on --------------------------------------------------------------------------------------

  /** A cycle goes on while it is not halted, below a positive cap, and, once started, before a positive
      deadline. */
  lemma CanAdvanceIff(s: CycleState, elapsed: int)
    ensures CanAdvance(s, elapsed) <==>
      && !s.halted && (s.maxCycles <= 0 || s.completedCycles < s.maxCycles)
      && (s.maxDurationMinutes <= 0 || s.startedAt <= 0 || elapsed < s.maxDurationMinutes)
  {
  }

  // ---- One gated step --------------------------------------------------------------------------------

  predicate HasGoal(s: CycleState) { exists i :: 0 <= i < |s.nextCycleGoal| && !IsSpace(s.nextCycleGoal[i]) }

  ghost predicate AllPass(gates: Pipeline, s: CycleState) { PassesTo(gates, s, |gates|) }

  /** Gate k is the first to fail; it and those before it were run, each on what its predecessor left. */
  ghost predicate FailsAt(gates: Pipeline, s: CycleState, k: nat)
  {
    k < |gates| && PassesTo(gates, s, k) && ResultAt(gates, s, k).GateFailure?
  }

  /** What gate k left, and its name. */
  function FailedBy(gates: Pipeline, s: CycleState, k: nat): CycleState
    requires k < |gates|
  {
    StateAt(gates, s, k + 1).(lastFailedGate := ResultAt(gates, s, k).report.gate)
  }

  /** The reports of the first n gates. */
  ghost predicate AreReports(gates: Pipeline, s: CycleState, reports: seq<GateReport>, n: nat)
  {
    n <= |gates| && |reports| == n && forall i | 0 <= i < n :: reports[i] == ResultAt(gates, s, i).report
  }

  /** One more cycle, and the goal is used up. */
  predicate OneMore(s: CycleState, s': CycleState, now: int)
  {
    s' == s.(completedCycles := s.completedCycles + 1, phase := Preflight, nextCycleGoal := "", updatedAt := now)
  }

  predicate HaltedIs(s: CycleState, s': CycleState, reason: string, now: int)
  {
    s' == s.(halted := true, haltReason := reason, phase := HaltedPhase, updatedAt := now)
  }

  /** What a pipeline that passed leaves on the ledger: the pinned commands, each gate's report, the green
      and the completion. */
  ghost predicate PassedEntries(entries: seq<Entry>, s: CycleState, id: string, reports: seq<GateReport>, now: int)
  {
    var n := |reports|;
    && |entries| == n + 3
    && entries[0] == Note(now, s.id, GatesPinned, "gates pinned", s.localGates)
    && AreNotesOf(entries[1..n + 1], now, id, reports)
    && entries[n + 1] == Note(now, id, ValidationGreen, "gate pipeline passed", [])
    && entries[n + 2] == Note(now, id, CycleCompleted, "cycle step completed", [])
  }

  /** A gated step: refused without gates or goal; run up to the first gate that fails, which halts the
      cycle for its reason; or passed, and then counted, unless a gate halted the cycle itself. */
  ghost predicate StepIs(gates: Pipeline, s: CycleState, r: StepResult, entries: seq<Entry>, now: int)
  {
    if gates == [] || !HasGoal(s) then
      && entries == [] && r.value == s && r.reports == []
      && r.err == Some(if gates == [] then NoPipeline else GoalRequired)
    else if AllPass(gates, s) then
      var end := StateAt(gates, s, |gates|);
      if end.halted then
        r.value == end && r.err == Some(AlreadyHalted)
        && entries == [Note(now, s.id, GatesPinned, "gates pinned", s.localGates)]
      else
        && OneMore(end, r.value, now) && r.err == None && AreReports(gates, s, r.reports, |gates|)
        && PassedEntries(entries, s, end.id, r.reports, now)
    else
      exists k :: FailsAt(gates, s, k) && StepFailsAt(gates, s, k, r, entries, now)
  }

  ghost predicate StepFailsAt(gates: Pipeline, s: CycleState, k: nat, r: StepResult, entries: seq<Entry>, now: int)
    requires FailsAt(gates, s, k)
  {
    var reason := ResultAt(gates, s, k).reason;
    && HaltedIs(FailedBy(gates, s, k), r.value, reason, now)
    && AreReports(gates, s, r.reports, k + 1) && r.err == Some(HaltedError(reason, r.reports))
    && entries == [Note(now, s.id, GatesPinned, "gates pinned", s.localGates)]
  }

  lemma HasGoalIff(s: CycleState)
    ensures HasGoal(s) <==> !Blank(s.nextCycleGoal)
  {
    if !Blank(s.nextCycleGoal) {
      var c :| c in s.nextCycleGoal && !IsSpace(c);
      var i :| 0 <= i < |s.nextCycleGoal| && s.nextCycleGoal[i] == c;
    }
  }

  lemma PassingEntries(s: CycleState, end: CycleState, reports: seq<GateReport>, now: int)
    ensures PassedEntries(
      [PinEntry(now, s)] + GateEntries(now, end.id, reports) + [GreenEntry(now, end.id), CompletedEntry(now, end.id)],
      s, end.id, reports, now)
  {
    var notes := GateEntries(now, end.id, reports);
    var entries := [PinEntry(now, s)] + notes + [GreenEntry(now, end.id), CompletedEntry(now, end.id)];
    assert entries[1..|reports| + 1] == notes;
  }

  /** The driver's step does exactly that. */
  lemma SteppedIs(gates: Pipeline, s: CycleState, now: int)
    ensures StepIs(gates, s, Stepped(gates, s, now), StepEntries(gates, s, now), now)
  {
    HasGoalIff(s);
    if gates != [] && HasGoal(s) {
      var r := ExecuteFrom(gates, s, [], now);
      ExecuteStopsAtFirstFailure(gates, s, now);
      if AllPass(gates, s) {
        if !r.value.halted {
          PassingEntries(s, r.value, r.reports, now);
          assert StepEntries(gates, s, now) == [PinEntry(now, s)] + GateEntries(now, r.value.id, r.reports)
            + [GreenEntry(now, r.value.id), CompletedEntry(now, r.value.id)];
        }
      } else {
        var k: nat := |r.reports| - 1;
        assert FailsAt(gates, s, k);
        assert StepFailsAt(gates, s, k, Stepped(gates, s, now), StepEntries(gates, s, now), now);
      }
    }
  }

  /** What is left of the two files and how it ends, once a gated step has run on s. */
  ghost predicate StepLeaves(f: Files, gates: Pipeline, s: CycleState, f': Files, outcome: Outcome, tick: Tick)
  {
    exists r, entries :: StepIs(gates, s, r, entries, tick.now) && ResultLeaves(f, r, entries, f', outcome, tick)
  }

  /** A passed step is written and ends the run only if the cycle cannot go on; a halt is written too, and
      the error of that is not seen; nothing else is written. */
  predicate ResultLeaves(f: Files, r: StepResult, entries: seq<Entry>, f': Files, outcome: Outcome, tick: Tick)
  {
    var ok := tick.io.stateWrite;
    && f'.ledger == f.ledger + entries
    && match r.err
       case None =>
         && f'.state == (if ok then Some(r.value) else f.state)
         && outcome == if ok then Advanced(!CanAdvance(r.value, tick.after)) else Failed
       case Some(HaltedError(reason, reports)) =>
         f'.state == (if ok then Some(r.value) else f.state) && outcome == HaltedWith(reason, reports)
       case _ => f'.state == f.state && outcome == Failed
  }

  // ---- One orchestrated iteration ----------------------------------------------------------------------

  /** A halt ahead of the gates: one entry with the reason, and the halted state. */
  predicate HaltLeaves(f: Files, s: CycleState, reason: string, f': Files, outcome: Outcome, tick: Tick)
  {
    && f'.ledger == f.ledger + [Note(tick.now, s.id, CycleHalted, reason, [])]
    && if tick.io.stateWrite
       then f'.state.Some? && HaltedIs(s, f'.state.value, reason, tick.now) && outcome == HaltedWith(reason, [])
       else f'.state == f.state && outcome == Failed
  }

  ghost predicate AtCeiling(ledger: seq<Entry>, ceiling: int)
  {
    ceiling > 0 && |StuckPositions.Turns(ledger)| >= ceiling
  }

  /** The breakers come before any agent is asked, a stuck ledger before a reached ceiling. */
  lemma BreakersHalt(decode: Decoder, cfg: Config, f: Files, s: CycleState, tick: Tick)
    requires cfg.agents != [] && CanAdvance(s, tick.before) && tick.io.ledgerRead
    ensures var (f', outcome) := Iteration(decode, cfg, f, s, tick);
      && (Stuck.IsStuck(f.ledger) ==> HaltLeaves(f, s, "stuck", f', outcome, tick))
      && (!Stuck.IsStuck(f.ledger) && AtCeiling(f.ledger, cfg.maxLifetimeTurns) ==>
            HaltLeaves(f, s, "budget-exceeded", f', outcome, tick))
      && (!Stuck.IsStuck(f.ledger) && !AtCeiling(f.ledger, cfg.maxLifetimeTurns) ==>
            (TakesTurn(cfg, f, s, tick) || (f' == f && outcome == Failed)))
  {
    StuckPositions.FingerprintsAreTurns(f.ledger);
  }

  /** The state the gates are handed: the agent's goal if it gave one, and nothing else changed. */
  predicate Handed(s: CycleState, goal: string, s': CycleState, now: int)
  {
    && s' == s.(nextCycleGoal := s'.nextCycleGoal, updatedAt := now)
    && s'.nextCycleGoal == if goal != "" then goal else s.nextCycleGoal
  }

  /** An empty summary is a turn with nothing to say. */
  function PayloadOf(decode: Decoder, resp: TurnResponse): Option<TurnPayload>
  {
    if |resp.summary| == 0 then Some(TurnPayload("", false)) else decode(resp.summary)
  }

  /** After the turn's entries: a halt if the handshake cannot be read or asks for one, and otherwise the
      gated step, on the state with the agent's goal. */
  ghost predicate TurnLeaves(decode: Decoder, f: Files, s: CycleState, resp: TurnResponse, tick: Tick,
      f': Files, outcome: Outcome)
  {
    var payload := PayloadOf(decode, resp);
    if payload.None? then HaltLeaves(f, s, "unparseable-turn", f', outcome, tick)
    else if payload.value.haltRequested then HaltLeaves(f, s, "user-requested", f', outcome, tick)
    else
      forall handed | Handed(s, payload.value.nextGoal, handed, tick.now) ::
        StepLeaves(f, tick.pipeline(handed), handed, f', outcome, tick)
  }

  lemma AfterTurnLeaves(decode: Decoder, f: Files, s: CycleState, resp: TurnResponse, tick: Tick)
    ensures var (f', outcome) := AfterTurn(decode, f, s, resp, tick); TurnLeaves(decode, f, s, resp, tick, f', outcome)
  {
    var (f', outcome) := AfterTurn(decode, f, s, resp, tick);
    var payload := PayloadOf(decode, resp);
    if payload.Some? && !payload.value.haltRequested {
      forall handed | Handed(s, payload.value.nextGoal, handed, tick.now)
        ensures StepLeaves(f, tick.pipeline(handed), handed, f', outcome, tick)
      {
        GatedStepLeaves(f, handed, tick);
      }
    }
  }

  lemma GatedStepLeaves(f: Files, s: CycleState, tick: Tick)
    ensures var (f', outcome) := GatedStep(f, s, tick); StepLeaves(f, tick.pipeline(s), s, f', outcome, tick)
  {
    var gates := tick.pipeline(s);
    var (f', outcome) := GatedStep(f, s, tick);
    SteppedIs(gates, s, tick.now);
    assert ResultLeaves(f, Stepped(gates, s, tick.now), StepEntries(gates, s, tick.now), f', outcome, tick);
  }

  /** Agents take turns by completed cycles, three each unless the configuration says otherwise. */
  function AgentOnTurn(cfg: Config, completed: nat): string
    requires cfg.agents != []
  {
    cfg.agents[(completed / (if cfg.resetEvery > 0 then cfg.resetEvery else 3)) % |cfg.agents|]
  }

  /** An iteration that takes a turn records it under the agent's name, and then does what the handshake
      says: the gates run on the goal the agent gave, or on the old one if it gave none. */
  lemma IterationTakesTheGoal(decode: Decoder, cfg: Config, f: Files, s: CycleState, tick: Tick)
    requires TakesTurn(cfg, f, s, tick)
    ensures var agent := AgentOnTurn(cfg, s.completedCycles);
      var (f', outcome) := Iteration(decode, cfg, f, s, tick);
      && tick.adapters(agent).Response?
      && var resp := tick.adapters(agent).resp;
         var turned := f.(ledger := f.ledger + TurnNotes(tick.now, s.id, agent, resp));
         TurnLeaves(decode, turned, s, resp, tick, f', outcome)
  {
    var agent := AgentOnTurn(cfg, s.completedCycles);
    assert agent == AgentFor(cfg, s.completedCycles);
    var resp := Answer(cfg, s, tick);
    TurnIsTaken(decode, cfg, f, s, tick);
    AfterTurnLeaves(decode, Turned(f, s, agent, resp, tick.now), s, resp, tick);
    assert Turned(f, s, agent, resp, tick.now) == f.(ledger := f.ledger + TurnNotes(tick.now, s.id, agent, resp));
  }

  /** So a turn that gives a goal is never refused for want of one, whatever goal the cycle had: the gates
      run, and the iteration fails only if one of them halts the cycle behind the driver's back, or if
      the state cannot be written. */
  lemma GivenGoalIsRun(decode: Decoder, cfg: Config, f: Files, s: CycleState, tick: Tick, handed: CycleState)
    requires TakesTurn(cfg, f, s, tick)
    requires var payload := PayloadOf(decode, tick.adapters(AgentOnTurn(cfg, s.completedCycles)).resp);
      && payload.Some? && !payload.value.haltRequested
      && Handed(s, payload.value.nextGoal, handed, tick.now) && !Blank(payload.value.nextGoal)
    requires tick.pipeline(handed) != []
    ensures var gates, outcome := tick.pipeline(handed), Iteration(decode, cfg, f, s, tick).1;
      && (outcome.HaltedWith? <==> !AllPass(gates, handed))
      && (outcome.Advanced? <==>
            AllPass(gates, handed) && !StateAt(gates, handed, |gates|).halted && tick.io.stateWrite)
  {
    var gates := tick.pipeline(handed);
    IterationTakesTheGoal(decode, cfg, f, s, tick);
    HasGoalIff(handed);
  }

  // ---- The orchestration loop --------------------------------------------------------------------------

  /** One time round: the state on file is read, the iteration advances without reaching an end, and the pause
      is not cancelled. An absent file reads as a cycle without an id. */
  ghost predicate GoesRound(decode: Decoder, cfg: Config, f: Files, tick: Tick, f': Files)
  {
    && tick.io.stateRead && tick.io.slept
    && Iteration(decode, cfg, f, if f.state.Some? then f.state.value else ZeroState(), tick) == (f', Advanced(false))
  }

  /** The last time round: the state does not read, or the iteration ends the loop, or the pause is cancelled. */
  ghost predicate EndsWith(decode: Decoder, cfg: Config, f: Files, tick: Tick, f': Files, outcome: Outcome)
  {
    if !tick.io.stateRead then f' == f && outcome == Failed
    else
      var (end, ended) := Iteration(decode, cfg, f, if f.state.Some? then f.state.value else ZeroState(), tick);
      && f' == end && (ended == Advanced(false) ==> !tick.io.slept)
      && outcome == if ended == Advanced(false) then Failed else ended
  }

  /** The files the loop passes through, one for each time round. */
  ghost predicate PassesThrough(decode: Decoder, cfg: Config, files: seq<Files>, ticks: seq<Tick>)
  {
    && 0 < |files| <= |ticks| + 1
    && forall i | 0 <= i < |files| - 1 :: GoesRound(decode, cfg, files[i], ticks[i], files[i + 1])
  }

  /** The loop goes round until it ends, or for as long as it is watched. */
  ghost predicate LoopIs(decode: Decoder, cfg: Config, files: seq<Files>, ticks: seq<Tick>, f': Files,
      outcome: Option<Outcome>)
  {
    && PassesThrough(decode, cfg, files, ticks)
    && var n := |files| - 1;
       if n == |ticks| then f' == files[n] && outcome == None
       else outcome.Some? && EndsWith(decode, cfg, files[n], ticks[n], f', outcome.value)
  }

  lemma {:induction false} RunLoopIs(decode: Decoder, cfg: Config, f: Files, ticks: seq<Tick>)
      returns (files: seq<Files>)
    ensures files != [] && files[0] == f
    ensures var (f', outcome) := RunLoop(decode, cfg, f, ticks); LoopIs(decode, cfg, files, ticks, f', outcome)
    decreases |ticks|
  {
    files := [f];
    if ticks != [] && ticks[0].io.stateRead {
      var (next, outcome) := Iteration(decode, cfg, f, ReadState(f.state), ticks[0]);
      if outcome == Advanced(false) && ticks[0].io.slept {
        var rest := RunLoopIs(decode, cfg, next, ticks[1..]);
        var (f', ended) := RunLoop(decode, cfg, next, ticks[1..]);
        files := RoundFirst(decode, cfg, f, rest, ticks, f', ended);
      }
    }
  }

  lemma RoundFirst(decode: Decoder, cfg: Config, f: Files, rest: seq<Files>, ticks: seq<Tick>, f': Files,
      outcome: Option<Outcome>) returns (files: seq<Files>)
    requires ticks != [] && LoopIs(decode, cfg, rest, ticks[1..], f', outcome)
    requires GoesRound(decode, cfg, f, ticks[0], rest[0])
    ensures files == [f] + rest && LoopIs(decode, cfg, files, ticks, f', outcome)
  {
    files := [f] + rest;
    forall i | 0 <= i < |files| - 1
      ensures GoesRound(decode, cfg, files[i], ticks[i], files[i + 1])
    {
      if i > 0 {
        assert GoesRound(decode, cfg, rest[i - 1], ticks[1..][i - 1], rest[i]);
      }
    }
  }

  /** A whole invocation: nothing without agents, a failure if the ledger does not read, the halt that seals the
      ledger, or the loop. */
  lemma InvocationIs(decode: Decoder, cfg: Config, f: Files, sealRead: bool, ticks: seq<Tick>)
    ensures var (f', outcome) := Invocation(decode, cfg, f, sealRead, ticks);
      if |cfg.agents| == 0 then f' == f && outcome == Some(NoAgents)
      else if !sealRead then f' == f && outcome == Some(Failed)
      else
        match Seal.SealReason(f.ledger)
        case Some(reason) => f' == f && outcome == Some(HaltedWith(reason, []))
        case None => exists files :: |files| > 0 && files[0] == f && LoopIs(decode, cfg, files, ticks, f', outcome)
  {
    var files := RunLoopIs(decode, cfg, f, ticks);
  }

  // ---- One iteration of the driver loop ----------------------------------------------------------------

  /** What follows a passed step: if the cycle finds its goals itself, the one discovered is taken, and with
      none to be found the cycle is done; the state is written before the loop goes on. */
  predicate GoesOn(file: Option<CycleState>, s: CycleState, tick: DriverTick, file': Option<CycleState>,
      outcome: DriverOutcome)
  {
    var ok := tick.io.stateWrite;
    if s.autoGoal && tick.discovered == None then file' == file && outcome == Errored
    else if s.autoGoal && tick.discovered == Some("") then
      && outcome == Finished
      && if ok then file'.Some? && HaltedIs(s, file'.value, "success", tick.now) else file' == file
    else if !ok then file' == file && outcome == Errored
    else
      && file'.Some?
      && file'.value == (if s.autoGoal then s.(nextCycleGoal := tick.discovered.value, updatedAt := tick.now) else s)
      && outcome ==
           if !CanAdvance(file'.value, tick.after) then Finished else if tick.io.slept then Running else Errored
  }

  ghost predicate DriverLeaves(file: Option<CycleState>, tick: DriverTick, r: StepResult, entries: seq<Entry>,
      one: Iterated)
  {
    && one.entries == entries
    && match r.err
       case None => GoesOn(file, r.value, tick, one.file, one.outcome)
       case Some(HaltedError(reason, _)) =>
         one.outcome == HaltedOn(reason) && one.file == if tick.io.stateWrite then Some(r.value) else file
       case _ => one.outcome == Errored && one.file == file
  }

  /** An iteration of the driver loop on a state that reads and can advance is one gated step on it, and what
      follows. */
  lemma DriverIterationLeaves(file: Option<CycleState>, tick: DriverTick)
    requires tick.io.stateRead && file.Some? && CanAdvance(file.value, tick.before)
    ensures var one := DriverIteration(file, tick);
      exists r, entries ::
        StepIs(tick.gates, file.value, r, entries, tick.now) && DriverLeaves(file, tick, r, entries, one)
  {
    var s := file.value;
    var r, entries := Stepped(tick.gates, s, tick.now), StepEntries(tick.gates, s, tick.now);
    SteppedIs(tick.gates, s, tick.now);
    StepUnhalted(tick.gates, s, tick.now);
    assert DriverLeaves(file, tick, r, entries, DriverIteration(file, tick));
  }

  // ---- One pass of the one-shot driver -------------------------------------------------------------------

  /** The goal of the pass, if one was given. */
  predicate WithGoalOf(s: CycleState, goal: string, s': CycleState)
  {
    s' == if exists i :: 0 <= i < |goal| && !IsSpace(goal[i]) then s.(nextCycleGoal := goal) else s
  }

  lemma WithGoalIs(s: CycleState, goal: string)
    ensures WithGoalOf(s, goal, WithGoal(s, goal))
  {
    if !Blank(goal) {
      var c :| c in goal && !IsSpace(c);
      var i :| 0 <= i < |goal| && goal[i] == c;
    }
  }

  /** Halting goes to the ledger first, then to the state file; only if both are written is it reported, with
      the error of the last gate that failed. */
  ghost predicate HaltReported(f: Files, s: CycleState, reason: string, reports: seq<GateReport>, f': Files,
      exit: Exit, tick: Tick)
  {
    && f'.ledger == f.ledger + [Note(tick.now, s.id, CycleHalted, reason, [])]
    && if tick.io.stateWrite
       then f'.state.Some? && HaltedIs(s, f'.state.value, reason, tick.now) && ReportsHalt(exit, reason, reports)
       else f'.state == f.state && exit == OperationalError
  }

  ghost predicate ReportsHalt(exit: Exit, reason: string, reports: seq<GateReport>)
  {
    exit.Reported? && exit.reason == reason && IsDetail(reports, exit.detail)
  }

  ghost predicate PassLeaves(f: Files, r: StepResult, entries: seq<Entry>, f': Files, exit: Exit, tick: Tick)
  {
    var stepped := f.(ledger := f.ledger + entries);
    match r.err
    case None =>
      && f'.ledger == stepped.ledger && f'.state == (if tick.io.stateWrite then Some(r.value) else f.state)
      && exit == if tick.io.stateWrite then Clean else OperationalError
    case Some(HaltedError(reason, reports)) => HaltReported(stepped, r.value, reason, reports, f', exit, tick)
    case _ => f' == stepped && exit == OperationalError
  }

  /** Without agents a pass that starts runs the breakers and then one gated step, on the goal of the pass. */
  lemma ReferencePassLeaves(decode: Decoder, opts: Options, f: Files, start: Start, tick: Tick, s: CycleState)
    requires Starts(f, start) && opts.agents == [] && WithGoalOf(f.state.value, opts.goal, s)
    ensures var (f', exit) := Pass(decode, opts, f, start, tick);
      if Stuck.IsStuck(f.ledger) then HaltReported(f, s, "stuck", [], f', exit, tick)
      else if AtCeiling(f.ledger, opts.maxLifetimeTurns) then HaltReported(f, s, "budget-exceeded", [], f', exit, tick)
      else
        exists r, entries ::
          StepIs(tick.pipeline(s), s, r, entries, tick.now) && PassLeaves(f, r, entries, f', exit, tick)
  {
    StuckPositions.FingerprintsAreTurns(f.ledger);
    WithGoalIs(f.state.value, opts.goal);
    var gates := tick.pipeline(s);
    var (f', exit) := Pass(decode, opts, f, start, tick);
    assert (f', exit) == ReferencePass(opts, f, s, tick);
    if !Stuck.IsStuck(f.ledger) && !AtCeiling(f.ledger, opts.maxLifetimeTurns) {
      var r, entries := Stepped(gates, s, tick.now), StepEntries(gates, s, tick.now);
      SteppedIs(gates, s, tick.now);
      if r.err.Some? && r.err.value.HaltedError? {
        DetailIsLastFailure(r.err.value.haltReports);
      }
      assert PassLeaves(f, r, entries, f', exit, tick);
    }
  }

  /** How a pass ends whose iteration ended so. */
  ghost predicate EndsAs(outcome: Outcome, exit: Exit)
  {
    match outcome
    case HaltedWith(reason, reports) => ReportsHalt(exit, reason, reports)
    case Failed => exit == OperationalError
    case NoAgents => exit == OperationalError
    case _ => exit == Clean
  }

  /** With agents it is one orchestrated iteration, on the goal of the pass. */
  lemma AgentPassIsIteration(decode: Decoder, opts: Options, f: Files, start: Start, tick: Tick, s: CycleState)
    requires Starts(f, start) && opts.agents != [] && WithGoalOf(f.state.value, opts.goal, s)
    ensures var (f', exit) := Pass(decode, opts, f, start, tick);
      var (i, outcome) := Iteration(decode, Config(opts.agents, 3, opts.maxLifetimeTurns), f, s, tick);
      f' == i && EndsAs(outcome, exit)
  {
    WithGoalIs(f.state.value, opts.goal);
    assert Pass(decode, opts, f, start, tick) == AgentPass(decode, opts, f, s, tick);
    AgentPassEnds(decode, opts, f, s, tick);
    SameConfig(decode, opts, f, s, tick);
  }

  lemma AgentPassEnds(decode: Decoder, opts: Options, f: Files, s: CycleState, tick: Tick)
    ensures var (f', exit) := AgentPass(decode, opts, f, s, tick);
      var (i, outcome) := Iteration(decode, OnceConfig(opts), f, s, tick);
      f' == i && EndsAs(outcome, exit)
  {
    var outcome := Iteration(decode, OnceConfig(opts), f, s, tick).1;
    if outcome.HaltedWith? {
      DetailIsLastFailure(outcome.reports);
    }
  }

  /** No interval given means three. */
  lemma SameConfig(decode: Decoder, opts: Options, f: Files, s: CycleState, tick: Tick)
    ensures Iteration(decode, OnceConfig(opts), f, s, tick)
         == Iteration(decode, Config(opts.agents, 3, opts.maxLifetimeTurns), f, s, tick)
  {
    if opts.agents != [] {
      assert AgentFor(OnceConfig(opts), s.completedCycles)
          == AgentFor(Config(opts.agents, 3, opts.maxLifetimeTurns), s.completedCycles);
    }
  }

  /** A pass that does not start changes nothing. It fails if a file does not read or there is no cycle,
      reports the halt on file, is clean if the cycle can no longer advance, and otherwise reports the
      halt that seals the ledger: in this order. */
  lemma OtherPassesChangeNothing(decode: Decoder, opts: Options, f: Files, start: Start, tick: Tick)
    requires !Starts(f, start)
    ensures var (f', exit) := Pass(decode, opts, f, start, tick);
      && f' == f
      && if !start.stateRead || f.state.None? || f.state.value.id == "" then exit == OperationalError
         else if f.state.value.halted then exit == Reported(f.state.value.haltReason, "")
         else if !CanAdvance(f.state.value, start.elapsed) then exit == Clean
         else if !start.ledgerRead then exit == OperationalError
         else Seal.SealReason(f.ledger).Some? && exit == Reported(Seal.SealReason(f.ledger).value, "")
  {
  }

  /** The exit codes as they are documented. */
  lemma ExitCodesAre(detail: string, reason: HaltReason)
    ensures ExitCode(Clean) == 0 == ExitCode(Reported("success", detail)) && ExitCode(OperationalError) == 1
    ensures ExitCode(Reported("stuck", detail)) == 10 && ExitCode(Reported("budget-exceeded", detail)) == 11
    ensures ExitCode(Reported("preflight-failed", detail)) == 12 && ExitCode(Reported("gate-failure", detail)) == 13
    ensures ExitCode(Reported("unparseable-turn", detail)) == 14 && ExitCode(Reported("user-requested", detail)) == 15
    ensures ExitCode(Reported("self-audit-violation", detail)) == 16
    ensures ExitCode(Reported("ssh-auth-failed", detail)) == 17
    ensures ExitCode(Reported("max-cycles-reached", detail)) == 18
    ensures reason !in KNOWN_REASONS ==> ExitCode(Reported(reason, detail)) == 19
  {
  }

  // ---- The broker's handlers ---------------------------------------------------------------------------

  /** The cycle as a handler finds it: on disk if the broker has no fresher copy. */
  predicate Found(w: World, io: Io, s: CycleState)
  {
    var onDisk := io.stateRead && w.files.state.Some? && w.files.state.value.id != "";
    if onDisk && (w.cache.None? || w.files.state.value.updatedAt >= w.cache.value.updatedAt)
    then s == w.files.state.value
    else w.cache == Some(s)
  }

  /** A claim's verdict. */
  function ClaimNote(now: int, id: string, c: ClaimCheck): Entry
  {
    Note(now, id, if c.verified then ClaimVerified else ClaimFalsified,
         (if c.verified then "verified: " else "falsified: ") + c.message, [c.file])
  }

  /** All reports in order, a claim gate's verdicts behind its report. */
  function ReportNotes(now: int, id: string, reports: seq<GateReport>): seq<Entry>
  {
    if reports == [] then []
    else [ReportNote(now, id, reports[0])] + ClaimNotes(now, id, reports[0]) + ReportNotes(now, id, reports[1..])
  }

  function ClaimNotes(now: int, id: string, r: GateReport): seq<Entry>
  {
    if r.gate != "claim" then []
    else seq(|r.claimChecks|, i requires 0 <= i < |r.claimChecks| => ClaimNote(now, id, r.claimChecks[i]))
  }

  lemma {:induction false} ReportNotesConcat(now: int, id: string, a: seq<GateReport>, b: seq<GateReport>)
    ensures ReportNotes(now, id, a + b) == ReportNotes(now, id, a) + ReportNotes(now, id, b)
  {
    if a == [] {
      assert a + b == b;
    } else {
      assert (a + b)[1..] == a[1..] + b;
      ReportNotesConcat(now, id, a[1..], b);
    }
  }

  lemma OneReport(now: int, id: string, r: GateReport)
    ensures ReportEntries(now, id, r) == [ReportNote(now, id, r)] + ClaimNotes(now, id, r)
    ensures ReportNotes(now, id, [r]) == [ReportNote(now, id, r)] + ClaimNotes(now, id, r)
  {
    assert [r][1..] == [];
  }

  lemma {:induction false} AllReportsAre(now: int, id: string, reports: seq<GateReport>)
    ensures AllReportEntries(now, id, reports) == ReportNotes(now, id, reports)
  {
    if reports != [] {
      var front, last := reports[..|reports| - 1], reports[|reports| - 1];
      AllReportsAre(now, id, front);
      OneReport(now, id, last);
      ReportNotesConcat(now, id, front, [last]);
      assert front + [last] == reports;
    }
  }

  /** The broker's own step: the pipeline runs on the cycle it found, with the goal of the request if there
      is one. If it passes, the green and the completion go to the ledger, then all reports; the cycle
      is counted unless it is halted. If a gate fails, its reports go there and the cycle halts. */
  ghost predicate BrokerStepIs(w: World, w': World, id: string, gates: Pipeline, s: CycleState, op: Op)
    requires op.StepHandler?
  {
    && w'.cache.Some? && w'.files.state == (if op.io.stateWrite then w'.cache else w.files.state)
    && exists reports: seq<GateReport> ::
         BrokerPasses(w.files.ledger, w'.files.ledger, id, gates, s, w'.cache.value, reports, op.now)
         || BrokerFails(w.files.ledger, w'.files.ledger, id, gates, s, w'.cache.value, reports, op.now)
  }

  ghost predicate BrokerPasses(ledger: seq<Entry>, ledger': seq<Entry>, id: string, gates: Pipeline, s: CycleState,
      s': CycleState, reports: seq<GateReport>, now: int)
  {
    && AllPass(gates, s) && AreReports(gates, s, reports, |gates|) && CompletedBy(StateAt(gates, s, |gates|), s', now)
    && ledger' == ledger
         + [Note(now, id, ValidationGreen, "gate pipeline passed", []),
            Note(now, id, CycleCompleted, "cycle step completed", [])]
         + ReportNotes(now, id, reports)
  }

  ghost predicate BrokerFails(ledger: seq<Entry>, ledger': seq<Entry>, id: string, gates: Pipeline, s: CycleState,
      s': CycleState, reports: seq<GateReport>, now: int)
  {
    var k := |reports| - 1;
    && k >= 0 && FailsAt(gates, s, k) && AreReports(gates, s, reports, k + 1)
    && HaltedIs(FailedBy(gates, s, k), s', ResultAt(gates, s, k).reason, now)
    && ledger' == ledger + ReportNotes(now, id, reports)
  }

  predicate CompletedBy(s: CycleState, s': CycleState, now: int)
  {
    if s.halted then s' == s.(nextCycleGoal := "") else OneMore(s, s', now)
  }

  /** The state the pipeline runs on. */
  predicate Requested(s: CycleState, goal: string, s': CycleState)
  {
    s' == s.(nextCycleGoal := if |goal| > 0 then goal else s.nextCycleGoal)
  }

  lemma BrokerStepLeaves(w: World, id: string, op: Op, found: CycleState, s: CycleState)
    requires op.StepHandler? && op.io.ledgerRead && (w.cache.Some? ==> w.synced)
    requires Found(w, op.io, found) && Requested(found, op.goal, s)
    ensures var w' := StepCycle(w, id, op);
      if Seal.Sealed(w.files.ledger) || !HasGoal(s) then w'.files == w.files && w'.cache == Some(found)
      else BrokerStepIs(w, w', id, op.pipeline(s), s, op)
  {
    HasGoalIff(s);
    var w' := Get(Refresh(w, op.io.stateRead), op.io.stateRead);
    assert w'.cache == Some(found) && w'.files == w.files && w'.synced && StepInput(found, op.goal) == s;
    if !Seal.Sealed(w.files.ledger) && HasGoal(s) {
      RecordLeaves(w, w', id, op.pipeline(s), s, op);
    }
  }

  lemma RecordLeaves(w: World, before: World, id: string, gates: Pipeline, s: CycleState, op: Op)
    requires op.StepHandler? && before.files == w.files && before.synced
    ensures BrokerStepIs(
      w, Record(before, id, ExecuteFrom(gates, s, [], op.now), op.now, op.io.stateWrite), id, gates, s, op)
  {
    var r := ExecuteFrom(gates, s, [], op.now);
    var s' := if r.err.None? then BrokerCompleted(r.value, op.now) else r.value;
    RecordIs(w.files.ledger, id, gates, s, s', op.now);
    var ledger' := w.files.ledger + StepRecord(op.now, id, r);
    assert BrokerPasses(w.files.ledger, ledger', id, gates, s, s', r.reports, op.now)
        || BrokerFails(w.files.ledger, ledger', id, gates, s, s', r.reports, op.now);
  }

  lemma RecordIs(ledger: seq<Entry>, id: string, gates: Pipeline, s: CycleState, s': CycleState, now: int)
    requires var r := ExecuteFrom(gates, s, [], now);
      s' == if r.err.None? then BrokerCompleted(r.value, now) else r.value
    ensures var r := ExecuteFrom(gates, s, [], now);
      var ledger' := ledger + StepRecord(now, id, r);
      if AllPass(gates, s) then BrokerPasses(ledger, ledger', id, gates, s, s', r.reports, now)
      else BrokerFails(ledger, ledger', id, gates, s, s', r.reports, now)
  {
    var r := ExecuteFrom(gates, s, [], now);
    ExecuteStopsAtFirstFailure(gates, s, now);
    RecordedEntries(ledger, id, r, now);
    if AllPass(gates, s) {
      assert AreReports(gates, s, r.reports, |gates|) && CompletedBy(StateAt(gates, s, |gates|), s', now);
    } else {
      FailureIs(gates, s, r, now);
    }
  }

  lemma RecordedEntries(ledger: seq<Entry>, id: string, r: StepResult, now: int)
    ensures ledger + StepRecord(now, id, r) ==
      if r.err.None? then
        ledger
        + [Note(now, id, ValidationGreen, "gate pipeline passed", []),
           Note(now, id, CycleCompleted, "cycle step completed", [])]
        + ReportNotes(now, id, r.reports)
      else ledger + ReportNotes(now, id, r.reports)
  {
    AllReportsAre(now, id, r.reports);
    assert [] + AllReportEntries(now, id, r.reports) == AllReportEntries(now, id, r.reports);
  }

  lemma FailureIs(gates: Pipeline, s: CycleState, r: StepResult, now: int)
    requires RunsToFirstFailure(gates, s, r, now) && r.err.Some?
    ensures var k := |r.reports| - 1;
      && k >= 0 && FailsAt(gates, s, k) && AreReports(gates, s, r.reports, k + 1)
      && HaltedIs(FailedBy(gates, s, k), r.value, ResultAt(gates, s, k).reason, now)
  {
  }

  /** The cycle as the handlers find it that do not look for a fresher copy. */
  predicate FoundFirst(w: World, io: Io, s: CycleState)
  {
    if w.cache.Some? then w.synced && s == w.cache.value
    else io.stateRead && w.files.state == Some(s) && s.id != ""
  }

  predicate FoundNowhere(w: World, io: Io)
  {
    w.cache.None? && (!io.stateRead || w.files.state.None? || w.files.state.value.id == "")
  }

  /** Halting by hand: the entry, with the reason given if it is a known one, and the cycle is forgotten. Its
      state file is gone, or, if it could not be removed, says halted, or, if it could not be written
      either, is as it was. */
  lemma HaltHandlerLeaves(w: World, id: string, op: Op, s: CycleState)
    requires op.HaltHandler?
    ensures FoundNowhere(w, op.io) ==> HaltCycle(w, id, op) == w
    ensures FoundFirst(w, op.io, s) ==>
      var w' := HaltCycle(w, id, op);
      var reason := if op.reason in KNOWN_REASONS then op.reason else "user-requested";
      && w'.cache == None && !w'.synced
      && w'.files.ledger == w.files.ledger + [Note(op.now, id, CycleHalted, reason, [])]
      && if op.removed then w'.files.state == None
         else if op.io.stateWrite then w'.files.state.Some? && HaltedIs(s, w'.files.state.value, reason, op.now)
         else w'.files.state == w.files.state
  {
  }

  /** Orchestrating: only a cycle that is found, with a body that reads and adapters that exist, goes on to
      the invocation; it never starts on a ledger that does not read or is sealed. */
  lemma OrchestrateLeaves(decode: Decoder, w: World, op: Op, s: CycleState)
    requires op.OrchestrateHandler?
    ensures var w' := Orchestrate(decode, w, op);
      && (FoundNowhere(w, op.io) ==> w' == w)
      && (FoundFirst(w, op.io, s) ==>
            && w'.cache == Some(s) && w'.synced
            && w'.files ==
                 if op.bodyOk && op.registryOk && op.io.ledgerRead && Seal.SealReason(w.files.ledger) == None
                 then Invocation(decode, op.cfg, w.files, op.sealRead, op.ticks).0 else w.files)
  {
  }

  /** Creating: nothing for a main branch or without a goal, or if the state cannot be written; otherwise the
      state on file and at hand, and one entry. */
  lemma CreateLeaves(w: World, id: string, req: CycleCreate.NewCycleRequest, now: int, ok: bool)
    ensures var w' := CreateCycle(w, id, req, now, ok);
      if req.branch == "main" || req.branch == "master" || |req.goal| == 0 || !ok then w' == w
      else
        && w'.cache.Some? && w'.synced && w'.files.state == w'.cache && w'.cache.value.nextCycleGoal == req.goal
        && w'.files.ledger == w.files.ledger + [Note(now, id, CycleCreated, "cycle created", req.pendingFiles)]
  {
  }

  // ---- A gate that keeps failing ---------------------------------------------------------------------

  /** A gate that fails with this report whatever it is handed. */
  function Fails(r: GateReport, reason: HaltReason): Gate
  {
    (s: CycleState) => (GateFailure(r, reason), s)
  }

  ghost predicate KeepsFailing(op: Op, r: GateReport, reason: HaltReason)
  {
    && op.StepHandler? && op.io == Io(true, true, true, op.io.slept) && !Blank(op.goal)
    && !r.passed && r.gate != "claim" && forall s :: op.pipeline(s) == [Fails(r, reason)]
  }

  /** The broker holds the cycle, its file agrees, and the ledger does not seal it. */
  predicate AtHand(w: World)
  {
    w.cache.Some? && w.synced && w.files.state == w.cache && w.cache.value.id != "" && !Seal.Sealed(w.files.ledger)
  }

  lemma OneFailure(w: World, id: string, op: Op, r: GateReport, reason: HaltReason)
    requires AtHand(w) && KeepsFailing(op, r, reason)
    ensures var w' := StepCycle(w, id, op);
      AtHand(w') && w'.files.ledger == w.files.ledger + [ReportNote(op.now, id, r)]
  {
    var s := StepInput(w.cache.value, op.goal);
    var gates: Pipeline := op.pipeline(s);
    assert gates == [Fails(r, reason)];
    var result := ExecuteFrom(gates, s, [], op.now);
    assert result.err.Some? && result.reports == [] + [r];
    AllReportsAre(op.now, id, result.reports);
    OneReport(op.now, id, r);
    Seal.SealIgnores(w.files.ledger, [ReportNote(op.now, id, r)]);
  }

  lemma AlikeAreStuck(ledger: seq<Entry>, note: Entry)
    requires note.typ == GateFailed
    ensures Stuck.IsStuck(ledger + [note] + [note] + [note])
  {
    StuckPositions.FailuresLikeSnoc(ledger, note, note.gate, note.summary);
    StuckPositions.FailuresLikeSnoc(ledger + [note], note, note.gate, note.summary);
    StuckPositions.FailuresLikeSnoc(ledger + [note] + [note], note, note.gate, note.summary);
    var longer := ledger + [note] + [note] + [note];
    assert |StuckPositions.FailuresLike(longer, note.gate, note.summary)| >= 3;
    StuckPositions.StuckIff(longer);
  }

  /** Three broker steps on which a gate fails the same way make the ledger stuck, whatever else is on it: the
      next iteration that could take a turn halts the cycle instead. */
  lemma ThreeFailuresAreStuck(
      decode: Decoder, cfg: Config, id: string, op: Op, r: GateReport, reason: HaltReason,
      w0: World, w1: World, w2: World, w3: World, s: CycleState, tick: Tick)
    requires AtHand(w0) && KeepsFailing(op, r, reason)
    requires w1 == StepCycle(w0, id, op) && w2 == StepCycle(w1, id, op) && w3 == StepCycle(w2, id, op)
    requires cfg.agents != [] && CanAdvance(s, tick.before) && tick.io.ledgerRead
    ensures var (f', outcome) := Iteration(decode, cfg, w3.files, s, tick);
      HaltLeaves(w3.files, s, "stuck", f', outcome, tick)
  {
    OneFailure(w0, id, op, r, reason);
    OneFailure(w1, id, op, r, reason);
    OneFailure(w2, id, op, r, reason);
    AlikeAreStuck(w0.files.ledger, ReportNote(op.now, id, r));
    BreakersHalt(decode, cfg, w3.files, s, tick);
  }
}
