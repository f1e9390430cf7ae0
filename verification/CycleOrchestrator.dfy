/** The multi-agent orchestrator: one guarded iteration (anti-spin breakers, one agent turn, one
    gated step), and the loop over iterations. */
module CycleOrchestrator {
  import opened CycleDriver
  import opened CycleTypes
  import opened DivMod
  import opened Ledger
  import Seal
  import Stuck
  import opened TurnTypes
  import opened Wrappers

  datatype Config = Config(agents: seq<string>, resetEvery: int, maxLifetimeTurns: int)

  datatype AdapterOutcome = NotFound | RunError | Response(resp: TurnResponse)

  datatype TurnPayload = TurnPayload(nextGoal: string, haltRequested: bool)

  /** JSON decoding of a handshake, an arbitrary partial function. */
  type Decoder = string -> Option<TurnPayload>

  function ParseTurnPayload(decode: Decoder, summary: string): Option<TurnPayload>
  {
    if summary == "" then Some(TurnPayload("", false)) else decode(summary)
  }

  /** The environment of one iteration: the clock, the adapters, the pipeline factory, and how input
      and output go. */
  datatype Tick = Tick(
    now: int, before: int, after: int,
    adapters: string -> AdapterOutcome, pipeline: CycleState -> Pipeline, io: Io)

  datatype Outcome =
    | NoAgents
    | CannotAdvance
    | HaltedWith(reason: HaltReason, reports: seq<GateReport>)
    | Failed
    | Advanced(terminal: bool)

  /** The two files of one cycle. */
  datatype Files = Files(state: Option<CycleState>, ledger: seq<Entry>)

  function HaltEntry(now: int, id: string, reason: HaltReason): Entry
  {
    NewEntry(now, id, CycleHalted, reason, [])
  }

  function TurnEntries(now: int, id: string, agent: string, resp: TurnResponse): seq<Entry>
  {
    [TurnEntry(now, id, agent, resp)] + if resp.handoffTo == "" then [] else [HandoffEntry(now, id, agent, resp)]
  }

  function TurnEntry(now: int, id: string, agent: string, resp: TurnResponse): Entry
  {
    NewEntry(now, id, AgentTurn, resp.summary, resp.artifacts).(agent := agent)
  }

  function HandoffEntry(now: int, id: string, agent: string, resp: TurnResponse): Entry
  {
    NewEntry(now, id, HandoffCreated, resp.summary, resp.artifacts).(agent := agent, handoffTo := resp.handoffTo)
  }

  function ResetEvery(cfg: Config): (n: int)
    ensures n > 0
  {
    if cfg.resetEvery <= 0 then 3 else cfg.resetEvery
  }

  /** Agents take turns, each for ResetEvery completed cycles. */
  function AgentFor(cfg: Config, completed: nat): string
    requires cfg.agents != []
  {
    cfg.agents[(completed / ResetEvery(cfg)) % |cfg.agents|]
  }

  lemma AgentRotates(cfg: Config, round: nat, k: nat, offset: nat)
    requires k < |cfg.agents| && offset < ResetEvery(cfg)
    ensures AgentFor(cfg, (round * |cfg.agents| + k) * ResetEvery(cfg) + offset) == cfg.agents[k]
  {
    var n, m := |cfg.agents|, ResetEvery(cfg);
    var q := round * n + k;
    DivModUnique(q * m + offset, m, q, offset);
    DivModUnique(q, n, round, k);
  }

  /** Halting one iteration outside the gates: a sticky ledger entry, then the sealed state. */
  function HaltHere(f: Files, s: CycleState, reason: HaltReason, now: int, ok: bool): (Files, Outcome)
  {
    (Files(Written(f.state, Halted(s, reason, now), ok), f.ledger + [HaltEntry(now, s.id, reason)]),
     if ok then HaltedWith(reason, []) else Failed)
  }

  ghost function Iteration(decode: Decoder, cfg: Config, f: Files, s: CycleState, tick: Tick): (Files, Outcome)
  {
    if cfg.agents == [] then (f, NoAgents)
    else if !CanAdvance(s, tick.before) then (f, CannotAdvance)
    else if !tick.io.ledgerRead then (f, Failed)
    else if Stuck.IsStuck(f.ledger) then HaltHere(f, s, STUCK, tick.now, tick.io.stateWrite)
    else if Stuck.ExceedsCeiling(f.ledger, cfg.maxLifetimeTurns) then
      HaltHere(f, s, BUDGET_EXCEEDED, tick.now, tick.io.stateWrite)
    else
      var agent := AgentFor(cfg, s.completedCycles);
      var outcome := tick.adapters(agent);
      if !outcome.Response? then (f, Failed)
      else AfterTurn(decode, Turned(f, s, agent, outcome.resp, tick.now), s, outcome.resp, tick)
  }

  /** The agent's turn, and its handoff if it names one, on the ledger. */
  function Turned(f: Files, s: CycleState, agent: string, resp: TurnResponse, now: int): Files
  {
    f.(ledger := f.ledger + TurnEntries(now, s.id, agent, resp))
  }

  /** The rest of an iteration, once the turn is on the ledger. */
  function AfterTurn(decode: Decoder, f: Files, s: CycleState, resp: TurnResponse, tick: Tick): (Files, Outcome)
  {
    var payload := ParseTurnPayload(decode, resp.summary);
    if payload.None? then HaltHere(f, s, UNPARSEABLE_TURN, tick.now, tick.io.stateWrite)
    else if payload.value.haltRequested then HaltHere(f, s, USER_REQUESTED, tick.now, tick.io.stateWrite)
    else GatedStep(f, Applied(s, payload.value, tick.now), tick)
  }

  function Applied(s: CycleState, payload: TurnPayload, now: int): CycleState
  {
    s.(nextCycleGoal := if payload.nextGoal != "" then payload.nextGoal else s.nextCycleGoal, updatedAt := now)
  }

  /** The error of writing an advanced state is returned; that of writing a gate's halt is not. */
  function GatedStep(f: Files, s: CycleState, tick: Tick): (Files, Outcome)
  {
    var gates := tick.pipeline(s);
    var r := Stepped(gates, s, tick.now);
    var ledger := f.ledger + StepEntries(gates, s, tick.now);
    var ok := tick.io.stateWrite;
    if r.err.None? then
      (Files(Written(f.state, r.value, ok), ledger), if ok then Advanced(!CanAdvance(r.value, tick.after)) else Failed)
    else if r.err.value.HaltedError? then
      (Files(Written(f.state, r.value, ok), ledger), HaltedWith(r.err.value.reason, r.err.value.haltReports))
    else (f.(ledger := ledger), Failed)
  }

  /** The loop body reads the state file afresh on every iteration. */
  ghost function RunLoop(decode: Decoder, cfg: Config, f: Files, ticks: seq<Tick>): (Files, Option<Outcome>)
    decreases |ticks|
  {
    if ticks == [] then (f, None)
    else if !ticks[0].io.stateRead then (f, Some(Failed))
    else
      var (f', outcome) := Iteration(decode, cfg, f, ReadState(f.state), ticks[0]);
      if outcome != Advanced(false) then (f', Some(outcome))
      else if !ticks[0].io.slept then (f', Some(Failed))
      else RunLoop(decode, cfg, f', ticks[1..])
  }

  /** A whole invocation: refused on a sealed ledger, otherwise the loop. None: still going when the
      ticks ran out. */
  ghost function Invocation(decode: Decoder, cfg: Config, f: Files, sealRead: bool, ticks: seq<Tick>):
      (Files, Option<Outcome>)
  {
    if cfg.agents == [] then (f, Some(NoAgents))
    else if !sealRead then (f, Some(Failed))
    else if Seal.Sealed(f.ledger) then (f, Some(HaltedWith(Seal.SealReason(f.ledger).value, [])))
    else RunLoop(decode, cfg, f, ticks)
  }

  class MultiAgentOrchestrator {
    const decode: Decoder
    const sync: StateFileSync
    const ledger: LedgerFile
    const driver: Driver

    ghost predicate Valid()
    {
      driver.sync == sync && driver.ledger == ledger
    }

    ghost function View(): Files
      reads sync, ledger
    {
      Files(sync.content, ledger.entries)
    }

    constructor (decode: Decoder, sync: StateFileSync, ledger: LedgerFile)
      ensures Valid() && fresh(driver)
      ensures this.decode == decode && this.sync == sync && this.ledger == ledger
    {
      this.decode := decode;
      this.sync := sync;
      this.ledger := ledger;
      var d := new Driver(sync, ledger);
      this.driver := d;
    }

    method AppendTurnLedger(now: int, id: string, agent: string, resp: TurnResponse)
      modifies ledger
      ensures ledger.entries == old(ledger.entries) + TurnEntries(now, id, agent, resp)
    {
      ledger.Append(TurnEntry(now, id, agent, resp));
      if resp.handoffTo == "" { return; }
      ledger.Append(HandoffEntry(now, id, agent, resp));
    }

    /** Seal the cycle: the sticky ledger entry, then the halted state. */
    method HaltCycle(s: CycleState, reason: HaltReason, now: int, ok: bool) returns (outcome: Outcome)
      requires Valid()
      modifies sync, ledger
      ensures (View(), outcome) == HaltHere(old(View()), s, reason, now, ok)
    {
      var state := new State(s);
      var halted := state.Halt(reason, now);
      ledger.Append(HaltEntry(now, s.id, reason));
      sync.Write(halted.value, ok);
      return if ok then HaltedWith(reason, []) else Failed;
    }

    method RunOnce(cfg: Config, s: CycleState, tick: Tick) returns (outcome: Outcome)
      requires Valid()
      modifies sync, ledger, driver
      ensures (View(), outcome) == Iteration(decode, cfg, old(View()), s, tick)
    {
      if |cfg.agents| == 0 { return NoAgents; }
      if !CanAdvance(s, tick.before) { return CannotAdvance; }
      if !tick.io.ledgerRead { return Failed; }
      var reason := Stuck.Stuck(ledger.entries);
      if reason.None? {
        var exceeds := Stuck.ExceedsLifetimeCeiling(ledger.entries, cfg.maxLifetimeTurns);
        if exceeds { reason := Some(BUDGET_EXCEEDED); }
      }
      if reason.Some? {
        outcome := HaltCycle(s, reason.value, tick.now, tick.io.stateWrite);
        return;
      }
      var agentIdx := s.completedCycles / ResetEvery(cfg);
      agentIdx := agentIdx % |cfg.agents|;
      var agent := cfg.agents[agentIdx];
      var turn := tick.adapters(agent);
      if !turn.Response? { return Failed; }
      AppendTurnLedger(tick.now, s.id, agent, turn.resp);
      outcome := ApplyAndStep(s, turn.resp, tick);
    }

    method ApplyAndStep(s: CycleState, resp: TurnResponse, tick: Tick) returns (outcome: Outcome)
      requires Valid()
      modifies sync, ledger, driver
      ensures (View(), outcome) == AfterTurn(decode, old(View()), s, resp, tick)
    {
      var payload := ParseTurnPayload(decode, resp.summary);
      if payload.None? {
        outcome := HaltCycle(s, UNPARSEABLE_TURN, tick.now, tick.io.stateWrite);
        return;
      }
      if payload.value.haltRequested {
        outcome := HaltCycle(s, USER_REQUESTED, tick.now, tick.io.stateWrite);
        return;
      }
      var state := s;
      if payload.value.nextGoal != "" { state := state.(nextCycleGoal := payload.value.nextGoal); }
      state := state.(updatedAt := tick.now);
      driver.SetPipeline(tick.pipeline(state));
      var result := driver.Step(state, tick.now);
      if result.err.Some? {
        if result.err.value.HaltedError? {
          sync.Write(result.value, tick.io.stateWrite);
          return HaltedWith(result.err.value.reason, result.err.value.haltReports);
        }
        return Failed;
      }
      sync.Write(result.value, tick.io.stateWrite);
      if !tick.io.stateWrite { return Failed; }
      return Advanced(!CanAdvance(result.value, tick.after));
    }

    method Run(cfg: Config, sealRead: bool, ticks: seq<Tick>) returns (outcome: Option<Outcome>)
      requires Valid()
      modifies sync, ledger, driver
      ensures (View(), outcome) == Invocation(decode, cfg, old(View()), sealRead, ticks)
    {
      if |cfg.agents| == 0 { return Some(NoAgents); }
      if !sealRead { return Some(Failed); }
      var seal := Seal.LedgerSealsResume(ledger.entries);
      if seal.Some? { return Some(HaltedWith(seal.value, [])); }
      for i := 0 to |ticks|
        invariant RunLoop(decode, cfg, old(View()), ticks) == RunLoop(decode, cfg, View(), ticks[i..])
      {
        assert ticks[i..][0] == ticks[i] && ticks[i..][1..] == ticks[i + 1..];
        var state := sync.Read(ticks[i].io.stateRead);
        if state.None? { return Some(Failed); }
        var once := RunOnce(cfg, state.value, ticks[i]);
        if once != Advanced(false) { return Some(once); }
        if !ticks[i].io.slept { return Some(Failed); }
      }
      return None;
    }
  }
}
