/** The one-shot driver `cycle run --once`: one bounded pass and the exit code it reports. */
module CycleRun {
  import opened CycleDriver
  import opened CycleOrchestrator
  import opened CycleTypes
  import opened Ledger
  import Seal
  import Stuck
  import opened Wrappers

  const EXIT_CLEAN_PASS := 0
  const EXIT_STUCK := 10
  const EXIT_BUDGET := 11
  const EXIT_PREFLIGHT := 12
  const EXIT_GATE_FAILURE := 13
  const EXIT_UNPARSEABLE := 14
  const EXIT_USER_REQUESTED := 15
  const EXIT_SELF_AUDIT := 16
  const EXIT_SSH_AUTH := 17
  const EXIT_MAX_CYCLES := 18
  const EXIT_UNKNOWN_REASON := 19
  const EXIT_OPERATIONAL := 1

  function ExitCodeForHalt(reason: HaltReason): int
  {
    if reason == SUCCESS then EXIT_CLEAN_PASS
    else if reason == STUCK then EXIT_STUCK
    else if reason == BUDGET_EXCEEDED then EXIT_BUDGET
    else if reason == PREFLIGHT_FAILED then EXIT_PREFLIGHT
    else if reason == GATE_FAILURE then EXIT_GATE_FAILURE
    else if reason == UNPARSEABLE_TURN then EXIT_UNPARSEABLE
    else if reason == USER_REQUESTED then EXIT_USER_REQUESTED
    else if reason == SELF_AUDIT_VIOLATION then EXIT_SELF_AUDIT
    else if reason == SSH_AUTH_FAILED then EXIT_SSH_AUTH
    else if reason == MAX_CYCLES_REACHED then EXIT_MAX_CYCLES
    else EXIT_UNKNOWN_REASON
  }

  /** A scheduler can read the reason back off the code: each known reason has a code of its own,
      and no reason shares the code of an operational error. */
  lemma ExitCodeIdentifiesReason(a: HaltReason, b: HaltReason)
    ensures a in KNOWN_REASONS && ExitCodeForHalt(a) == ExitCodeForHalt(b) ==> a == b
    ensures ExitCodeForHalt(a) == EXIT_UNKNOWN_REASON <==> a !in KNOWN_REASONS
    ensures ExitCodeForHalt(a) != EXIT_OPERATIONAL
  {
  }

  /** The first checks of a pass: the clock, and whether the state file and the ledger read. */
  datatype Start = Start(elapsed: int, stateRead: bool, ledgerRead: bool)

  datatype Options = Options(goal: string, maxLifetimeTurns: int, agents: seq<string>)

  /** How a pass ends: nothing wrong (exit 0), a halt reported with its detail, or exit 1. */
  datatype Exit = Clean | Reported(reason: HaltReason, detail: string) | OperationalError

  function ExitCode(e: Exit): int
  {
    match e
    case Clean => EXIT_CLEAN_PASS
    case Reported(reason, _) => ExitCodeForHalt(reason)
    case OperationalError => EXIT_OPERATIONAL
  }

  /** The stderr of the last report that did not pass, else of the last report, else nothing. */
  function LastFailure(reports: seq<GateReport>): Option<nat>
  {
    if reports == [] then None
    else if !reports[|reports| - 1].passed then Some(|reports| - 1)
    else LastFailure(reports[..|reports| - 1])
  }

  ghost predicate IsLastFailure(reports: seq<GateReport>, k: nat)
  {
    && k < |reports| && !reports[k].passed
    && forall j | k < j < |reports| :: reports[j].passed
  }

  ghost predicate IsDetail(reports: seq<GateReport>, detail: string)
  {
    || (exists k: nat :: IsLastFailure(reports, k) && detail == reports[k].stderr)
    || (reports != [] && (forall j | 0 <= j < |reports| :: reports[j].passed)
        && detail == reports[|reports| - 1].stderr)
    || (reports == [] && detail == "")
  }

  function Detail(reports: seq<GateReport>): string
  {
    var k := LastFailure(reports);
    if k.Some? && k.value < |reports| then reports[k.value].stderr
    else if reports != [] then reports[|reports| - 1].stderr
    else ""
  }

  lemma {:induction false} LastFailureIsLast(reports: seq<GateReport>)
    ensures LastFailure(reports).Some? ==> IsLastFailure(reports, LastFailure(reports).value)
    ensures LastFailure(reports).None? ==> forall j | 0 <= j < |reports| :: reports[j].passed
  {
    if reports != [] && reports[|reports| - 1].passed {
      var shorter := reports[..|reports| - 1];
      LastFailureIsLast(shorter);
      assert forall j | 0 <= j < |shorter| :: reports[j] == shorter[j];
    }
  }

  lemma DetailIsLastFailure(reports: seq<GateReport>)
    ensures IsDetail(reports, Detail(reports))
  {
    LastFailureIsLast(reports);
  }

  method FailedStderr(reports: seq<GateReport>) returns (detail: string)
    ensures detail == Detail(reports)
  {
    var i := |reports| - 1;
    assert reports[..i + 1] == reports;
    while i >= 0
      invariant -1 <= i < |reports|
      invariant LastFailure(reports) == LastFailure(reports[..i + 1])
    {
      assert reports[..i + 1][..i] == reports[..i];
      if !reports[i].passed { return reports[i].stderr; }
      i := i - 1;
    }
    assert LastFailure(reports[..0]).None?;
    if |reports| > 0 { return reports[|reports| - 1].stderr; }
    return "";
  }

  function WithGoal(s: CycleState, goal: string): CycleState
  {
    if Blank(goal) then s else s.(nextCycleGoal := goal)
  }

  /** The ledger entry goes first; an error writing the state is an operational one. */
  function HaltOnce(f: Files, s: CycleState, reason: HaltReason, detail: string, tick: Tick): (Files, Exit)
  {
    (HaltHere(f, s, reason, tick.now, tick.io.stateWrite).0,
     if tick.io.stateWrite then Reported(reason, detail) else OperationalError)
  }

  /** One pass. `start` is the environment of the first checks, `tick` that of everything after. */
  ghost function Pass(decode: Decoder, opts: Options, f: Files, start: Start, tick: Tick): (Files, Exit)
  {
    var s := ReadState(f.state);
    if !start.stateRead || s.id == "" then (f, OperationalError)
    else if s.halted then (f, Reported(s.haltReason, ""))
    else if !CanAdvance(s, start.elapsed) then (f, Clean)
    else if !start.ledgerRead then (f, OperationalError)
    else if Seal.Sealed(f.ledger) then (f, Reported(Seal.SealReason(f.ledger).value, ""))
    else if opts.agents != [] then AgentPass(decode, opts, f, WithGoal(s, opts.goal), tick)
    else ReferencePass(opts, f, WithGoal(s, opts.goal), tick)
  }

  function OnceConfig(opts: Options): Config { Config(opts.agents, 0, opts.maxLifetimeTurns) }

  ghost function AgentPass(decode: Decoder, opts: Options, f: Files, s: CycleState, tick: Tick): (Files, Exit)
  {
    var (f', outcome) := Iteration(decode, OnceConfig(opts), f, s, tick);
    (f', if outcome.HaltedWith? then Reported(outcome.reason, Detail(outcome.reports))
         else if outcome.NoAgents? || outcome.Failed? then OperationalError
         else Clean)
  }

  ghost function ReferencePass(opts: Options, f: Files, s: CycleState, tick: Tick): (Files, Exit)
  {
    if Stuck.IsStuck(f.ledger) then HaltOnce(f, s, STUCK, "", tick)
    else if Stuck.ExceedsCeiling(f.ledger, opts.maxLifetimeTurns) then HaltOnce(f, s, BUDGET_EXCEEDED, "", tick)
    else ReferenceStep(f, s, tick)
  }

  /** One bare gated step, once the breakers let the pass on. */
  function ReferenceStep(f: Files, s: CycleState, tick: Tick): (Files, Exit)
  {
    var gates := tick.pipeline(s);
    var r := Stepped(gates, s, tick.now);
    var stepped := f.(ledger := f.ledger + StepEntries(gates, s, tick.now));
    if r.err.None? then
      (stepped.(state := Written(f.state, r.value, tick.io.stateWrite)),
       if tick.io.stateWrite then Clean else OperationalError)
    else if r.err.value.HaltedError? then
      HaltOnce(stepped, r.value, r.err.value.reason, Detail(r.err.value.haltReports), tick)
    else (stepped, OperationalError)
  }

  method RunHaltOnce(
      sync: StateFileSync, ledger: LedgerFile, s: CycleState, reason: HaltReason, detail: string, tick: Tick)
      returns (exit: Exit)
    modifies sync, ledger
    ensures (Files(sync.content, ledger.entries), exit)
         == HaltOnce(old(Files(sync.content, ledger.entries)), s, reason, detail, tick)
  {
    var state := new State(s);
    var halted := state.Halt(reason, tick.now);
    ledger.Append(HaltEntry(tick.now, halted.value.id, reason));
    sync.Write(halted.value, tick.io.stateWrite);
    return if tick.io.stateWrite then Reported(reason, detail) else OperationalError;
  }

  method RunCycleOnce(
      decode: Decoder, opts: Options, sync: StateFileSync, ledger: LedgerFile, start: Start, tick: Tick)
      returns (exit: Exit)
    modifies sync, ledger
    ensures (Files(sync.content, ledger.entries), exit)
         == Pass(decode, opts, old(Files(sync.content, ledger.entries)), start, tick)
  {
    var read := sync.Read(start.stateRead);
    if read.None? { return OperationalError; }
    var state := read.value;
    if state.id == "" { return OperationalError; }
    if state.halted { return Reported(state.haltReason, ""); }
    if !CanAdvance(state, start.elapsed) { return Clean; }
    if !start.ledgerRead { return OperationalError; }
    var seal := Seal.LedgerSealsResume(ledger.entries);
    if seal.Some? { return Reported(seal.value, ""); }
    if !Blank(opts.goal) { state := state.(nextCycleGoal := opts.goal); }
    if |opts.agents| > 0 {
      exit := RunCycleOnceAgents(decode, opts, sync, ledger, state, tick);
    } else {
      exit := RunReference(opts, sync, ledger, state, tick);
    }
  }

  method RunCycleOnceAgents(
      decode: Decoder, opts: Options, sync: StateFileSync, ledger: LedgerFile, s: CycleState,
      tick: Tick)
      returns (exit: Exit)
    modifies sync, ledger
    ensures (Files(sync.content, ledger.entries), exit)
         == AgentPass(decode, opts, old(Files(sync.content, ledger.entries)), s, tick)
  {
    var orch := new MultiAgentOrchestrator(decode, sync, ledger);
    var outcome := orch.RunOnce(OnceConfig(opts), s, tick);
    if outcome.HaltedWith? {
      var detail := FailedStderr(outcome.reports);
      return Reported(outcome.reason, detail);
    }
    if outcome.NoAgents? || outcome.Failed? { return OperationalError; }
    return Clean;
  }

  method RunReference(opts: Options, sync: StateFileSync, ledger: LedgerFile, s: CycleState, tick: Tick)
      returns (exit: Exit)
    modifies sync, ledger
    ensures (Files(sync.content, ledger.entries), exit)
         == ReferencePass(opts, old(Files(sync.content, ledger.entries)), s, tick)
  {
    var stuck := Stuck.Stuck(ledger.entries);
    if stuck.Some? {
      exit := RunHaltOnce(sync, ledger, s, stuck.value, "", tick);
      return;
    }
    var exceeds := Stuck.ExceedsLifetimeCeiling(ledger.entries, opts.maxLifetimeTurns);
    if exceeds {
      exit := RunHaltOnce(sync, ledger, s, BUDGET_EXCEEDED, "", tick);
      return;
    }
    var driver := new Driver(sync, ledger);
    driver.SetPipeline(tick.pipeline(s));
    var result := driver.Step(s, tick.now);
    if result.err.Some? {
      if result.err.value.HaltedError? {
        var detail := FailedStderr(result.err.value.haltReports);
        exit := RunHaltOnce(sync, ledger, result.value, result.err.value.reason, detail, tick);
        return;
      }
      return OperationalError;
    }
    sync.Write(result.value, tick.io.stateWrite);
    return if tick.io.stateWrite then Clean else OperationalError;
  }
}
