/** The vocabulary of the autonomous cycle: halt reasons, the cycle state, and gates. */
module CycleTypes {
  import opened Wrappers

  /** A halt reason is a string on the wire; a state file may hold any string. */
  type HaltReason = string

  const SELF_AUDIT_VIOLATION: HaltReason := "self-audit-violation"
  const SSH_AUTH_FAILED: HaltReason := "ssh-auth-failed"
  const MAX_CYCLES_REACHED: HaltReason := "max-cycles-reached"
  const GATE_FAILURE: HaltReason := "gate-failure"
  const USER_REQUESTED: HaltReason := "user-requested"
  const PREFLIGHT_FAILED: HaltReason := "preflight-failed"
  const SUCCESS: HaltReason := "success"
  const STUCK: HaltReason := "stuck"
  const BUDGET_EXCEEDED: HaltReason := "budget-exceeded"
  const UNPARSEABLE_TURN: HaltReason := "unparseable-turn"

  const KNOWN_REASONS: set<HaltReason> := {
    SELF_AUDIT_VIOLATION, SSH_AUTH_FAILED, MAX_CYCLES_REACHED, GATE_FAILURE, USER_REQUESTED,
    PREFLIGHT_FAILED, SUCCESS, STUCK, BUDGET_EXCEEDED, UNPARSEABLE_TURN
  }

  function ParseHaltReason(s: string): Option<HaltReason>
  {
    if s in KNOWN_REASONS then Some(s) else None
  }

  datatype Phase = Preflight | Audit | Philosophy | Polish | Commit | Handoff | HaltedPhase

  /** The persisted state of one cycle, without the fields that only gates and prompts read. */
  datatype CycleState = CycleState(
    id: string, phase: Phase, completedCycles: nat, maxCycles: int, localGates: seq<string>,
    nextCycleGoal: string, halted: bool, haltReason: HaltReason, updatedAt: int,
    lastFailedGate: string, autoGoal: bool, maxDurationMinutes: int, startedAt: int)

  /** `elapsed` is the number of whole minutes since startedAt that the clock shows at the call. */
  predicate CanAdvance(s: CycleState, elapsed: int)
  {
    && !s.halted
    && !(s.maxCycles > 0 && s.completedCycles >= s.maxCycles)
    && !(s.maxDurationMinutes > 0 && s.startedAt > 0 && elapsed >= s.maxDurationMinutes)
  }

  /** How the operating system treats one pass: whether the state file reads, the ledger reads, and
      the state writes, and whether the pause before the next iteration is left uncancelled. */
  datatype Io = Io(stateRead: bool, ledgerRead: bool, stateWrite: bool, slept: bool)

  datatype ClaimCheck = ClaimCheck(message: string, file: string, verified: bool)

  datatype GateReport = GateReport(
    gate: string, passed: bool, stdout: string, stderr: string, claimChecks: seq<ClaimCheck>)

  datatype GateResult =
    | GateSuccess(report: GateReport)
    | GateFailure(report: GateReport, reason: HaltReason)
    | GateWarning(report: GateReport)

  /** A gate runs commands we do not see: any result and any next state. */
  type Gate = CycleState -> (GateResult, CycleState)

  type Pipeline = seq<Gate>

  /** The gate leaves the cycle's identity and its two counters alone. */
  ghost predicate KeepsCounters(g: Gate)
  {
    forall s :: var next := g(s).1;
      next.id == s.id && next.completedCycles == s.completedCycles && next.maxCycles == s.maxCycles
  }

  ghost predicate PipelineKeepsCounters(gates: Pipeline)
  {
    forall g | g in gates :: KeepsCounters(g)
  }

  datatype StepError =
    | HaltedError(reason: HaltReason, haltReports: seq<GateReport>)
    | NoPipeline
    | GoalRequired
    | AlreadyHalted

  /** A success when err is None. A failure still carries a state. */
  datatype StepResult = StepResult(value: CycleState, err: Option<StepError>, reports: seq<GateReport>)

  function Halted(s: CycleState, reason: HaltReason, now: int): CycleState
  {
    s.(halted := true, haltReason := reason, phase := HaltedPhase, updatedAt := now)
  }

  /** The state object the driver mutates; it embeds the persisted record. */
  class State {
    var cycle: CycleState

    constructor (c: CycleState)
      ensures cycle == c
    {
      cycle := c;
    }

    method Halt(reason: HaltReason, now: int) returns (r: StepResult)
      modifies this
      ensures cycle == Halted(old(cycle), reason, now)
      ensures r == StepResult(cycle, Some(HaltedError(reason, [])), [])
    {
      cycle := cycle.(halted := true);
      cycle := cycle.(haltReason := reason);
      cycle := cycle.(phase := HaltedPhase, updatedAt := now);
      return StepResult(cycle, Some(HaltedError(reason, [])), []);
    }

    /** Completes only an unhalted cycle, and then counts it exactly once. */
    method CompleteCycle(now: int) returns (r: StepResult)
      modifies this
      ensures r.value == cycle && r.reports == []
      ensures old(cycle.halted) ==> cycle == old(cycle) && r.err == Some(AlreadyHalted)
      ensures !old(cycle.halted) ==>
                && r.err == None
                && cycle == old(cycle).(
                     completedCycles := old(cycle.completedCycles) + 1, phase := Preflight, updatedAt := now)
    {
      if cycle.halted { return StepResult(cycle, Some(AlreadyHalted), []); }
      cycle := cycle.(completedCycles := cycle.completedCycles + 1);
      cycle := cycle.(phase := Preflight, updatedAt := now);
      return StepResult(cycle, None, []);
    }
  }
}
