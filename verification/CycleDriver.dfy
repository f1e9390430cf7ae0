/** The gate pipeline and the single-agent driver: one gated step, and the loop over steps. */
module CycleDriver {
  import opened CycleTypes
  import opened Ledger
  import opened Wrappers

  // ---- The pipeline --------------------------------------------------------------------------

  function ExecuteFrom(gates: Pipeline, current: CycleState, reports: seq<GateReport>, now: int): StepResult
    decreases |gates|
  {
    if gates == [] then StepResult(current, None, reports)
    else
      var (result, next) := gates[0](current);
      var all := reports + [result.report];
      if result.GateFailure? then
        var stopped := Halted(next.(lastFailedGate := result.report.gate), result.reason, now);
        StepResult(stopped, Some(HaltedError(result.reason, all)), all)
      else ExecuteFrom(gates[1..], next, all, now)
  }

  method Execute(gates: Pipeline, initial: CycleState, now: int) returns (r: StepResult)
    ensures r == ExecuteFrom(gates, initial, [], now)
  {
    var current := initial;
    var reports: seq<GateReport> := [];
    for i := 0 to |gates|
      invariant ExecuteFrom(gates, initial, [], now) == ExecuteFrom(gates[i..], current, reports, now)
    {
      assert gates[i..][0] == gates[i] && gates[i..][1..] == gates[i + 1..];
      var (result, next) := gates[i](current);
      reports := reports + [result.report];
      if result.GateFailure? {
        var state := new State(next.(lastFailedGate := result.report.gate));
        var halted := state.Halt(result.reason, now);
        return StepResult(halted.value, Some(HaltedError(result.reason, reports)), reports);
      }
      current := next;
    }
    assert gates[|gates|..] == [];
    return StepResult(current, None, reports);
  }

  /** The state gate i is handed: every earlier gate has run on its predecessor's state. */
  function StateAt(gates: Pipeline, s: CycleState, i: nat): CycleState
    requires i <= |gates|
  {
    if i == 0 then s else gates[i - 1](StateAt(gates, s, i - 1)).1
  }

  function ResultAt(gates: Pipeline, s: CycleState, i: nat): GateResult
    requires i < |gates|
  {
    gates[i](StateAt(gates, s, i)).0
  }

  /** The first n gates pass or warn. */
  ghost predicate PassesTo(gates: Pipeline, s: CycleState, n: nat)
    requires n <= |gates|
  {
    forall i | 0 <= i < n :: !ResultAt(gates, s, i).GateFailure?
  }

  ghost predicate ReportsOf(gates: Pipeline, s: CycleState, reports: seq<GateReport>)
  {
    && |reports| <= |gates|
    && forall i | 0 <= i < |reports| :: reports[i] == ResultAt(gates, s, i).report
  }

  /** A pipeline runs gates in order up to the first failure and not past it; it reports each gate
      it ran, succeeds iff none fails, and otherwise hands back the failing gate's state, halted for
      that gate's reason. */
  lemma {:induction false} ExecuteStopsAtFirstFailure(gates: Pipeline, s: CycleState, now: int)
    ensures RunsToFirstFailure(gates, s, ExecuteFrom(gates, s, [], now), now)
  {
    ExecuteFromAt(gates, s, 0, [], now);
    assert gates[0..] == gates;
  }

  ghost predicate RunsToFirstFailure(gates: Pipeline, s: CycleState, r: StepResult, now: int)
  {
    && ReportsOf(gates, s, r.reports)
    && (r.err.None? <==> PassesTo(gates, s, |gates|))
    && (r.err.None? ==> |r.reports| == |gates| && r.value == StateAt(gates, s, |gates|))
    && (r.err.Some? ==> StoppedAt(gates, s, |r.reports| - 1, r, now))
  }

  ghost predicate StoppedAt(gates: Pipeline, s: CycleState, k: int, r: StepResult, now: int)
  {
    && 0 <= k < |gates| && PassesTo(gates, s, k) && ResultAt(gates, s, k).GateFailure?
    && var reason := ResultAt(gates, s, k).reason;
    && r.err == Some(HaltedError(reason, r.reports))
    && r.value == Halted(StateAt(gates, s, k + 1).(lastFailedGate := r.value.lastFailedGate), reason, now)
    && r.value.lastFailedGate == ResultAt(gates, s, k).report.gate
  }

  lemma {:induction false} ExecuteFromAt(gates: Pipeline, s: CycleState, i: nat, reports: seq<GateReport>, now: int)
    requires i <= |gates| && |reports| == i && ReportsOf(gates, s, reports) && PassesTo(gates, s, i)
    ensures RunsToFirstFailure(gates, s, ExecuteFrom(gates[i..], StateAt(gates, s, i), reports, now), now)
    decreases |gates| - i
  {
    if i == |gates| {
      assert gates[i..] == [];
    } else {
      assert gates[i..][0] == gates[i] && gates[i..][1..] == gates[i + 1..];
      var result := ResultAt(gates, s, i);
      if result.GateFailure? {
        StopsAt(gates, s, i, reports, now);
      } else {
        ExecuteFromAt(gates, s, i + 1, reports + [result.report], now);
      }
    }
  }

  lemma StopsAt(gates: Pipeline, s: CycleState, i: nat, reports: seq<GateReport>, now: int)
    requires i < |gates| && |reports| == i && ReportsOf(gates, s, reports) && PassesTo(gates, s, i)
    requires ResultAt(gates, s, i).GateFailure?
    ensures var r := ExecuteFrom(gates[i..], StateAt(gates, s, i), reports, now);
      RunsToFirstFailure(gates, s, r, now)
  {
    assert gates[i..][0] == gates[i];
  }

  lemma {:induction false} ExecuteKeepsCounters(gates: Pipeline, s: CycleState, reports: seq<GateReport>, now: int)
    requires PipelineKeepsCounters(gates)
    ensures var v := ExecuteFrom(gates, s, reports, now).value;
      v.id == s.id && v.completedCycles == s.completedCycles && v.maxCycles == s.maxCycles
    decreases |gates|
  {
    if gates != [] {
      assert gates[0] in gates && KeepsCounters(gates[0]);
      ExecuteKeepsCounters(gates[1..], gates[0](s).1, reports + [gates[0](s).0.report], now);
    }
  }

  lemma {:induction false} ExecuteErrsOnlyByHalting(gates: Pipeline, s: CycleState, reports: seq<GateReport>, now: int)
    ensures var r := ExecuteFrom(gates, s, reports, now);
      r.err.Some? ==> r.err.value.HaltedError? && r.value.halted && r.value.haltReason == r.err.value.reason
    decreases |gates|
  {
    if gates != [] {
      ExecuteErrsOnlyByHalting(gates[1..], gates[0](s).1, reports + [gates[0](s).0.report], now);
    }
  }

  // ---- One gated step ------------------------------------------------------------------------

  predicate IsSpace(c: char)
  {
    || '\t' <= c <= '\r' || c in " \U{0085}\U{00A0}\U{1680}"
    || '\U{2000}' <= c <= '\U{200A}' || c in "\U{2028}\U{2029}\U{202F}\U{205F}\U{3000}"
  }

  /** Trimming white space leaves nothing. */
  predicate Blank(goal: string)
  {
    forall c | c in goal :: IsSpace(c)
  }

  function GateEntry(now: int, id: string, r: GateReport): Entry
  {
    NewEntry(now, id, if r.passed then GatePassed else GateFailed, if r.passed then r.stdout else r.stderr, [])
    .(gate := r.gate)
  }

  function GateEntries(now: int, id: string, reports: seq<GateReport>): seq<Entry>
  {
    seq(|reports|, i requires 0 <= i < |reports| => GateEntry(now, id, reports[i]))
  }

  function PinEntry(now: int, s: CycleState): Entry
  {
    NewEntry(now, s.id, GatesPinned, "gates pinned", s.localGates)
  }

  function GreenEntry(now: int, id: string): Entry
  {
    NewEntry(now, id, ValidationGreen, "gate pipeline passed", [])
  }

  function CompletedEntry(now: int, id: string): Entry
  {
    NewEntry(now, id, CycleCompleted, "cycle step completed", [])
  }

  function Completed(s: CycleState, now: int): CycleState
  {
    s.(completedCycles := s.completedCycles + 1, phase := Preflight, nextCycleGoal := "", updatedAt := now)
  }

  function Stepped(gates: Pipeline, s: CycleState, now: int): StepResult
  {
    if gates == [] then StepResult(s, Some(NoPipeline), [])
    else if Blank(s.nextCycleGoal) then StepResult(s, Some(GoalRequired), [])
    else
      var r := ExecuteFrom(gates, s, [], now);
      if r.err.Some? then r
      else if r.value.halted then StepResult(r.value, Some(AlreadyHalted), [])
      else StepResult(Completed(r.value, now), None, r.reports)
  }

  lemma StepUnhalted(gates: Pipeline, s: CycleState, now: int)
    ensures var r := Stepped(gates, s, now); r.err.None? ==> !r.value.halted && r.value.nextCycleGoal == ""
  {
  }

  /** What one step leaves on the ledger. */
  function StepEntries(gates: Pipeline, s: CycleState, now: int): seq<Entry>
  {
    if gates == [] || Blank(s.nextCycleGoal) then []
    else
      var r := Stepped(gates, s, now);
      [PinEntry(now, s)]
      + if r.err.Some? then []
        else GateEntries(now, r.value.id, r.reports) + [GreenEntry(now, r.value.id), CompletedEntry(now, r.value.id)]
  }

  /** The state file; an absent file reads as the zero state. */
  class StateFileSync {
    var content: Option<CycleState>

    constructor (c: Option<CycleState>)
      ensures content == c
    {
      content := c;
    }

    /** None is a read error. */
    method Read(ok: bool) returns (s: Option<CycleState>)
      ensures s == if ok then Some(ReadState(content)) else None
    {
      if !ok { return None; }
      return Some(if content.Some? then content.value else ZeroState());
    }

    /** Atomic: on an error the old content stays. */
    method Write(s: CycleState, ok: bool)
      modifies this
      ensures content == Written(old(content), s, ok)
    {
      if ok { content := Some(s); }
    }

    method Remove()
      modifies this
      ensures content == None
    {
      content := None;
    }
  }

  function ZeroState(): CycleState
  {
    CycleState("", Preflight, 0, 0, [], "", false, "", 0, "", false, 0, 0)
  }

  function ReadState(content: Option<CycleState>): CycleState
  {
    if content.Some? then content.value else ZeroState()
  }

  function Written(content: Option<CycleState>, s: CycleState, ok: bool): Option<CycleState>
  {
    if ok then Some(s) else content
  }

  /** The ledger file as its readers see it. How one append reaches the disk is module LedgerAppend. */
  class LedgerFile {
    var entries: seq<Entry>

    constructor (es: seq<Entry>)
      ensures entries == es
    {
      entries := es;
    }

    method Append(e: Entry)
      modifies this
      ensures entries == old(entries) + [e]
    {
      entries := entries + [e];
    }

    method AppendReports(now: int, id: string, reports: seq<GateReport>)
      modifies this
      ensures entries == old(entries) + GateEntries(now, id, reports)
    {
      for i := 0 to |reports|
        invariant entries == old(entries) + GateEntries(now, id, reports)[..i]
      {
        var gateEntries := GateEntries(now, id, reports);
        assert gateEntries[..i + 1] == gateEntries[..i] + [gateEntries[i]];
        Append(GateEntry(now, id, reports[i]));
      }
    }
  }

  /** The environment of one loop iteration: clock readings, the pipeline in force, what goal
      discovery would answer (None is an error), and how input and output go. */
  datatype DriverTick = DriverTick(
    now: int, before: int, after: int, gates: Pipeline, discovered: Option<string>, io: Io)

  datatype DriverOutcome =
    | Finished                       // nil: the cycle cannot advance
    | HaltedOn(reason: HaltReason)   // a *HaltedError
    | Errored                        // any other error
    | Running                        // the ticks ran out with the loop still going

  datatype Iterated = Iterated(file: Option<CycleState>, entries: seq<Entry>, outcome: DriverOutcome)

  /** One iteration of the driver loop: the new state file, the ledger entries, and the outcome. */
  function DriverIteration(file: Option<CycleState>, tick: DriverTick): Iterated
  {
    var s := ReadState(file);
    if !tick.io.stateRead then Iterated(file, [], Errored)
    else if !CanAdvance(s, tick.before) then Iterated(file, [], Finished)
    else
      var r := Stepped(tick.gates, s, tick.now);
      var entries := StepEntries(tick.gates, s, tick.now);
      if r.err.None? then AfterStep(file, r.value, entries, tick)
      else if r.err.value.HaltedError? then
        Iterated(Written(file, r.value, tick.io.stateWrite), entries, HaltedOn(r.err.value.reason))
      else Iterated(file, entries, Errored)
  }

  /** A step that passed: find the next goal if that is the cycle's own job, write, and go on. */
  function AfterStep(file: Option<CycleState>, s: CycleState, entries: seq<Entry>, tick: DriverTick): Iterated
  {
    var ok := tick.io.stateWrite;
    if s.autoGoal && Blank(s.nextCycleGoal) && tick.discovered.None? then Iterated(file, entries, Errored)
    else if s.autoGoal && Blank(s.nextCycleGoal) && tick.discovered.value == "" then
      Iterated(Written(file, Halted(s, SUCCESS, tick.now), ok), entries, Finished)
    else
      var next := if s.autoGoal && Blank(s.nextCycleGoal)
                  then s.(nextCycleGoal := tick.discovered.value, updatedAt := tick.now) else s;
      if !ok then Iterated(file, entries, Errored)
      else Iterated(Some(next), entries,
        if !CanAdvance(next, tick.after) then Finished else if tick.io.slept then Running else Errored)
  }

  /** The loop from a state file and a ledger: what it leaves of both, and its outcome. */
  function DriverRun(file: Option<CycleState>, ledger: seq<Entry>, ticks: seq<DriverTick>): Iterated
    decreases |ticks|
  {
    if ticks == [] then Iterated(file, ledger, Running)
    else
      var one := DriverIteration(file, ticks[0]);
      if one.outcome.Running? then DriverRun(one.file, ledger + one.entries, ticks[1..])
      else one.(entries := ledger + one.entries)
  }

  class Driver {
    const sync: StateFileSync
    const ledger: LedgerFile
    var pipeline: Pipeline

    constructor (sync: StateFileSync, ledger: LedgerFile)
      ensures this.sync == sync && this.ledger == ledger && pipeline == []
    {
      this.sync := sync;
      this.ledger := ledger;
      pipeline := [];
    }

    method SetPipeline(p: Pipeline)
      modifies this
      ensures pipeline == p
    {
      pipeline := p;
    }

    method Step(state: CycleState, now: int) returns (r: StepResult)
      modifies ledger
      ensures r == Stepped(pipeline, state, now)
      ensures ledger.entries == old(ledger.entries) + StepEntries(pipeline, state, now)
    {
      if |pipeline| == 0 { return StepResult(state, Some(NoPipeline), []); }
      if Blank(state.nextCycleGoal) { return StepResult(state, Some(GoalRequired), []); }
      ledger.Append(PinEntry(now, state));
      var result := Execute(pipeline, state, now);
      if result.err.Some? { return result; }
      var current := new State(result.value);
      var completed := current.CompleteCycle(now);
      if completed.err.Some? { return completed; }
      var done := completed.value.(nextCycleGoal := "", updatedAt := now);
      ledger.AppendReports(now, done.id, result.reports);
      ledger.Append(GreenEntry(now, done.id));
      ledger.Append(CompletedEntry(now, done.id));
      return StepResult(done, None, result.reports);
    }

    /** One pass through the loop body; Running means the loop goes round again. */
    method Iterate(tick: DriverTick) returns (outcome: DriverOutcome)
      modifies this, sync, ledger
      ensures var one := DriverIteration(old(sync.content), tick);
        outcome == one.outcome && sync.content == one.file && ledger.entries == old(ledger.entries) + one.entries
    {
      SetPipeline(tick.gates);
      var read := sync.Read(tick.io.stateRead);
      if read.None? { return Errored; }
      var state := read.value;
      if !CanAdvance(state, tick.before) { return Finished; }
      var result := Step(state, tick.now);
      if result.err.Some? {
        if result.err.value.HaltedError? {
          sync.Write(result.value, tick.io.stateWrite);
          return HaltedOn(result.err.value.reason);
        }
        return Errored;
      }
      StepUnhalted(pipeline, state, tick.now);
      outcome := Proceed(result.value, tick);
    }

    method Proceed(s: CycleState, tick: DriverTick) returns (outcome: DriverOutcome)
      requires !s.halted
      modifies sync
      ensures var one := AfterStep(old(sync.content), s, [], tick);
        outcome == one.outcome && sync.content == one.file
    {
      var next := s;
      if next.autoGoal && !next.halted && Blank(next.nextCycleGoal) {
        if tick.discovered.None? { return Errored; }
        var goal := tick.discovered.value;
        if goal == "" {
          var done := new State(next);
          var halted := done.Halt(SUCCESS, tick.now);
          sync.Write(halted.value, tick.io.stateWrite);
          return Finished;
        }
        next := next.(nextCycleGoal := goal, updatedAt := tick.now);
      }
      sync.Write(next, tick.io.stateWrite);
      if !tick.io.stateWrite { return Errored; }
      if !CanAdvance(next, tick.after) { return Finished; }
      return if tick.io.slept then Running else Errored;
    }

    method Run(ticks: seq<DriverTick>) returns (outcome: DriverOutcome)
      modifies this, sync, ledger
      ensures Iterated(sync.content, ledger.entries, outcome)
           == DriverRun(old(sync.content), old(ledger.entries), ticks)
    {
      for i := 0 to |ticks|
        invariant DriverRun(old(sync.content), old(ledger.entries), ticks)
               == DriverRun(sync.content, ledger.entries, ticks[i..])
      {
        assert ticks[i..][0] == ticks[i] && ticks[i..][1..] == ticks[i + 1..];
        outcome := Iterate(ticks[i]);
        if !outcome.Running? { return; }
      }
      return Running;
    }
  }
}
