/** Everything that can happen to one cycle, one complete operation after another: one-shot passes,
    driver runs, the broker's step, halt and orchestrate handlers, and tool-use records. */
module CycleOps {
  import opened CycleCreate
  import opened CycleDriver
  import opened CycleOrchestrator
  import opened CycleRun
  import opened CycleTypes
  import opened Ledger
  import Seal
  import opened Wrappers

  /** The cycle's two files, and what the broker caches: the state, and whether it has a syncer. */
  datatype World = World(files: Files, cache: Option<CycleState>, synced: bool)

  datatype Op =
    | OneShot(opts: Options, start: Start, tick: Tick)
    | DriveLoop(driverTicks: seq<DriverTick>)
    | StepHandler(goal: string, now: int, pipeline: CycleState -> Pipeline, io: Io)
    | HaltHandler(reason: string, now: int, io: Io, removed: bool)
    | OrchestrateHandler(
        bodyOk: bool, registryOk: bool, cfg: Config, io: Io, sealRead: bool, ticks: seq<Tick>)
    | ToolUse(blocking: bool, now: int, summary: string)

  /** Whether reading the state file yields a cycle. */
  predicate OnDisk(w: World, ok: bool)
  {
    ok && w.files.state.Some? && w.files.state.value.id != ""
  }

  /** refreshFromFile: a disk copy at least as fresh replaces the cached state. */
  function Refresh(w: World, ok: bool): World
  {
    if !OnDisk(w, ok) then w
    else if w.cache.Some? && w.files.state.value.updatedAt < w.cache.value.updatedAt then w
    else w.(cache := w.files.state, synced := true)
  }

  /** get: the cached state, else the one on disk, which is then cached; None is "not found". */
  function Get(w: World, ok: bool): World
  {
    if w.cache.Some? || !OnDisk(w, ok) then w else w.(cache := w.files.state, synced := true)
  }

  /** Refreshing never regresses the cache, and leaves it as fresh as the disk: it is one of the two
      copies, and neither is newer. So a halt another process put on disk, if at least as fresh as the
      cache, is what a handler gets. */
  lemma RefreshIsFreshest(w: World, ok: bool)
    ensures var w' := Refresh(w, ok);
      && w'.files == w.files && (w'.cache == w.cache || (OnDisk(w, ok) && w'.cache == w.files.state))
      && (w.cache.Some? ==> w'.cache.Some? && w'.cache.value.updatedAt >= w.cache.value.updatedAt)
      && (OnDisk(w, ok) ==> w'.cache.Some? && w'.cache.value.updatedAt >= w.files.state.value.updatedAt)
    ensures OnDisk(w, ok) && (w.cache.Some? ==> w.cache.value.updatedAt <= w.files.state.value.updatedAt) ==>
      Get(Refresh(w, ok), ok).cache == w.files.state
  {
  }

  /** A request that is refused, or a state that cannot be written, leaves nothing behind. */
  function CreateCycle(w: World, id: string, req: NewCycleRequest, now: int, ok: bool): World
  {
    var first := FirstState(req, id, now);
    if first.Err? || !ok then w
    else World(Files(Some(first.value), w.files.ledger + [CreatedEntry(now, id, req.pendingFiles)]),
               Some(first.value), true)
  }

  function ClaimEntry(now: int, id: string, c: ClaimCheck): Entry
  {
    if c.verified then NewEntry(now, id, ClaimVerified, "verified: " + c.message, [c.file])
    else NewEntry(now, id, ClaimFalsified, "falsified: " + c.message, [c.file])
  }

  function ReportEntries(now: int, id: string, r: GateReport): seq<Entry>
  {
    [GateEntry(now, id, r)]
    + if r.gate != "claim" then []
      else seq(|r.claimChecks|, i requires 0 <= i < |r.claimChecks| => ClaimEntry(now, id, r.claimChecks[i]))
  }

  function AllReportEntries(now: int, id: string, reports: seq<GateReport>): seq<Entry>
  {
    if reports == [] then []
    else AllReportEntries(now, id, reports[..|reports| - 1]) + ReportEntries(now, id, reports[|reports| - 1])
  }

  /** CompleteCycle's value, with the goal consumed; its error is ignored here. */
  function BrokerCompleted(s: CycleState, now: int): CycleState
  {
    (if s.halted then s else s.(completedCycles := s.completedCycles + 1, phase := Preflight, updatedAt := now))
    .(nextCycleGoal := "")
  }

  /** What handleStepCycle records once the pipeline has run. */
  function StepRecord(now: int, id: string, r: StepResult): seq<Entry>
  {
    (if r.err.None? then [GreenEntry(now, id), CompletedEntry(now, id)] else [])
    + AllReportEntries(now, id, r.reports)
  }

  function StepCycle(w: World, id: string, op: Op): World
    requires op.StepHandler?
  {
    var w' := Get(Refresh(w, op.io.stateRead), op.io.stateRead);
    if w'.cache.None? || !op.io.ledgerRead || Seal.Sealed(w'.files.ledger) then w'
    else
      var s := StepInput(w'.cache.value, op.goal);
      if Blank(s.nextCycleGoal) then w'
      else Record(w', id, ExecuteFrom(op.pipeline(s), s, [], op.now), op.now, op.io.stateWrite)
  }

  function StepInput(s: CycleState, goal: string): CycleState
  {
    if goal != "" then s.(nextCycleGoal := goal) else s
  }

  /** Commit the result of the pipeline: the ledger entries, the state file, and the cache. The error
      of writing the file is ignored. */
  function Record(w: World, id: string, r: StepResult, now: int, ok: bool): World
  {
    var s := if r.err.None? then BrokerCompleted(r.value, now) else r.value;
    var state := if w.synced then Written(w.files.state, s, ok) else w.files.state;
    World(Files(state, w.files.ledger + StepRecord(now, id, r)), Some(s), w.synced)
  }

  /** Both file errors are ignored: a state file that cannot be removed stays. */
  function HaltCycle(w: World, id: string, op: Op): World
    requires op.HaltHandler?
  {
    var w' := Get(w, op.io.stateRead);
    if w'.cache.None? then w'
    else
      var reason := HaltReasonOf(op.reason);
      var written := Written(w'.files.state, Halted(w'.cache.value, reason, op.now), op.io.stateWrite);
      var state := if !w'.synced then w'.files.state else if op.removed then None else written;
      World(Files(state, w'.files.ledger + [HaltEntry(op.now, id, reason)]), None, false)
  }

  function HaltReasonOf(requested: string): HaltReason
  {
    if requested != "" && ParseHaltReason(requested).Some? then requested else USER_REQUESTED
  }

  ghost function Orchestrate(decode: Decoder, w: World, op: Op): World
    requires op.OrchestrateHandler?
  {
    var w' := Get(w, op.io.stateRead);
    if w'.cache.None? || !op.bodyOk then w'
    else if !op.registryOk || !op.io.ledgerRead || Seal.Sealed(w'.files.ledger) then w'.(synced := true)
    else w'.(synced := true, files := Invocation(decode, op.cfg, w'.files, op.sealRead, op.ticks).0)
  }

  function ToolUseEntry(now: int, id: string, summary: string): Entry
  {
    NewEntry(now, id, ToolUseDecision, summary, [])
  }

  ghost function Apply(decode: Decoder, id: string, w: World, op: Op): World
  {
    match op
    case OneShot(opts, start, tick) => w.(files := Pass(decode, opts, w.files, start, tick).0)
    case DriveLoop(ticks) =>
      var run := DriverRun(w.files.state, w.files.ledger, ticks);
      w.(files := Files(run.file, run.entries))
    case StepHandler(_, _, _, _) => StepCycle(w, id, op)
    case HaltHandler(_, _, _, _) => HaltCycle(w, id, op)
    case OrchestrateHandler(_, _, _, _, _, _) => Orchestrate(decode, w, op)
    case ToolUse(blocking, now, summary) =>
      if blocking then w.(files := w.files.(ledger := w.files.ledger + [ToolUseEntry(now, id, summary)])) else w
  }

  ghost function ApplyAll(decode: Decoder, id: string, w: World, ops: seq<Op>): World
    decreases |ops|
  {
    if ops == [] then w else ApplyAll(decode, id, Apply(decode, id, w, ops[0]), ops[1..])
  }

  // ---- The broker's handlers as they update their store -----------------------------------------

  class CycleStore {
    const id: string
    const sync: StateFileSync
    const ledger: LedgerFile
    var state: Option<CycleState>
    var synced: bool

    constructor (id: string, sync: StateFileSync, ledger: LedgerFile)
      ensures this.id == id && this.sync == sync && this.ledger == ledger && state == None && !synced
    {
      this.id := id;
      this.sync := sync;
      this.ledger := ledger;
      state := None;
      synced := false;
    }

    ghost function View(): World
      reads this, sync, ledger
    {
      World(Files(sync.content, ledger.entries), state, synced)
    }

    method RefreshFromFile(ok: bool)
      modifies this
      ensures View() == Refresh(old(View()), ok)
      ensures old(state).Some? ==> state.Some? && state.value.updatedAt >= old(state).value.updatedAt
      ensures OnDisk(old(View()), ok) ==> state.Some? && state.value.updatedAt >= sync.content.value.updatedAt
    {
      var fs := sync.Read(ok);
      if fs.None? || fs.value.id == "" { return; }
      if state.Some? && fs.value.updatedAt < state.value.updatedAt { return; }
      state := fs;
      synced := true;
    }

    method GetState(ok: bool) returns (s: Option<CycleState>)
      modifies this
      ensures View() == Get(old(View()), ok) && s == state
    {
      if state.Some? { return state; }
      var fs := sync.Read(ok);
      if fs.None? || fs.value.id == "" { return None; }
      state := fs;
      synced := true;
      return state;
    }

    method AppendReports(now: int, reports: seq<GateReport>)
      modifies ledger
      ensures ledger.entries == old(ledger.entries) + AllReportEntries(now, id, reports)
    {
      assert reports[..|reports|] == reports;
      for i := 0 to |reports|
        invariant ledger.entries == old(ledger.entries) + AllReportEntries(now, id, reports[..i])
      {
        assert reports[..i + 1][..i] == reports[..i];
        AppendReport(now, reports[i]);
      }
    }

    method AppendReport(now: int, report: GateReport)
      modifies ledger
      ensures ledger.entries == old(ledger.entries) + ReportEntries(now, id, report)
    {
      ledger.Append(GateEntry(now, id, report));
      if report.gate == "claim" {
        ghost var claims := ReportEntries(now, id, report)[1..];
        for i := 0 to |report.claimChecks|
          invariant ledger.entries == old(ledger.entries) + [GateEntry(now, id, report)] + claims[..i]
        {
          assert claims[..i + 1] == claims[..i] + [ClaimEntry(now, id, report.claimChecks[i])];
          ledger.Append(ClaimEntry(now, id, report.claimChecks[i]));
        }
        assert ReportEntries(now, id, report) == [GateEntry(now, id, report)] + claims;
      }
    }

    method HandleCreateCycle(req: NewCycleRequest, now: int, ok: bool) returns (created: bool)
      modifies this, sync, ledger
      ensures View() == CreateCycle(old(View()), id, req, now, ok)
      ensures created <==> req.branch !in ["main", "master"] && req.goal != "" && ok
    {
      var first := NewState(req, id, now);
      if first.Err? { return false; }
      sync.Write(first.value, ok);
      if !ok { return false; }
      state := Some(first.value);
      synced := true;
      ledger.Append(CreatedEntry(now, id, req.pendingFiles));
      return true;
    }

    method HandleStepCycle(op: Op)
      requires op.StepHandler?
      modifies this, sync, ledger
      ensures View() == StepCycle(old(View()), id, op)
    {
      RefreshFromFile(op.io.stateRead);
      var got := GetState(op.io.stateRead);
      if got.None? || !op.io.ledgerRead { return; }
      var seal := Seal.LedgerSealsResume(ledger.entries);
      if seal.Some? { return; }
      var s := got.value;
      if op.goal != "" { s := s.(nextCycleGoal := op.goal); }
      if Blank(s.nextCycleGoal) { return; }
      var result := Execute(op.pipeline(s), s, op.now);
      RecordStep(result, op.now, op.io.stateWrite);
    }

    method RecordStep(result: StepResult, now: int, ok: bool)
      modifies this, sync, ledger
      ensures View() == Record(old(View()), id, result, now, ok)
    {
      var s := Complete(result, now);
      AppendReports(now, result.reports);
      if synced { sync.Write(s, ok); }
      state := Some(s);
    }

    /** After a pipeline that passed: complete the cycle and record that it did. */
    method Complete(result: StepResult, now: int) returns (s: CycleState)
      modifies ledger
      ensures s == if result.err.None? then BrokerCompleted(result.value, now) else result.value
      ensures ledger.entries == old(ledger.entries)
        + if result.err.None? then [GreenEntry(now, id), CompletedEntry(now, id)] else []
    {
      s := result.value;
      if result.err.None? {
        var st := new State(result.value);
        var completed := st.CompleteCycle(now);
        s := completed.value.(nextCycleGoal := "");
        ledger.Append(GreenEntry(now, id));
        ledger.Append(CompletedEntry(now, id));
      }
    }

    method HandleHaltCycle(op: Op)
      requires op.HaltHandler?
      modifies this, sync, ledger
      ensures View() == HaltCycle(old(View()), id, op)
    {
      var got := GetState(op.io.stateRead);
      if got.None? { return; }
      var reason := USER_REQUESTED;
      if op.reason != "" {
        var parsed := ParseHaltReason(op.reason);
        if parsed.Some? { reason := parsed.value; }
      }
      var st := new State(got.value);
      var halted := st.Halt(reason, op.now);
      if synced {
        sync.Write(halted.value, op.io.stateWrite);
        if op.removed { sync.Remove(); }
      }
      ledger.Append(HaltEntry(op.now, id, reason));
      state := Some(halted.value);
      CloseAll();
    }

    method CloseAll()
      modifies this
      ensures state == None && !synced
    {
      state := None;
      synced := false;
    }

    /** Start orchestrating and run it to its end. */
    method HandleOrchestrate(decode: Decoder, op: Op)
      requires op.OrchestrateHandler?
      modifies this, sync, ledger
      ensures View() == Orchestrate(decode, old(View()), op)
    {
      var got := GetState(op.io.stateRead);
      if got.None? || !op.bodyOk { return; }
      synced := true;
      if !op.registryOk || !op.io.ledgerRead { return; }
      var seal := Seal.LedgerSealsResume(ledger.entries);
      if seal.Some? { return; }
      var orch := new MultiAgentOrchestrator(decode, sync, ledger);
      var outcome := orch.Run(op.cfg, op.sealRead, op.ticks);
    }
  }
}
