/** What a cycle starts from: the request, its checks, and the first state. */
module CycleCreate {
  import opened CycleDriver
  import opened CycleTypes
  import opened Ledger
  import opened Wrappers

  /** Without the fields that only gates and prompts read. */
  datatype NewCycleRequest = NewCycleRequest(
    goal: string, branch: string, maxCycles: int, maxDurationMinutes: int, autoGoal: bool,
    pendingFiles: seq<string>, localGates: seq<string>)

  datatype CreateError = MainBranchForbidden(branch: string) | NoGoal

  const DEFAULT_BRANCH := "feat/autonomous-cycle"
  const DEFAULT_MAX_CYCLES := 10

  /** White space taken off both ends. */
  function Trim(s: string): (t: string)
    ensures t == "" <==> Blank(s)
    ensures t != "" ==> !IsSpace(t[0]) && !IsSpace(t[|t| - 1])
    decreases |s|
  {
    if s == "" then s
    else if IsSpace(s[0]) then (TrimKeepsBlank(s, 1, |s|); Trim(s[1..]))
    else if IsSpace(s[|s| - 1]) then (TrimKeepsBlank(s, 0, |s| - 1); Trim(s[..|s| - 1]))
    else s
  }

  lemma TrimKeepsBlank(s: string, lo: nat, hi: nat)
    requires lo <= hi <= |s|
    requires forall i | 0 <= i < |s| && !(lo <= i < hi) :: IsSpace(s[i])
    ensures Blank(s[lo..hi]) <==> Blank(s)
  {
    if !Blank(s) {
      var i :| 0 <= i < |s| && !IsSpace(s[i]);
      assert s[lo..hi][i - lo] == s[i];
    }
  }

  /** The gates that are not blank, trimmed, in order. */
  function Normalised(gates: seq<string>): seq<string>
  {
    if gates == [] then []
    else
      var gate := Trim(gates[|gates| - 1]);
      Normalised(gates[..|gates| - 1]) + if gate == "" then [] else [gate]
  }

  method NormaliseLocalGates(gates: seq<string>) returns (normalised: seq<string>)
    ensures normalised == Normalised(gates)
  {
    normalised := [];
    for i := 0 to |gates|
      invariant normalised == Normalised(gates[..i])
    {
      assert gates[..i + 1][..i] == gates[..i];
      var gate := Trim(gates[i]);
      if gate == "" { continue; }
      normalised := normalised + [gate];
    }
    assert gates[..|gates|] == gates;
  }

  /** A command of a normalised list comes, trimmed, from the list, and is not blank. */
  predicate IsGateOf(gates: seq<string>, g: string) { g != "" && exists h | h in gates :: g == Trim(h) }

  lemma {:induction false} NormalisedMembers(gates: seq<string>, g: string)
    ensures g in Normalised(gates) <==> IsGateOf(gates, g)
  {
    if gates != [] {
      var n := |gates| - 1;
      NormalisedMembers(gates[..n], g);
      assert gates == gates[..n] + [gates[n]];
      assert IsGateOf(gates, g) <==> IsGateOf(gates[..n], g) || (g != "" && g == Trim(gates[n]));
    }
  }

  /** Normalising again changes nothing. */
  lemma {:induction false} NormalisedIsStable(gates: seq<string>)
    ensures Normalised(Normalised(gates)) == Normalised(gates)
  {
    if gates != [] {
      var n := |gates| - 1;
      var front, gate := Normalised(gates[..n]), Trim(gates[n]);
      NormalisedIsStable(gates[..n]);
      if gate == "" {
        assert front + [] == front;
      } else {
        TrimAgain(gates[n]);
        NormalisedSnoc(front, gate);
      }
    }
  }

  lemma NormalisedSnoc(front: seq<string>, gate: string)
    ensures Normalised(front + [gate]) == Normalised(front) + if Trim(gate) == "" then [] else [Trim(gate)]
  {
    assert (front + [gate])[..|front|] == front;
  }

  lemma TrimAgain(s: string)
    ensures Trim(Trim(s)) == Trim(s)
  {
  }

  /** The first state of a cycle, or why there is none. */
  function FirstState(req: NewCycleRequest, id: string, now: int): Result<CycleState, CreateError>
  {
    if req.branch == "main" || req.branch == "master" then Err(MainBranchForbidden(req.branch))
    else if req.goal == "" then Err(NoGoal)
    else Ok(CycleState(id, Preflight, 0, if req.maxCycles <= 0 then DEFAULT_MAX_CYCLES else req.maxCycles,
                       Normalised(req.localGates), req.goal, false, "", now, "", req.autoGoal,
                       req.maxDurationMinutes, now))
  }

  method NewState(req: NewCycleRequest, id: string, now: int) returns (r: Result<CycleState, CreateError>)
    ensures r == FirstState(req, id, now)
    ensures r.Ok? <==> req.branch !in ["main", "master"] && req.goal != ""
    ensures r.Ok? ==>
      var s := r.value;
      && s.maxCycles == (if req.maxCycles > 0 then req.maxCycles else 10) && s.completedCycles == 0 && !s.halted
      && s.id == id && s.phase == Preflight && s.nextCycleGoal == req.goal && s.autoGoal == req.autoGoal
      && s.maxDurationMinutes == req.maxDurationMinutes && s.startedAt == now == s.updatedAt
      && s.localGates == Normalised(req.localGates) && s.haltReason == "" == s.lastFailedGate
  {
    var branch := req.branch;
    if branch == "" { branch := DEFAULT_BRANCH; }
    if branch == "main" || branch == "master" { return Err(MainBranchForbidden(branch)); }
    if req.goal == "" { return Err(NoGoal); }
    var maxCycles := req.maxCycles;
    if maxCycles <= 0 { maxCycles := DEFAULT_MAX_CYCLES; }
    var localGates := NormaliseLocalGates(req.localGates);
    return Ok(CycleState(id, Preflight, 0, maxCycles, localGates, req.goal, false, "", now, "", req.autoGoal,
                         req.maxDurationMinutes, now));
  }

  function CreatedEntry(now: int, id: string, files: seq<string>): Entry
  {
    NewEntry(now, id, CycleCreated, "cycle created", files)
  }
}
