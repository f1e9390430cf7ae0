/** The headless turn loop of one broker session. `handleNextTurn` is one critical section,
    `handlePostTurn` is two, cancelling is one; between sections any other handler may run. */
module TurnLoop {
  import opened TurnTypes
  import opened Wrappers

  datatype Budget = Budget(tokensLeft: int, turnsLeft: int, dryRoundsThreshold: int)

  datatype LastTurn = LastTurn(from: string, summary: string, artifacts: seq<string>, selfEval: string)

  datatype TurnRequest = TurnRequest(turn: int, role: string, budget: Budget, lastTurn: Option<LastTurn>)

  /** The routing rule of the preset: the next role, or None for a routing error. */
  type Router = (Option<TurnResponse>, int) -> Option<string>

  datatype ExitCondition =
    | TurnsExhausted | TokensExhausted | DeadlinePassed | ReviewerApproved | DryRounds | StuckRecords
    | TestsPass | AllArtifactsCompile | UnknownCondition(name: string)

  type Chan = nat

  datatype SessionState = SessionState(
    preset: Budget, exitWhen: seq<ExitCondition>,
    turnCount: int, totalUsage: Usage, lastTurn: Option<LastTurn>, lastResp: Option<TurnResponse>,
    terminal: bool, terminalReason: string, dryRounds: int, seenArtifacts: set<string>, notify: Chan)

  const NO_USAGE := Usage(0, 0)

  function NewSession(preset: Budget, exitWhen: seq<ExitCondition>, notify: Chan): SessionState
  {
    SessionState(preset, exitWhen, 0, NO_USAGE, None, None, false, "", 0, {}, notify)
  }

  function Remaining(initial: Budget, used: Usage, turnsUsed: int): Budget
  {
    initial.(tokensLeft := initial.tokensLeft - (used.tokensIn + used.tokensOut),
             turnsLeft := initial.turnsLeft - turnsUsed)
  }

  predicate IsExhausted(b: Budget) { b.turnsLeft <= 0 || b.tokensLeft <= 0 }

  // ---- Exit conditions ---------------------------------------------------------------------------

  /** What evaluating the conditions needs besides the session: the clock, the stuck check over the
      stored records, and, if the request is cancelled meanwhile, the first check that sees it. */
  datatype Facts = Facts(deadlinePassed: bool, recordCount: nat, stuck: Option<string>, cancelledAt: Option<nat>)

  predicate CancelledBy(facts: Facts, i: nat) { facts.cancelledAt.Some? && i >= facts.cancelledAt.value }

  /** A shell predicate is an error here, since the broker evaluates with the shell disabled. */
  predicate NeedsShell(c: ExitCondition) { c.TestsPass? || c.AllArtifactsCompile? }

  predicate Holds(s: SessionState, facts: Facts, c: ExitCondition)
  {
    var remaining := Remaining(s.preset, s.totalUsage, s.turnCount);
    match c
    case TurnsExhausted => remaining.turnsLeft <= 0
    case TokensExhausted => remaining.tokensLeft <= 0
    case DeadlinePassed => facts.deadlinePassed
    case ReviewerApproved => s.lastResp.Some? && s.lastResp.value.selfEval == "confident" && s.lastResp.value.done
    case DryRounds => s.preset.dryRoundsThreshold > 0 && s.dryRounds >= s.preset.dryRoundsThreshold
    case StuckRecords => facts.recordCount >= 6 && facts.stuck.Some?
    case TestsPass => false
    case AllArtifactsCompile => false
    case UnknownCondition(_) => false
  }

  function Reason(facts: Facts, c: ExitCondition): string
  {
    match c
    case TurnsExhausted => "turns exhausted"
    case TokensExhausted => "tokens exhausted"
    case DeadlinePassed => "deadline passed"
    case ReviewerApproved => "reviewer approved"
    case DryRounds => "dry rounds"
    case StuckRecords => if facts.stuck.Some? then facts.stuck.value else ""
    case TestsPass => ""
    case AllArtifactsCompile => ""
    case UnknownCondition(_) => ""
  }

  /** Condition i decides: it holds, no earlier one holds, and nothing ends evaluation before it. */
  ghost predicate Decides(s: SessionState, facts: Facts, i: nat)
  {
    && i < |s.exitWhen| && !CancelledBy(facts, i) && Holds(s, facts, s.exitWhen[i])
    && forall j | 0 <= j < i :: !Holds(s, facts, s.exitWhen[j]) && !NeedsShell(s.exitWhen[j])
  }

  function MatchFrom(s: SessionState, facts: Facts, i: nat): Option<string>
    decreases |s.exitWhen| - i
  {
    if i >= |s.exitWhen| || CancelledBy(facts, i) || NeedsShell(s.exitWhen[i]) then None
    else if Holds(s, facts, s.exitWhen[i]) then Some(Reason(facts, s.exitWhen[i]))
    else MatchFrom(s, facts, i + 1)
  }

  /** A session ends exactly when some condition holds ahead of every shell predicate in its list and
      ahead of the request's cancellation; a shell predicate masks all conditions behind it. */
  lemma EvaluateDecides(s: SessionState, facts: Facts)
    ensures MatchFrom(s, facts, 0).Some? <==> exists i: nat :: Decides(s, facts, i)
    ensures forall i: nat | Decides(s, facts, i) :: MatchFrom(s, facts, 0) == Some(Reason(facts, s.exitWhen[i]))
  {
    MatchDecides(s, facts, 0);
  }

  lemma {:induction false} MatchDecides(s: SessionState, facts: Facts, from: nat)
    requires from <= |s.exitWhen|
    requires forall j | 0 <= j < from :: !Holds(s, facts, s.exitWhen[j]) && !NeedsShell(s.exitWhen[j])
    ensures MatchFrom(s, facts, from).Some? <==> exists i: nat :: Decides(s, facts, i)
    ensures forall i: nat | Decides(s, facts, i) :: MatchFrom(s, facts, from) == Some(Reason(facts, s.exitWhen[i]))
    decreases |s.exitWhen| - from
  {
    if from < |s.exitWhen| {
      if CancelledBy(facts, from) {
        assert forall i: nat | i >= from :: CancelledBy(facts, i);
      } else if Holds(s, facts, s.exitWhen[from]) {
        assert Decides(s, facts, from);
      } else if !NeedsShell(s.exitWhen[from]) {
        MatchDecides(s, facts, from + 1);
      }
    }
  }

  method Evaluate(s: SessionState, facts: Facts) returns (reason: Option<string>)
    ensures reason == MatchFrom(s, facts, 0)
  {
    for i := 0 to |s.exitWhen|
      invariant MatchFrom(s, facts, 0) == MatchFrom(s, facts, i)
    {
      if CancelledBy(facts, i) { return None; }
      if NeedsShell(s.exitWhen[i]) { return None; }
      if Holds(s, facts, s.exitWhen[i]) { return Some(Reason(facts, s.exitWhen[i])); }
    }
    return None;
  }

  // ---- The critical sections ---------------------------------------------------------------------

  function Add(a: Usage, b: Option<Usage>): Usage
  {
    if b.None? then a else Usage(a.tokensIn + b.value.tokensIn, a.tokensOut + b.value.tokensOut)
  }

  function Elements(xs: seq<string>): set<string> { set x | x in xs }

  /** Nothing new, not done, no handoff. */
  predicate IsDry(seen: set<string>, resp: TurnResponse)
  {
    Elements(resp.artifacts) <= seen && !resp.done && resp.handoffTo == ""
  }

  function Recorded(s: SessionState, req: TurnRequest, resp: TurnResponse): SessionState
  {
    s.(turnCount := s.turnCount + 1,
       totalUsage := Add(s.totalUsage, resp.usage),
       lastTurn := Some(LastTurn(req.role, resp.summary, resp.artifacts, resp.selfEval)),
       lastResp := Some(resp),
       seenArtifacts := s.seenArtifacts + Elements(resp.artifacts),
       dryRounds := if IsDry(s.seenArtifacts, resp) then s.dryRounds + 1 else 0)
  }

  function RequestFor(s: SessionState, role: string): TurnRequest
  {
    TurnRequest(s.turnCount + 1, role, Remaining(s.preset, s.totalUsage, s.turnCount), s.lastTurn)
  }

  datatype NextReply =
    | NotFound | Gone(reason: string) | RouterError | StoreError
    | Dispatched(req: TurnRequest) | Wait(chan: Chan)

  /** One pass of handleNextTurn's loop under the lock. */
  function Next(route: Router, s: SessionState, role: string, storeOk: bool): (SessionState, NextReply)
  {
    if s.terminal then (s, Gone(s.terminalReason))
    else if IsExhausted(Remaining(s.preset, s.totalUsage, s.turnCount)) then
      (s.(terminal := true, terminalReason := "budget exhausted"), Gone("budget exhausted"))
    else if !storeOk then (s, StoreError)
    else
      var next := route(s.lastResp, s.turnCount + 1);
      if next.None? then (s, RouterError)
      else if role == "" || role == next.value then (s, Dispatched(RequestFor(s, next.value)))
      else (s, Wait(s.notify))
  }

  /** handlePostTurn's second section: evaluate the exit conditions and swap the notify channel. */
  function Evaluated(s: SessionState, facts: Facts, newNotify: Chan): SessionState
  {
    var matched := MatchFrom(s, facts, 0);
    var ended := if matched.Some? then s.(terminal := true, terminalReason := matched.value) else s;
    ended.(notify := newNotify)
  }

  function Canceled(s: SessionState, newNotify: Chan): SessionState
  {
    if s.terminal then s else s.(terminal := true, terminalReason := "canceled", notify := newNotify)
  }

  // ---- The broker's tables -------------------------------------------------------------------------

  /** The broker's two maps, keyed by session, as the handlers update them under the mutex. */
  class Server {
    var sessionStates: map<string, SessionState>
    var pendingReqs: map<string, TurnRequest>

    ghost predicate Valid()
      reads this
    {
      pendingReqs.Keys <= sessionStates.Keys
    }

    constructor ()
      ensures Valid() && sessionStates == map[] && pendingReqs == map[]
    {
      sessionStates := map[];
      pendingReqs := map[];
    }

    method CreateSession(id: string, preset: Budget, exitWhen: seq<ExitCondition>, notify: Chan)
      requires Valid()
      modifies this
      ensures Valid() && pendingReqs == old(pendingReqs)
      ensures sessionStates == old(sessionStates)[id := NewSession(preset, exitWhen, notify)]
    {
      sessionStates := sessionStates[id := NewSession(preset, exitWhen, notify)];
    }

    method NextTurn(route: Router, id: string, role: string, storeOk: bool) returns (reply: NextReply)
      requires Valid()
      modifies this
      ensures Valid()
      ensures id !in old(sessionStates) ==>
        reply.NotFound? && sessionStates == old(sessionStates) && pendingReqs == old(pendingReqs)
      ensures id in old(sessionStates) ==>
        var (s, r) := Next(route, old(sessionStates[id]), role, storeOk);
        && reply == r && sessionStates == old(sessionStates)[id := s]
        && pendingReqs == if r.Dispatched? then old(pendingReqs)[id := r.req] else old(pendingReqs)
    {
      if id !in sessionStates { return NotFound; }
      var state := sessionStates[id];
      assert sessionStates == sessionStates[id := state];
      if state.terminal { return Gone(state.terminalReason); }
      var remaining := Remaining(state.preset, state.totalUsage, state.turnCount);
      if IsExhausted(remaining) {
        state := state.(terminal := true, terminalReason := "budget exhausted");
        sessionStates := sessionStates[id := state];
        return Gone("budget exhausted");
      }
      if !storeOk { return StoreError; }
      var turn := state.turnCount + 1;
      var roleID := route(state.lastResp, turn);
      if roleID.None? { return RouterError; }
      if role == "" || role == roleID.value {
        var req := TurnRequest(turn, roleID.value, remaining, state.lastTurn);
        pendingReqs := pendingReqs[id := req];
        return Dispatched(req);
      }
      return Wait(state.notify);
    }

    /** Count the artifacts of a response that are new, adding them to the seen ones. */
    method SeeArtifacts(seen: set<string>, artifacts: seq<string>) returns (seen': set<string>, newArtifacts: nat)
      ensures seen' == seen + Elements(artifacts)
      ensures newArtifacts == 0 <==> Elements(artifacts) <= seen
    {
      seen', newArtifacts := seen, 0;
      for i := 0 to |artifacts|
        invariant seen' == seen + Elements(artifacts[..i])
        invariant newArtifacts == 0 <==> Elements(artifacts[..i]) <= seen
      {
        assert artifacts[..i + 1] == artifacts[..i] + [artifacts[i]];
        assert Elements(artifacts[..i + 1]) == Elements(artifacts[..i]) + {artifacts[i]};
        if artifacts[i] !in seen' {
          seen' := seen' + {artifacts[i]};
          newArtifacts := newArtifacts + 1;
        }
      }
      assert artifacts[..|artifacts|] == artifacts;
    }

    /** The first section of handlePostTurn: consume the pending request and record the turn. */
    method RecordTurn(id: string, resp: TurnResponse) returns (req: Option<TurnRequest>)
      requires Valid()
      modifies this
      ensures Valid()
      ensures id !in old(pendingReqs) ==>
        req == None && sessionStates == old(sessionStates) && pendingReqs == old(pendingReqs)
      ensures id in old(pendingReqs) ==>
        && req == Some(old(pendingReqs[id])) && pendingReqs == old(pendingReqs) - {id}
        && sessionStates == old(sessionStates)[id := Recorded(old(sessionStates[id]), req.value, resp)]
    {
      if id !in pendingReqs { return None; }
      req := Some(pendingReqs[id]);
      pendingReqs := pendingReqs - {id};
      var state := sessionStates[id];
      state := state.(turnCount := state.turnCount + 1);
      if resp.usage.Some? {
        state := state.(totalUsage := Add(state.totalUsage, resp.usage));
      }
      state := state.(lastTurn := Some(LastTurn(req.value.role, resp.summary, resp.artifacts, resp.selfEval)));
      state := state.(lastResp := Some(resp));
      var seen, newArtifacts := SeeArtifacts(state.seenArtifacts, resp.artifacts);
      state := state.(seenArtifacts := seen);
      if newArtifacts == 0 && !resp.done && resp.handoffTo == "" {
        state := state.(dryRounds := state.dryRounds + 1);
      } else {
        state := state.(dryRounds := 0);
      }
      sessionStates := sessionStates[id := state];
    }

    /** The second section; the returned channel is closed after the mutex is released. */
    method EvaluateExit(id: string, facts: Facts, newNotify: Chan) returns (oldNotify: Chan)
      requires Valid() && id in sessionStates
      modifies this
      ensures Valid() && pendingReqs == old(pendingReqs)
      ensures oldNotify == old(sessionStates[id].notify)
      ensures sessionStates == old(sessionStates)[id := Evaluated(old(sessionStates[id]), facts, newNotify)]
    {
      var state := sessionStates[id];
      var matched := Evaluate(state, facts);
      if matched.Some? {
        state := state.(terminal := true, terminalReason := matched.value);
      }
      oldNotify := state.notify;
      state := state.(notify := newNotify);
      sessionStates := sessionStates[id := state];
    }

    method Cancel(id: string, newNotify: Chan) returns (oldNotify: Option<Chan>)
      requires Valid()
      modifies this
      ensures Valid() && pendingReqs == old(pendingReqs)
      ensures oldNotify.None? <==> id !in old(sessionStates) || old(sessionStates[id].terminal)
      ensures oldNotify.None? ==> sessionStates == old(sessionStates)
      ensures oldNotify.Some? ==>
        && oldNotify.value == old(sessionStates[id].notify)
        && sessionStates == old(sessionStates)[id := Canceled(old(sessionStates[id]), newNotify)]
    {
      if id !in sessionStates { return None; }
      var state := sessionStates[id];
      if state.terminal { return None; }
      state := state.(terminal := true);
      state := state.(terminalReason := "canceled");
      oldNotify := Some(state.notify);
      state := state.(notify := newNotify);
      sessionStates := sessionStates[id := state];
    }
  }
}
