/** The turn loop over every interleaving of its critical sections. */
module TurnLoopProofs {
  import opened TurnLoop
  import opened TurnTypes
  import opened Wrappers

  type Handler = nat

  /** A recorded turn: the request it answered and the response. */
  datatype Record = Record(req: TurnRequest, resp: TurnResponse)

  /** One session and the handlers working on it. `records` and `terminalAt` are history variables:
      the recorded turns, and how many there were when the session ended. `doubleClose` would be the
      panic of closing a closed channel. */
  datatype System = System(
    session: SessionState, pending: Option<TurnRequest>, posting: set<Handler>, waiting: map<Handler, Chan>,
    closing: set<Chan>, closed: set<Chan>, nextChan: Chan,
    records: seq<Record>, terminalAt: Option<nat>, doubleClose: bool)

  datatype Action =
    | Poll(h: Handler, role: string, storeOk: bool)   // one pass of handleNextTurn
    | Leave(h: Handler)                               // timeout or disconnect
    | Post(h: Handler, resp: TurnResponse)            // first section of handlePostTurn
    | StoreFails(h: Handler)                          // the log cannot be written or read: no second section
    | Finish(h: Handler, facts: Facts)                // second section
    | Cancel
    | CloseOld(c: Chan)                               // after unlocking, the swapped-out channel is closed

  function Initial(preset: Budget, exitWhen: seq<ExitCondition>): System
  {
    System(NewSession(preset, exitWhen, 0), None, {}, map[], {}, {}, 1, [], None, false)
  }

  function Mark(s: System, session: SessionState): Option<nat>
  {
    if s.terminalAt.None? && session.terminal then Some(|s.records|) else s.terminalAt
  }

  function PollStep(route: Router, s: System, h: Handler, role: string, storeOk: bool): System
  {
    var (session, reply) := Next(route, s.session, role, storeOk);
    s.(session := session,
       pending := if reply.Dispatched? then Some(reply.req) else s.pending,
       waiting := if reply.Wait? then s.waiting[h := reply.chan] else s.waiting - {h},
       terminalAt := Mark(s, session))
  }

  function PostStep(s: System, h: Handler, resp: TurnResponse): System
  {
    if s.pending.None? || h in s.posting then s
    else s.(session := Recorded(s.session, s.pending.value, resp), pending := None, posting := s.posting + {h},
            records := s.records + [Record(s.pending.value, resp)])
  }

  function Swapped(s: System, session: SessionState): System
  {
    s.(session := session, closing := s.closing + {s.session.notify}, nextChan := s.nextChan + 1,
       terminalAt := Mark(s, session))
  }

  function CloseStep(s: System, c: Chan): System
  {
    if c !in s.closing then s
    else s.(closing := s.closing - {c}, closed := s.closed + {c}, doubleClose := s.doubleClose || c in s.closed)
  }

  function Step(route: Router, s: System, a: Action): System
  {
    match a
    case Poll(h, role, storeOk) => PollStep(route, s, h, role, storeOk)
    case Leave(h) => s.(waiting := s.waiting - {h})
    case Post(h, resp) => PostStep(s, h, resp)
    case StoreFails(h) => s.(posting := s.posting - {h})
    case Finish(h, facts) =>
      if h !in s.posting then s else Swapped(s, Evaluated(s.session, facts, s.nextChan)).(posting := s.posting - {h})
    case Cancel => if s.session.terminal then s else Swapped(s, Canceled(s.session, s.nextChan))
    case CloseOld(c) => CloseStep(s, c)
  }

  function Run(route: Router, s: System, actions: seq<Action>): System
    decreases |actions|
  {
    if actions == [] then s else Run(route, Step(route, s, actions[0]), actions[1..])
  }

  // ---- What the recorded turns determine -----------------------------------------------------------

  function UsageOf(records: seq<Record>): Usage
  {
    if records == [] then NO_USAGE
    else Add(UsageOf(records[..|records| - 1]), records[|records| - 1].resp.usage)
  }

  function SeenIn(records: seq<Record>): set<string>
  {
    if records == [] then {}
    else SeenIn(records[..|records| - 1]) + Elements(records[|records| - 1].resp.artifacts)
  }

  /** The number of dry turns at the end of the log. */
  function DryTail(records: seq<Record>): nat
  {
    if records == [] then 0
    else
      var front := records[..|records| - 1];
      if IsDry(SeenIn(front), records[|records| - 1].resp) then DryTail(front) + 1 else 0
  }

  function LastResponse(records: seq<Record>): Option<TurnResponse>
  {
    if records == [] then None else Some(records[|records| - 1].resp)
  }

  function LastTurnOf(records: seq<Record>): Option<LastTurn>
  {
    if records == [] then None
    else
      var r := records[|records| - 1];
      Some(LastTurn(r.req.role, r.resp.summary, r.resp.artifacts, r.resp.selfEval))
  }

  /** The session counters are exactly what the recorded turns add up to. */
  ghost predicate Matches(s: SessionState, records: seq<Record>)
  {
    && s.turnCount == |records| && s.totalUsage == UsageOf(records) && s.seenArtifacts == SeenIn(records)
    && s.dryRounds == DryTail(records) && s.lastResp == LastResponse(records)
    && s.lastTurn == LastTurnOf(records)
  }

  /** A request dispatched after `records`: numbered next, to the role the router names, carrying the
      turn before it, with budget left. */
  ghost predicate Dispatchable(route: Router, preset: Budget, records: seq<Record>, req: TurnRequest)
  {
    && req.turn == |records| + 1
    && Some(req.role) == route(LastResponse(records), req.turn)
    && req.budget == Remaining(preset, UsageOf(records), |records|)
    && !IsExhausted(req.budget)
    && req.lastTurn == LastTurnOf(records)
  }

  ghost predicate RecordOk(route: Router, preset: Budget, records: seq<Record>, i: nat)
    requires i < |records|
  {
    Dispatchable(route, preset, records[..i], records[i].req)
  }

  ghost predicate RecordsOk(route: Router, preset: Budget, records: seq<Record>)
  {
    forall i | 0 <= i < |records| :: RecordOk(route, preset, records, i)
  }

  predicate InFlight(s: System) { s.pending.Some? }

  /** Once ended, at most the one request already out can still be recorded. */
  predicate TerminalOk(s: System)
  {
    && (s.session.terminal <==> s.terminalAt.Some?)
    && (s.terminalAt.Some? ==> |s.records| + (if InFlight(s) then 1 else 0) <= s.terminalAt.value + 1)
  }

  /** Channels: the current one is open, a swapped-out one is closed at most once, and whoever waits
      waits on a channel that is current, or closed, or about to be. */
  predicate ChannelsOk(s: System)
  {
    && s.session.notify < s.nextChan && !s.doubleClose
    && (forall c | c in s.closing + s.closed :: c < s.nextChan)
    && s.session.notify !in s.closing + s.closed && s.closing !! s.closed
    && (forall h | h in s.waiting :: s.waiting[h] == s.session.notify || s.waiting[h] in s.closing + s.closed)
  }

  ghost predicate Inv(route: Router, preset: Budget, s: System)
  {
    && s.session.preset == preset
    && Matches(s.session, s.records)
    && (s.pending.Some? ==> Dispatchable(route, preset, s.records, s.pending.value))
    && RecordsOk(route, preset, s.records)
    && TerminalOk(s)
    && ChannelsOk(s)
  }

  // ---- Every step keeps the invariant ----------------------------------------------------------------

  lemma RecordedMatches(s: SessionState, records: seq<Record>, req: TurnRequest, resp: TurnResponse)
    requires Matches(s, records)
    ensures Matches(Recorded(s, req, resp), records + [Record(req, resp)])
  {
    var longer := records + [Record(req, resp)];
    assert longer[..|records|] == records;
  }

  lemma RecordsExtend(route: Router, preset: Budget, records: seq<Record>, r: Record)
    requires RecordsOk(route, preset, records) && Dispatchable(route, preset, records, r.req)
    ensures RecordsOk(route, preset, records + [r])
  {
    var longer := records + [r];
    forall i | 0 <= i < |longer|
      ensures RecordOk(route, preset, longer, i)
    {
      assert longer[..i] == records[..i];
      if i < |records| {
        assert RecordOk(route, preset, records, i);
      } else {
        assert records[..i] == records;
      }
    }
  }

  lemma PostKeepsInv(route: Router, preset: Budget, s: System, h: Handler, resp: TurnResponse)
    requires Inv(route, preset, s)
    ensures Inv(route, preset, PostStep(s, h, resp))
  {
    if s.pending.Some? && h !in s.posting {
      RecordedMatches(s.session, s.records, s.pending.value, resp);
      RecordsExtend(route, preset, s.records, Record(s.pending.value, resp));
    }
  }

  lemma PollKeepsInv(route: Router, preset: Budget, s: System, h: Handler, role: string, storeOk: bool)
    requires Inv(route, preset, s)
    ensures Inv(route, preset, PollStep(route, s, h, role, storeOk))
  {
  }

  lemma SwapKeepsInv(route: Router, preset: Budget, s: System, session: SessionState)
    requires Inv(route, preset, s)
    requires session.notify == s.nextChan && (s.session.terminal ==> session.terminal)
    requires session == s.session.(
      notify := s.nextChan, terminal := session.terminal, terminalReason := session.terminalReason)
    ensures Inv(route, preset, Swapped(s, session))
  {
  }

  lemma StepKeepsInv(route: Router, preset: Budget, s: System, a: Action)
    requires Inv(route, preset, s)
    ensures Inv(route, preset, Step(route, s, a))
  {
    if a.Post? {
      PostKeepsInv(route, preset, s, a.h, a.resp);
    } else if a.Poll? {
      PollKeepsInv(route, preset, s, a.h, a.role, a.storeOk);
    } else if a.Finish? && a.h in s.posting {
      SwapKeepsInv(route, preset, s, Evaluated(s.session, a.facts, s.nextChan));
    } else if a.Cancel? && !s.session.terminal {
      SwapKeepsInv(route, preset, s, Canceled(s.session, s.nextChan));
    }
  }

  lemma InitialInv(route: Router, preset: Budget, exitWhen: seq<ExitCondition>)
    ensures Inv(route, preset, Initial(preset, exitWhen))
  {
  }

  lemma {:induction false} RunKeepsInv(route: Router, preset: Budget, s: System, actions: seq<Action>)
    requires Inv(route, preset, s)
    ensures Inv(route, preset, Run(route, s, actions))
    decreases |actions|
  {
    if actions != [] {
      StepKeepsInv(route, preset, s, actions[0]);
      RunKeepsInv(route, preset, Step(route, s, actions[0]), actions[1..]);
    }
  }

  /** Over every interleaving: a pending request is for the next turn; every recorded turn was
      dispatched to the router's role with turns and tokens left; the turn budget is never overrun;
      the session counters are the sums over the log; at most one turn is recorded after the end; no
      notify channel is closed twice, and whoever waits waits on the current one or on one swapped out. */
  lemma TurnLoopIsSafe(route: Router, preset: Budget, exitWhen: seq<ExitCondition>, actions: seq<Action>)
    ensures var s := Run(route, Initial(preset, exitWhen), actions);
      && (s.pending.Some? ==> s.pending.value.turn == s.session.turnCount + 1)
      && Matches(s.session, s.records)
      && (forall i | 0 <= i < |s.records| :: RecordOk(route, preset, s.records, i))
      && (s.session.turnCount == 0 || s.session.turnCount <= preset.turnsLeft)
      && (s.terminalAt.Some? ==> |s.records| <= s.terminalAt.value + 1)
      && ChannelsOk(s)
  {
    var s := Run(route, Initial(preset, exitWhen), actions);
    InitialInv(route, preset, exitWhen);
    RunKeepsInv(route, preset, Initial(preset, exitWhen), actions);
    if s.records != [] {
      assert RecordOk(route, preset, s.records, |s.records| - 1);
    }
  }

  /** Ending is final, and from then on no request is dispatched. */
  lemma {:induction false} TerminalIsFinal(route: Router, s: System, actions: seq<Action>)
    requires s.session.terminal
    ensures var s' := Run(route, s, actions);
      && s'.session.terminal
      && (s'.pending.Some? ==> s'.pending == s.pending)
      && (s.pending.None? ==> s'.records == s.records)
    decreases |actions|
  {
    if actions != [] {
      TerminalIsFinal(route, Step(route, s, actions[0]), actions[1..]);
    }
  }

  /** Asking again before the turn is posted hands out the same request. */
  lemma RepollRepeats(route: Router, preset: Budget, s: System, h: Handler, role: string)
    requires Inv(route, preset, s) && s.pending.Some? && !s.session.terminal
    requires role == "" || role == s.pending.value.role
    ensures PollStep(route, s, h, role, true).pending == s.pending
  {
  }

  /** An end that a post in flight evaluates again keeps being an end, but its reason is overwritten
      exactly when an exit condition matches. */
  lemma FinishOverwritesReason(s: SessionState, facts: Facts, newNotify: Chan)
    requires s.terminal
    ensures Evaluated(s, facts, newNotify).terminal
    ensures MatchFrom(s, facts, 0).None? ==> Evaluated(s, facts, newNotify).terminalReason == s.terminalReason
    ensures forall i: nat | Decides(s, facts, i) ::
      Evaluated(s, facts, newNotify).terminalReason == Reason(facts, s.exitWhen[i])
  {
    EvaluateDecides(s, facts);
  }
}
