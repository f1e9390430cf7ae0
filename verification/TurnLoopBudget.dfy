/** Budget, exit conditions and answers of the turn loop, told from the turns on record alone. */
module TurnLoopBudget {
  import opened TurnLoop
  import opened TurnLoopProofs
  import opened TurnTypes
  import opened Wrappers

  // ---- What has been spent ----------------------------------------------------------------------------

  function Spent(records: seq<Record>): int
  {
    if records == [] then 0
    else
      var usage := records[|records| - 1].resp.usage;
      Spent(records[..|records| - 1]) + if usage.None? then 0 else usage.value.tokensIn + usage.value.tokensOut
  }

  lemma {:induction false} UsageIsSpent(records: seq<Record>)
    ensures UsageOf(records).tokensIn + UsageOf(records).tokensOut == Spent(records)
  {
    if records != [] {
      UsageIsSpent(records[..|records| - 1]);
    }
  }

  /** The budget the i-th request carried, and that there was one. */
  predicate HadBudget(preset: Budget, records: seq<Record>, i: nat)
    requires i < |records|
  {
    var budget := records[i].req.budget;
    && budget.turnsLeft == preset.turnsLeft - i > 0
    && budget.tokensLeft == preset.tokensLeft - Spent(records[..i]) > 0
    && budget.dryRoundsThreshold == preset.dryRoundsThreshold
  }

  /** Over every run: each recorded turn was requested with turns and tokens left, and its request said how
      many. */
  lemma BudgetIsRespected(
      route: Router, preset: Budget, exitWhen: seq<ExitCondition>, actions: seq<Action>, i: nat)
    ensures var records := Run(route, Initial(preset, exitWhen), actions).records;
      i < |records| ==> HadBudget(preset, records, i)
  {
    InitialInv(route, preset, exitWhen);
    RunKeepsInv(route, preset, Initial(preset, exitWhen), actions);
    var records := Run(route, Initial(preset, exitWhen), actions).records;
    if i < |records| {
      assert RecordOk(route, preset, records, i);
      UsageIsSpent(records[..i]);
    }
  }

  predicate Overspent(preset: Budget, records: seq<Record>)
  {
    Spent(records) >= preset.tokensLeft || |records| >= preset.turnsLeft
  }

  /** The request for the next turn: numbered, with what is left of the budget and the turn before. */
  predicate IsRequest(preset: Budget, records: seq<Record>, role: string, req: TurnRequest)
  {
    && req.turn == |records| + 1 && req.role == role
    && req.budget == Budget(
         preset.tokensLeft - Spent(records), preset.turnsLeft - |records|, preset.dryRoundsThreshold)
    && if records == [] then req.lastTurn == None
       else
         var last := records[|records| - 1];
         req.lastTurn == Some(LastTurn(last.req.role, last.resp.summary, last.resp.artifacts, last.resp.selfEval))
  }

  /** Whom the router names next: it is asked with the last response and the number of the turn. */
  function Named(route: Router, records: seq<Record>): Option<string>
  {
    route(if records == [] then None else Some(records[|records| - 1].resp), |records| + 1)
  }

  /** How a poll is answered, and that nothing but a budget run out changes the session. */
  ghost predicate Answers(route: Router, preset: Budget, s: System, role: string, storeOk: bool, answer: NextReply,
      after: SessionState)
  {
    if s.session.terminal then answer == Gone(s.session.terminalReason) && after == s.session
    else if Overspent(preset, s.records) then
      && answer == Gone("budget exhausted")
      && after == s.session.(terminal := true, terminalReason := "budget exhausted")
    else
      && after == s.session
      && if !storeOk then answer == StoreError
         else
           match Named(route, s.records)
           case None => answer == RouterError
           case Some(named) =>
             if role == "" || role == named
             then answer.Dispatched? && IsRequest(preset, s.records, named, answer.req)
             else answer == Wait(s.session.notify)
  }

  /** Over every run a poll is told that the budget is exhausted exactly if the tokens on record reach the
      budget, or the turns do; otherwise the role the router names is handed the next request, and any
      other waits. */
  lemma PollIsAnswered(
      route: Router, preset: Budget, exitWhen: seq<ExitCondition>, actions: seq<Action>, role: string, storeOk: bool)
    ensures var s := Run(route, Initial(preset, exitWhen), actions);
      var (after, answer) := Next(route, s.session, role, storeOk);
      Answers(route, preset, s, role, storeOk, answer, after)
  {
    InitialInv(route, preset, exitWhen);
    RunKeepsInv(route, preset, Initial(preset, exitWhen), actions);
    UsageIsSpent(Run(route, Initial(preset, exitWhen), actions).records);
  }

  // ---- What the exit conditions mean -----------------------------------------------------------------

  /** Turn i brought no artifact that an earlier one had not, is not the last, and hands off to nobody. */
  ghost predicate BroughtNothing(records: seq<Record>, i: nat)
    requires i < |records|
  {
    var resp := records[i].resp;
    && !resp.done && resp.handoffTo == ""
    && forall a | a in resp.artifacts :: exists j :: 0 <= j < i && a in records[j].resp.artifacts
  }

  lemma {:induction false} SeenIs(records: seq<Record>, a: string)
    ensures a in SeenIn(records) <==> exists j :: 0 <= j < |records| && a in records[j].resp.artifacts
  {
    if records != [] {
      var n := |records| - 1;
      SeenIs(records[..n], a);
      assert a in records[n].resp.artifacts ==> a in SeenIn(records);
      assert forall j | 0 <= j < n :: records[..n][j] == records[j];
    }
  }

  lemma DryIs(records: seq<Record>)
    requires records != []
    ensures var n := |records| - 1; IsDry(SeenIn(records[..n]), records[n].resp) <==> BroughtNothing(records, n)
  {
    var n := |records| - 1;
    forall a
      ensures a in SeenIn(records[..n]) <==> exists j :: 0 <= j < n && a in records[j].resp.artifacts
    {
      SeenIs(records[..n], a);
      assert forall j | 0 <= j < n :: records[..n][j] == records[j];
    }
    assert forall a :: a in Elements(records[n].resp.artifacts) <==> a in records[n].resp.artifacts;
  }

  ghost predicate LastBroughtNothing(records: seq<Record>, k: int)
  {
    k <= |records| && forall i | 0 <= i < |records| && i >= |records| - k :: BroughtNothing(records, i)
  }

  lemma {:induction false} DryTailIs(records: seq<Record>, k: int)
    requires k > 0
    ensures DryTail(records) >= k <==> LastBroughtNothing(records, k)
  {
    if records != [] {
      var n := |records| - 1;
      var front := records[..n];
      DryIs(records);
      forall i | 0 <= i < n
        ensures BroughtNothing(front, i) <==> BroughtNothing(records, i)
      {
        assert forall j | 0 <= j <= i :: front[j] == records[j];
      }
      if k > 1 {
        DryTailIs(front, k - 1);
      }
    }
  }

  /** A condition of the exit list, in terms of the record, the clock and the stuck check. */
  ghost predicate Met(preset: Budget, records: seq<Record>, facts: Facts, c: ExitCondition)
  {
    match c
    case TurnsExhausted => |records| >= preset.turnsLeft
    case TokensExhausted => Spent(records) >= preset.tokensLeft
    case DeadlinePassed => facts.deadlinePassed
    case ReviewerApproved =>
      records != [] && var last := records[|records| - 1].resp; last.selfEval == "confident" && last.done
    case DryRounds => preset.dryRoundsThreshold > 0 && LastBroughtNothing(records, preset.dryRoundsThreshold)
    case StuckRecords => facts.recordCount > 5 && facts.stuck.Some?
    case _ => false
  }

  lemma MetIffHolds(s: SessionState, records: seq<Record>, facts: Facts, c: ExitCondition)
    requires Matches(s, records)
    ensures Holds(s, facts, c) <==> Met(s.preset, records, facts, c)
  {
    UsageIsSpent(records);
    if c.DryRounds? && s.preset.dryRoundsThreshold > 0 {
      DryTailIs(records, s.preset.dryRoundsThreshold);
    }
  }

  /** The reason on record for the first condition met. */
  function ReasonFor(facts: Facts, c: ExitCondition): string
  {
    match c
    case TurnsExhausted => "turns exhausted"
    case TokensExhausted => "tokens exhausted"
    case DeadlinePassed => "deadline passed"
    case ReviewerApproved => "reviewer approved"
    case DryRounds => "dry rounds"
    case StuckRecords => if facts.stuck.Some? then facts.stuck.value else ""
    case _ => ""
  }

  /** Condition i is the first one met; nothing before it needs a shell, and the request is not cancelled
      until it has been checked. */
  ghost predicate FirstMet(preset: Budget, exitWhen: seq<ExitCondition>, records: seq<Record>, facts: Facts, i: nat)
  {
    && i < |exitWhen| && Met(preset, records, facts, exitWhen[i])
    && (facts.cancelledAt.Some? ==> i < facts.cancelledAt.value)
    && forall j | 0 <= j < i :: !Met(preset, records, facts, exitWhen[j]) && exitWhen[j] != TestsPass
                                && exitWhen[j] != AllArtifactsCompile
  }

  /** Over every run the second section of a post ends the session for the first condition met by what is
      on record, and leaves it as it was if there is none. */
  lemma PostEndsForFirstMet(
      route: Router, preset: Budget, exitWhen: seq<ExitCondition>, actions: seq<Action>, facts: Facts, c: Chan)
    ensures var s := Run(route, Initial(preset, exitWhen), actions);
      var after := Evaluated(s.session, facts, c);
      && after == s.session.(notify := c, terminal := after.terminal, terminalReason := after.terminalReason)
      && (forall i: nat | FirstMet(preset, exitWhen, s.records, facts, i) ::
            after.terminal && after.terminalReason == ReasonFor(facts, exitWhen[i]))
      && ((forall i: nat :: !FirstMet(preset, exitWhen, s.records, facts, i)) ==>
            after.terminal == s.session.terminal && after.terminalReason == s.session.terminalReason)
  {
    InitialInv(route, preset, exitWhen);
    RunKeepsInv(route, preset, Initial(preset, exitWhen), actions);
    RunKeepsExits(route, Initial(preset, exitWhen), actions);
    var s := Run(route, Initial(preset, exitWhen), actions);
    EvaluateDecides(s.session, facts);
    forall i: nat
      ensures Decides(s.session, facts, i) <==> FirstMet(preset, exitWhen, s.records, facts, i)
    {
      DecidesIffFirstMet(s.session, s.records, facts, i);
    }
  }

  lemma DecidesIffFirstMet(s: SessionState, records: seq<Record>, facts: Facts, i: nat)
    requires Matches(s, records)
    ensures Decides(s, facts, i) <==> FirstMet(s.preset, s.exitWhen, records, facts, i)
  {
    forall j | 0 <= j < |s.exitWhen|
      ensures Holds(s, facts, s.exitWhen[j]) <==> Met(s.preset, records, facts, s.exitWhen[j])
    {
      MetIffHolds(s, records, facts, s.exitWhen[j]);
    }
  }

  lemma {:induction false} RunKeepsExits(route: Router, s: System, actions: seq<Action>)
    ensures Run(route, s, actions).session.exitWhen == s.session.exitWhen
    decreases |actions|
  {
    if actions != [] {
      RunKeepsExits(route, Step(route, s, actions[0]), actions[1..]);
    }
  }

  // ---- Ending and channels -------------------------------------------------------------------------------

  /** Cancelling ends a live session, once, and swaps its channel; an ended one is left alone. */
  lemma CancelEnds(route: Router, s: System)
    ensures var t := Step(route, s, Cancel);
      if s.session.terminal then t == s
      else
        && t.session == s.session.(terminal := true, terminalReason := "canceled", notify := t.session.notify)
        && t.session.notify == s.nextChan
        && s.session.notify in t.closing && t.records == s.records && t.pending == s.pending
  {
  }

  /** What the proof that no channel is closed twice excludes. */
  lemma DoubleCloseIs(s: System, c: Chan)
    ensures CloseStep(s, c).doubleClose <==> s.doubleClose || (c in s.closing && c in s.closed)
    ensures c in s.closing ==> c in CloseStep(s, c).closed && c !in CloseStep(s, c).closing
  {
  }
}
