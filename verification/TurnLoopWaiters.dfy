/** Two things the turn loop does not guarantee, with the runs on which it does: that every waiting poll
    is woken when the session ends, and that a recorded response answers the request it is recorded for. */
module TurnLoopWaiters {
  import opened TurnLoop
  import opened TurnLoopProofs
  import opened TurnTypes
  import opened Wrappers

  // ---- Waking the polls that wait --------------------------------------------------------------------

  /** The session has ended, and no section is left that would swap out the channel this poll waits on. */
  predicate Forgotten(s: System, h: Handler)
  {
    && h in s.waiting && s.waiting[h] == s.session.notify
    && s.session.terminal && s.posting == {} && s.pending.None?
  }

  ghost predicate CanClose(route: Router, s: System, c: Chan)
  {
    exists actions :: c in Run(route, s, actions).closed
  }

  /** No continuation closes the channel of a forgotten poll. */
  lemma {:induction false} ForgottenForever(route: Router, s: System, actions: seq<Action>)
    requires s.session.terminal && s.posting == {} && s.pending.None?
    requires s.session.notify !in s.closing + s.closed
    ensures var t := Run(route, s, actions);
      t.session.notify == s.session.notify && s.session.notify !in t.closing + t.closed
    decreases |actions|
  {
    if actions != [] {
      ForgottenForever(route, Step(route, s, actions[0]), actions[1..]);
    }
  }

  lemma RunTwo(route: Router, s: System, a: Action, b: Action)
    ensures Run(route, s, [a, b]) == Step(route, Step(route, s, a), b)
  {
    assert [a, b][1..] == [b] && [b][1..] == [];
    assert Run(route, s, [a, b]) == Run(route, Step(route, s, a), [b]);
  }

  lemma RunThree(route: Router, s: System, a: Action, b: Action, c: Action)
    ensures Run(route, s, [a, b, c]) == Step(route, Step(route, Step(route, s, a), b), c)
  {
    assert [a, b, c][1..] == [b, c];
    RunTwo(route, Step(route, s, a), b, c);
  }

  lemma CloseByFinish(route: Router, s: System, p: Handler, facts: Facts)
    requires p in s.posting
    ensures CanClose(route, s, s.session.notify)
  {
    var c := s.session.notify;
    RunTwo(route, s, Finish(p, facts), CloseOld(c));
    assert c in Run(route, s, [Finish(p, facts), CloseOld(c)]).closed;
  }

  lemma CloseByPost(route: Router, s: System, resp: TurnResponse, facts: Facts)
    requires s.posting == {} && s.pending.Some?
    ensures CanClose(route, s, s.session.notify)
  {
    var c := s.session.notify;
    RunThree(route, s, Post(0, resp), Finish(0, facts), CloseOld(c));
    assert c in Run(route, s, [Post(0, resp), Finish(0, facts), CloseOld(c)]).closed;
  }

  lemma CloseByCancel(route: Router, s: System)
    requires !s.session.terminal
    ensures CanClose(route, s, s.session.notify)
  {
    var c := s.session.notify;
    RunTwo(route, s, Cancel, CloseOld(c));
    assert c in Run(route, s, [Cancel, CloseOld(c)]).closed;
  }

  lemma CloseSwapped(route: Router, s: System, c: Chan)
    requires c in s.closing + s.closed
    ensures CanClose(route, s, c)
  {
    var step := [CloseOld(c)];
    assert step[1..] == [];
    assert Run(route, s, step) == Step(route, s, CloseOld(c));
    assert c in Run(route, s, step).closed;
  }

  /** A waiting poll can still be woken if and only if it is not forgotten. */
  lemma WakeableIff(route: Router, s: System, h: Handler)
    requires ChannelsOk(s) && h in s.waiting
    ensures CanClose(route, s, s.waiting[h]) <==> !Forgotten(s, h)
  {
    var facts := Facts(false, 0, None, None);
    if Forgotten(s, h) {
      forall actions
        ensures s.waiting[h] !in Run(route, s, actions).closed
      {
        ForgottenForever(route, s, actions);
      }
    } else if s.waiting[h] != s.session.notify {
      CloseSwapped(route, s, s.waiting[h]);
    } else if !s.session.terminal {
      CloseByCancel(route, s);
    } else if s.posting != {} {
      var p :| p in s.posting;
      CloseByFinish(route, s, p, facts);
    } else {
      CloseByPost(route, s, TurnResponse(false, "", "", [], "", None), facts);
    }
  }

  function OneTurnLeft(): Budget { Budget(1, 1, 0) }

  function AlwaysA(last: Option<TurnResponse>, turn: int): Option<string> { Some("a") }

  lemma PollIsHandedTurn(s: System, h: Handler, role: string)
    requires !s.session.terminal && !IsExhausted(Remaining(s.session.preset, s.session.totalUsage, s.session.turnCount))
    requires role == "" || role == "a"
    ensures var t := Step(AlwaysA, s, Poll(h, role, true));
      t.session == s.session && t.pending == Some(RequestFor(s.session, "a"))
      && t.waiting == s.waiting - {h} && t.posting == s.posting
  {
  }

  lemma PollWaits(s: System, h: Handler, role: string)
    requires !s.session.terminal && !IsExhausted(Remaining(s.session.preset, s.session.totalUsage, s.session.turnCount))
    requires role != "" && role != "a"
    ensures var t := Step(AlwaysA, s, Poll(h, role, true));
      t.session == s.session && t.pending == s.pending
      && t.waiting == s.waiting[h := s.session.notify] && t.posting == s.posting
  {
  }

  predicate Reaches(route: Router, s: System, actions: seq<Action>, t: System)
  {
    Run(route, s, actions) == t
  }

  lemma {:induction false} ReachesOn(
      route: Router, s: System, first: seq<Action>, m: System, rest: seq<Action>, t: System)
    requires Reaches(route, s, first, m) && Reaches(route, m, rest, t)
    ensures Reaches(route, s, first + rest, t)
    decreases |first|
  {
    if first == [] {
      assert first + rest == rest;
    } else {
      assert (first + rest)[1..] == first[1..] + rest;
      ReachesOn(route, Step(route, s, first[0]), first[1..], m, rest, t);
    }
  }

  /** One poll is handed the only turn of a fresh session, and another waits. */
  lemma OneTurnAndOneWaits(exitWhen: seq<ExitCondition>, p: Handler, w: Handler) returns (s: System)
    ensures Reaches(AlwaysA, Initial(OneTurnLeft(), exitWhen), [Poll(p, "a", true), Poll(w, "b", true)], s)
    ensures s.session == NewSession(OneTurnLeft(), exitWhen, 0) && s.pending.Some? && s.posting == {}
    ensures s.waiting == map[w := 0]
  {
    var s0 := Initial(OneTurnLeft(), exitWhen);
    PollIsHandedTurn(s0, p, "a");
    var s1 := Step(AlwaysA, s0, Poll(p, "a", true));
    PollWaits(s1, w, "b");
    s := Step(AlwaysA, s1, Poll(w, "b", true));
    RunTwo(AlwaysA, s0, Poll(p, "a", true), Poll(w, "b", true));
  }

  /** The turn is recorded and cannot be stored, and another poll ends the session. */
  lemma LastTurnIsNotStored(s: System, w: Handler, q: Handler, resp: TurnResponse, r: Handler) returns (t: System)
    requires s.session == NewSession(OneTurnLeft(), s.session.exitWhen, 0) && s.pending.Some? && s.posting == {}
    requires s.waiting == map[w := 0] && r != w
    ensures Reaches(AlwaysA, s, [Post(q, resp), StoreFails(q), Poll(r, "", true)], t) && Forgotten(t, w)
  {
    var s1 := LastTurnRecorded(s, q, resp);
    var s2 := PostGivesUp(s1, q);
    t := PollEnds(s2, r);
    ReachesThree(AlwaysA, s, Post(q, resp), s1, StoreFails(q), s2, Poll(r, "", true), t);
  }

  lemma ReachesThree(
      route: Router, s: System, a: Action, s1: System, b: Action, s2: System, c: Action, s3: System)
    requires s1 == Step(route, s, a) && s2 == Step(route, s1, b) && s3 == Step(route, s2, c)
    ensures Reaches(route, s, [a, b, c], s3)
  {
    RunThree(route, s, a, b, c);
  }

  lemma PostGivesUp(s: System, q: Handler) returns (t: System)
    requires s.posting == {q}
    ensures t == Step(AlwaysA, s, StoreFails(q)) && t == s.(posting := {})
  {
    t := Step(AlwaysA, s, StoreFails(q));
    assert s.posting - {q} == {};
  }

  lemma LastTurnRecorded(s: System, q: Handler, resp: TurnResponse) returns (t: System)
    requires s.session == NewSession(OneTurnLeft(), s.session.exitWhen, 0) && s.pending.Some? && s.posting == {}
    ensures t == Step(AlwaysA, s, Post(q, resp))
    ensures t.pending.None? && t.posting == {q} && t.waiting == s.waiting && t.session.notify == 0
    ensures !t.session.terminal && Remaining(t.session.preset, t.session.totalUsage, t.session.turnCount).turnsLeft == 0
  {
    t := Step(AlwaysA, s, Post(q, resp));
  }

  lemma PollEnds(s: System, r: Handler) returns (t: System)
    requires !s.session.terminal && IsExhausted(Remaining(s.session.preset, s.session.totalUsage, s.session.turnCount))
    ensures t == Step(AlwaysA, s, Poll(r, "", true))
    ensures t.session.terminal && t.session.notify == s.session.notify && t.waiting == s.waiting - {r}
    ensures t.pending == s.pending && t.posting == s.posting
  {
    t := Step(AlwaysA, s, Poll(r, "", true));
  }

  /** It happens, with a budget of one turn, whoever does it: p is handed the turn, w waits, q's post is
      recorded but cannot be stored, and r's poll ends the session for want of budget without touching
      the channel. */
  lemma StoreFailureForgets(
      exitWhen: seq<ExitCondition>, p: Handler, w: Handler, q: Handler, resp: TurnResponse, r: Handler)
      returns (s: System)
    requires r != w
    ensures Reaches(AlwaysA, Initial(OneTurnLeft(), exitWhen),
      [Poll(p, "a", true), Poll(w, "b", true)] + [Post(q, resp), StoreFails(q), Poll(r, "", true)], s)
    ensures Forgotten(s, w) && !CanClose(AlwaysA, s, s.waiting[w])
  {
    var s0 := Initial(OneTurnLeft(), exitWhen);
    var m := OneTurnAndOneWaits(exitWhen, p, w);
    s := LastTurnIsNotStored(m, w, q, resp, r);
    var first, rest := [Poll(p, "a", true), Poll(w, "b", true)], [Post(q, resp), StoreFails(q), Poll(r, "", true)];
    ReachesOn(AlwaysA, s0, first, m, rest, s);
    InitialInv(AlwaysA, OneTurnLeft(), exitWhen);
    ForgottenIsNotClosed(AlwaysA, OneTurnLeft(), s0, first + rest, s, w);
  }

  lemma ForgottenIsNotClosed(
      route: Router, preset: Budget, s: System, actions: seq<Action>, t: System, h: Handler)
    requires Inv(route, preset, s) && Reaches(route, s, actions, t) && Forgotten(t, h)
    ensures !CanClose(route, t, t.waiting[h])
  {
    RunKeepsInv(route, preset, s, actions);
    WakeableIff(route, t, h);
  }

  /** With no post between its two sections, whoever waits on the current channel waits on a session that
      can go on. */
  predicate Attended(s: System)
  {
    s.posting == {} ==> forall h | h in s.waiting && s.waiting[h] == s.session.notify ::
      !s.session.terminal && !IsExhausted(Remaining(s.session.preset, s.session.totalUsage, s.session.turnCount))
  }

  lemma StepKeepsAttended(route: Router, s: System, a: Action)
    requires ChannelsOk(s) && Attended(s) && !a.StoreFails?
    ensures Attended(Step(route, s, a))
  {
  }

  /** As long as every recorded turn can be stored, no poll is ever forgotten: a session that ends, or runs
      out of budget, has swapped out the channel of everyone waiting, or is between the two sections of a
      post that will. */
  lemma {:induction false} StoredRunsForgetNobody(route: Router, preset: Budget, s: System, actions: seq<Action>)
    requires Inv(route, preset, s) && Attended(s) && forall a | a in actions :: !a.StoreFails?
    ensures var t := Run(route, s, actions); Attended(t) && forall h :: !Forgotten(t, h)
    decreases |actions|
  {
    if actions != [] {
      assert actions[0] in actions;
      StepKeepsInv(route, preset, s, actions[0]);
      StepKeepsAttended(route, s, actions[0]);
      StoredRunsForgetNobody(route, preset, Step(route, s, actions[0]), actions[1..]);
    }
  }

  // ---- Who answers which request ---------------------------------------------------------------------

  /** The request each client was handed last and has not answered, and, for every recorded turn, the one
      its poster had been handed. The response itself carries no turn number. */
  datatype Tracked = Tracked(sys: System, given: map<Handler, TurnRequest>, answered: seq<Option<TurnRequest>>)

  predicate Dispatches(route: Router, s: System, a: Action)
  {
    a.Poll? && Next(route, s.session, a.role, a.storeOk).1.Dispatched?
  }

  predicate Records(s: System, a: Action)
  {
    a.Post? && s.pending.Some? && a.h !in s.posting
  }

  function TrackedStep(route: Router, t: Tracked, a: Action): Tracked
  {
    var sys := Step(route, t.sys, a);
    if Dispatches(route, t.sys, a) then
      Tracked(sys, t.given[a.h := Next(route, t.sys.session, a.role, a.storeOk).1.req], t.answered)
    else if Records(t.sys, a) then
      Tracked(sys, t.given - {a.h}, t.answered + [if a.h in t.given then Some(t.given[a.h]) else None])
    else t.(sys := sys)
  }

  function TrackedRun(route: Router, t: Tracked, actions: seq<Action>): Tracked
    decreases |actions|
  {
    if actions == [] then t else TrackedRun(route, TrackedStep(route, t, actions[0]), actions[1..])
  }

  /** A request some client holds: it was dispatched properly when it was, and if it is the one for the next
      turn it is the pending one. */
  ghost predicate HandedOk(route: Router, preset: Budget, s: System, req: TurnRequest)
  {
    && 1 <= req.turn <= |s.records| + 1
    && Dispatchable(route, preset, s.records[..req.turn - 1], req)
    && (req.turn == |s.records| + 1 ==> s.pending == Some(req))
  }

  /** Turn i was answered by a holder of its own request exactly if that request was numbered i + 1. */
  ghost predicate AnswerOk(t: Tracked, i: nat)
    requires i < |t.sys.records| && i < |t.answered|
  {
    t.answered[i].Some? ==> (t.answered[i].value == t.sys.records[i].req <==> t.answered[i].value.turn == i + 1)
  }

  ghost predicate TrackedOk(route: Router, preset: Budget, t: Tracked)
  {
    && Inv(route, preset, t.sys)
    && (forall h | h in t.given :: HandedOk(route, preset, t.sys, t.given[h]))
    && |t.answered| == |t.sys.records|
    && forall i | 0 <= i < |t.answered| :: AnswerOk(t, i)
  }

  lemma DispatchKeepsTracked(route: Router, preset: Budget, t: Tracked, a: Action)
    requires TrackedOk(route, preset, t) && Dispatches(route, t.sys, a)
    ensures TrackedOk(route, preset, TrackedStep(route, t, a))
  {
    StepKeepsInv(route, preset, t.sys, a);
    var t' := TrackedStep(route, t, a);
    assert t'.sys.records[..|t.sys.records|] == t.sys.records;
    forall h | h in t'.given
      ensures HandedOk(route, preset, t'.sys, t'.given[h])
    {
      assert h == a.h || HandedOk(route, preset, t.sys, t.given[h]);
    }
    forall i | 0 <= i < |t'.answered|
      ensures AnswerOk(t', i)
    {
      assert AnswerOk(t, i);
    }
  }

  lemma RecordKeepsHanded(route: Router, preset: Budget, s: System, s': System, req: TurnRequest)
    requires HandedOk(route, preset, s, req)
    requires |s'.records| == |s.records| + 1 && s'.records[..|s.records|] == s.records
    ensures HandedOk(route, preset, s', req)
  {
    assert s'.records[..req.turn - 1] == s.records[..req.turn - 1];
  }

  lemma RecordKeepsAnswers(route: Router, preset: Budget, t: Tracked, a: Action)
    requires TrackedOk(route, preset, t) && Records(t.sys, a)
    ensures var t' := TrackedStep(route, t, a);
      |t'.answered| == |t'.sys.records| && forall i | 0 <= i < |t'.answered| :: AnswerOk(t', i)
  {
    var t' := TrackedStep(route, t, a);
    forall i | 0 <= i < |t'.answered|
      ensures AnswerOk(t', i)
    {
      if i < |t.answered| {
        assert AnswerOk(t, i);
      } else if a.h in t.given {
        assert HandedOk(route, preset, t.sys, t.given[a.h]);
      }
    }
  }

  lemma RecordKeepsTracked(route: Router, preset: Budget, t: Tracked, a: Action)
    requires TrackedOk(route, preset, t) && Records(t.sys, a)
    ensures TrackedOk(route, preset, TrackedStep(route, t, a))
  {
    StepKeepsInv(route, preset, t.sys, a);
    RecordKeepsAnswers(route, preset, t, a);
    var t' := TrackedStep(route, t, a);
    forall h | h in t'.given
      ensures HandedOk(route, preset, t'.sys, t'.given[h])
    {
      RecordKeepsHanded(route, preset, t.sys, t'.sys, t.given[h]);
    }
  }

  lemma OtherStepsKeepTracked(route: Router, preset: Budget, t: Tracked, a: Action)
    requires TrackedOk(route, preset, t) && !Dispatches(route, t.sys, a) && !Records(t.sys, a)
    ensures TrackedOk(route, preset, TrackedStep(route, t, a))
  {
    StepKeepsInv(route, preset, t.sys, a);
    var t' := TrackedStep(route, t, a);
    assert t'.sys.records == t.sys.records && t'.sys.pending == t.sys.pending;
    forall h | h in t'.given
      ensures HandedOk(route, preset, t'.sys, t'.given[h])
    {
      assert HandedOk(route, preset, t.sys, t.given[h]);
    }
    forall i | 0 <= i < |t'.answered|
      ensures AnswerOk(t', i)
    {
      assert AnswerOk(t, i);
    }
  }

  lemma {:induction false} RunKeepsTracked(route: Router, preset: Budget, t: Tracked, actions: seq<Action>)
    requires TrackedOk(route, preset, t)
    ensures TrackedOk(route, preset, TrackedRun(route, t, actions))
    decreases |actions|
  {
    if actions != [] {
      var a := actions[0];
      if Dispatches(route, t.sys, a) {
        DispatchKeepsTracked(route, preset, t, a);
      } else if Records(t.sys, a) {
        RecordKeepsTracked(route, preset, t, a);
      } else {
        OtherStepsKeepTracked(route, preset, t, a);
      }
      RunKeepsTracked(route, preset, TrackedStep(route, t, a), actions[1..]);
    }
  }

  /** After any run, a response posted by a client that holds a request is recorded for that very request
      exactly if the request is numbered one past the session's turn count: what the broker could check,
      did the response carry the number. The same holds of every turn recorded so far. */
  lemma PostAnswersItsOwnIff(
      route: Router, preset: Budget, exitWhen: seq<ExitCondition>, actions: seq<Action>, h: Handler, resp: TurnResponse)
    ensures var t := TrackedRun(route, Tracked(Initial(preset, exitWhen), map[], []), actions);
      && |t.answered| == |t.sys.records|
      && (forall i | 0 <= i < |t.answered| && t.answered[i].Some? ::
            t.answered[i].value == t.sys.records[i].req <==> t.answered[i].value.turn == i + 1)
      && (Records(t.sys, Post(h, resp)) && h in t.given ==>
            var records := Step(route, t.sys, Post(h, resp)).records;
            && t.given[h].turn <= t.sys.session.turnCount + 1
            && records != []
            && (records[|records| - 1].req == t.given[h] <==> t.given[h].turn == t.sys.session.turnCount + 1))
  {
    var t0 := Tracked(Initial(preset, exitWhen), map[], []);
    InitialInv(route, preset, exitWhen);
    RunKeepsTracked(route, preset, t0, actions);
    var t := TrackedRun(route, t0, actions);
    forall i | 0 <= i < |t.answered| && t.answered[i].Some?
      ensures t.answered[i].value == t.sys.records[i].req <==> t.answered[i].value.turn == i + 1
    {
      assert AnswerOk(t, i);
    }
    if h in t.given {
      assert HandedOk(route, preset, t.sys, t.given[h]);
    }
  }

  /** No request is handed out again while it is pending, and only who holds a request posts. */
  predicate Exclusive(route: Router, t: Tracked, actions: seq<Action>)
    decreases |actions|
  {
    actions == [] ||
    (&& (Dispatches(route, t.sys, actions[0]) ==> t.sys.pending.None?)
     && (Records(t.sys, actions[0]) ==> actions[0].h in t.given)
     && Exclusive(route, TrackedStep(route, t, actions[0]), actions[1..]))
  }

  /** Exactly the pending request is held, by one client, and every record was posted by its holder. */
  ghost predicate HeldByOne(t: Tracked)
  {
    && (t.sys.pending.None? ==> t.given == map[])
    && (t.sys.pending.Some? ==> exists h :: t.given == map[h := t.sys.pending.value])
    && |t.answered| == |t.sys.records|
    && forall i | 0 <= i < |t.answered| :: t.answered[i] == Some(t.sys.records[i].req)
  }

  lemma StepKeepsHeldByOne(route: Router, t: Tracked, a: Action)
    requires HeldByOne(t)
    requires Dispatches(route, t.sys, a) ==> t.sys.pending.None?
    requires Records(t.sys, a) ==> a.h in t.given
    ensures HeldByOne(TrackedStep(route, t, a))
  {
    var t' := TrackedStep(route, t, a);
    if Dispatches(route, t.sys, a) {
      assert t'.given == map[a.h := t'.sys.pending.value];
    } else if Records(t.sys, a) {
      assert t'.given == map[];
    } else {
      assert t'.sys.pending == t.sys.pending && t'.sys.records == t.sys.records;
    }
  }

  /** In particular, while requests are handed out and answered exclusively, every recorded response answers
      the very request it is recorded for. */
  lemma {:induction false} ExclusiveRunsAnswerTheirOwn(route: Router, t: Tracked, actions: seq<Action>)
    requires HeldByOne(t) && Exclusive(route, t, actions)
    ensures HeldByOne(TrackedRun(route, t, actions))
    decreases |actions|
  {
    if actions != [] {
      StepKeepsHeldByOne(route, t, actions[0]);
      ExclusiveRunsAnswerTheirOwn(route, TrackedStep(route, t, actions[0]), actions[1..]);
    }
  }

  function TwoTurnsLeft(): Budget { Budget(1, 2, 0) }

  /** Otherwise it need not: p and q are both handed turn 1, p answers it, r is handed turn 2, and q's
      answer to turn 1 is recorded as turn 2. */
  lemma LatePostAnswersNextTurn(exitWhen: seq<ExitCondition>, p: Handler, q: Handler, r: Handler, resp: TurnResponse)
    requires p != q && q != r && resp.usage.None?
    ensures var t := TrackedRun(AlwaysA, Tracked(Initial(TwoTurnsLeft(), exitWhen), map[], []),
        [Poll(p, "", true), Poll(q, "", true), Post(p, resp), Poll(r, "", true), Post(q, resp)]);
      && |t.sys.records| == 2 == |t.answered| && t.sys.records[1].req.turn == 2
      && t.answered[1].Some? && t.answered[1].value.turn == 1
  {
    var t0 := Tracked(Initial(TwoTurnsLeft(), exitWhen), map[], []);
    var t2 := BothHandedFirstTurn(t0, p, q);
    var t3 := FirstTurnAnswered(t2, p, resp);
    TrackedRunsTo(AlwaysA, t0, Poll(p, "", true), [Poll(q, "", true), Post(p, resp), Poll(r, "", true), Post(q, resp)]);
    TrackedRunsTo(AlwaysA, TrackedStep(AlwaysA, t0, Poll(p, "", true)), Poll(q, "", true),
      [Post(p, resp), Poll(r, "", true), Post(q, resp)]);
    TrackedRunsTo(AlwaysA, t2, Post(p, resp), [Poll(r, "", true), Post(q, resp)]);
    SecondTurnAnsweredLate(t3, q, r, resp);
  }

  /** The same request to both. */
  lemma BothHandedFirstTurn(t: Tracked, p: Handler, q: Handler) returns (t': Tracked)
    requires t.sys.session == NewSession(TwoTurnsLeft(), t.sys.session.exitWhen, 0) && p != q
    ensures t' == TrackedStep(AlwaysA, TrackedStep(AlwaysA, t, Poll(p, "", true)), Poll(q, "", true))
    ensures t'.sys.session == t.sys.session && t'.sys.records == t.sys.records && t'.answered == t.answered
    ensures t'.sys.posting == t.sys.posting && t'.sys.pending == Some(RequestFor(t.sys.session, "a"))
    ensures t'.given == t.given[p := RequestFor(t.sys.session, "a")][q := RequestFor(t.sys.session, "a")]
  {
    var t1 := TrackedStep(AlwaysA, t, Poll(p, "", true));
    PollIsHandedTurn(t.sys, p, "");
    t' := TrackedStep(AlwaysA, t1, Poll(q, "", true));
    PollIsHandedTurn(t1.sys, q, "");
  }

  lemma FirstTurnAnswered(t: Tracked, p: Handler, resp: TurnResponse) returns (t': Tracked)
    requires t.sys.session == NewSession(TwoTurnsLeft(), t.sys.session.exitWhen, 0) && resp.usage.None?
    requires t.sys.pending.Some? && t.sys.posting == {} && t.sys.records == [] && t.answered == []
    ensures t' == TrackedStep(AlwaysA, t, Post(p, resp))
    ensures t'.sys.session.turnCount == 1 && !t'.sys.session.terminal && t'.sys.session.preset == TwoTurnsLeft()
    ensures t'.sys.session.totalUsage == NO_USAGE && t'.sys.posting == {p}
    ensures t'.given == t.given - {p} && |t'.sys.records| == 1 == |t'.answered|
  {
    t' := TrackedStep(AlwaysA, t, Post(p, resp));
  }

  lemma SecondTurnAnsweredLate(t: Tracked, q: Handler, r: Handler, resp: TurnResponse)
    requires t.sys.session.turnCount == 1 && !t.sys.session.terminal && t.sys.session.preset == TwoTurnsLeft()
    requires t.sys.session.totalUsage == NO_USAGE && q !in t.sys.posting && q != r
    requires q in t.given && t.given[q].turn == 1 && |t.sys.records| == 1 == |t.answered|
    ensures var t' := TrackedRun(AlwaysA, t, [Poll(r, "", true), Post(q, resp)]);
      && |t'.sys.records| == 2 == |t'.answered| && t'.sys.records[1].req.turn == 2
      && t'.answered[1].Some? && t'.answered[1].value.turn == 1
  {
    var t1 := TrackedStep(AlwaysA, t, Poll(r, "", true));
    PollIsHandedTurn(t.sys, r, "");
    TrackedRunsTo(AlwaysA, t, Poll(r, "", true), [Post(q, resp)]);
    TrackedRunsTo(AlwaysA, t1, Post(q, resp), []);
    assert [Poll(r, "", true)] + [Post(q, resp)] == [Poll(r, "", true), Post(q, resp)];
    assert [Post(q, resp)] + [] == [Post(q, resp)];
  }

  lemma TrackedRunsTo(route: Router, t: Tracked, a: Action, rest: seq<Action>)
    ensures TrackedRun(route, t, [a] + rest) == TrackedRun(route, TrackedStep(route, t, a), rest)
  {
    assert ([a] + rest)[1..] == rest;
  }
}
