/** What every interleaving of a rally session keeps. */
module RallyProofs {
  import opened DivMod
  import opened Rally
  import opened Wrappers

  // ---- The baton ---------------------------------------------------------------------------

  predicate Active(sess: Session) { sess.status != IDLE && sess.status != INTERRUPTED }

  /** Turn numbers count up from 2 without gaps, each record starts where the last one ended, and
      the baton always changes hands between members. */
  ghost predicate HistoryOk(participants: seq<Name>, history: seq<Handoff>)
  {
    && (forall j | 0 <= j < |history| ::
          && history[j].turnN == j + 2
          && history[j].from in participants && history[j].to in participants
          && history[j].from != history[j].to)
    && forall j | 0 < j < |history| :: history[j - 1].to == history[j].from
  }

  ghost predicate SessionOk(sess: Session)
  {
    && Roster(sess.participants)
    && HistoryOk(sess.participants, sess.history)
    && (sess.status == IDLE ==> sess.holder == "" && sess.turnN == 0 && sess.history == [])
    && (sess.status == INTERRUPTED ==> sess.holder == "" && sess.streams == map[])
    && (Active(sess) ==>
          && sess.holder in sess.participants && sess.status == TurnState(sess.holder)
          && sess.turnN == |sess.history| + 1
          && (sess.history != [] ==> sess.history[|sess.history| - 1].to == sess.holder))
  }

  lemma NextIsOther(participants: seq<Name>, name: Name, handoffTo: Name)
    requires Roster(participants) && name in participants && handoffTo != name
    ensures NextAfter(participants, name, handoffTo) in participants
    ensures NextAfter(participants, name, handoffTo) != name
    ensures handoffTo in participants && handoffTo != "" ==> NextAfter(participants, name, handoffTo) == handoffTo
  {
    var i, n := IndexOf(participants, name), |participants|;
    assert (i + 1) % n == if i + 1 < n then i + 1 else 0;
  }

  lemma AdvanceKeepsSession(sess: Session, note: string, next: Name)
    requires SessionOk(sess) && Active(sess) && next in sess.participants && next != sess.holder
    ensures SessionOk(Advance(sess, sess.holder, note, next)) && Active(Advance(sess, sess.holder, note, next))
  {
    var t := Advance(sess, sess.holder, note, next);
    var n := |sess.history|;
    TurnStateDistinct(next, next);
    assert forall j | 0 <= j < n :: t.history[j] == sess.history[j];
    assert t.history[n] == Handoff(sess.holder, next, n + 2, note);
  }

  lemma DoneKeepsSession(s: State, name: Name, note: string, handoffTo: Name)
    requires SessionOk(s.sess)
    ensures SessionOk(Done(s, name, note, handoffTo).sess)
  {
    if DoneRefusal(s.sess, name, handoffTo).None? {
      NextIsOther(s.sess.participants, name, handoffTo);
      AdvanceKeepsSession(s.sess, note, NextAfter(s.sess.participants, name, handoffTo));
    }
  }

  lemma StepKeepsSession(s: State, a: Action)
    requires SessionOk(s.sess)
    ensures SessionOk(Step(s, a).sess)
  {
    if a.DoJoin? {
      JoinKeepsSession(s, a.name, a.transport);
    } else if a.DoDone? {
      DoneKeepsSession(s, a.name, a.note, a.handoffTo);
    } else {
      OthersKeepSession(s, a);
    }
  }

  lemma JoinKeepsSession(s: State, name: Name, transport: Transport)
    requires SessionOk(s.sess)
    ensures SessionOk(Join(s, name, transport).sess)
  {
    TurnStateDistinct(name, name);
  }

  lemma OthersKeepSession(s: State, a: Action)
    requires SessionOk(s.sess) && !a.DoJoin? && !a.DoDone?
    ensures SessionOk(Step(s, a).sess)
  {
  }

  // ---- Channels ----------------------------------------------------------------------------

  /** Handlers that have not run their cleanup (and, abandoned ones, never will). */
  predicate Live(pc: Pc) { !pc.Gone? && !pc.Draining? }

  /** A registered stream is open, uncollected, and owned by the one live handler of that name. */
  ghost predicate RegisteredOk(s: State)
  {
    forall name | name in s.sess.streams ::
      var c := s.sess.streams[name];
      && c < |s.joins| && s.joins[c].name == name && Live(s.joins[c].pc)
      && !s.joins[c].closed && c !in s.pending
  }

  /** Only an interrupt takes a live handler's stream away, and from then on no name is registered. */
  ghost predicate LiveOk(s: State)
  {
    forall c | 0 <= c < |s.joins| && Live(s.joins[c].pc) && s.sess.status != INTERRUPTED ::
      s.joins[c].name in s.sess.streams && s.sess.streams[s.joins[c].name] == c
  }

  /** Each collected stream awaits exactly one close. */
  ghost predicate PendingOk(s: State)
  {
    forall c | c in s.pending :: s.pending[c] == 1 && c < |s.joins| && !s.joins[c].closed
  }

  ghost predicate ChannelsOk(s: State)
  {
    && !s.fault && RegisteredOk(s) && LiveOk(s) && PendingOk(s)
    && (s.sess.status == INTERRUPTED ==> s.sess.streams == map[])
    && forall c | 0 <= c < |s.joins| :: |s.joins[c].buf| <= 1
  }

  lemma SendKeepsChannels(s: State, c: nat, e: Event, blocking: bool)
    requires ChannelsOk(s) && c < |s.joins| && !s.joins[c].closed && (blocking ==> s.joins[c].buf == [])
    ensures ChannelsOk(Send(s, c, e, blocking))
  {
  }

  lemma TurnKeepsChannels(s: State, sess: Session)
    requires ChannelsOk(s) && sess.streams == s.sess.streams
    requires sess.status == INTERRUPTED <==> s.sess.status == INTERRUPTED
    ensures ChannelsOk(s.(sess := sess))
  {
  }

  lemma RegisterKeepsChannels(s: State, name: Name, transport: Transport)
    requires ChannelsOk(s) && JoinResult(s, name).Joined?
    ensures ChannelsOk(Register(s, name, transport))
  {
  }

  lemma HearKeepsChannels(s: State, name: Name, c: nat)
    requires ChannelsOk(s) && c < |s.joins| && !s.joins[c].closed && s.joins[c].buf == []
    ensures ChannelsOk(Hear(s, name, c))
  {
    if s.sess.status == IDLE && s.sess.participants != [] && s.sess.participants[0] == name {
      TakeKeepsChannels(s, name);
      SendKeepsChannels(TakeFirstTurn(s, name), c, Baton(s.sess.turnN + 1, "", ""), true);
    } else {
      SendKeepsChannels(s, c, CurrentTurn(s.sess), true);
    }
  }

  lemma JoinKeepsChannels(s: State, name: Name, transport: Transport)
    requires ChannelsOk(s)
    ensures ChannelsOk(Join(s, name, transport))
  {
    if JoinResult(s, name).Joined? {
      RegisterKeepsChannels(s, name, transport);
      HearKeepsChannels(Register(s, name, transport), name, |s.joins|);
    }
  }

  lemma TakeKeepsChannels(s: State, name: Name)
    requires ChannelsOk(s) && s.sess.status != INTERRUPTED
    ensures ChannelsOk(TakeFirstTurn(s, name))
  {
    TurnStateDistinct(name, name);
    TurnKeepsChannels(s, TakeFirstTurn(s, name).sess);
  }

  lemma DoneKeepsChannels(s: State, name: Name, note: string, handoffTo: Name)
    requires ChannelsOk(s)
    ensures ChannelsOk(Done(s, name, note, handoffTo))
  {
    if DoneRefusal(s.sess, name, handoffTo).None? && s.sess.participants != [] {
      var next := NextAfter(s.sess.participants, name, handoffTo);
      var passed := Advance(s.sess, name, note, next);
      TurnStateDistinct(next, next);
      TurnKeepsChannels(s, passed);
      if next in s.sess.streams {
        SendKeepsChannels(s.(sess := passed), s.sess.streams[next], Baton(s.sess.turnN + 1, name, note), false);
      }
    }
  }

  lemma InterruptKeepsChannels(s: State)
    requires ChannelsOk(s)
    ensures ChannelsOk(Interrupt(s))
  {
  }

  /** A handler changing only its own position or buffer breaks nothing, unless it stops being live
      while its stream is still registered. */
  lemma LocalKeepsChannels(s: State, c: nat, j: Stream)
    requires ChannelsOk(s) && c < |s.joins|
    requires j.name == s.joins[c].name && j.closed == s.joins[c].closed && |j.buf| <= 1
    requires Live(j.pc) == Live(s.joins[c].pc) || (s.joins[c].closed && !Live(j.pc))
    ensures ChannelsOk(s.(joins := s.joins[c := j]))
  {
  }

  lemma CleanupKeepsChannels(s: State, c: nat)
    requires ChannelsOk(s) && HandlerLeaving(s, c)
    ensures ChannelsOk(Cleanup(s, c))
  {
    var t := Cleanup(s, c);
    assert t.sess.streams == s.sess.streams - {s.joins[c].name};
  }

  lemma CloseKeepsChannels(s: State, c: nat)
    requires ChannelsOk(s)
    ensures ChannelsOk(Close(s, c))
  {
  }

  function Heard(j: Stream): Stream { j.(buf := [], heard := j.heard + Batons(j.buf)) }

  lemma ReceiveKeepsChannels(s: State, c: nat, writeOk: bool)
    requires ChannelsOk(s) && HandlerAt(s, c, Waiting)
    ensures ChannelsOk(Receive(s, c, writeOk))
  {
    var j := s.joins[c];
    var next :=
      if j.buf != [] && j.transport.Http? && j.buf[0].Baton? && writeOk then Heard(j)
      else if j.buf != [] then Heard(j).(pc := Leaving(false))
      else if j.closed then j.(pc := if j.transport.Http? then Leaving(false) else Gone)
      else j;
    LocalKeepsChannels(s, c, next);
    ReceiveIsLocal(s, c, writeOk, next);
  }

  lemma ReceiveIsLocal(s: State, c: nat, writeOk: bool, next: Stream)
    requires HandlerAt(s, c, Waiting)
    requires var j := s.joins[c];
      next ==
        if j.buf != [] && j.transport.Http? && j.buf[0].Baton? && writeOk then Heard(j)
        else if j.buf != [] then Heard(j).(pc := Leaving(false))
        else if j.closed then j.(pc := if j.transport.Http? then Leaving(false) else Gone)
        else j
    ensures Receive(s, c, writeOk) == s.(joins := s.joins[c := next])
  {
    var taken := TakeHeard(s, c);
    assert taken.joins[c := next] == s.joins[c := next];
    assert s.joins[c := s.joins[c]] == s.joins;
  }

  lemma MovesKeepChannels(s: State, c: nat, pc: Pc)
    requires ChannelsOk(s) && c < |s.joins| && Live(s.joins[c].pc) && Live(pc)
    ensures ChannelsOk(SetPc(s, c, pc))
  {
    LocalKeepsChannels(s, c, s.joins[c].(pc := pc));
  }

  lemma HandlerMoveKeepsChannels(s: State, a: Action)
    requires ChannelsOk(s) && (a.HeadersSent? || a.Leave? || a.Drain?)
    ensures ChannelsOk(Step(s, a))
  {
    match a
    case HeadersSent(c, ok) =>
      if HandlerAt(s, c, Opening) { MovesKeepChannels(s, c, if ok then Waiting else Abandoned); }
    case Leave(c, timeout) =>
      if HandlerAt(s, c, Waiting) { MovesKeepChannels(s, c, Leaving(timeout && s.joins[c].transport.Mcp?)); }
    case Drain(c) => if HandlerAt(s, c, Draining) { DrainKeepsChannels(s, c); }
  }

  lemma DrainKeepsChannels(s: State, c: nat)
    requires ChannelsOk(s) && HandlerAt(s, c, Draining)
    ensures ChannelsOk(SetPc(TakeBuffered(s, c), c, Gone))
  {
    var j := s.joins[c].(buf := [], pc := Gone);
    LocalKeepsChannels(s, c, j);
    assert TakeBuffered(s, c).joins[c := j] == s.joins[c := j];
  }

  lemma HandlerStepKeepsChannels(s: State, a: Action)
    requires ChannelsOk(s) && !a.DoJoin? && !a.DoDone? && !a.DoInterrupt?
    ensures ChannelsOk(Step(s, a))
  {
    match a
    case DoClose(c) => CloseKeepsChannels(s, c);
    case DoCleanup(c) => if HandlerLeaving(s, c) { CleanupKeepsChannels(s, c); }
    case DoReceive(c, writeOk) => if HandlerAt(s, c, Waiting) { ReceiveKeepsChannels(s, c, writeOk); }
    case _ => HandlerMoveKeepsChannels(s, a);
  }

  lemma StepKeepsChannels(s: State, a: Action)
    requires ChannelsOk(s)
    ensures ChannelsOk(Step(s, a))
  {
    match a
    case DoJoin(name, transport) => JoinKeepsChannels(s, name, transport);
    case DoDone(name, note, handoffTo) => DoneKeepsChannels(s, name, note, handoffTo);
    case DoInterrupt => InterruptKeepsChannels(s);
    case _ => HandlerStepKeepsChannels(s, a);
  }

  // ---- Events ------------------------------------------------------------------------------

  /** The announcement of a recorded handoff to the participant who received it. */
  ghost predicate Announces(e: Event, name: Name, history: seq<Handoff>)
  {
    e.Baton? && (e.from == "" || exists k :: 0 <= k < |history| && history[k] == Handoff(e.from, name, e.turnN, e.note))
  }

  /** On each stream turn numbers strictly increase up to the current turn, and every event that
      names a sender is a recorded handoff to this participant. */
  ghost predicate StreamOk(j: Stream, sess: Session)
  {
    && (forall i | 0 <= i < |j.sent| :: Announces(j.sent[i], j.name, sess.history) && j.sent[i].turnN <= sess.turnN)
    && (forall i | 0 < i < |j.sent| :: j.sent[i - 1].turnN < j.sent[i].turnN)
    && forall e | e in j.buf && e.Baton? :: e in j.sent
  }

  ghost predicate EventsOk(s: State)
  {
    forall c | 0 <= c < |s.joins| :: StreamOk(s.joins[c], s.sess)
  }

  /** Streams keep their guarantees while turns pass and history grows. */
  lemma LaterSessionKeepsStream(j: Stream, before: Session, after: Session)
    requires StreamOk(j, before) && before.turnN <= after.turnN && before.history <= after.history
    ensures StreamOk(j, after)
  {
    forall i | 0 <= i < |j.sent|
      ensures Announces(j.sent[i], j.name, after.history)
    {
      var e := j.sent[i];
      assert Announces(e, j.name, before.history);
      if e.from != "" {
        var k :| 0 <= k < |before.history| && before.history[k] == Handoff(e.from, j.name, e.turnN, e.note);
        assert after.history[k] == before.history[k];
      }
    }
  }

  lemma SendKeepsEvents(s: State, c: nat, e: Event, blocking: bool)
    requires EventsOk(s) && c < |s.joins| && Announces(e, s.joins[c].name, s.sess.history) && e.turnN <= s.sess.turnN
    requires forall x | x in s.joins[c].sent :: x.Baton? && x.turnN < e.turnN
    ensures EventsOk(Send(s, c, e, blocking))
  {
    var t := Send(s, c, e, blocking);
    if t.joins != s.joins {
      assert StreamOk(t.joins[c], t.sess);
    }
  }

  lemma JoinKeepsEvents(s: State, name: Name, transport: Transport)
    requires SessionOk(s.sess) && EventsOk(s)
    ensures EventsOk(Join(s, name, transport))
  {
    if JoinResult(s, name).Joined? {
      var c, registered := |s.joins|, Register(s, name, transport);
      assert EventsOk(registered);
      TurnStateDistinct(name, s.sess.holder);
      var first := TakeFirstTurn(registered, name);
      forall i | 0 <= i < |first.joins|
        ensures StreamOk(first.joins[i], first.sess)
      {
        LaterSessionKeepsStream(first.joins[i], registered.sess, first.sess);
      }
      SendKeepsEvents(first, c, Baton(s.sess.turnN + 1, "", ""), true);
      if s.sess.status == TurnState(name) {
        AnnouncesLast(s.sess);
        SendKeepsEvents(registered, c, CurrentTurn(s.sess), true);
      }
    }
  }

  lemma AnnouncesLast(sess: Session)
    requires SessionOk(sess) && Active(sess)
    ensures Announces(CurrentTurn(sess), sess.holder, sess.history)
  {
    var n := |sess.history|;
    if n > 0 {
      var last := sess.history[n - 1];
      assert last == Handoff(last.from, sess.holder, sess.turnN, last.note);
    }
  }

  lemma DoneKeepsEvents(s: State, name: Name, note: string, handoffTo: Name)
    requires SessionOk(s.sess) && ChannelsOk(s) && EventsOk(s)
    ensures EventsOk(Done(s, name, note, handoffTo))
  {
    if DoneRefusal(s.sess, name, handoffTo).None? {
      var next := NextAfter(s.sess.participants, name, handoffTo);
      var passed := s.(sess := Advance(s.sess, name, note, next));
      forall i | 0 <= i < |s.joins|
        ensures StreamOk(s.joins[i], passed.sess)
      {
        LaterSessionKeepsStream(s.joins[i], s.sess, passed.sess);
      }
      if next in s.sess.streams {
        assert passed.sess.history[|s.sess.history|] == Handoff(name, next, s.sess.turnN + 1, note);
        SendKeepsEvents(passed, s.sess.streams[next], Baton(s.sess.turnN + 1, name, note), false);
      }
    }
  }

  /** Nothing new is announced and no turn passes. */
  ghost predicate Quiet(s: State, t: State)
  {
    && |t.joins| == |s.joins| && t.sess.turnN == s.sess.turnN && t.sess.history == s.sess.history
    && forall c | 0 <= c < |s.joins| ::
         && t.joins[c].name == s.joins[c].name && t.joins[c].sent == s.joins[c].sent
         && forall e | e in t.joins[c].buf && e.Baton? :: e in s.joins[c].buf
  }

  /** Updating one stream without announcing anything. */
  lemma LocalIsQuiet(s: State, t: State, c: nat, j: Stream)
    requires c < |s.joins| && t.joins == s.joins[c := j]
    requires t.sess.turnN == s.sess.turnN && t.sess.history == s.sess.history
    requires j.name == s.joins[c].name && j.sent == s.joins[c].sent && (j.buf == s.joins[c].buf || j.buf == [])
    ensures Quiet(s, t)
  {
  }

  lemma OthersAreQuiet(s: State, a: Action)
    requires !a.DoJoin? && !a.DoDone?
    ensures Quiet(s, Step(s, a))
  {
    var t := Step(s, a);
    if !a.DoInterrupt? && t.joins != s.joins {
      LocalIsQuiet(s, t, a.c, t.joins[a.c]);
    }
  }

  lemma QuietKeepsEvents(s: State, t: State)
    requires EventsOk(s) && Quiet(s, t)
    ensures EventsOk(t)
  {
    forall c | 0 <= c < |t.joins|
      ensures StreamOk(t.joins[c], t.sess)
    {
      assert StreamOk(s.joins[c], s.sess);
    }
  }

  lemma StepKeepsEvents(s: State, a: Action)
    requires SessionOk(s.sess) && ChannelsOk(s) && EventsOk(s)
    ensures EventsOk(Step(s, a))
  {
    match a
    case DoJoin(name, transport) => JoinKeepsEvents(s, name, transport);
    case DoDone(name, note, handoffTo) => DoneKeepsEvents(s, name, note, handoffTo);
    case _ =>
      OthersAreQuiet(s, a);
      QuietKeepsEvents(s, Step(s, a));
  }

  // ---- Over whole runs ---------------------------------------------------------------------

  ghost predicate Inv(s: State) { SessionOk(s.sess) && ChannelsOk(s) && EventsOk(s) }

  lemma InitialInv(participants: seq<Name>, firstHolder: Name)
    requires Roster(participants) && (firstHolder == "" || firstHolder in participants)
    ensures Inv(Initial(participants, firstHolder))
  {
    TurnStateDistinct(firstHolder, firstHolder);
  }

  lemma StepKeepsInv(s: State, a: Action)
    requires Inv(s)
    ensures Inv(Step(s, a))
  {
    StepKeepsSession(s, a);
    StepKeepsChannels(s, a);
    StepKeepsEvents(s, a);
  }

  /** Baton, channel and event safety under every interleaving of joins over both transports, dones,
      disconnects, timeouts, failed writes, interrupts and late closes. */
  lemma {:induction false} RunKeepsInv(s: State, actions: seq<Action>)
    requires Inv(s)
    ensures Inv(Run(s, actions))
    decreases |actions|
  {
    if actions != [] {
      StepKeepsInv(s, actions[0]);
      RunKeepsInv(Step(s, actions[0]), actions[1..]);
    }
  }

  lemma RallyIsSafe(participants: seq<Name>, firstHolder: Name, actions: seq<Action>)
    requires Roster(participants) && (firstHolder == "" || firstHolder in participants)
    ensures var s := Run(Initial(participants, firstHolder), actions);
            && SessionOk(s.sess) && EventsOk(s) && !s.fault
            && (forall name | name in s.sess.streams ::
                  exists c :: 0 <= c < |s.joins| && Live(s.joins[c].pc) && s.joins[c].name == name
                              && !s.joins[c].closed)
  {
    InitialInv(participants, firstHolder);
    RunKeepsInv(Initial(participants, firstHolder), actions);
    var s := Run(Initial(participants, firstHolder), actions);
    forall name | name in s.sess.streams
      ensures exists c :: 0 <= c < |s.joins| && Live(s.joins[c].pc) && s.joins[c].name == name && !s.joins[c].closed
    {
      assert Live(s.joins[s.sess.streams[name]].pc);
    }
  }

  lemma StepKeepsInterrupted(s: State, a: Action)
    requires s.sess.status == INTERRUPTED && s.sess.streams == map[]
    ensures Step(s, a).sess == s.sess
  {
  }

  /** Interrupted is absorbing: holder, turn number and history never change again. */
  lemma {:induction false} InterruptedIsFinal(s: State, actions: seq<Action>)
    requires s.sess.status == INTERRUPTED && s.sess.streams == map[]
    ensures Run(s, actions).sess == s.sess
    decreases |actions|
  {
    if actions != [] {
      StepKeepsInterrupted(s, actions[0]);
      InterruptedIsFinal(Step(s, actions[0]), actions[1..]);
    }
  }

  /** Whatever became of earlier events, a join the holder is granted finds the current turn in its
      slot: an event lost to a full slot or a drain costs a rejoin, never the baton. */
  lemma RejoinHearsCurrentTurn(s: State, transport: Transport)
    requires Inv(s) && Active(s.sess) && JoinResult(s, s.sess.holder).Joined?
    ensures var t := Join(s, s.sess.holder, transport);
            && t.joins[|s.joins|].buf == [CurrentTurn(s.sess)]
            && t.sess.turnN == s.sess.turnN && t.sess.holder == s.sess.holder
  {
  }

  /** A member's join is refused as already connected exactly while some handler of that name has
      not cleaned up. */
  lemma RefusedIffHandlerLeft(s: State, name: Name)
    requires Inv(s) && s.sess.status != INTERRUPTED && name in s.sess.participants
    ensures JoinResult(s, name).AlreadyConnected? <==>
            exists c :: 0 <= c < |s.joins| && s.joins[c].name == name && Live(s.joins[c].pc)
  {
    if name in s.sess.streams {
      assert s.joins[s.sess.streams[name]].name == name;
    }
  }

  /** The HTTP join that fails to flush its headers returns without cleanup, so its name stays taken
      in every later state until the session is interrupted. */
  lemma {:induction false} AbandonedNameStaysTaken(s: State, c: nat, actions: seq<Action>)
    requires Inv(s) && HandlerAt(s, c, Abandoned) && s.joins[c].name in s.sess.participants
    ensures var t := Run(s, actions);
            t.sess.status == INTERRUPTED || JoinResult(t, s.joins[c].name).AlreadyConnected?
    decreases |actions|
  {
    if actions != [] {
      var t := Step(s, actions[0]);
      StepKeepsInv(s, actions[0]);
      StepKeepsAbandoned(s, c, actions[0]);
      AbandonedNameStaysTaken(t, c, actions[1..]);
    } else if s.sess.status != INTERRUPTED {
      RefusedIffHandlerLeft(s, s.joins[c].name);
    }
  }

  lemma StepKeepsAbandoned(s: State, c: nat, a: Action)
    requires HandlerAt(s, c, Abandoned)
    ensures StillAbandoned(s, c, Step(s, a))
  {
    match a
    case DoJoin(name, transport) => JoinKeepsAbandoned(s, c, name, transport);
    case DoDone(name, note, handoffTo) => DoneKeepsAbandoned(s, c, name, note, handoffTo);
    case DoInterrupt => InterruptKeepsAbandoned(s, c);
    case DoReceive(_, _) => ReceiveKeepsAbandoned(s, c, a);
    case DoCleanup(_) => ReceiveKeepsAbandoned(s, c, a);
    case _ => HandlerKeepsAbandoned(s, c, a);
  }

  predicate StillAbandoned(s: State, c: nat, t: State)
    requires c < |s.joins|
  {
    HandlerAt(t, c, Abandoned) && t.joins[c].name == s.joins[c].name && t.sess.participants == s.sess.participants
  }

  lemma JoinKeepsAbandoned(s: State, c: nat, name: Name, transport: Transport)
    requires HandlerAt(s, c, Abandoned)
    ensures StillAbandoned(s, c, Join(s, name, transport))
  {
  }

  lemma DoneKeepsAbandoned(s: State, c: nat, name: Name, note: string, handoffTo: Name)
    requires HandlerAt(s, c, Abandoned)
    ensures StillAbandoned(s, c, Done(s, name, note, handoffTo))
  {
  }

  lemma InterruptKeepsAbandoned(s: State, c: nat)
    requires HandlerAt(s, c, Abandoned)
    ensures StillAbandoned(s, c, Interrupt(s))
  {
  }

  lemma ReceiveKeepsAbandoned(s: State, c: nat, a: Action)
    requires HandlerAt(s, c, Abandoned) && (a.DoReceive? || a.DoCleanup?)
    ensures StillAbandoned(s, c, Step(s, a))
  {
  }

  lemma HandlerKeepsAbandoned(s: State, c: nat, a: Action)
    requires HandlerAt(s, c, Abandoned) && (a.DoClose? || a.HeadersSent? || a.Leave? || a.Drain?)
    ensures StillAbandoned(s, c, Step(s, a))
  {
  }

  // ---- Round robin -------------------------------------------------------------------------

  lemma IndexOfDistinct(xs: seq<Name>, i: nat)
    requires Distinct(xs) && i < |xs|
    ensures IndexOf(xs, xs[i]) == i
  {
  }

  lemma AddModulus(k: nat, n: nat)
    requires n > 0
    ensures (n + k) % n == k % n
  {
    var q, r := k / n, k % n;
    assert k == q * n + r;
    assert (q + 1) * n == q * n + n;
    DivModUnique(n + k, n, q + 1, r);
  }

  lemma WrapStep(i: nat, k: nat, n: nat)
    requires n > 0 && i < n
    ensures ((i + 1) % n + k) % n == (i + 1 + k) % n
  {
    if i + 1 == n {
      DivModUnique(i + 1, n, 1, 0);
      AddModulus(k, n);
    } else {
      DivModUnique(i + 1, n, 0, i + 1);
    }
  }

  ghost predicate HeldAt(sess: Session, i: nat)
  {
    SessionOk(sess) && Active(sess) && i < |sess.participants| && sess.holder == sess.participants[i]
  }

  lemma DoneAdvances(s: State, note: string)
    requires SessionOk(s.sess) && Active(s.sess)
    ensures Done(s, s.sess.holder, note, "").sess
         == Advance(s.sess, s.sess.holder, note, NextAfter(s.sess.participants, s.sess.holder, ""))
  {
  }

  lemma AdvanceGoesAround(sess: Session, note: string, i: nat)
    requires HeldAt(sess, i)
    ensures var next := NextAfter(sess.participants, sess.holder, "");
      HeldAt(Advance(sess, sess.holder, note, next), (i + 1) % |sess.participants|)
  {
    IndexOfDistinct(sess.participants, i);
    NextIsOther(sess.participants, sess.holder, "");
    AdvanceKeepsSession(sess, note, NextAfter(sess.participants, sess.holder, ""));
  }

  lemma PassOnce(s: State, note: string, i: nat)
    requires HeldAt(s.sess, i)
    ensures var t := Done(s, s.sess.holder, note, "");
            && t.sess.participants == s.sess.participants && |t.sess.history| == |s.sess.history| + 1
            && HeldAt(t.sess, (i + 1) % |s.sess.participants|)
  {
    DoneAdvances(s, note);
    AdvanceGoesAround(s.sess, note, i);
  }

  /** No interrupt, and every done leaves the choice of the next holder to the session. */
  predicate Undirected(a: Action)
  {
    !a.DoInterrupt? && (a.DoDone? ==> a.handoffTo == "")
  }

  /** Only a granted done moves the baton, and then to the next participant. */
  lemma StepGoesAround(s: State, a: Action, i: nat)
    requires HeldAt(s.sess, i) && Undirected(a)
    ensures var t := Step(s, a);
      && t.sess.participants == s.sess.participants
      && (|| (t.sess.history == s.sess.history && HeldAt(t.sess, i))
          || (|t.sess.history| == |s.sess.history| + 1 && HeldAt(t.sess, (i + 1) % |s.sess.participants|)))
  {
    StepKeepsSession(s, a);
    if a.DoDone? && DoneRefusal(s.sess, a.name, a.handoffTo).None? {
      PassOnce(s, a.note, i);
    } else {
      StepKeepsBaton(s, a);
    }
  }

  /** Every other step leaves the baton where it is. */
  lemma StepKeepsBaton(s: State, a: Action)
    requires Active(s.sess) && !a.DoInterrupt? && (a.DoDone? ==> DoneRefusal(s.sess, a.name, a.handoffTo).Some?)
    ensures Step(s, a).sess == s.sess.(streams := Step(s, a).sess.streams)
  {
  }

  function Around(i: nat, k: nat, n: nat): nat
    requires n > 0
    decreases k
  {
    if k == 0 then i else Around((i + 1) % n, k - 1, n)
  }

  lemma {:induction false} AroundIsMod(i: nat, k: nat, n: nat)
    requires n > 0 && i < n
    ensures Around(i, k, n) == (i + k) % n
    decreases k
  {
    if k == 0 {
      DivModUnique(i, n, 0, i);
    } else {
      AroundIsMod((i + 1) % n, k - 1, n);
      WrapStep(i, k - 1, n);
    }
  }

  /** The baton has moved on one place for every turn passed between the two sessions. */
  ghost predicate MovedOn(before: Session, after: Session, i: nat)
    requires before.participants != []
  {
    && after.participants == before.participants && |after.history| >= |before.history|
    && HeldAt(after, Around(i, |after.history| - |before.history|, |before.participants|))
  }

  lemma {:induction false} RunMovesOn(s: State, i: nat, actions: seq<Action>)
    requires HeldAt(s.sess, i) && forall a | a in actions :: Undirected(a)
    ensures MovedOn(s.sess, Run(s, actions).sess, i)
    decreases |actions|
  {
    if actions != [] {
      assert actions[0] in actions;
      var t := Step(s, actions[0]);
      StepGoesAround(s, actions[0], i);
      var i' := if t.sess.history == s.sess.history then i else (i + 1) % |s.sess.participants|;
      RunMovesOn(t, i', actions[1..]);
      MovesOnFrom(s.sess, t.sess, Run(t, actions[1..]).sess, i, i');
    }
  }

  lemma MovesOnFrom(before: Session, middle: Session, after: Session, i: nat, i': nat)
    requires before.participants != [] && middle.participants == before.participants
    requires if middle.history == before.history then i' == i
             else |middle.history| == |before.history| + 1 && i' == (i + 1) % |before.participants|
    requires MovedOn(middle, after, i')
    ensures MovedOn(before, after, i)
  {
  }

  /** As many places further round from i as turns have passed. */
  ghost predicate AheadBy(before: Session, after: Session, i: nat)
    requires before.participants != []
  {
    && |after.history| >= |before.history|
    && after.holder == before.participants[(i + (|after.history| - |before.history|)) % |before.participants|]
  }

  lemma PlaceAfter(before: Session, after: Session, i: nat)
    requires HeldAt(before, i) && MovedOn(before, after, i)
    ensures AheadBy(before, after, i)
  {
    AroundIsMod(i, |after.history| - |before.history|, |before.participants|);
  }

  /** However joins, disconnects, timeouts and refused dones come in between, with no interrupt and no
      named handoff the holder is the participant as many places further round as turns have passed. */
  lemma RoundRobin(s: State, i: nat, actions: seq<Action>)
    requires HeldAt(s.sess, i) && forall a | a in actions :: Undirected(a)
    ensures AheadBy(s.sess, Run(s, actions).sess, i)
  {
    RunMovesOn(s, i, actions);
    PlaceAfter(s.sess, Run(s, actions).sess, i);
  }
}
