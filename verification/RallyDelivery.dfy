/** What the participants of a rally hear: which handoffs are announced to whom, that a handler hears
    every announcement on its stream in order, and that an interrupt reaches everyone. */
module RallyDelivery {
  import opened Rally
  import opened RallyProofs
  import opened Wrappers

  // ---- Names ---------------------------------------------------------------------------------------

  /** The ASCII code of a digit, a letter, a dash or an underscore. */
  predicate IsNameCode(n: int) { 48 <= n < 58 || 65 <= n < 91 || 97 <= n < 123 || n == 45 || n == 95 }

  /** Participants are named with up to sixteen of these. */
  lemma NamesAre(s: string)
    ensures ValidName(s) <==> 0 < |s| < 17 && forall i | 0 <= i < |s| :: IsNameCode(s[i] as int)
  {
  }

  // ---- Passing the baton -----------------------------------------------------------------------

  /** The holder may pass the baton on, to no one in particular or to another participant. */
  predicate MayPass(sess: Session, name: Name, handoffTo: Name)
  {
    && sess.status == name + "_turn" && name in sess.participants
    && (handoffTo == "" || (handoffTo in sess.participants && handoffTo != name))
  }

  /** The named participant, or the next one round. */
  predicate IsNext(participants: seq<Name>, name: Name, handoffTo: Name, next: Name)
  {
    if handoffTo != "" then next == handoffTo
    else exists i :: 0 <= i < |participants| && participants[i] == name && next == After(participants, i)
  }

  function After(participants: seq<Name>, i: nat): Name
    requires i < |participants|
  {
    if i + 1 < |participants| then participants[i + 1] else participants[0]
  }

  /** The next holder's turn is recorded. */
  predicate Recorded(before: Session, after: Session, name: Name, note: string, next: Name)
  {
    && after.history == before.history + [Handoff(name, next, before.turnN + 1, note)]
    && after.turnN == before.turnN + 1 && after.holder == next && after.status == next + "_turn"
    && after.participants == before.participants && after.streams == before.streams
  }

  /** Of all streams only c may change, and that one takes the event if its slot is free. */
  ghost predicate OnlyTakes(before: seq<Stream>, after: seq<Stream>, c: nat, e: Event)
  {
    && |after| == |before|
    && forall i | 0 <= i < |before| ::
         after[i] == if i == c && before[i].buf == [] then before[i].(buf := [e], sent := before[i].sent + [e])
                     else before[i]
  }

  lemma AcceptedIff(s: State, name: Name, handoffTo: Name)
    requires SessionOk(s.sess)
    ensures DoneRefusal(s.sess, name, handoffTo).None? <==> MayPass(s.sess, name, handoffTo)
  {
    TurnStateDistinct(name, s.sess.holder);
  }

  lemma NextIs(participants: seq<Name>, name: Name, handoffTo: Name)
    requires Roster(participants) && name in participants
    requires handoffTo == "" || (handoffTo in participants && handoffTo != name)
    ensures IsNext(participants, name, handoffTo, NextAfter(participants, name, handoffTo))
  {
    var i, n := IndexOf(participants, name), |participants|;
    OneRound(i, n);
    assert participants[i] == name && participants[(i + 1) % n] == After(participants, i);
  }

  lemma OneRound(i: nat, n: nat)
    requires i < n
    ensures (i + 1) % n == if i + 1 < n then i + 1 else 0
  {
  }

  /** Whoever is not on the roster is followed by its first participant. */
  lemma StrangerIsFollowedByTheFirst(participants: seq<Name>, name: Name)
    requires participants != [] && name !in participants
    ensures NextAfter(participants, name, "") == participants[0]
  {
  }

  lemma OfferTakes(s: State, c: nat, e: Event)
    requires c < |s.joins| && !s.joins[c].closed && e.Baton?
    ensures var t := Send(s, c, e, false);
      OnlyTakes(s.joins, t.joins, c, e) && t.sess == s.sess && t.pending == s.pending && t.fault == s.fault
  {
  }

  lemma AcceptedDone(s: State, name: Name, note: string, handoffTo: Name) returns (passed: State, next: Name)
    requires SessionOk(s.sess) && MayPass(s.sess, name, handoffTo)
    ensures IsNext(s.sess.participants, name, handoffTo, next) && Recorded(s.sess, passed.sess, name, note, next)
    ensures passed == s.(sess := passed.sess)
    ensures Done(s, name, note, handoffTo) ==
      if next in s.sess.streams then Send(passed, s.sess.streams[next], Baton(s.sess.turnN + 1, name, note), false)
      else passed
  {
    AcceptedIff(s, name, handoffTo);
    NextIs(s.sess.participants, name, handoffTo);
    next := NextAfter(s.sess.participants, name, handoffTo);
    passed := s.(sess := Advance(s.sess, name, note, next));
  }

  /** A done is accepted exactly from the holder. It records the handoff to the named or the next
      participant; if that one is connected and its slot is free, the event goes there, and
      otherwise no stream changes. A refused done changes nothing. */
  lemma DonePassesTheBaton(s: State, name: Name, note: string, handoffTo: Name)
    requires SessionOk(s.sess) && ChannelsOk(s)
    ensures var t := Step(s, DoDone(name, note, handoffTo));
      if !MayPass(s.sess, name, handoffTo) then t == s
      else
        var next := t.sess.holder;
        && IsNext(s.sess.participants, name, handoffTo, next) && Recorded(s.sess, t.sess, name, note, next)
        && t.pending == s.pending && t.fault == s.fault
        && if next in s.sess.streams
           then OnlyTakes(s.joins, t.joins, s.sess.streams[next], Baton(s.sess.turnN + 1, name, note))
           else t.joins == s.joins
  {
    AcceptedIff(s, name, handoffTo);
    if MayPass(s.sess, name, handoffTo) {
      var passed, next := AcceptedDone(s, name, note, handoffTo);
      if next in s.sess.streams {
        OfferTakes(passed, s.sess.streams[next], Baton(s.sess.turnN + 1, name, note));
      }
    }
  }

  /** Over every run: whoever holds the baton after an accepted done, if connected, has an event to hear. */
  lemma HolderHasAnEvent(
      participants: seq<Name>, firstHolder: Name, actions: seq<Action>, name: Name, note: string, handoffTo: Name)
    requires Roster(participants) && (firstHolder == "" || firstHolder in participants)
    ensures var s := Run(Initial(participants, firstHolder), actions);
      var t := Step(s, DoDone(name, note, handoffTo));
      MayPass(s.sess, name, handoffTo) && t.sess.holder in t.sess.streams ==>
        var c := t.sess.streams[t.sess.holder];
        c < |t.joins| && t.joins[c].name == t.sess.holder && !t.joins[c].closed && |t.joins[c].buf| == 1
  {
    InitialInv(participants, firstHolder);
    RunKeepsInv(Initial(participants, firstHolder), actions);
    var s := Run(Initial(participants, firstHolder), actions);
    DonePassesTheBaton(s, name, note, handoffTo);
    StepKeepsInv(s, DoDone(name, note, handoffTo));
  }

  lemma RunThree(s: State, a: Action, b: Action, c: Action)
    ensures Run(s, [a, b, c]) == Step(Step(Step(s, a), b), c)
  {
    assert [a, b, c][1..] == [b, c] && [b, c][1..] == [c] && [c][1..] == [];
    assert Run(Step(s, a), [b, c]) == Run(Step(Step(s, a), b), [c]);
  }

  /** A full slot hides a turn: two passes after a joined without listening, a holds the baton for turn 3,
      and what waits for it is turn 1. */
  lemma FullSlotHidesTheTurn(a: Name, b: Name, note: string, note': string)
    requires Roster([a, b])
    ensures var t := Run(Initial([a, b], a), [DoJoin(a, Http), DoDone(a, note, ""), DoDone(b, note', "")]);
      && t.sess.holder == a && t.sess.turnN == 3 && a in t.sess.streams
      && |t.joins| == 1 && t.sess.streams[a] == 0 && t.joins[0].buf == [Baton(1, "", "")]
  {
    var s0 := Initial([a, b], a);
    InitialInv([a, b], a);
    var s1 := Step(s0, DoJoin(a, Http));
    JoinConnects(s0, a, Http);
    StepKeepsInv(s0, DoJoin(a, Http));
    assert [a, b][0] != [a, b][1];
    var s2 := PassOf(s1, a, b, note);
    var s3 := PassOf(s2, b, a, note');
    RunThree(s0, DoJoin(a, Http), DoDone(a, note, ""), DoDone(b, note', ""));
  }

  /** Of two participants each passes to the other; a full slot stays as it is. */
  lemma PassOf(s: State, name: Name, other: Name, note: string) returns (t: State)
    requires Inv(s) && s.sess.participants in [[name, other], [other, name]] && s.sess.status == name + "_turn"
    requires other in s.sess.streams ==> s.joins[s.sess.streams[other]].buf != []
    ensures t == Step(s, DoDone(name, note, "")) && Inv(t)
    ensures t.sess.participants == s.sess.participants && t.sess.streams == s.sess.streams && t.joins == s.joins
    ensures t.sess.holder == other && t.sess.turnN == s.sess.turnN + 1 && t.sess.status == other + "_turn"
  {
    t := Step(s, DoDone(name, note, ""));
    StepKeepsInv(s, DoDone(name, note, ""));
    DonePassesTheBaton(s, name, note, "");
    NextOfTwo(s.sess.participants, name, other, t.sess.holder);
    assert t.joins == s.joins;
  }

  lemma NextOfTwo(participants: seq<Name>, name: Name, other: Name, next: Name)
    requires Roster(participants) && participants in [[name, other], [other, name]]
    requires IsNext(participants, name, "", next)
    ensures next == other
  {
    assert participants[0] != participants[1];
  }

  // ---- Joining -------------------------------------------------------------------------------------

  /** The stream a member of a live session gets that is not connected yet. */
  predicate NewStream(j: Stream, name: Name, transport: Transport)
  {
    && j.name == name && j.transport == transport && !j.closed && j.heard == [] && j.sent == j.buf
    && j.pc == if transport.Http? then Opening else Waiting
  }

  /** What an accepted join leaves besides the new stream's slot and the baton. */
  ghost predicate Connected(s: State, t: State, name: Name, transport: Transport)
  {
    var c := |s.joins|;
    && |t.joins| == c + 1 && t.joins[..c] == s.joins && NewStream(t.joins[c], name, transport)
    && t.sess.streams == s.sess.streams[name := c] && t.pending == s.pending && t.fault == s.fault
    && t.sess.participants == s.sess.participants && t.sess.history == s.sess.history
  }

  /** The turn as its holder hears it on joining, with the last handoff if there was one. */
  function TurnOf(sess: Session): Event
  {
    if sess.history == [] then Baton(sess.turnN, "", "")
    else var last := sess.history[|sess.history| - 1]; Baton(sess.turnN, last.from, last.note)
  }

  /** Who holds the baton, and what the joiner finds in its slot. */
  predicate Hears(before: Session, after: Session, name: Name, buf: seq<Event>)
    requires before.participants != []
  {
    if before.status == "idle" && name == before.participants[0] then
      after.holder == name && after.turnN == 1 && after.status == name + "_turn" && buf == [Baton(1, "", "")]
    else
      && after.holder == before.holder && after.turnN == before.turnN && after.status == before.status
      && buf == if name == before.holder then [TurnOf(before)] else []
  }

  lemma RegisterConnects(s: State, name: Name, transport: Transport)
    ensures Connected(s, Register(s, name, transport), name, transport)
    ensures Register(s, name, transport).joins[|s.joins|].buf == []
  {
  }

  lemma HearSends(s: State, r: State, name: Name, transport: Transport)
    requires SessionOk(s.sess) && name in s.sess.participants && s.sess.status != INTERRUPTED
    requires Connected(s, r, name, transport) && r.joins[|s.joins|].buf == []
    requires r.sess == s.sess.(streams := r.sess.streams)
    ensures var t := Hear(r, name, |s.joins|);
      Connected(s, t, name, transport) && Hears(s.sess, t.sess, name, t.joins[|s.joins|].buf)
  {
    TurnStateDistinct(name, s.sess.holder);
    var t := Hear(r, name, |s.joins|);
    assert t.joins[..|s.joins|] == s.joins;
  }

  /** A member who is not connected yet is. The first participant gets an unheld baton; who holds it hears
      the turn; nobody else hears anything. Any other join changes nothing. */
  lemma JoinConnects(s: State, name: Name, transport: Transport)
    requires SessionOk(s.sess)
    ensures var t := Step(s, DoJoin(name, transport));
      if name !in s.sess.participants || s.sess.status == "interrupted" || name in s.sess.streams then t == s
      else Connected(s, t, name, transport) && Hears(s.sess, t.sess, name, t.joins[|s.joins|].buf)
  {
    if JoinResult(s, name).Joined? {
      RegisterConnects(s, name, transport);
      HearSends(s, Register(s, name, transport), name, transport);
    }
  }

  /** An HTTP join whose headers cannot be written takes its name away for good: every later join under it
      is refused until the session is interrupted. */
  lemma FailedHeadersTakeTheName(s: State, name: Name, actions: seq<Action>)
    requires Inv(s) && name in s.sess.participants && s.sess.status != "interrupted" && name !in s.sess.streams
    ensures var t := Run(Step(Step(s, DoJoin(name, Http)), HeadersSent(|s.joins|, false)), actions);
      t.sess.status == "interrupted" || JoinResult(t, name) == AlreadyConnected
  {
    var joined := Step(s, DoJoin(name, Http));
    var left := Step(joined, HeadersSent(|s.joins|, false));
    JoinConnects(s, name, Http);
    StepKeepsInv(s, DoJoin(name, Http));
    StepKeepsInv(joined, HeadersSent(|s.joins|, false));
    AbandonedNameStaysTaken(left, |s.joins|, actions);
  }

  /** A handler that leaves and cleans up gives its name back. */
  lemma LeavingFreesTheName(s: State, c: nat, timeout: bool)
    requires Inv(s) && HandlerAt(s, c, Waiting) && s.sess.status != "interrupted"
    requires s.joins[c].name in s.sess.participants
    ensures var t := Step(Step(s, Leave(c, timeout)), DoCleanup(c));
      t.sess == s.sess.(streams := s.sess.streams - {s.joins[c].name}) && JoinResult(t, s.joins[c].name).Joined?
  {
  }

  // ---- Interrupting ------------------------------------------------------------------------------

  /** The session is over, every connected stream is collected, and each has an event in its slot: the
      sentinel if it was free. The others stay as they are. */
  lemma InterruptReachesEveryone(s: State)
    requires SessionOk(s.sess) && ChannelsOk(s) && s.sess.status != "interrupted"
    ensures var t := Step(s, DoInterrupt);
      && t.sess == s.sess.(status := "interrupted", holder := "", streams := map[]) && !t.fault
      && |t.joins| == |s.joins|
      && forall c | 0 <= c < |s.joins| ::
           if exists name :: name in s.sess.streams && s.sess.streams[name] == c
           then c in t.pending && t.joins[c] == if s.joins[c].buf == [] then s.joins[c].(buf := [ClosedSentinel])
                                                else s.joins[c]
           else t.joins[c] == s.joins[c]
  {
    forall c | 0 <= c < |s.joins|
      ensures c in s.sess.streams.Values <==> exists name :: name in s.sess.streams && s.sess.streams[name] == c
    {
    }
    InterruptKeepsChannels(s);
  }

  // ---- Faults ------------------------------------------------------------------------------------------

  predicate HasClosedStream(s: State)
  {
    exists name :: name in s.sess.streams && IsClosed(s, s.sess.streams[name])
  }

  predicate IsClosed(s: State, c: nat) { c >= |s.joins| || s.joins[c].closed }

  /** What the proofs that no step faults exclude: a send on a closed channel or, under the lock, into a full
      slot; a second close; an interrupt that finds a closed channel registered; and a cleanup that takes
      away another handler's stream. */
  lemma FaultsAre(s: State, c: nat, e: Event, blocking: bool)
    ensures Send(s, c, e, blocking).fault <==>
      s.fault || c >= |s.joins| || s.joins[c].closed || (blocking && s.joins[c].buf != [])
    ensures Close(s, c).fault <==> s.fault || (c in s.pending && (c >= |s.joins| || s.joins[c].closed))
    ensures Interrupt(s).fault <==> s.fault || (s.sess.status != "interrupted" && HasClosedStream(s))
    ensures HandlerLeaving(s, c) ==>
      (Cleanup(s, c).fault <==>
         s.fault || (s.joins[c].name in s.sess.streams && s.sess.streams[s.joins[c].name] != c))
  {
    assert forall r | r in s.sess.streams.Values ::
      exists name :: name in s.sess.streams && s.sess.streams[name] == r;
  }

  // ---- Hearing -----------------------------------------------------------------------------------------

  /** Only an MCP handler that timed out drains its slot. */
  predicate DrainsOk(j: Stream) { j.pc == Draining || j.pc == Leaving(true) ==> j.transport.Mcp? }

  /** Everything announced on the stream was heard in order, or is in the slot; only a drain may have
      dropped the last one. */
  ghost predicate HeardOk(j: Stream)
  {
    && |j.buf| <= 1 && DrainsOk(j)
    && (j.sent == j.heard + Batons(j.buf) || Dropped(j))
  }

  ghost predicate Dropped(j: Stream)
  {
    j.pc.Gone? && j.transport.Mcp? && j.buf == [] && exists e :: j.sent == j.heard + [e]
  }

  ghost predicate AllHeard(s: State) { forall c | 0 <= c < |s.joins| :: HeardOk(s.joins[c]) }

  lemma SendKeepsHeard(s: State, c: nat, e: Event, blocking: bool)
    requires AllHeard(s) && c < |s.joins| && Live(s.joins[c].pc) && !s.joins[c].closed
    ensures AllHeard(Send(s, c, e, blocking))
  {
    var t := Send(s, c, e, blocking);
    assert HeardOk(s.joins[c]);
    assert [e][1..] == [] && Batons([e]) == if e.Baton? then [e] else [];
    assert HeardOk(t.joins[c]);
  }

  lemma RegisterKeepsHeard(s: State, name: Name, transport: Transport)
    requires AllHeard(s)
    ensures AllHeard(Register(s, name, transport))
  {
    var t := Register(s, name, transport);
    assert t.joins[..|s.joins|] == s.joins;
    assert HeardOk(t.joins[|s.joins|]);
  }

  lemma JoinKeepsHeard(s: State, name: Name, transport: Transport)
    requires AllHeard(s)
    ensures AllHeard(Join(s, name, transport))
  {
    if JoinResult(s, name).Joined? {
      var c, registered := |s.joins|, Register(s, name, transport);
      RegisterKeepsHeard(s, name, transport);
      SendKeepsHeard(TakeFirstTurn(registered, name), c, Baton(registered.sess.turnN + 1, "", ""), true);
      SendKeepsHeard(registered, c, CurrentTurn(registered.sess), true);
    }
  }

  lemma DoneKeepsHeard(s: State, name: Name, note: string, handoffTo: Name)
    requires ChannelsOk(s) && AllHeard(s)
    ensures AllHeard(Done(s, name, note, handoffTo))
  {
    if DoneRefusal(s.sess, name, handoffTo).None? && s.sess.participants != [] {
      var next := NextAfter(s.sess.participants, name, handoffTo);
      PassingKeepsHeard(s, Advance(s.sess, name, note, next), next, Baton(s.sess.turnN + 1, name, note));
    }
  }

  lemma PassingKeepsHeard(s: State, sess: Session, next: Name, e: Event)
    requires ChannelsOk(s) && AllHeard(s)
    ensures AllHeard(s.(sess := sess))
    ensures next in s.sess.streams ==> AllHeard(Send(s.(sess := sess), s.sess.streams[next], e, false))
  {
    if next in s.sess.streams {
      SendKeepsHeard(s.(sess := sess), s.sess.streams[next], e, false);
    }
  }

  lemma InterruptKeepsHeard(s: State)
    requires ChannelsOk(s) && AllHeard(s)
    ensures AllHeard(Interrupt(s))
  {
    forall c | 0 <= c < |s.joins|
      ensures HeardOk(Interrupt(s).joins[c])
    {
      SentinelKeepsHeard(s, c);
    }
  }

  lemma SentinelKeepsHeard(s: State, c: nat)
    requires ChannelsOk(s) && c < |s.joins| && HeardOk(s.joins[c])
    ensures HeardOk(Interrupt(s).joins[c])
  {
    var j := s.joins[c];
    if Interrupt(s).joins[c] != j {
      var name :| name in s.sess.streams && s.sess.streams[name] == c;
      assert Batons([ClosedSentinel]) == [] by { assert [ClosedSentinel][1..] == []; }
    }
  }

  lemma ReceiveKeepsHeard(s: State, a: Action, c: nat)
    requires a.DoReceive? && c < |s.joins| && HeardOk(s.joins[c])
    ensures c < |Step(s, a).joins| && HeardOk(Step(s, a).joins[c])
  {
    OneEvent(s.joins[c].buf);
  }

  lemma DrainKeepsHeard(s: State, a: Action, c: nat)
    requires a.Drain? && c < |s.joins| && HeardOk(s.joins[c])
    ensures c < |Step(s, a).joins| && HeardOk(Step(s, a).joins[c])
  {
    OneEvent(s.joins[c].buf);
  }

  lemma MoveKeepsHeard(s: State, a: Action, c: nat)
    requires (a.HeadersSent? || a.Leave? || a.DoClose?) && c < |s.joins| && HeardOk(s.joins[c])
    ensures c < |Step(s, a).joins| && HeardOk(Step(s, a).joins[c])
  {
  }

  lemma CleanupKeepsHeard(s: State, a: Action, c: nat)
    requires a.DoCleanup? && c < |s.joins| && HeardOk(s.joins[c])
    ensures c < |Step(s, a).joins| && HeardOk(Step(s, a).joins[c])
  {
  }

  /** Any other step moves one handler on. */
  lemma HandlerKeepsHeard(s: State, a: Action, c: nat)
    requires !a.DoJoin? && !a.DoDone? && !a.DoInterrupt? && c < |s.joins| && HeardOk(s.joins[c])
    ensures c < |Step(s, a).joins| && HeardOk(Step(s, a).joins[c])
  {
    match a
    case DoReceive(_, _) => ReceiveKeepsHeard(s, a, c);
    case Drain(_) => DrainKeepsHeard(s, a, c);
    case DoCleanup(_) => CleanupKeepsHeard(s, a, c);
    case _ => MoveKeepsHeard(s, a, c);
  }

  lemma HandlersKeepHeard(s: State, a: Action)
    requires !a.DoJoin? && !a.DoDone? && !a.DoInterrupt? && AllHeard(s)
    ensures AllHeard(Step(s, a))
  {
    StepKeepsCount(s, a);
    forall c | 0 <= c < |s.joins|
      ensures HeardOk(Step(s, a).joins[c])
    {
      HandlerKeepsHeard(s, a, c);
    }
  }

  lemma StepKeepsHeard(s: State, a: Action)
    requires ChannelsOk(s) && AllHeard(s)
    ensures AllHeard(Step(s, a))
  {
    if a.DoJoin? {
      JoinKeepsHeard(s, a.name, a.transport);
    } else if a.DoDone? {
      DoneKeepsHeard(s, a.name, a.note, a.handoffTo);
    } else if a.DoInterrupt? {
      InterruptKeepsHeard(s);
    } else {
      HandlersKeepHeard(s, a);
    }
  }

  lemma StepKeepsCount(s: State, a: Action)
    requires !a.DoJoin?
    ensures |Step(s, a).joins| == |s.joins|
  {
  }

  lemma {:induction false} RunKeepsHeard(s: State, actions: seq<Action>)
    requires Inv(s) && AllHeard(s)
    ensures AllHeard(Run(s, actions))
    decreases |actions|
  {
    if actions != [] {
      StepKeepsInv(s, actions[0]);
      StepKeepsHeard(s, actions[0]);
      RunKeepsHeard(Step(s, actions[0]), actions[1..]);
    }
  }

  predicate AllButTheLast(j: Stream)
  {
    && j.heard <= j.sent && |j.sent| <= |j.heard| + 1
    && (j.heard != j.sent ==>
          j.buf == [j.sent[|j.heard|]] || (j.buf == [] && j.transport == Mcp && j.pc == Gone))
  }

  lemma HeardMeans(j: Stream)
    requires HeardOk(j)
    ensures AllButTheLast(j)
  {
    OneEvent(j.buf);
  }

  lemma OneEvent(buf: seq<Event>)
    requires |buf| <= 1
    ensures Batons(buf) == if buf == [] || buf[0] == ClosedSentinel then [] else buf
  {
    assert buf != [] ==> buf[1..] == [] && buf == [buf[0]];
  }

  /** Over every run, on every stream: the turns its handler has heard are exactly the ones announced, in
      order, but for at most the last one. That one is in the slot, unless an MCP handler timed out,
      drained it and is gone. */
  lemma AnnouncementsAreHeard(participants: seq<Name>, firstHolder: Name, actions: seq<Action>, c: nat)
    requires Roster(participants) && (firstHolder == "" || firstHolder in participants)
    ensures var s := Run(Initial(participants, firstHolder), actions);
      c < |s.joins| ==> AllButTheLast(s.joins[c])
  {
    InitialInv(participants, firstHolder);
    RunKeepsHeard(Initial(participants, firstHolder), actions);
    var s := Run(Initial(participants, firstHolder), actions);
    if c < |s.joins| {
      HeardMeans(s.joins[c]);
    }
  }

  /** What a receive does: the slot is emptied, and a waiting handler stays for more turns only over HTTP,
      after a turn that could be written; with nothing in the slot it goes on waiting until the
      channel is closed. */
  lemma ReceiveTakesTheEvent(s: State, c: nat, writeOk: bool)
    requires HandlerAt(s, c, Waiting) && |s.joins[c].buf| <= 1
    ensures var t := Step(s, DoReceive(c, writeOk));
      && t.sess == s.sess && |t.joins| == |s.joins| && t.joins[c].buf == []
      && (forall i | 0 <= i < |s.joins| && i != c :: t.joins[i] == s.joins[i])
      && (if s.joins[c].buf == [] then
            t.joins[c].heard == s.joins[c].heard && (t.joins[c].pc == Waiting <==> !s.joins[c].closed)
          else
            var e := s.joins[c].buf[0];
            && t.joins[c].heard == s.joins[c].heard + (if e == ClosedSentinel then [] else [e])
            && (t.joins[c].pc == Waiting <==> s.joins[c].transport == Http && e != ClosedSentinel && writeOk))
  {
    OneEvent(s.joins[c].buf);
    assert s.joins[c].buf != [] ==> s.joins[c].buf == [s.joins[c].buf[0]];
  }
}
