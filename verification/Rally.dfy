/** The rally baton protocol: one session, its one-slot streams, and every step that any handler,
    interrupter or closer can take.

    All session state is guarded by one mutex, so each locked section is one atomic step. What runs
    outside the lock - stream delivery, cleanup after a disconnect, and the closing of channels -
    are separate steps that may interleave in any order. */
module Rally {
  import opened Wrappers

  type Name = string

  const IDLE := "idle"
  const INTERRUPTED := "interrupted"

  function TurnState(name: Name): string { name + "_turn" }

  /** The status string is unambiguous. */
  lemma TurnStateDistinct(a: Name, b: Name)
    ensures TurnState(a) != IDLE && TurnState(a) != INTERRUPTED
    ensures TurnState(a) == TurnState(b) ==> a == b
  {
    var x, y := TurnState(a), TurnState(b);
    assert x[|x| - 1] == 'n' && IDLE[3] == 'e' && INTERRUPTED[10] == 'd';
    if x == y {
      assert a == x[..|x| - 5] && b == y[..|y| - 5];
    }
  }

  predicate NameChar(c: char) { 'a' <= c <= 'z' || 'A' <= c <= 'Z' || '0' <= c <= '9' || c == '_' || c == '-' }

  predicate ValidName(s: string) { 1 <= |s| <= 16 && forall i | 0 <= i < |s| :: NameChar(s[i]) }

  datatype Handoff = Handoff(from: Name, to: Name, turnN: int, note: string)

  datatype Event = Baton(turnN: int, from: Name, note: string) | ClosedSentinel

  datatype Transport = Http | Mcp

  /** Where the handler that owns a stream is.
      Opening: HTTP, registered but the response headers are not out yet.
      Waiting: in its receive loop. Leaving: about to call cleanupStream.
      Draining: MCP after a timeout, cleaned up, about to drain.
      Abandoned: HTTP returned on a header failure, which skips cleanup. Gone: returned. */
  datatype Pc = Opening | Waiting | Leaving(drain: bool) | Draining | Abandoned | Gone

  /** One accepted join: its handler together with the one-slot channel it created.
      `sent` and `heard` are history variables: the baton events enqueued so far, and those the handler
      has taken out to pass them on. */
  datatype Stream = Stream(
    name: Name, transport: Transport, pc: Pc, buf: seq<Event>, closed: bool, sent: seq<Event>, heard: seq<Event>)

  datatype Session = Session(
    participants: seq<Name>, holder: Name, turnN: int, status: string, history: seq<Handoff>, streams: map<Name, nat>)

  /** `joins` lists every stream ever created; a stream's index is its identity. `pending` are the
      streams an interrupter has collected and not closed yet. `fault` records a send on a closed
      channel, a second close, a send that would block under the lock, or a cleanup that removes
      another handler's stream. */
  datatype State = State(sess: Session, joins: seq<Stream>, pending: multiset<nat>, fault: bool)

  // ---- The locked sections -----------------------------------------------------------------

  function IndexOf(xs: seq<Name>, x: Name): (i: nat)
    ensures i <= |xs| && (i < |xs| ==> xs[i] == x) && (i == |xs| <==> x !in xs)
    ensures forall j | 0 <= j < i :: xs[j] != x
  {
    if xs == [] then 0 else if xs[0] == x then 0 else 1 + IndexOf(xs[1..], x)
  }

  function NextAfter(participants: seq<Name>, current: Name, preferred: Name): Name
    requires participants != []
  {
    if preferred != "" && preferred in participants then preferred
    else
      var i := IndexOf(participants, current);
      if i < |participants| then participants[(i + 1) % |participants|] else participants[0]
  }

  /** Sending on stream c: blocking sends fault when the slot is full, the others drop. */
  function Send(s: State, c: nat, e: Event, blocking: bool): State
  {
    if c >= |s.joins| || s.joins[c].closed then s.(fault := true)
    else if s.joins[c].buf != [] then (if blocking then s.(fault := true) else s)
    else
      var j := s.joins[c];
      s.(joins := s.joins[c := j.(buf := [e], sent := if e.Baton? then j.sent + [e] else j.sent)])
  }

  datatype JoinOutcome = NotMember | SessionClosed | AlreadyConnected | Joined(stream: nat)

  function JoinResult(s: State, name: Name): JoinOutcome
  {
    if name !in s.sess.participants then NotMember
    else if s.sess.status == INTERRUPTED then SessionClosed
    else if name in s.sess.streams then AlreadyConnected
    else Joined(|s.joins|)
  }

  /** The new stream under its name. */
  function Register(s: State, name: Name, transport: Transport): State
  {
    s.(sess := s.sess.(streams := s.sess.streams[name := |s.joins|]),
       joins := s.joins + [Stream(name, transport, if transport.Http? then Opening else Waiting, [], false, [], [])])
  }

  function TakeFirstTurn(s: State, name: Name): State
  {
    s.(sess := s.sess.(turnN := s.sess.turnN + 1, holder := name, status := TurnState(name)))
  }

  /** The current turn as a joining holder hears it: the last handoff, if there was one. */
  function CurrentTurn(sess: Session): Event
  {
    var n := |sess.history|;
    Baton(sess.turnN, if n > 0 then sess.history[n - 1].from else "", if n > 0 then sess.history[n - 1].note else "")
  }

  /** The joiner takes an unheld baton if first in line, and hears the current turn if it holds it. */
  function Hear(s: State, name: Name, c: nat): State
  {
    if s.sess.status == IDLE && s.sess.participants != [] && s.sess.participants[0] == name then
      Send(TakeFirstTurn(s, name), c, Baton(s.sess.turnN + 1, "", ""), true)
    else if s.sess.status == TurnState(name) then Send(s, c, CurrentTurn(s.sess), true)
    else s
  }

  /** Registering a stream, taking an unheld baton if first in line, and re-announcing the current
      turn to its holder. Both transports run this same section. */
  function Join(s: State, name: Name, transport: Transport): State
  {
    if JoinResult(s, name).Joined? then Hear(Register(s, name, transport), name, |s.joins|) else s
  }

  datatype DoneError = InvalidName | SelfHandoff | Interrupted | NotHolder | HandoffToNotMember

  function DoneRefusal(sess: Session, name: Name, handoffTo: Name): Option<DoneError>
  {
    if !ValidName(name) || (handoffTo != "" && !ValidName(handoffTo)) then Some(InvalidName)
    else if handoffTo != "" && handoffTo == name then Some(SelfHandoff)
    else if sess.status == INTERRUPTED then Some(Interrupted)
    else if sess.holder != name then Some(NotHolder)
    else if handoffTo != "" && handoffTo !in sess.participants then Some(HandoffToNotMember)
    else None
  }

  function Advance(sess: Session, name: Name, note: string, next: Name): Session
  {
    sess.(turnN := sess.turnN + 1,
          history := sess.history + [Handoff(name, next, sess.turnN + 1, note)],
          holder := next,
          status := TurnState(next))
  }

  /** Passing the baton and offering the event to the next holder's stream. */
  function Done(s: State, name: Name, note: string, handoffTo: Name): State
  {
    if DoneRefusal(s.sess, name, handoffTo).Some? || s.sess.participants == [] then s
    else
      var next := NextAfter(s.sess.participants, name, handoffTo);
      var passed := s.(sess := Advance(s.sess, name, note, next));
      if next in s.sess.streams
      then Send(passed, s.sess.streams[next], Baton(s.sess.turnN + 1, name, note), false)
      else passed
  }

  /** The sentinel goes to every connected stream that has a free slot. */
  function Sentineled(joins: seq<Stream>, targets: set<nat>): (r: seq<Stream>)
    ensures |r| == |joins|
    ensures forall i | 0 <= i < |joins| ::
              r[i] == if i in targets && joins[i].buf == [] then joins[i].(buf := [ClosedSentinel]) else joins[i]
  {
    seq(|joins|, i requires 0 <= i < |joins| =>
      if i in targets && joins[i].buf == [] then joins[i].(buf := [ClosedSentinel]) else joins[i])
  }

  /** Interrupting: mark, announce, unregister and collect every stream, all under the lock. The
      collected streams are closed by later steps. CloseAllRallies does this to every session. */
  function Interrupt(s: State): State
  {
    if s.sess.status == INTERRUPTED then s
    else
      var targets := s.sess.streams.Values;
      State(
        s.sess.(status := INTERRUPTED, holder := "", streams := map[]),
        Sentineled(s.joins, targets),
        s.pending + multiset(targets),
        s.fault || exists c | c in targets :: c >= |s.joins| || s.joins[c].closed)
  }

  // ---- Steps outside the lock --------------------------------------------------------------

  function SetPc(s: State, c: nat, pc: Pc): State
    requires c < |s.joins|
  {
    s.(joins := s.joins[c := s.joins[c].(pc := pc)])
  }

  function TakeBuffered(s: State, c: nat): State
    requires c < |s.joins|
  {
    s.(joins := s.joins[c := s.joins[c].(buf := [])])
  }

  /** The handler takes the event out of the slot; a baton event it passes on. */
  function TakeHeard(s: State, c: nat): State
    requires c < |s.joins|
  {
    var j := s.joins[c];
    s.(joins := s.joins[c := j.(buf := [], heard := j.heard + Batons(j.buf))])
  }

  function Batons(events: seq<Event>): seq<Event>
  {
    if events == [] then [] else (if events[0].Baton? then [events[0]] else []) + Batons(events[1..])
  }

  /** A receive in the handler's select. An HTTP handler stays for more turns unless the event is
      the sentinel, the channel is closed, or the write fails; an MCP handler takes one event, and
      on a closed channel returns without cleanup. */
  function Receive(s: State, c: nat, writeOk: bool): State
    requires c < |s.joins| && s.joins[c].pc == Waiting
  {
    var j := s.joins[c];
    if j.buf != [] then
      var stay := j.transport.Http? && j.buf[0].Baton? && writeOk;
      var taken := TakeHeard(s, c);
      if stay then taken else SetPc(taken, c, Leaving(false))
    else if j.closed then SetPc(s, c, if j.transport.Http? then Leaving(false) else Gone)
    else s
  }

  /** cleanupStream: deletes by name, whatever stream is registered under it. */
  function Cleanup(s: State, c: nat): State
    requires c < |s.joins| && s.joins[c].pc.Leaving?
  {
    var name := s.joins[c].name;
    var foreign := name in s.sess.streams && s.sess.streams[name] != c;
    var removed := s.(sess := s.sess.(streams := s.sess.streams - {name}), fault := s.fault || foreign);
    SetPc(removed, c, if s.joins[c].pc.drain then Draining else Gone)
  }

  function Close(s: State, c: nat): State
  {
    if c !in s.pending then s
    else if c >= |s.joins| || s.joins[c].closed then s.(fault := true)
    else s.(joins := s.joins[c := s.joins[c].(closed := true)], pending := s.pending - multiset{c})
  }

  datatype Action =
    | DoJoin(name: Name, transport: Transport)
    | DoDone(name: Name, note: string, handoffTo: Name)
    | DoInterrupt
    | DoClose(c: nat)
    | HeadersSent(c: nat, ok: bool)
    | DoReceive(c: nat, writeOk: bool)
    | Leave(c: nat, timeout: bool)  // disconnect, failed heartbeat, or MCP timeout
    | DoCleanup(c: nat)
    | Drain(c: nat)

  predicate HandlerAt(s: State, c: nat, pc: Pc) { c < |s.joins| && s.joins[c].pc == pc }

  predicate HandlerLeaving(s: State, c: nat) { c < |s.joins| && s.joins[c].pc.Leaving? }

  /** One step; a step that is not enabled leaves the state alone. */
  function Step(s: State, a: Action): State
  {
    match a
    case DoJoin(name, transport) => Join(s, name, transport)
    case DoDone(name, note, handoffTo) => Done(s, name, note, handoffTo)
    case DoInterrupt => Interrupt(s)
    case DoClose(c) => Close(s, c)
    case HeadersSent(c, ok) => if HandlerAt(s, c, Opening) then SetPc(s, c, if ok then Waiting else Abandoned) else s
    case DoReceive(c, writeOk) => if HandlerAt(s, c, Waiting) then Receive(s, c, writeOk) else s
    case Leave(c, timeout) =>
      if HandlerAt(s, c, Waiting) then SetPc(s, c, Leaving(timeout && s.joins[c].transport.Mcp?)) else s
    case DoCleanup(c) => if HandlerLeaving(s, c) then Cleanup(s, c) else s
    case Drain(c) => if HandlerAt(s, c, Draining) then SetPc(TakeBuffered(s, c), c, Gone) else s
  }

  function Run(s: State, actions: seq<Action>): State
    decreases |actions|
  {
    if actions == [] then s else Run(Step(s, actions[0]), actions[1..])
  }

  // ---- Creation ----------------------------------------------------------------------------

  function InitialSession(participants: seq<Name>, firstHolder: Name): Session
  {
    if firstHolder == ""
    then Session(participants, "", 0, IDLE, [], map[])
    else Session(participants, firstHolder, 1, TurnState(firstHolder), [], map[])
  }

  function Initial(participants: seq<Name>, firstHolder: Name): State
  {
    State(InitialSession(participants, firstHolder), [], multiset{}, false)
  }

  predicate Distinct(xs: seq<Name>) { forall i, j | 0 <= i < j < |xs| :: xs[i] != xs[j] }

  predicate Roster(participants: seq<Name>)
  {
    |participants| >= 2 && Distinct(participants) && forall p | p in participants :: ValidName(p)
  }
}
