/** The session object itself: its methods update the fields in place, under the store's lock, and
    each is proved to perform exactly the locked section the protocol model steps through. */
module RallySessions {
  import opened Rally
  import opened RallyProofs
  import opened Wrappers

  datatype CreateError = TooFewParticipants | BadName | DuplicateName | FirstHolderNotMember

  /** Validation walks the names in order, then the optional first holder. It accepts exactly the
      rosters of at least two distinct valid names whose first holder, if any, is a member. */
  method CreateRallySession(raw: seq<string>, firstHolder: string) returns (r: Result<RallySession, CreateError>)
    ensures r.Ok? <==>
      && |raw| > 1 && (forall i, j | 0 <= i < j < |raw| :: raw[i] != raw[j])
      && (forall name | name in raw :: ValidName(name))
      && (firstHolder == "" || firstHolder in raw)
    ensures r.Ok? ==> fresh(r.value) && r.value.View() == Initial(raw, firstHolder) && Inv(r.value.View())
    ensures r == Err(TooFewParticipants) <==> |raw| < 2
    ensures r == Err(DuplicateName) ==> exists i, j :: 0 <= i < j < |raw| && raw[i] == raw[j]
    ensures r == Err(BadName) ==> !ValidName(firstHolder) || exists name :: name in raw && !ValidName(name)
    ensures r == Err(FirstHolderNotMember) ==> firstHolder != "" && firstHolder !in raw
  {
    if |raw| < 2 {
      return Err(TooFewParticipants);
    }
    var seen: set<string> := {};
    for i := 0 to |raw|
      invariant seen == set j | 0 <= j < i :: raw[j]
      invariant forall j | 0 <= j < i :: ValidName(raw[j])
      invariant Distinct(raw[..i])
    {
      if !ValidName(raw[i]) {
        return Err(BadName);
      }
      if raw[i] in seen {
        return Err(DuplicateName);
      }
      seen := seen + {raw[i]};
    }
    assert raw[..|raw|] == raw;
    if firstHolder != "" {
      if !ValidName(firstHolder) {
        return Err(BadName);
      }
      if firstHolder !in seen {
        return Err(FirstHolderNotMember);
      }
    }
    InitialInv(raw, firstHolder);
    var session := new RallySession(raw, firstHolder);
    return Ok(session);
  }

  ghost predicate OwnNames(joins: seq<Stream>, streams: map<Name, nat>)
  {
    forall n | n in streams :: streams[n] < |joins| && joins[streams[n]].name == n
  }

  ghost predicate OpenStreams(joins: seq<Stream>, streams: map<Name, nat>)
    requires OwnNames(joins, streams)
  {
    forall n | n in streams :: !joins[streams[n]].closed
  }

  lemma NoFault(joins: seq<Stream>, streams: map<Name, nat>)
    requires OwnNames(joins, streams) && OpenStreams(joins, streams)
    ensures !exists c | c in streams.Values :: c >= |joins| || joins[c].closed
  {
    forall c | c in streams.Values
      ensures c < |joins| && !joins[c].closed
    {
      var n :| n in streams && streams[n] == c;
    }
  }

  lemma InterruptIs(s: State)
    requires s.sess.status != INTERRUPTED
    requires OwnNames(s.joins, s.sess.streams) && OpenStreams(s.joins, s.sess.streams)
    ensures Interrupt(s) == State(
      s.sess.(status := INTERRUPTED, holder := "", streams := map[]),
      Sentineled(s.joins, s.sess.streams.Values), s.pending + multiset(s.sess.streams.Values), s.fault)
  {
    NoFault(s.joins, s.sess.streams);
  }

  /** Different names never share a stream, so taking a name out takes exactly its stream out. */
  lemma DropName(joins: seq<Stream>, streams: map<Name, nat>, name: Name)
    requires OwnNames(joins, streams) && name in streams
    ensures OwnNames(joins, streams - {name}) && |streams - {name}| < |streams|
    ensures (streams - {name}).Values == streams.Values - {streams[name]}
  {
    var rest := streams - {name};
    assert rest.Keys == streams.Keys - {name};
    forall c | c in streams.Values && c != streams[name]
      ensures c in rest.Values
    {
      var n :| n in streams && streams[n] == c;
      assert n in rest;
    }
  }

  lemma SentineledMore(joins: seq<Stream>, ids: set<nat>, c: nat)
    ensures Sentineled(Sentineled(joins, ids), {c}) == Sentineled(joins, ids + {c})
  {
  }

  /** Part of the way through: `done` has been collected, `left` is still in the map. */
  ghost predicate Collecting(streams: map<Name, nat>, done: set<nat>, left: map<Name, nat>)
  {
    done + left.Values == streams.Values && done !! left.Values
  }

  lemma CollectOne(joins: seq<Stream>, streams: map<Name, nat>, done: set<nat>, left: map<Name, nat>, name: Name)
    requires OwnNames(joins, left) && Collecting(streams, done, left) && name in left
    ensures left[name] !in done && Collecting(streams, done + {left[name]}, left - {name})
  {
    DropName(joins, left, name);
    MoveOver(streams.Values, done, left.Values, left[name]);
  }

  lemma MoveOver(all: set<nat>, done: set<nat>, rest: set<nat>, c: nat)
    requires done + rest == all && done !! rest && c in rest
    ensures c !in done && done + {c} + (rest - {c}) == all && done + {c} !! rest - {c}
  {
  }

  /** A non-blocking send of the sentinel. */
  method Announce(joins: seq<Stream>, c: nat) returns (joins': seq<Stream>)
    requires c < |joins|
    ensures joins' == Sentineled(joins, {c})
  {
    joins' := joins;
    if joins[c].buf == [] {
      joins' := joins[c := joins[c].(buf := [ClosedSentinel])];
    }
  }

  lemma MoreCollected(pending: multiset<nat>, done: set<nat>, c: nat)
    requires c !in done
    ensures pending + multiset(done) + multiset{c} == pending + multiset(done + {c})
  {
  }

  /** The interrupter's loop: the sentinel to each connected stream with a free slot, and each
      stream collected for closing. */
  method CollectStreams(joins0: seq<Stream>, pending0: multiset<nat>, streams: map<Name, nat>)
    returns (joins: seq<Stream>, pending: multiset<nat>)
    requires OwnNames(joins0, streams)
    ensures joins == Sentineled(joins0, streams.Values) && pending == pending0 + multiset(streams.Values)
  {
    joins, pending := joins0, pending0;
    var left := streams;
    ghost var done: set<nat> := {};
    while left != map[]
      invariant OwnNames(joins0, left) && Collecting(streams, done, left)
      invariant joins == Sentineled(joins0, done) && pending == pending0 + multiset(done)
      decreases |left|
    {
      var name :| name in left;
      var c := left[name];
      CollectOne(joins0, streams, done, left, name);
      DropName(joins0, left, name);
      SentineledMore(joins0, done, c);
      MoreCollected(pending0, done, c);
      joins := Announce(joins, c);
      left, pending, done := left - {name}, pending + multiset{c}, done + {c};
    }
  }

  class RallySession {
    var participants: seq<Name>
    var holder: Name
    var turnN: int
    var status: string
    var history: seq<Handoff>
    var streams: map<Name, nat>
    // The channels and handlers the session has created, and the streams collected for closing.
    var joins: seq<Stream>
    var pending: multiset<nat>
    ghost var fault: bool

    ghost function View(): State
      reads this
    {
      State(Session(participants, holder, turnN, status, history, streams), joins, pending, fault)
    }

    constructor (names: seq<Name>, firstHolder: Name)
      ensures View() == Initial(names, firstHolder)
    {
      participants, history, streams, joins, pending, fault := names, [], map[], [], multiset{}, false;
      if firstHolder == "" {
        holder, turnN, status := "", 0, IDLE;
      } else {
        holder, turnN, status := firstHolder, 1, TurnState(firstHolder);
      }
    }

    method IsMember(name: Name) returns (member: bool)
      ensures member <==> name in participants
    {
      for i := 0 to |participants|
        invariant name !in participants[..i]
      {
        if participants[i] == name {
          return true;
        }
      }
      return false;
    }

    method NextParticipant(current: Name, preferredNext: Name) returns (next: Name)
      requires participants != []
      ensures next == NextAfter(participants, current, preferredNext)
    {
      if preferredNext != "" {
        var member := IsMember(preferredNext);
        if member {
          return preferredNext;
        }
      }
      var n := |participants|;
      for i := 0 to n
        invariant i <= IndexOf(participants, current)
      {
        if participants[i] == current {
          return participants[(i + 1) % n];
        }
      }
      return participants[0];
    }

    /** A send in a select with a default branch: dropped when the slot is full. */
    method Offer(c: nat, e: Event)
      requires c < |joins| && !joins[c].closed
      modifies this`joins
      ensures View() == Send(old(View()), c, e, false)
    {
      var j := joins[c];
      if j.buf == [] {
        joins := joins[c := j.(buf := [e], sent := if e.Baton? then j.sent + [e] else j.sent)];
      }
    }

    /** The locked section shared by the HTTP and the MCP join. */
    method JoinStream(name: Name, transport: Transport) returns (r: JoinOutcome)
      requires participants != []
      modifies this
      ensures r == JoinResult(old(View()), name)
      ensures View() == Join(old(View()), name, transport)
    {
      var member := IsMember(name);
      if !member {
        return NotMember;
      }
      if status == INTERRUPTED {
        return SessionClosed;
      }
      if name in streams {
        return AlreadyConnected;
      }
      var c := RegisterStream(name, transport);
      HearTurn(name, c);
      return Joined(c);
    }

    method RegisterStream(name: Name, transport: Transport) returns (c: nat)
      modifies this
      ensures c == old(|joins|) && View() == Register(old(View()), name, transport)
    {
      c := |joins|;
      joins := joins + [Stream(name, transport, if transport.Http? then Opening else Waiting, [], false, [], [])];
      streams := streams[name := c];
    }

    /** The joiner takes an unheld baton if first in line, and hears the current turn if it holds it. */
    method HearTurn(name: Name, c: nat)
      requires participants != [] && c < |joins| && !joins[c].closed && joins[c].buf == []
      modifies this
      ensures View() == Hear(old(View()), name, c)
    {
      if status == IDLE && participants[0] == name {
        turnN := turnN + 1;
        holder := name;
        status := TurnState(name);
        Offer(c, Baton(turnN, "", ""));
      } else if status == TurnState(name) {
        var from, note := "", "";
        if |history| > 0 {
          from, note := history[|history| - 1].from, history[|history| - 1].note;
        }
        Offer(c, Baton(turnN, from, note));
      }
    }

    /** advanceRallyBaton: None on success, otherwise the refusal, with nothing changed. */
    method AdvanceBaton(name: Name, note: string, handoffTo: Name) returns (refused: Option<DoneError>)
      requires participants != [] && RegisteredOk(View())
      modifies this
      ensures refused == DoneRefusal(old(View()).sess, name, handoffTo)
      ensures View() == Done(old(View()), name, note, handoffTo)
    {
      refused := CheckDone(name, handoffTo);
      if refused.Some? { return; }
      var next := NextParticipant(name, handoffTo);
      turnN := turnN + 1;
      history := history + [Handoff(name, next, turnN, note)];
      holder := next;
      status := TurnState(next);
      if next in streams {
        Offer(streams[next], Baton(turnN, name, note));
      }
    }

    method CheckDone(name: Name, handoffTo: Name) returns (refused: Option<DoneError>)
      ensures refused == DoneRefusal(View().sess, name, handoffTo)
    {
      if !ValidName(name) || (handoffTo != "" && !ValidName(handoffTo)) {
        return Some(InvalidName);
      }
      if handoffTo != "" && handoffTo == name {
        return Some(SelfHandoff);
      }
      if status == INTERRUPTED {
        return Some(Interrupted);
      }
      if holder != name {
        return Some(NotHolder);
      }
      if handoffTo != "" {
        var member := IsMember(handoffTo);
        if !member {
          return Some(HandoffToNotMember);
        }
      }
      return None;
    }

    /** interruptRallySession up to the unlock: the collected streams are left in `pending`. */
    method InterruptSession()
      requires OwnNames(joins, streams) && OpenStreams(joins, streams)
      modifies this
      ensures View() == Interrupt(old(View()))
    {
      if status != INTERRUPTED {
        status := INTERRUPTED;
        holder := "";
        InterruptIs(old(View()));
        joins, pending := CollectStreams(joins, pending, streams);
        streams := map[];
      }
    }

    /** cleanupStream for the handler that owns stream c. */
    method CleanupStream(c: nat)
      requires HandlerLeaving(View(), c)
      modifies this
      ensures View() == Cleanup(old(View()), c)
    {
      var j := joins[c];
      fault := fault || (j.name in streams && streams[j.name] != c);
      streams := streams - {j.name};
      joins := joins[c := j.(pc := if j.pc.drain then Draining else Gone)];
    }
  }

  // ---- The store ---------------------------------------------------------------------------

  datatype StoreAction = On(id: string, action: Action) | CloseAll

  /** One process-wide lock guards all sessions; CloseAllRallies interrupts every one of them. */
  function StoreStep(store: map<string, State>, a: StoreAction): map<string, State>
  {
    match a
    case On(id, action) => if id in store then store[id := Step(store[id], action)] else store
    case CloseAll => map id | id in store :: Interrupt(store[id])
  }

  function StoreRun(store: map<string, State>, actions: seq<StoreAction>): map<string, State>
    decreases |actions|
  {
    if actions == [] then store else StoreRun(StoreStep(store, actions[0]), actions[1..])
  }

  ghost predicate AllOk(store: map<string, State>) { forall id | id in store :: Inv(store[id]) }

  lemma StoreStepKeepsInv(store: map<string, State>, a: StoreAction)
    requires AllOk(store)
    ensures AllOk(StoreStep(store, a))
  {
    forall id | id in StoreStep(store, a)
      ensures Inv(StoreStep(store, a)[id])
    {
      StepKeepsInv(store[id], if a.On? then a.action else DoInterrupt);
    }
  }

  /** No interleaving over any number of sessions, shutdown included, breaks a baton invariant, sends
      on a closed channel or closes one twice, in any of them. */
  lemma {:induction false} StoreRunKeepsInv(store: map<string, State>, actions: seq<StoreAction>)
    requires AllOk(store)
    ensures AllOk(StoreRun(store, actions))
    decreases |actions|
  {
    if actions != [] {
      StoreStepKeepsInv(store, actions[0]);
      StoreRunKeepsInv(StoreStep(store, actions[0]), actions[1..]);
    }
  }
}
