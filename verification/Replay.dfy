/** Reconstruction of a run's control graph from its ledger. */
module Replay {
  import opened Hashing
  import opened Ledger
  import opened Wrappers

  datatype EdgeKind = Sequence | Handoff

  datatype Edge = Edge(to: nat, kind: EdgeKind)

  datatype Step = Step(
    index: nat, cycleID: string, typ: EventType, at: int, agent: string, gate: string, handoffTo: string,
    summary: string, out: seq<Edge>)

  datatype CycleSegment = CycleSegment(cycleID: string, steps: seq<nat>, terminal: Option<EventType>)

  datatype ControlGraph = ControlGraph(steps: seq<Step>, cycles: seq<CycleSegment>)

  // ---- What the graph of a ledger is -------------------------------------------------------------

  /** The next step of the same cycle, found as the ledger grows. */
  function NextInCycle(entries: seq<Entry>, i: nat): Option<nat>
    requires i < |entries|
    decreases |entries|
  {
    var n := |entries| - 1;
    if i == n then None
    else
      var found := NextInCycle(entries[..n], i);
      if found.Some? then found else if entries[n].cycleID == entries[i].cycleID then Some(n) else None
  }

  /** The first step at or behind `from` by this agent. */
  function FindAgent(entries: seq<Entry>, agent: string, from: nat): Option<nat>
    decreases |entries| - from
  {
    if from >= |entries| then None
    else if entries[from].agent == agent then Some(from)
    else FindAgent(entries, agent, from + 1)
  }

  function Pickup(entries: seq<Entry>, i: nat): Option<nat>
    requires i < |entries|
  {
    if !entries[i].typ.HandoffCreated? || entries[i].handoffTo == "" then None
    else FindAgent(entries, entries[i].handoffTo, i + 1)
  }

  function EdgeTo(to: Option<nat>, kind: EdgeKind): seq<Edge>
  {
    if to.Some? then [Edge(to.value, kind)] else []
  }

  function Projected(e: Entry, i: nat, out: seq<Edge>): Step
  {
    Step(i, e.cycleID, e.typ, e.at, e.agent, e.gate, e.handoffTo, e.summary, out)
  }

  function SequenceStep(entries: seq<Entry>, i: nat): Step
    requires i < |entries|
  {
    Projected(entries[i], i, EdgeTo(NextInCycle(entries, i), Sequence))
  }

  function StepOf(entries: seq<Entry>, i: nat): Step
    requires i < |entries|
  {
    Projected(entries[i], i, EdgeTo(NextInCycle(entries, i), Sequence) + EdgeTo(Pickup(entries, i), Handoff))
  }

  /** The cycle ids in the order they first appear. */
  function FirstSeen(entries: seq<Entry>): seq<string>
  {
    if entries == [] then []
    else
      var ids := FirstSeen(entries[..|entries| - 1]);
      var id := entries[|entries| - 1].cycleID;
      if id in ids then ids else ids + [id]
  }

  /** The positions of a cycle's entries, in append order. */
  function IndicesOf(entries: seq<Entry>, id: string): seq<nat>
  {
    if entries == [] then []
    else
      var n := |entries| - 1;
      IndicesOf(entries[..n], id) + if entries[n].cycleID == id then [n] else []
  }

  /** The type of the last step of a cycle. */
  function Terminal(entries: seq<Entry>, steps: seq<nat>): Option<EventType>
  {
    if steps != [] && steps[|steps| - 1] < |entries| then Some(entries[steps[|steps| - 1]].typ) else None
  }

  ghost predicate SegmentsOf(entries: seq<Entry>, cycles: seq<CycleSegment>, closed: bool)
  {
    var ids := FirstSeen(entries);
    && |cycles| == |ids|
    && forall k | 0 <= k < |ids| ::
         cycles[k] == CycleSegment(ids[k], IndicesOf(entries, ids[k]),
           if closed then Terminal(entries, IndicesOf(entries, ids[k])) else None)
  }

  ghost predicate GraphOf(entries: seq<Entry>, g: ControlGraph)
  {
    && |g.steps| == |entries|
    && (forall i | 0 <= i < |entries| :: g.steps[i] == StepOf(entries, i))
    && SegmentsOf(entries, g.cycles, true)
  }

  // ---- What its edges and segments mean ------------------------------------------------------------

  ghost predicate IsNextInCycle(entries: seq<Entry>, i: nat, j: nat)
  {
    && i < j < |entries| && entries[j].cycleID == entries[i].cycleID
    && forall k | i < k < j :: entries[k].cycleID != entries[i].cycleID
  }

  ghost predicate IsPickup(entries: seq<Entry>, i: nat, j: nat)
  {
    && i < j < |entries| && entries[i].typ.HandoffCreated? && entries[i].handoffTo != ""
    && entries[j].agent == entries[i].handoffTo
    && forall k | i < k < j :: entries[k].agent != entries[i].handoffTo
  }

  lemma {:induction false} NextIsNearest(entries: seq<Entry>, i: nat)
    requires i < |entries|
    ensures forall j: nat :: NextInCycle(entries, i) == Some(j) <==> IsNextInCycle(entries, i, j)
    ensures NextInCycle(entries, i).None? <==> forall k | i < k < |entries| :: entries[k].cycleID != entries[i].cycleID
    decreases |entries|
  {
    var n := |entries| - 1;
    if i < n {
      var shorter := entries[..n];
      NextIsNearest(shorter, i);
      forall j: nat
        ensures NextInCycle(entries, i) == Some(j) <==> IsNextInCycle(entries, i, j)
      {
        assert j < n ==> (IsNextInCycle(entries, i, j) <==> IsNextInCycle(shorter, i, j));
        assert forall k | i < k < n :: entries[k] == shorter[k];
      }
      assert forall k | i < k < n :: entries[k] == shorter[k];
    }
  }

  lemma {:induction false} FindAgentIsFirst(entries: seq<Entry>, agent: string, from: nat)
    ensures var found := FindAgent(entries, agent, from);
      && (found.Some? ==> from <= found.value < |entries| && entries[found.value].agent == agent
                          && forall k | from <= k < found.value :: entries[k].agent != agent)
      && (found.None? ==> forall k | from <= k < |entries| :: entries[k].agent != agent)
    decreases |entries| - from
  {
    if from < |entries| && entries[from].agent != agent {
      FindAgentIsFirst(entries, agent, from + 1);
    }
  }

  lemma PickupIsFirst(entries: seq<Entry>, i: nat, j: nat)
    requires i < |entries|
    ensures Pickup(entries, i) == Some(j) <==> IsPickup(entries, i, j)
  {
    FindAgentIsFirst(entries, entries[i].handoffTo, i + 1);
  }

  /** The step shows the entry, field for field. */
  predicate Shows(s: Step, e: Entry)
  {
    && s.cycleID == e.cycleID && s.typ == e.typ && s.at == e.at && s.agent == e.agent && s.gate == e.gate
    && s.handoffTo == e.handoffTo && s.summary == e.summary
  }

  /** Each step of the graph shows its entry; its edges only run forward; it has a sequence edge exactly to
      the next step of its cycle, and, listed behind that, a handoff edge exactly to the earliest later
      step by the agent it hands to. */
  lemma EdgesAreExact(entries: seq<Entry>, g: ControlGraph, i: nat)
    requires GraphOf(entries, g) && i < |entries|
    ensures Shows(g.steps[i], entries[i]) && g.steps[i].index == i
    ensures forall j: nat :: Edge(j, Sequence) in g.steps[i].out <==> IsNextInCycle(entries, i, j)
    ensures forall j: nat :: Edge(j, Handoff) in g.steps[i].out <==> IsPickup(entries, i, j)
    ensures forall e | e in g.steps[i].out :: i < e.to < |entries|
    ensures |g.steps[i].out| <= 2
    ensures |g.steps[i].out| == 2 ==> g.steps[i].out[0].kind.Sequence? && g.steps[i].out[1].kind.Handoff?
  {
    NextIsNearest(entries, i);
    forall j: nat
      ensures Pickup(entries, i) == Some(j) <==> IsPickup(entries, i, j)
    {
      PickupIsFirst(entries, i, j);
    }
    var next, pickup := NextInCycle(entries, i), Pickup(entries, i);
    assert g.steps[i].out == EdgeTo(next, Sequence) + EdgeTo(pickup, Handoff);
    assert next.Some? ==> IsNextInCycle(entries, i, next.value);
    assert pickup.Some? ==> IsPickup(entries, i, pickup.value);
  }

  lemma {:induction false} FirstSeenDistinct(entries: seq<Entry>)
    ensures forall k, l | 0 <= k < l < |FirstSeen(entries)| :: FirstSeen(entries)[k] != FirstSeen(entries)[l]
    ensures forall e | e in entries :: e.cycleID in FirstSeen(entries)
  {
    if entries != [] {
      var n := |entries| - 1;
      FirstSeenDistinct(entries[..n]);
      assert entries == entries[..n] + [entries[n]];
    }
  }

  lemma {:induction false} IndicesAreFilter(entries: seq<Entry>, id: string)
    ensures forall i: nat :: i in IndicesOf(entries, id) <==> i < |entries| && entries[i].cycleID == id
    ensures forall k, l | 0 <= k < l < |IndicesOf(entries, id)| :: IndicesOf(entries, id)[k] < IndicesOf(entries, id)[l]
  {
    if entries != [] {
      var n := |entries| - 1;
      var shorter := IndicesOf(entries[..n], id);
      IndicesAreFilter(entries[..n], id);
      assert forall k | 0 <= k < |shorter| :: shorter[k] in shorter;
    }
  }

  /** First-seen order: an id's first position comes before the first position of any id after it. */
  lemma {:induction false} FirstSeenInOrder(entries: seq<Entry>, k: nat, l: nat)
    requires k < l < |FirstSeen(entries)|
    ensures var ids := FirstSeen(entries);
      && IndicesOf(entries, ids[k]) != [] && IndicesOf(entries, ids[l]) != []
      && IndicesOf(entries, ids[k])[0] < IndicesOf(entries, ids[l])[0]
  {
    var n := |entries| - 1;
    var shorter := FirstSeen(entries[..n]);
    FirstSeenNonEmpty(entries, k);
    FirstSeenNonEmpty(entries, l);
    if l < |shorter| {
      FirstSeenInOrder(entries[..n], k, l);
    } else {
      IndicesAreFilter(entries[..n], entries[n].cycleID);
      FirstSeenDistinct(entries[..n]);
      FirstSeenNonEmpty(entries[..n], k);
      NoneBefore(entries[..n], entries[n].cycleID);
      IndicesAreFilter(entries[..n], shorter[k]);
      assert IndicesOf(entries[..n], shorter[k])[0] in IndicesOf(entries[..n], shorter[k]);
    }
  }

  lemma {:induction false} NoneBefore(entries: seq<Entry>, id: string)
    requires id !in FirstSeen(entries)
    ensures IndicesOf(entries, id) == []
  {
    if entries != [] {
      NoneBefore(entries[..|entries| - 1], id);
    }
  }

  lemma {:induction false} FirstSeenNonEmpty(entries: seq<Entry>, k: nat)
    requires k < |FirstSeen(entries)|
    ensures IndicesOf(entries, FirstSeen(entries)[k]) != []
  {
    var n := |entries| - 1;
    if k < |FirstSeen(entries[..n])| {
      FirstSeenNonEmpty(entries[..n], k);
    }
  }

  predicate InSomeSegment(g: ControlGraph, i: nat)
  {
    exists k :: 0 <= k < |g.cycles| && i in g.cycles[k].steps
  }

  predicate EndsWithItsLast(entries: seq<Entry>, c: CycleSegment)
  {
    && c.steps != [] && (forall k, l | 0 <= k < l < |c.steps| :: c.steps[k] < c.steps[l])
    && var last := c.steps[|c.steps| - 1]; last < |entries| && c.terminal == Some(entries[last].typ)
  }

  /** The segments partition the steps: every position lies in the one segment of its cycle, in order, and the
      segments are listed by first appearance. A segment ends with the type of its last step. */
  lemma SegmentsPartition(entries: seq<Entry>, g: ControlGraph)
    requires GraphOf(entries, g)
    ensures forall k, i: nat | 0 <= k < |g.cycles| ::
      i in g.cycles[k].steps <==> i < |entries| && entries[i].cycleID == g.cycles[k].cycleID
    ensures forall i: nat | i < |entries| :: InSomeSegment(g, i)
    ensures forall k | 0 <= k < |g.cycles| :: EndsWithItsLast(entries, g.cycles[k])
    ensures forall k, l | 0 <= k < l < |g.cycles| ::
      && g.cycles[k].cycleID != g.cycles[l].cycleID
      && g.cycles[k].steps != [] && g.cycles[l].steps != [] && g.cycles[k].steps[0] < g.cycles[l].steps[0]
  {
    var ids := FirstSeen(entries);
    FirstSeenDistinct(entries);
    forall k, i: nat | 0 <= k < |g.cycles|
      ensures i in g.cycles[k].steps <==> i < |entries| && entries[i].cycleID == g.cycles[k].cycleID
    {
      IndicesAreFilter(entries, ids[k]);
    }
    forall k | 0 <= k < |g.cycles|
      ensures EndsWithItsLast(entries, g.cycles[k])
    {
      IndicesAreFilter(entries, ids[k]);
      FirstSeenNonEmpty(entries, k);
      assert g.cycles[k].steps[|g.cycles[k].steps| - 1] in IndicesOf(entries, ids[k]);
    }
    forall i: nat | i < |entries|
      ensures InSomeSegment(g, i)
    {
      assert entries[i] in entries;
      var k :| 0 <= k < |ids| && ids[k] == entries[i].cycleID;
      IndicesAreFilter(entries, ids[k]);
      assert i in g.cycles[k].steps;
    }
    forall k, l | 0 <= k < l < |g.cycles|
      ensures g.cycles[k].steps != [] && g.cycles[l].steps != [] && g.cycles[k].steps[0] < g.cycles[l].steps[0]
    {
      FirstSeenInOrder(entries, k, l);
    }
  }

  // ---- What the graph depends on -------------------------------------------------------------------

  /** The two ledgers agree in every field a step shows. */
  predicate SameSteps(a: seq<Entry>, b: seq<Entry>)
  {
    |a| == |b| && forall i | 0 <= i < |a| :: Projected(a[i], i, []) == Projected(b[i], i, [])
  }

  lemma SameStepsPrefix(a: seq<Entry>, b: seq<Entry>)
    requires SameSteps(a, b) && a != []
    ensures SameSteps(a[..|a| - 1], b[..|b| - 1])
    ensures a[|a| - 1].cycleID == b[|b| - 1].cycleID
  {
    var n := |a| - 1;
    assert Projected(a[n], n, []) == Projected(b[n], n, []);
    forall i | 0 <= i < n
      ensures Projected(a[..n][i], i, []) == Projected(b[..n][i], i, [])
    {
      assert Projected(a[i], i, []) == Projected(b[i], i, []);
    }
  }

  lemma {:induction false} NextAgrees(a: seq<Entry>, b: seq<Entry>, i: nat)
    requires SameSteps(a, b) && i < |a|
    ensures NextInCycle(a, i) == NextInCycle(b, i)
    decreases |a|
  {
    var n := |a| - 1;
    SameStepsPrefix(a, b);
    assert Projected(a[i], i, []) == Projected(b[i], i, []);
    if i < n {
      NextAgrees(a[..n], b[..n], i);
    }
  }

  lemma {:induction false} FindAgentAgrees(a: seq<Entry>, b: seq<Entry>, agent: string, from: nat)
    requires SameSteps(a, b)
    ensures FindAgent(a, agent, from) == FindAgent(b, agent, from)
    decreases |a| - from
  {
    if from < |a| {
      assert Projected(a[from], from, []) == Projected(b[from], from, []);
      FindAgentAgrees(a, b, agent, from + 1);
    }
  }

  lemma StepAgrees(a: seq<Entry>, b: seq<Entry>, i: nat)
    requires SameSteps(a, b) && i < |a|
    ensures StepOf(a, i) == StepOf(b, i)
  {
    assert Projected(a[i], i, []) == Projected(b[i], i, []);
    NextAgrees(a, b, i);
    FindAgentAgrees(a, b, a[i].handoffTo, i + 1);
  }

  lemma {:induction false} SegmentsAgree(a: seq<Entry>, b: seq<Entry>, id: string)
    requires SameSteps(a, b)
    ensures FirstSeen(a) == FirstSeen(b) && IndicesOf(a, id) == IndicesOf(b, id)
  {
    if a != [] {
      SameStepsPrefix(a, b);
      SegmentsAgree(a[..|a| - 1], b[..|b| - 1], id);
    }
  }

  lemma TerminalAgrees(a: seq<Entry>, b: seq<Entry>, steps: seq<nat>)
    requires SameSteps(a, b)
    ensures Terminal(a, steps) == Terminal(b, steps)
  {
    if steps != [] && steps[|steps| - 1] < |a| {
      var last := steps[|steps| - 1];
      assert Projected(a[last], last, []) == Projected(b[last], last, []);
    }
  }

  /** Two ledgers have the same graph exactly when they agree in the fields a step shows: the graph
      depends on nothing else, in particular it is the same on every replay, and it forgets none of them. */
  lemma GraphsAgreeIff(a: seq<Entry>, b: seq<Entry>, g: ControlGraph, h: ControlGraph)
    requires GraphOf(a, g) && GraphOf(b, h)
    ensures g == h <==> SameSteps(a, b)
  {
    if SameSteps(a, b) {
      forall i | 0 <= i < |a|
        ensures g.steps[i] == h.steps[i]
      {
        StepAgrees(a, b, i);
      }
      SegmentsAgree(a, b, "");
      forall k | 0 <= k < |g.cycles|
        ensures g.cycles[k] == h.cycles[k]
      {
        SegmentsAgree(a, b, FirstSeen(a)[k]);
        TerminalAgrees(a, b, IndicesOf(a, FirstSeen(a)[k]));
      }
      assert g.steps == h.steps && g.cycles == h.cycles;
    } else if g == h {
      forall i | 0 <= i < |a|
        ensures Projected(a[i], i, []) == Projected(b[i], i, [])
      {
        assert g.steps[i] == StepOf(a, i) && h.steps[i] == StepOf(b, i);
      }
    }
  }

  // ---- Building it -----------------------------------------------------------------------------------

  /** The last position of every cycle seen so far. */
  ghost predicate LastIndices(entries: seq<Entry>, last: map<string, nat>)
  {
    && (forall id :: id in last <==> id in FirstSeen(entries))
    && forall id | id in last ::
         && last[id] < |entries| && entries[last[id]].cycleID == id
         && forall k | last[id] < k < |entries| :: entries[k].cycleID != id
  }

  ghost predicate Slots(entries: seq<Entry>, slot: map<string, nat>)
  {
    && (forall id :: id in slot <==> id in FirstSeen(entries))
    && forall id | id in slot :: slot[id] < |FirstSeen(entries)| && FirstSeen(entries)[slot[id]] == id
  }

  ghost predicate StepsSoFar(entries: seq<Entry>, steps: seq<Step>)
  {
    |steps| == |entries| && forall k | 0 <= k < |entries| :: steps[k] == SequenceStep(entries, k)
  }

  function Linked(steps: seq<Step>, last: map<string, nat>, id: string, i: nat): seq<Step>
    requires id in last ==> last[id] < |steps|
  {
    if id in last then steps[last[id] := steps[last[id]].(out := steps[last[id]].out + [Edge(i, Sequence)])] else steps
  }

  /** Linking the previous step of the new entry's cycle is all that changes in the backbone. */
  lemma LinkExtends(entries: seq<Entry>, e: Entry, steps: seq<Step>, last: map<string, nat>)
    requires StepsSoFar(entries, steps) && LastIndices(entries, last)
    ensures StepsSoFar(entries + [e], Linked(steps, last, e.cycleID, |entries|) + [Projected(e, |entries|, [])])
  {
    var longer := entries + [e];
    var linked := Linked(steps, last, e.cycleID, |entries|) + [Projected(e, |entries|, [])];
    assert longer[..|entries|] == entries;
    FirstSeenDistinct(entries);
    forall k | 0 <= k < |entries|
      ensures linked[k] == SequenceStep(longer, k)
    {
      NextIsNearest(entries, k);
      assert entries[k] in entries;
      assert longer[k] == entries[k];
    }
  }

  lemma LastExtends(entries: seq<Entry>, e: Entry, last: map<string, nat>)
    requires LastIndices(entries, last)
    ensures LastIndices(entries + [e], last[e.cycleID := |entries|])
  {
    assert (entries + [e])[..|entries|] == entries;
  }

  /** Append the new position to its cycle's segment, or open a segment for it. */
  function Segmented(cycles: seq<CycleSegment>, slot: map<string, nat>, id: string, i: nat): seq<CycleSegment>
    requires id in slot ==> slot[id] < |cycles|
  {
    if id in slot then cycles[slot[id] := cycles[slot[id]].(steps := cycles[slot[id]].steps + [i])]
    else cycles + [CycleSegment(id, [i], None)]
  }

  lemma SegmentExtends(entries: seq<Entry>, e: Entry, cycles: seq<CycleSegment>, slot: map<string, nat>)
    requires SegmentsOf(entries, cycles, false) && Slots(entries, slot)
    ensures SegmentsOf(entries + [e], Segmented(cycles, slot, e.cycleID, |entries|), false)
  {
    var longer := entries + [e];
    assert longer[..|entries|] == entries;
    FirstSeenDistinct(entries);
    if e.cycleID !in slot {
      NoneBefore(entries, e.cycleID);
    }
    forall id
      ensures IndicesOf(longer, id) == IndicesOf(entries, id) + if id == e.cycleID then [|entries|] else []
    {
    }
  }

  lemma SlotsExtend(entries: seq<Entry>, e: Entry, slot: map<string, nat>)
    requires Slots(entries, slot)
    ensures Slots(entries + [e], if e.cycleID in slot then slot else slot[e.cycleID := |FirstSeen(entries)|])
  {
    assert (entries + [e])[..|entries|] == entries;
  }

  method FirstPass(entries: seq<Entry>) returns (steps: seq<Step>, cycles: seq<CycleSegment>)
    ensures StepsSoFar(entries, steps) && SegmentsOf(entries, cycles, false)
  {
    steps, cycles := [], [];
    var cycleAt: map<string, nat> := map[];
    var lastIdxInCycle: map<string, nat> := map[];
    for i := 0 to |entries|
      invariant StepsSoFar(entries[..i], steps) && LastIndices(entries[..i], lastIdxInCycle)
      invariant SegmentsOf(entries[..i], cycles, false) && Slots(entries[..i], cycleAt)
    {
      var e := entries[i];
      assert entries[..i + 1] == entries[..i] + [e];
      LinkExtends(entries[..i], e, steps, lastIdxInCycle);
      LastExtends(entries[..i], e, lastIdxInCycle);
      steps := Linked(steps, lastIdxInCycle, e.cycleID, i) + [Projected(e, i, [])];
      lastIdxInCycle := lastIdxInCycle[e.cycleID := i];
      SegmentExtends(entries[..i], e, cycles, cycleAt);
      SlotsExtend(entries[..i], e, cycleAt);
      var known := |cycles|;
      cycles := Segmented(cycles, cycleAt, e.cycleID, i);
      if e.cycleID !in cycleAt { cycleAt := cycleAt[e.cycleID := known]; }
    }
    assert entries[..|entries|] == entries;
  }

  /** Append a handoff edge, in place, to every step that hands to an agent with a later step. */
  method AddHandoffEdges(steps: array<Step>, entries: seq<Entry>)
    requires steps.Length == |entries|
    modifies steps
    ensures forall i | 0 <= i < |entries| ::
      steps[i] == old(steps[i]).(out := old(steps[i]).out + EdgeTo(Pickup(entries, i), Handoff))
  {
    for i := 0 to steps.Length
      invariant forall k | 0 <= k < i ::
        steps[k] == old(steps[k]).(out := old(steps[k]).out + EdgeTo(Pickup(entries, k), Handoff))
      invariant forall k | i <= k < steps.Length :: steps[k] == old(steps[k])
    {
      if !entries[i].typ.HandoffCreated? { continue; }
      var target := entries[i].handoffTo;
      if target == "" { continue; }
      var j := i + 1;
      while j < |entries| && entries[j].agent != target
        invariant i < j <= |entries|
        invariant FindAgent(entries, target, i + 1) == FindAgent(entries, target, j)
      {
        j := j + 1;
      }
      if j < |entries| {
        steps[i] := steps[i].(out := steps[i].out + [Edge(j, Handoff)]);
      }
    }
  }

  method Reconstruct(entries: seq<Entry>) returns (graph: ControlGraph)
    ensures GraphOf(entries, graph)
  {
    var steps, cycles := FirstPass(entries);
    var inPlace := new Step[|steps|](i requires 0 <= i < |steps| => steps[i]);
    AddHandoffEdges(inPlace, entries);
    assert forall i | 0 <= i < |entries| :: inPlace[i] == StepOf(entries, i);
    cycles := RecordTerminals(entries, inPlace[..], cycles);
    graph := ControlGraph(inPlace[..], cycles);
  }

  /** Each cycle's last step type, looked up in the steps. */
  method RecordTerminals(entries: seq<Entry>, steps: seq<Step>, open: seq<CycleSegment>)
    returns (cycles: seq<CycleSegment>)
    requires |steps| == |entries| && forall i | 0 <= i < |entries| :: steps[i].typ == entries[i].typ
    requires SegmentsOf(entries, open, false)
    ensures SegmentsOf(entries, cycles, true)
  {
    cycles := open;
    for c := 0 to |cycles|
      invariant |cycles| == |open| && forall k | c <= k < |open| :: cycles[k] == open[k]
      invariant forall k | 0 <= k < c :: cycles[k] == open[k].(terminal := Terminal(entries, open[k].steps))
    {
      LastStepExists(entries, c);
      var seg := cycles[c];
      var lastStep := seg.steps[|seg.steps| - 1];
      cycles := cycles[c := seg.(terminal := Some(steps[lastStep].typ))];
    }
  }

  lemma LastStepExists(entries: seq<Entry>, c: nat)
    requires c < |FirstSeen(entries)|
    ensures var steps := IndicesOf(entries, FirstSeen(entries)[c]); steps != [] && steps[|steps| - 1] < |entries|
  {
    var steps := IndicesOf(entries, FirstSeen(entries)[c]);
    FirstSeenNonEmpty(entries, c);
    IndicesAreFilter(entries, FirstSeen(entries)[c]);
    assert steps[|steps| - 1] in steps;
  }

  /** Verify first: a graph comes back exactly for an intact chain, and otherwise the position where
      prefixes stop verifying. */
  method Replay(sha: Sha, canon: Canon, entries: seq<Entry>) returns (r: Result<ControlGraph, int>)
    ensures r.Ok? <==> ChainOk(sha, canon, entries)
    ensures r.Ok? ==> GraphOf(entries, r.value)
    ensures r.Err? ==> 0 <= r.error < |entries|
    ensures r.Err? ==> forall j | 0 <= j <= |entries| :: ChainOk(sha, canon, entries[..j]) <==> j <= r.error
  {
    var brokenIndex, ok := VerifyChain(sha, canon, entries);
    if !ok { return Err(brokenIndex); }
    var graph := Reconstruct(entries);
    return Ok(graph);
  }
}
