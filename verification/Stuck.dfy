/** The stuck detector and the lifetime ceiling, both read off the ledger. */
module Stuck {
  import opened CycleTypes
  import opened Ledger
  import opened Wrappers

  const REPEAT_TURN_THRESHOLD := 4
  const REPEAT_GATE_FAIL_THRESHOLD := 3
  const PING_PONG_THRESHOLD := 6
  const NO_PROGRESS_WINDOW := 5

  // ---- Fingerprints ------------------------------------------------------------------------

  function JoinNul(files: seq<string>): string
  {
    if files == [] then ""
    else if |files| == 1 then files[0]
    else files[0] + "\0" + JoinNul(files[1..])
  }

  function TurnFingerprint(e: Entry): string
  {
    e.summary + "\0" + JoinNul(e.files)
  }

  predicate NulFree(s: string) { '\0' !in s }

  predicate NulFreeTurn(e: Entry) { NulFree(e.summary) && forall f | f in e.files :: NulFree(f) }

  /** The same files; an absent list and one holding a single empty name join to the same text. */
  predicate SameFiles(a: seq<string>, b: seq<string>)
  {
    a == b || (a == [] && b == [""]) || (a == [""] && b == [])
  }

  lemma FirstNul(a: string, s: string)
    requires NulFree(a)
    ensures (a + "\0" + s)[|a|] == '\0'
    ensures forall k | 0 <= k < |a| :: (a + "\0" + s)[k] != '\0'
  {
    var x := a + "\0" + s;
    forall k | 0 <= k < |a|
      ensures x[k] != '\0'
    {
      assert x[k] == a[k];
    }
  }

  /** A NUL-free text in front of the first NUL can be read back. */
  lemma CutAtNul(a: string, s: string, b: string, t: string)
    requires NulFree(a) && NulFree(b)
    requires a + "\0" + s == b + "\0" + t
    ensures a == b && s == t
  {
    var x, y := a + "\0" + s, b + "\0" + t;
    FirstNul(a, s);
    FirstNul(b, t);
    assert |a| == |b|;
    assert a == x[..|a|] && b == y[..|b|];
    assert s == x[|a| + 1..] && t == y[|b| + 1..];
  }

  lemma {:induction false} JoinNulInjective(a: seq<string>, b: seq<string>)
    requires forall f | f in a :: NulFree(f)
    requires forall f | f in b :: NulFree(f)
    requires JoinNul(a) == JoinNul(b)
    ensures SameFiles(a, b)
  {
    HasNul(a);
    HasNul(b);
    if |a| >= 2 && |b| >= 2 {
      CutAtNul(a[0], JoinNul(a[1..]), b[0], JoinNul(b[1..]));
      JoinNulInjective(a[1..], b[1..]);
      LongJoin(a[1..], b[1..]);
      assert a == [a[0]] + a[1..] && b == [b[0]] + b[1..];
    }
  }

  lemma LongJoin(a: seq<string>, b: seq<string>)
    requires a != [] && b != [] && SameFiles(a, b)
    ensures a == b
  {
  }

  lemma HasNul(a: seq<string>)
    requires forall f | f in a :: NulFree(f)
    ensures NulFree(JoinNul(a)) <==> |a| < 2
  {
    if |a| >= 2 {
      FirstNul(a[0], JoinNul(a[1..]));
    }
  }

  /** Two turns share a fingerprint exactly when they share summary and files, as long as neither
      uses the separator itself. */
  lemma FingerprintIdentifies(a: Entry, b: Entry)
    requires NulFreeTurn(a) && NulFreeTurn(b)
    ensures TurnFingerprint(a) == TurnFingerprint(b) <==> a.summary == b.summary && SameFiles(a.files, b.files)
  {
    if TurnFingerprint(a) == TurnFingerprint(b) {
      CutAtNul(a.summary, JoinNul(a.files), b.summary, JoinNul(b.files));
      JoinNulInjective(a.files, b.files);
    }
  }

  /** The summary ends in the separator and the first file. */
  function FirstFileInSummary(e: Entry): Entry
    requires e.files != []
  {
    e.(summary := e.summary + "\0" + e.files[0], files := e.files[1..])
  }

  /** A separator of its own makes a turn pass for another: every turn with two or more files has the
      fingerprint of a different turn. */
  lemma SeparatorHidesAFile(e: Entry)
    requires |e.files| >= 2
    ensures var x := FirstFileInSummary(e);
      && TurnFingerprint(x) == TurnFingerprint(e) && x.summary != e.summary && !SameFiles(x.files, e.files)
      && !NulFree(x.summary)
  {
    var x := FirstFileInSummary(e);
    assert x.summary[|e.summary|] == '\0';
    assert |x.summary| > |e.summary|;
    assert TurnFingerprint(x) == e.summary + "\0" + (e.files[0] + "\0" + JoinNul(e.files[1..]));
  }

  // ---- What the ledger says about turns and gates ----------------------------------------------

  function Fingerprints(entries: seq<Entry>): seq<string>
  {
    if entries == [] then []
    else
      var last := entries[|entries| - 1];
      Fingerprints(entries[..|entries| - 1]) + if last.typ.AgentTurn? then [TurnFingerprint(last)] else []
  }

  function TurnTimes(entries: seq<Entry>): (times: seq<int>)
    ensures |times| == |Fingerprints(entries)|
  {
    if entries == [] then []
    else
      var last := entries[|entries| - 1];
      TurnTimes(entries[..|entries| - 1]) + if last.typ.AgentTurn? then [last.at] else []
  }

  datatype GateKey = GateKey(gate: string, summary: string)

  function GateFailures(entries: seq<Entry>): seq<GateKey>
  {
    if entries == [] then []
    else
      var last := entries[|entries| - 1];
      GateFailures(entries[..|entries| - 1]) + if last.typ.GateFailed? then [GateKey(last.gate, last.summary)] else []
  }

  ghost predicate Repeats<T(!new)>(s: seq<T>, times: nat)
  {
    exists x :: multiset(s)[x] >= times
  }

  /** The segment [lo, hi) reads A, B, A, B, ... with A != B. */
  ghost predicate Alternating(fps: seq<string>, lo: int, hi: int)
  {
    && 0 <= lo <= hi <= |fps|
    && (forall k :: lo < k < hi ==> fps[k] != fps[k - 1])
    && (forall k :: lo + 1 < k < hi ==> fps[k] == fps[k - 2])
  }

  ghost predicate PingPongAt(fps: seq<string>, k: int)
  {
    Alternating(fps, k, k + PING_PONG_THRESHOLD)
  }

  ghost predicate PingPong(fps: seq<string>)
  {
    exists k :: PingPongAt(fps, k)
  }

  ghost predicate NoProgress(entries: seq<Entry>)
  {
    var fps := Fingerprints(entries);
    var start := |fps| - NO_PROGRESS_WINDOW;
    && start >= 0
    && (forall i | start <= i < |fps| :: fps[i] in fps[..start])
    && (forall e | e in entries && e.typ.ValidationGreen? :: e.at < TurnTimes(entries)[start])
  }

  ghost predicate IsStuck(entries: seq<Entry>)
  {
    || Repeats(Fingerprints(entries), REPEAT_TURN_THRESHOLD)
    || Repeats(GateFailures(entries), REPEAT_GATE_FAIL_THRESHOLD)
    || PingPong(Fingerprints(entries))
    || NoProgress(entries)
  }

  // ---- The detector --------------------------------------------------------------------------

  ghost predicate Counts<T(!new)>(counts: map<T, nat>, s: seq<T>)
  {
    && (forall x :: x in counts <==> x in multiset(s))
    && (forall x | x in counts :: counts[x] == multiset(s)[x])
  }

  function Bump<T>(counts: map<T, nat>, x: T): map<T, nat>
  {
    counts[x := (if x in counts then counts[x] else 0) + 1]
  }

  lemma BumpCounts<T(!new)>(counts: map<T, nat>, s: seq<T>, x: T)
    requires Counts(counts, s)
    ensures Counts(Bump(counts, x), s + [x])
  {
    assert multiset(s + [x]) == multiset(s) + multiset{x};
  }

  /** Ranging over a count map finds a count at the threshold iff one exists. */
  method AnyAtLeast<T(==, !new)>(counts: map<T, nat>, s: seq<T>, threshold: nat) returns (found: bool)
    requires Counts(counts, s) && threshold > 0
    ensures found <==> Repeats(s, threshold)
  {
    var todo := counts.Keys;
    while todo != {}
      invariant todo <= counts.Keys
      invariant forall x | x in counts && x !in todo :: counts[x] < threshold
      decreases |todo|
    {
      var x :| x in todo;
      if counts[x] >= threshold {
        assert multiset(s)[x] >= threshold;
        return true;
      }
      todo := todo - {x};
    }
    found := false;
  }

  method Stuck(entries: seq<Entry>) returns (reason: Option<HaltReason>)
    ensures reason == if IsStuck(entries) then Some(STUCK) else None
  {
    var turnCount: map<string, nat> := map[];
    var gateFailCount: map<GateKey, nat> := map[];
    var turnFingerprints: seq<string> := [];
    var turnAt: seq<int> := [];
    for i := 0 to |entries|
      invariant turnFingerprints == Fingerprints(entries[..i]) && turnAt == TurnTimes(entries[..i])
      invariant Counts(turnCount, turnFingerprints)
      invariant Counts(gateFailCount, GateFailures(entries[..i]))
    {
      var e := entries[i];
      assert entries[..i + 1][..i] == entries[..i] && entries[..i + 1][i] == e;
      if e.typ.AgentTurn? {
        var fp := TurnFingerprint(e);
        BumpCounts(turnCount, turnFingerprints, fp);
        turnCount := Bump(turnCount, fp);
        turnFingerprints := turnFingerprints + [fp];
        turnAt := turnAt + [e.at];
      } else if e.typ.GateFailed? {
        var k := GateKey(e.gate, e.summary);
        BumpCounts(gateFailCount, GateFailures(entries[..i]), k);
        gateFailCount := Bump(gateFailCount, k);
      }
    }
    assert entries[..|entries|] == entries;
    var repeated := AnyAtLeast(turnCount, turnFingerprints, REPEAT_TURN_THRESHOLD);
    if repeated { return Some(STUCK); }
    repeated := AnyAtLeast(gateFailCount, GateFailures(entries), REPEAT_GATE_FAIL_THRESHOLD);
    if repeated { return Some(STUCK); }
    var pingPong := PingPongStuck(turnFingerprints);
    if pingPong { return Some(STUCK); }
    var noProgress := NoProgressStuck(entries, turnFingerprints, turnAt);
    return if noProgress then Some(STUCK) else None;
  }

  /** One pass with a run counter finds an alternating run of six iff there is one. */
  method PingPongStuck(fps: seq<string>) returns (stuck: bool)
    ensures stuck <==> PingPong(fps)
  {
    if |fps| < PING_PONG_THRESHOLD { return false; }
    var runLen := 1;
    for i := 1 to |fps|
      invariant 1 <= runLen <= i && runLen < PING_PONG_THRESHOLD
      invariant Alternating(fps, i - runLen, i)
      invariant !Alternating(fps, i - runLen - 1, i)
      invariant forall k :: k + PING_PONG_THRESHOLD <= i ==> !PingPongAt(fps, k)
    {
      var prev, cur := fps[i - 1], fps[i];
      if cur != prev {
        if i >= 2 && cur == fps[i - 2] {
          LongerRun(fps, i, runLen);
          runLen := runLen + 1;
        } else {
          runLen := 2;
        }
      } else {
        assert !Alternating(fps, i - 1, i + 1);
        runLen := 1;
      }
      if runLen >= PING_PONG_THRESHOLD {
        assert PingPongAt(fps, i + 1 - PING_PONG_THRESHOLD);
        return true;
      }
      assert PingPongAt(fps, i + 1 - PING_PONG_THRESHOLD) ==> Alternating(fps, i - runLen, i + 1);
    }
    return false;
  }

  /** A run grows by one turn exactly when that turn repeats the one before last and differs from
      the last. */
  lemma LongerRun(fps: seq<string>, i: nat, runLen: nat)
    requires 2 <= i < |fps| && 1 <= runLen <= i
    requires fps[i] != fps[i - 1] && fps[i] == fps[i - 2]
    requires Alternating(fps, i - runLen, i) && !Alternating(fps, i - runLen - 1, i)
    ensures runLen >= 2
    ensures Alternating(fps, i - runLen, i + 1) && !Alternating(fps, i - runLen - 1, i + 1)
  {
    if runLen == 1 {
      assert Alternating(fps, i - 2, i);
    }
    if Alternating(fps, i - runLen - 1, i + 1) {
      assert Alternating(fps, i - runLen - 1, i);
    }
  }

  method NoProgressStuck(all: seq<Entry>, turnFPs: seq<string>, turnAt: seq<int>) returns (stuck: bool)
    requires turnFPs == Fingerprints(all) && turnAt == TurnTimes(all)
    ensures stuck <==> NoProgress(all)
  {
    var n := |turnFPs|;
    if n < NO_PROGRESS_WINDOW { return false; }
    var windowStart := n - NO_PROGRESS_WINDOW;
    var priorFPs: set<string> := {};
    for i := 0 to windowStart
      invariant forall x :: x in priorFPs <==> x in turnFPs[..i]
    {
      priorFPs := priorFPs + {turnFPs[i]};
    }
    for i := windowStart to n
      invariant forall j | windowStart <= j < i :: turnFPs[j] in turnFPs[..windowStart]
    {
      if turnFPs[i] !in priorFPs { return false; }
    }
    var windowStartAt := turnAt[windowStart];
    for i := 0 to |all|
      invariant forall j | 0 <= j < i :: all[j].typ.ValidationGreen? ==> all[j].at < windowStartAt
    {
      if all[i].typ.ValidationGreen? && all[i].at >= windowStartAt {
        assert all[i] in all;
        return false;
      }
    }
    return true;
  }

  // ---- The lifetime ceiling ---------------------------------------------------------------------

  method LifetimeTurns(entries: seq<Entry>) returns (turns: nat)
    ensures turns == |Fingerprints(entries)|
  {
    turns := 0;
    for i := 0 to |entries|
      invariant turns == |Fingerprints(entries[..i])|
    {
      assert entries[..i + 1][..i] == entries[..i];
      if entries[i].typ.AgentTurn? { turns := turns + 1; }
    }
    assert entries[..|entries|] == entries;
  }

  ghost predicate ExceedsCeiling(entries: seq<Entry>, ceiling: int)
  {
    ceiling > 0 && |Fingerprints(entries)| >= ceiling
  }

  method ExceedsLifetimeCeiling(entries: seq<Entry>, ceiling: int) returns (exceeds: bool)
    ensures exceeds <==> ExceedsCeiling(entries, ceiling)
  {
    if ceiling <= 0 { return false; }
    var turns := LifetimeTurns(entries);
    return turns >= ceiling;
  }

  // ---- The anti-spin bound -----------------------------------------------------------------------

  lemma {:induction false} Pigeonhole(m: multiset<string>, d: set<string>)
    requires forall x | x in m :: x in d && m[x] <= 3
    ensures |m| <= 3 * |d|
    decreases |d|
  {
    if d == {} {
      assert m == multiset{};
    } else {
      var x :| x in d;
      Pigeonhole(m[x := 0], d - {x});
    }
  }

  function Distinct(entries: seq<Entry>): set<string>
  {
    set fp | fp in Fingerprints(entries)
  }

  /** More than three turns per distinct fingerprint is always noticed. */
  lemma SpinIsStuck(entries: seq<Entry>)
    requires |Fingerprints(entries)| > 3 * |Distinct(entries)|
    ensures IsStuck(entries)
  {
    var fps := Fingerprints(entries);
    if forall x | x in multiset(fps) :: multiset(fps)[x] <= 3 {
      Pigeonhole(multiset(fps), Distinct(entries));
    }
  }

  /** Every agent turn behind position `from` was granted on a ledger that was neither stuck nor at
      the ceiling. */
  ghost predicate GuardedFrom(entries: seq<Entry>, from: nat, ceiling: int)
  {
    forall i | from <= i < |entries| && entries[i].typ.AgentTurn? ::
      !IsStuck(entries[..i]) && !ExceedsCeiling(entries[..i], ceiling)
  }

  lemma {:induction false} FingerprintsGrow(entries: seq<Entry>, i: nat)
    requires i <= |entries|
    ensures Fingerprints(entries[..i]) <= Fingerprints(entries)
    decreases |entries|
  {
    if i < |entries| {
      var shorter := entries[..|entries| - 1];
      FingerprintsGrow(shorter, i);
      assert shorter[..i] == entries[..i];
    } else {
      assert entries[..i] == entries;
    }
  }

  lemma FewerDistinct(entries: seq<Entry>, i: nat)
    requires i <= |entries|
    ensures |Distinct(entries[..i])| <= |Distinct(entries)|
  {
    FingerprintsGrow(entries, i);
    SubsetIsSmaller(Distinct(entries[..i]), Distinct(entries));
  }

  lemma {:induction false} SubsetIsSmaller<T>(a: set<T>, b: set<T>)
    requires a <= b
    ensures |a| <= |b|
  {
    assert b == a + (b - a);
  }

  /** However a run behaves, it is granted no turn past 3d + 1 for its d distinct fingerprints, and
      none past a positive ceiling. */
  lemma {:induction false} TurnsAreBounded(entries: seq<Entry>, from: nat, ceiling: int)
    requires from <= |entries| && GuardedFrom(entries, from, ceiling)
    ensures |Fingerprints(entries)| > |Fingerprints(entries[..from])| ==>
              && |Fingerprints(entries)| <= 3 * |Distinct(entries)| + 1
              && (ceiling > 0 ==> |Fingerprints(entries)| <= ceiling)
    decreases |entries|
  {
    if from == |entries| {
      assert entries[..from] == entries;
    } else {
      var n := |entries| - 1;
      var shorter := entries[..n];
      if entries[n].typ.AgentTurn? {
        if |Fingerprints(shorter)| > 3 * |Distinct(shorter)| {
          SpinIsStuck(shorter);
        }
        FewerDistinct(entries, n);
      } else {
        assert Fingerprints(entries) == Fingerprints(shorter);
        GuardedPrefix(entries, from, ceiling);
        TurnsAreBounded(shorter, from, ceiling);
        assert shorter[..from] == entries[..from];
      }
    }
  }

  /** The bound is reached: three equal turns are not yet stuck, so a fourth is granted. */
  lemma BoundIsReached(e: Entry, ceiling: int)
    requires e.typ.AgentTurn? && ceiling <= 0
    ensures var entries := [e, e, e, e];
      && GuardedFrom(entries, 0, ceiling)
      && |Fingerprints(entries)| == 4 && 3 * |Distinct(entries)| + 1 == 4
  {
    var entries := [e, e, e, e];
    forall i: nat | i <= 4
      ensures entries[..i] == EqualTurns(e, i)
    {
    }
    forall i: nat | i <= 3
      ensures !IsStuck(entries[..i])
    {
      FewEqualTurns(e, i);
    }
    EqualFingerprints(e, 4);
    assert entries[..4] == entries;
    assert Distinct(entries) == {TurnFingerprint(e)};
  }

  function EqualTurns(e: Entry, n: nat): (entries: seq<Entry>) { seq(n, _ => e) }

  lemma {:induction false} EqualFingerprints(e: Entry, n: nat)
    requires e.typ.AgentTurn?
    ensures Fingerprints(EqualTurns(e, n)) == seq(n, _ => TurnFingerprint(e))
    ensures GateFailures(EqualTurns(e, n)) == []
  {
    if n > 0 {
      assert EqualTurns(e, n)[..n - 1] == EqualTurns(e, n - 1);
      EqualFingerprints(e, n - 1);
    }
  }

  lemma Occurrences<T>(s: seq<T>, x: T)
    ensures multiset(s)[x] <= |s|
  {
  }

  lemma FewEqualTurns(e: Entry, n: nat)
    requires e.typ.AgentTurn? && n < REPEAT_TURN_THRESHOLD
    ensures !IsStuck(EqualTurns(e, n))
  {
    EqualFingerprints(e, n);
    var fps := Fingerprints(EqualTurns(e, n));
    forall x
      ensures multiset(fps)[x] < REPEAT_TURN_THRESHOLD
    {
      Occurrences(fps, x);
    }
    assert forall k :: !PingPongAt(fps, k);
  }

  lemma GuardedPrefix(entries: seq<Entry>, from: nat, ceiling: int)
    requires from < |entries| && GuardedFrom(entries, from, ceiling)
    ensures GuardedFrom(entries[..|entries| - 1], from, ceiling)
  {
    var shorter := entries[..|entries| - 1];
    forall i | from <= i < |shorter| && shorter[i].typ.AgentTurn?
      ensures !IsStuck(shorter[..i]) && !ExceedsCeiling(shorter[..i], ceiling)
    {
      assert shorter[..i] == entries[..i] && entries[i] == shorter[i];
    }
  }
}
