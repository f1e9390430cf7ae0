/** The stuck detector told from positions in the ledger: which entries count, and how many. */
module StuckPositions {
  import opened Ledger
  import Stuck
  import opened Wrappers

  // ---- Repetition --------------------------------------------------------------------------------

  /** The agent turns with this fingerprint. */
  ghost function TurnsLike(entries: seq<Entry>, fingerprint: string): set<nat>
  {
    set j: nat | j < |entries| && entries[j].typ == AgentTurn && Stuck.TurnFingerprint(entries[j]) == fingerprint
  }

  /** The failures of one gate with one message. */
  ghost function FailuresLike(entries: seq<Entry>, gate: string, summary: string): set<nat>
  {
    set j: nat | j < |entries| && entries[j].typ == GateFailed
                 && entries[j].gate == gate && entries[j].summary == summary
  }

  lemma TurnsLikeSnoc(entries: seq<Entry>, e: Entry, fingerprint: string)
    ensures TurnsLike(entries + [e], fingerprint) == TurnsLike(entries, fingerprint)
      + if e.typ == AgentTurn && Stuck.TurnFingerprint(e) == fingerprint then {|entries|} else {}
  {
  }

  lemma FailuresLikeSnoc(entries: seq<Entry>, e: Entry, gate: string, summary: string)
    ensures FailuresLike(entries + [e], gate, summary) == FailuresLike(entries, gate, summary)
      + if e.typ == GateFailed && e.gate == gate && e.summary == summary then {|entries|} else {}
  {
  }

  lemma CollectedSnoc(entries: seq<Entry>, e: Entry)
    ensures Stuck.Fingerprints(entries + [e])
         == Stuck.Fingerprints(entries) + if e.typ == AgentTurn then [Stuck.TurnFingerprint(e)] else []
    ensures Stuck.GateFailures(entries + [e])
         == Stuck.GateFailures(entries) + if e.typ == GateFailed then [Stuck.GateKey(e.gate, e.summary)] else []
  {
    assert (entries + [e])[..|entries|] == entries;
  }

  lemma {:induction false} CountTurnsLike(entries: seq<Entry>, fingerprint: string)
    ensures multiset(Stuck.Fingerprints(entries))[fingerprint] == |TurnsLike(entries, fingerprint)|
  {
    if entries != [] {
      var front, last := entries[..|entries| - 1], entries[|entries| - 1];
      CountTurnsLike(front, fingerprint);
      TurnsLikeSnoc(front, last, fingerprint);
      CollectedSnoc(front, last);
      assert front + [last] == entries;
    }
  }

  lemma {:induction false} CountFailuresLike(entries: seq<Entry>, gate: string, summary: string)
    ensures multiset(Stuck.GateFailures(entries))[Stuck.GateKey(gate, summary)]
         == |FailuresLike(entries, gate, summary)|
  {
    if entries != [] {
      var front, last := entries[..|entries| - 1], entries[|entries| - 1];
      CountFailuresLike(front, gate, summary);
      FailuresLikeSnoc(front, last, gate, summary);
      CollectedSnoc(front, last);
      assert front + [last] == entries;
    }
  }

  ghost predicate RepeatsATurn(entries: seq<Entry>)
  {
    exists fingerprint :: |TurnsLike(entries, fingerprint)| >= 4
  }

  ghost predicate RepeatsAFailure(entries: seq<Entry>)
  {
    exists gate, summary :: |FailuresLike(entries, gate, summary)| >= 3
  }

  lemma RepeatsATurnIff(entries: seq<Entry>)
    ensures Stuck.Repeats(Stuck.Fingerprints(entries), Stuck.REPEAT_TURN_THRESHOLD) <==> RepeatsATurn(entries)
  {
    var fps := Stuck.Fingerprints(entries);
    forall x
      ensures multiset(fps)[x] == |TurnsLike(entries, x)|
    {
      CountTurnsLike(entries, x);
    }
  }

  lemma RepeatsAFailureIff(entries: seq<Entry>)
    ensures Stuck.Repeats(Stuck.GateFailures(entries), Stuck.REPEAT_GATE_FAIL_THRESHOLD) <==> RepeatsAFailure(entries)
  {
    var failures := Stuck.GateFailures(entries);
    forall gate, summary
      ensures multiset(failures)[Stuck.GateKey(gate, summary)] == |FailuresLike(entries, gate, summary)|
    {
      CountFailuresLike(entries, gate, summary);
    }
    if Stuck.Repeats(failures, Stuck.REPEAT_GATE_FAIL_THRESHOLD) {
      var x: Stuck.GateKey :| multiset(failures)[x] >= Stuck.REPEAT_GATE_FAIL_THRESHOLD;
      assert x == Stuck.GateKey(x.gate, x.summary);
      assert |FailuresLike(entries, x.gate, x.summary)| >= 3;
    }
  }

  // ---- The turns in order --------------------------------------------------------------------------

  /** The agent turns of the ledger, in order. */
  function Turns(entries: seq<Entry>): seq<Entry>
  {
    if entries == [] then []
    else (if entries[0].typ == AgentTurn then [entries[0]] else []) + Turns(entries[1..])
  }

  lemma {:induction false} TurnsSnoc(entries: seq<Entry>)
    requires entries != []
    ensures var n := |entries| - 1;
      Turns(entries) == Turns(entries[..n]) + if entries[n].typ == AgentTurn then [entries[n]] else []
  {
    var n := |entries| - 1;
    if n > 0 {
      TurnsSnoc(entries[1..]);
      assert entries[1..][..n - 1] == entries[..n][1..] && entries[1..][n - 1] == entries[n];
    } else {
      assert entries[1..] == [] && entries[..n] == [];
    }
  }

  lemma {:induction false} FingerprintsAreTurns(entries: seq<Entry>)
    ensures var turns := Turns(entries);
      && |Stuck.Fingerprints(entries)| == |turns| == |Stuck.TurnTimes(entries)|
      && forall k | 0 <= k < |turns| ::
           && Stuck.Fingerprints(entries)[k] == Stuck.TurnFingerprint(turns[k])
           && Stuck.TurnTimes(entries)[k] == turns[k].at
  {
    if entries != [] {
      FingerprintsAreTurns(entries[..|entries| - 1]);
      TurnsSnoc(entries);
    }
  }

  predicate SameTurn(a: Entry, b: Entry) { Stuck.TurnFingerprint(a) == Stuck.TurnFingerprint(b) }

  /** Six turns in a row that go back and forth between two different ones. */
  predicate BackAndForth(turns: seq<Entry>, k: nat)
    requires k + 6 <= |turns|
  {
    && SameTurn(turns[k], turns[k + 2]) && SameTurn(turns[k + 2], turns[k + 4])
    && SameTurn(turns[k + 1], turns[k + 3]) && SameTurn(turns[k + 3], turns[k + 5])
    && !SameTurn(turns[k], turns[k + 1])
  }

  ghost predicate GoesBackAndForth(entries: seq<Entry>)
  {
    exists k: nat :: k + 6 <= |Turns(entries)| && BackAndForth(Turns(entries), k)
  }

  lemma AlternatingIs(turns: seq<Entry>, fps: seq<string>, k: nat)
    requires |fps| == |turns| && k + 6 <= |turns|
    requires forall i | 0 <= i < |turns| :: fps[i] == Stuck.TurnFingerprint(turns[i])
    ensures Stuck.Alternating(fps, k, k + 6) <==> BackAndForth(turns, k)
  {
    if BackAndForth(turns, k) {
      forall i | k < i < k + 6
        ensures fps[i] != fps[i - 1] && (i > k + 1 ==> fps[i] == fps[i - 2])
      {
        assert i == k + 1 || i == k + 2 || i == k + 3 || i == k + 4 || i == k + 5;
      }
    }
  }

  lemma GoesBackAndForthIff(entries: seq<Entry>)
    ensures Stuck.PingPong(Stuck.Fingerprints(entries)) <==> GoesBackAndForth(entries)
  {
    FingerprintsAreTurns(entries);
    var turns, fps := Turns(entries), Stuck.Fingerprints(entries);
    forall k: nat | k + 6 <= |turns|
      ensures Stuck.PingPongAt(fps, k) <==> BackAndForth(turns, k)
    {
      AlternatingIs(turns, fps, k);
    }
  }

  /** Each of the last five turns repeats one from before them, and no green is as late as the first. */
  ghost predicate BringsNothingNew(entries: seq<Entry>)
  {
    var turns := Turns(entries);
    var start := |turns| - 5;
    && start >= 0
    && (forall i | start <= i < |turns| :: exists j :: 0 <= j < start && SameTurn(turns[j], turns[i]))
    && forall e | e in entries && e.typ == ValidationGreen :: e.at < turns[start].at
  }

  lemma BringsNothingNewIff(entries: seq<Entry>)
    ensures Stuck.NoProgress(entries) <==> BringsNothingNew(entries)
  {
    FingerprintsAreTurns(entries);
    var turns, fps := Turns(entries), Stuck.Fingerprints(entries);
    var start := |turns| - 5;
    if start >= 0 {
      forall i | start <= i < |turns|
        ensures fps[i] in fps[..start] <==> exists j :: 0 <= j < start && SameTurn(turns[j], turns[i])
      {
        if fps[i] in fps[..start] {
          var j :| 0 <= j < start && fps[..start][j] == fps[i];
          assert SameTurn(turns[j], turns[i]);
        }
        if j :| 0 <= j < start && SameTurn(turns[j], turns[i]) {
          assert fps[..start][j] == fps[i];
        }
      }
    }
  }

  // ---- The detector ----------------------------------------------------------------------------------

  /** A ledger is stuck exactly if four of its turns are alike, or three failures of a gate, or six turns
      in a row go back and forth, or the last five bring nothing new and no green. */
  lemma StuckIff(entries: seq<Entry>)
    ensures Stuck.IsStuck(entries) <==>
      RepeatsATurn(entries) || RepeatsAFailure(entries) || GoesBackAndForth(entries) || BringsNothingNew(entries)
  {
    RepeatsATurnIff(entries);
    RepeatsAFailureIff(entries);
    GoesBackAndForthIff(entries);
    BringsNothingNewIff(entries);
  }

  /** Without agent turns only a repeated failure is. */
  lemma TurnlessIsStuckIff(entries: seq<Entry>)
    requires forall e | e in entries :: e.typ != AgentTurn
    ensures Stuck.IsStuck(entries) <==> RepeatsAFailure(entries)
  {
    StuckIff(entries);
    NoTurns(entries);
    forall fingerprint
      ensures TurnsLike(entries, fingerprint) == {}
    {
    }
  }

  lemma {:induction false} NoTurns(entries: seq<Entry>)
    requires forall e | e in entries :: e.typ != AgentTurn
    ensures Turns(entries) == []
  {
    if entries != [] {
      NoTurns(entries[1..]);
    }
  }

  /** Entries of any other kind, passed gates among them, neither cause nor cure it. */
  lemma OthersDoNotMatter(entries: seq<Entry>, e: Entry)
    requires e.typ != AgentTurn && e.typ != GateFailed && e.typ != ValidationGreen
    ensures Stuck.IsStuck(entries + [e]) <==> Stuck.IsStuck(entries)
  {
    StuckIff(entries);
    StuckIff(entries + [e]);
    OthersAreNotTurns(entries, e);
    forall fingerprint
      ensures TurnsLike(entries + [e], fingerprint) == TurnsLike(entries, fingerprint)
    {
      TurnsLikeSnoc(entries, e, fingerprint);
    }
    forall gate, summary
      ensures FailuresLike(entries + [e], gate, summary) == FailuresLike(entries, gate, summary)
    {
      FailuresLikeSnoc(entries, e, gate, summary);
    }
  }

  lemma OthersAreNotTurns(entries: seq<Entry>, e: Entry)
    requires e.typ != AgentTurn && e.typ != ValidationGreen
    ensures Turns(entries + [e]) == Turns(entries)
    ensures BringsNothingNew(entries + [e]) <==> BringsNothingNew(entries)
    ensures GoesBackAndForth(entries + [e]) <==> GoesBackAndForth(entries)
  {
    TurnsSnoc(entries + [e]);
    assert (entries + [e])[..|entries|] == entries;
    assert forall x: Entry | x.typ == ValidationGreen :: x in entries + [e] <==> x in entries;
  }
}
