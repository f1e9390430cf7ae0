/** The append-only harness ledger: entries, the linear hash chain, and its verifier. */
module Ledger {
  import opened Hashing
  import opened Hex
  import opened Wrappers

  datatype EventType =
    | CycleCreated | AgentTurn | GatePassed | GateFailed | HandoffCreated | CycleHalted
    | CycleCompleted | ValidationGreen | ActionDenied | SecretFlagged | GatesPinned
    | GateTampered | ToolUseDecision | ClaimRegistered | ClaimVerified | ClaimFalsified
    | Unknown(name: string)

  /** One ledger entry. The hash fields are byte strings because they are hashed and hex-decoded;
      the work-contract snapshot is carried as its serialised text. */
  datatype Entry = Entry(
    schemaVersion: string, at: int, cycleID: string, typ: EventType, agent: string,
    handoffTo: string, gate: string, summary: string, files: seq<string>,
    workContract: Option<string>, prevHash: Bytes, hash: Bytes)

  const SCHEMA_VERSION := "1"

  /** 64 hex zeros: the PrevHash of a first entry. */
  function Genesis(): (g: Bytes)
    ensures |g| == 64 && forall i | 0 <= i < 64 :: g[i] as char == '0'
  {
    seq(64, i => 48)
  }

  function NewEntry(at: int, cycleID: string, typ: EventType, summary: string, files: seq<string>): Entry
  {
    Entry(SCHEMA_VERSION, at, cycleID, typ, "", "", "", summary, files, None, [], [])
  }

  /** JSON marshalling, an arbitrary partial function: None is a marshalling error. */
  type Canon = Entry -> Option<Bytes>

  function Content(canon: Canon, e: Entry): Option<Bytes> { canon(e.(hash := [])) }

  function ChainHash(sha: Sha, canon: Canon, e: Entry, prev: Bytes): Option<Bytes>
  {
    match Content(canon, e)
    case None => None
    case Some(c) => Some(Encode(sha(c + prev)))
  }

  // ---- What an intact chain is -------------------------------------------------------------

  /** The hash the entry at position i must link to. */
  function Predecessor(entries: seq<Entry>, i: nat): Bytes
    requires i <= |entries|
  {
    if i == 0 then Genesis() else entries[i - 1].hash
  }

  function Tail(entries: seq<Entry>): Bytes { Predecessor(entries, |entries|) }

  ghost predicate LinkedAt(sha: Sha, canon: Canon, entries: seq<Entry>, i: nat)
    requires i < |entries|
  {
    && entries[i].prevHash == Predecessor(entries, i)
    && ChainHash(sha, canon, entries[i], entries[i].prevHash) == Some(entries[i].hash)
  }

  ghost predicate ChainOk(sha: Sha, canon: Canon, entries: seq<Entry>)
  {
    forall i | 0 <= i < |entries| :: LinkedAt(sha, canon, entries, i)
  }

  const NO_BROKEN_LINK := -1

  /** The verifier: accepts exactly the intact chains, and otherwise names the position at which
      prefixes stop being intact. */
  method VerifyChain(sha: Sha, canon: Canon, entries: seq<Entry>) returns (broken: int, ok: bool)
    ensures ok <==> ChainOk(sha, canon, entries)
    ensures ok ==> broken == -1
    ensures !ok ==> 0 <= broken < |entries|
                    && forall j | 0 <= j <= |entries| :: ChainOk(sha, canon, entries[..j]) <==> j <= broken
  {
    var prev := Genesis();
    for i := 0 to |entries|
      invariant prev == Predecessor(entries, i)
      invariant ChainOk(sha, canon, entries[..i])
    {
      var entry := entries[i];
      var want := ChainHash(sha, canon, entry, entry.prevHash);
      if entry.prevHash != prev || want.None? || entry.hash != want.value {
        BrokenFrom(sha, canon, entries, i);
        return i, false;
      }
      ChainOkSnoc(sha, canon, entries, i);
      prev := entry.hash;
    }
    assert entries[..|entries|] == entries;
    return NO_BROKEN_LINK, true;
  }

  lemma BrokenFrom(sha: Sha, canon: Canon, entries: seq<Entry>, i: nat)
    requires i < |entries| && ChainOk(sha, canon, entries[..i])
    requires !LinkedAt(sha, canon, entries, i)
    ensures forall j | 0 <= j <= |entries| :: ChainOk(sha, canon, entries[..j]) <==> j <= i
  {
    forall j | 0 <= j <= |entries|
      ensures ChainOk(sha, canon, entries[..j]) <==> j <= i
    {
      if j <= i {
        assert entries[..i][..j] == entries[..j];
        ChainOkPrefix(sha, canon, entries[..i], j);
      } else {
        assert !LinkedAt(sha, canon, entries[..j], i);
      }
    }
  }

  lemma ChainOkPrefix(sha: Sha, canon: Canon, entries: seq<Entry>, n: nat)
    requires n <= |entries| && ChainOk(sha, canon, entries)
    ensures ChainOk(sha, canon, entries[..n])
  {
    forall i | 0 <= i < n
      ensures LinkedAt(sha, canon, entries[..n], i)
    {
      assert LinkedAt(sha, canon, entries, i);
    }
  }

  lemma ChainOkSnoc(sha: Sha, canon: Canon, entries: seq<Entry>, n: nat)
    requires n < |entries| && ChainOk(sha, canon, entries[..n]) && LinkedAt(sha, canon, entries, n)
    ensures ChainOk(sha, canon, entries[..n + 1])
  {
    var longer := entries[..n + 1];
    forall i | 0 <= i < |longer|
      ensures LinkedAt(sha, canon, longer, i)
    {
      if i < n {
        assert LinkedAt(sha, canon, entries[..n], i);
      }
    }
  }

  // ---- Writing one entry -------------------------------------------------------------------

  /** The entry as the single writer links it behind a tail hash. */
  function Link(sha: Sha, canon: Canon, e: Entry, tail: Bytes): Option<Entry>
  {
    var linked := e.(prevHash := tail);
    match ChainHash(sha, canon, linked, tail)
    case None => None
    case Some(h) => Some(linked.(hash := h))
  }

  lemma LinkExtends(sha: Sha, canon: Canon, entries: seq<Entry>, e: Entry)
    requires ChainOk(sha, canon, entries)
    requires Link(sha, canon, e, Tail(entries)).Some?
    ensures ChainOk(sha, canon, entries + [Link(sha, canon, e, Tail(entries)).value])
    ensures Tail(entries + [Link(sha, canon, e, Tail(entries)).value]) == Link(sha, canon, e, Tail(entries)).value.hash
  {
    var x := Link(sha, canon, e, Tail(entries)).value;
    assert x.(hash := []) == e.(prevHash := Tail(entries)).(hash := []);
    forall i | 0 <= i <= |entries|
      ensures LinkedAt(sha, canon, entries + [x], i)
    {
      assert Predecessor(entries + [x], i) == Predecessor(entries, i);
      if i < |entries| {
        assert (entries + [x])[i] == entries[i];
        assert LinkedAt(sha, canon, entries, i);
      } else {
        assert (entries + [x])[i] == x;
      }
    }
  }

  // ---- Tamper evidence ---------------------------------------------------------------------

  function HashInput(canon: Canon, e: Entry): Bytes
  {
    var c := Content(canon, e);
    if c.Some? then c.value + e.prevHash else []
  }

  ghost function ChainInputs(canon: Canon, entries: seq<Entry>): set<Bytes>
  {
    set e | e in entries :: HashInput(canon, e)
  }

  ghost predicate NoGenesisPreimage(sha: Sha, inputs: set<Bytes>)
  {
    forall x | x in inputs :: Encode(sha(x)) != Genesis()
  }

  ghost predicate SameContent(canon: Canon, a: Entry, b: Entry)
  {
    Content(canon, a) == Content(canon, b) && a.prevHash == b.prevHash && a.hash == b.hash
  }

  ghost predicate SameLedger(canon: Canon, a: seq<Entry>, b: seq<Entry>)
  {
    |a| == |b| && forall i | 0 <= i < |a| :: SameContent(canon, a[i], b[i])
  }

  lemma HashesAreHex(sha: Sha, canon: Canon, entries: seq<Entry>, i: nat)
    requires ChainOk(sha, canon, entries) && i < |entries|
    ensures Content(canon, entries[i]).Some?
    ensures entries[i].hash == Encode(sha(HashInput(canon, entries[i])))
    ensures entries[i].prevHash == Predecessor(entries, i) && |entries[i].prevHash| == 64
  {
    assert LinkedAt(sha, canon, entries, i);
    if i > 0 {
      assert LinkedAt(sha, canon, entries, i - 1);
    }
  }

  /** Equal entry hashes in two intact chains mean equal entries. */
  lemma SameHashSameEntry(sha: Sha, canon: Canon, a: seq<Entry>, i: nat, b: seq<Entry>, j: nat)
    requires ChainOk(sha, canon, a) && i < |a| && ChainOk(sha, canon, b) && j < |b|
    requires CollisionFree(sha, ChainInputs(canon, a) + ChainInputs(canon, b))
    requires a[i].hash == b[j].hash
    ensures SameContent(canon, a[i], b[j])
  {
    HashesAreHex(sha, canon, a, i);
    HashesAreHex(sha, canon, b, j);
    var x, y := HashInput(canon, a[i]), HashInput(canon, b[j]);
    EncodeInjective(sha(x), sha(y));
    assert x in ChainInputs(canon, a) && y in ChainInputs(canon, b) && NoCollision(sha, x, y);
    var n := |x| - 64;
    assert Content(canon, a[i]).value == x[..n] && Content(canon, b[j]).value == y[..n];
    assert a[i].prevHash == x[n..] && b[j].prevHash == y[n..];
  }

  lemma TailIsNotGenesis(sha: Sha, canon: Canon, a: seq<Entry>)
    requires ChainOk(sha, canon, a) && a != [] && NoGenesisPreimage(sha, ChainInputs(canon, a))
    ensures Tail(a) != Genesis()
  {
    HashesAreHex(sha, canon, a, |a| - 1);
    assert HashInput(canon, a[|a| - 1]) in ChainInputs(canon, a);
  }

  /** Two intact chains with the same tail hash have the same length and the same contents. */
  lemma {:induction false} SameTailSameLedger(sha: Sha, canon: Canon, a: seq<Entry>, b: seq<Entry>)
    requires ChainOk(sha, canon, a) && ChainOk(sha, canon, b)
    requires CollisionFree(sha, ChainInputs(canon, a) + ChainInputs(canon, b))
    requires NoGenesisPreimage(sha, ChainInputs(canon, a) + ChainInputs(canon, b))
    requires Tail(a) == Tail(b)
    ensures SameLedger(canon, a, b)
    decreases |a|
  {
    if a == [] || b == [] {
      if a != [] { TailIsNotGenesis(sha, canon, a); }
      if b != [] { TailIsNotGenesis(sha, canon, b); }
    } else {
      var i, j := |a| - 1, |b| - 1;
      SameHashSameEntry(sha, canon, a, i, b, j);
      HashesAreHex(sha, canon, a, i);
      HashesAreHex(sha, canon, b, j);
      ChainOkPrefix(sha, canon, a, i);
      ChainOkPrefix(sha, canon, b, j);
      assert ChainInputs(canon, a[..i]) <= ChainInputs(canon, a);
      assert ChainInputs(canon, b[..j]) <= ChainInputs(canon, b);
      SameTailSameLedger(sha, canon, a[..i], b[..j]);
      SameLedgerSnoc(canon, a, b);
    }
  }

  lemma SameLedgerSnoc(canon: Canon, a: seq<Entry>, b: seq<Entry>)
    requires a != [] && b != [] && SameLedger(canon, a[..|a| - 1], b[..|b| - 1])
    requires SameContent(canon, a[|a| - 1], b[|b| - 1])
    ensures SameLedger(canon, a, b)
  {
    var n := |a| - 1;
    forall k | 0 <= k < |a|
      ensures SameContent(canon, a[k], b[k])
    {
      if k < n {
        assert SameContent(canon, a[..n][k], b[..n][k]);
      }
    }
  }
}
