/** The sticky-halt seal: which ledgers forbid resuming a cycle. */
module Seal {
  import opened CycleTypes
  import opened Ledger
  import opened Wrappers

  function ParseHaltReasonOrStuck(summary: string): HaltReason
  {
    var reason := ParseHaltReason(summary);
    if reason.Some? then reason.value else STUCK
  }

  /** Read from the end: the seal is decided by the last entry that is a halt or a green. */
  function SealReason(entries: seq<Entry>): Option<HaltReason>
  {
    if entries == [] then None
    else
      var last := entries[|entries| - 1];
      if last.typ.CycleHalted? then Some(ParseHaltReasonOrStuck(last.summary))
      else if last.typ.ValidationGreen? then None
      else SealReason(entries[..|entries| - 1])
  }

  predicate Sealed(entries: seq<Entry>) { SealReason(entries).Some? }

  /** A halt at h with neither a halt nor a green behind it. */
  ghost predicate SealedAt(entries: seq<Entry>, h: nat)
  {
    && h < |entries| && entries[h].typ.CycleHalted?
    && forall j | h < j < |entries| :: !entries[j].typ.CycleHalted? && !entries[j].typ.ValidationGreen?
  }

  /** The seal holds exactly when the last halt has no later green, and reports that halt's reason. */
  lemma {:induction false} SealIsLastHaltWithoutGreen(entries: seq<Entry>)
    ensures Sealed(entries) <==> exists h: nat :: SealedAt(entries, h)
    ensures forall h: nat | SealedAt(entries, h) ::
      SealReason(entries) == Some(ParseHaltReasonOrStuck(entries[h].summary))
  {
    if entries != [] {
      var n := |entries| - 1;
      var shorter := entries[..n];
      var typ := entries[n].typ;
      if typ.CycleHalted? {
        assert SealedAt(entries, n);
      } else if !typ.ValidationGreen? {
        SealIsLastHaltWithoutGreen(shorter);
        forall h: nat
          ensures SealedAt(entries, h) <==> SealedAt(shorter, h)
        {
          if SealedAt(entries, h) { assert SealedAt(shorter, h); }
          if SealedAt(shorter, h) {
            forall j | h < j < |entries|
              ensures !entries[j].typ.CycleHalted? && !entries[j].typ.ValidationGreen?
            {
              if j < n { assert entries[j] == shorter[j]; }
            }
          }
        }
      }
    }
  }

  /** The single forward pass. */
  method LedgerSealsResume(entries: seq<Entry>) returns (reason: Option<HaltReason>)
    ensures reason == SealReason(entries)
  {
    var lastHaltIdx := -1;
    var lastHaltReason: HaltReason := "";
    var greenAfterHalt := false;
    for i := 0 to |entries|
      invariant -1 <= lastHaltIdx < i
      invariant SealReason(entries[..i]) == if lastHaltIdx < 0 || greenAfterHalt then None else Some(lastHaltReason)
    {
      var e := entries[i];
      assert entries[..i + 1][..i] == entries[..i];
      if e.typ.CycleHalted? {
        lastHaltIdx := i;
        lastHaltReason := ParseHaltReasonOrStuck(e.summary);
        greenAfterHalt := false;
      } else if e.typ.ValidationGreen? {
        if lastHaltIdx >= 0 { greenAfterHalt := true; }
      }
    }
    assert entries[..|entries|] == entries;
    if lastHaltIdx < 0 { return None; }
    if greenAfterHalt { return None; }
    return Some(lastHaltReason);
  }

  /** Entries that are neither halts nor greens leave the seal as it is. */
  lemma {:induction false} SealIgnores(entries: seq<Entry>, more: seq<Entry>)
    requires forall e | e in more :: !e.typ.CycleHalted? && !e.typ.ValidationGreen?
    ensures SealReason(entries + more) == SealReason(entries)
  {
    if more == [] {
      assert entries + more == entries;
    } else {
      var n := |more| - 1;
      assert (entries + more)[..|entries| + n] == entries + more[..n];
      assert more[n] in more;
      SealIgnores(entries, more[..n]);
    }
  }
}
