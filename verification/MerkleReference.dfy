/** Roots and accepted proofs in the words of RFC 6962 section 2.1, without the functions that compute
    them: hex digits, the prefixes 0 and 1, and powers of two. */
module MerkleReference {
  import opened Hashing
  import opened Hex
  import opened Ledger
  import opened MerkleProofs
  import opened MerkleTheorems
  import opened MerkleTree
  import opened Wrappers

  // ---- Hex -----------------------------------------------------------------------------------

  const LOWER := "0123456789abcdef"
  const UPPER := "0123456789ABCDEF"

  ghost predicate IsDigit(c: byte, v: int)
  {
    0 <= v < 16 && (c as char == LOWER[v] || c as char == UPPER[v])
  }

  /** Two digits of either case for each byte. */
  ghost predicate IsHexOf(s: Bytes, b: Bytes)
  {
    |s| == 2 * |b| && forall i | 0 <= i < |b| :: IsDigit(s[2 * i], b[i] / 16) && IsDigit(s[2 * i + 1], b[i] % 16)
  }

  lemma DigitValueIs(c: byte, v: int)
    ensures DigitValue(c) == Some(v) <==> IsDigit(c, v)
  {
  }

  lemma HexFromSecond(s: Bytes, b: Bytes)
    requires |s| >= 2 && b != []
    ensures IsHexOf(s, b) <==> IsDigit(s[0], b[0] / 16) && IsDigit(s[1], b[0] % 16) && IsHexOf(s[2..], b[1..])
  {
    if IsHexOf(s[2..], b[1..]) && IsDigit(s[0], b[0] / 16) && IsDigit(s[1], b[0] % 16) {
      forall i | 0 <= i < |b|
        ensures IsDigit(s[2 * i], b[i] / 16) && IsDigit(s[2 * i + 1], b[i] % 16)
      {
        if i > 0 {
          assert s[2..][2 * (i - 1)] == s[2 * i] && s[2..][2 * (i - 1) + 1] == s[2 * i + 1] && b[1..][i - 1] == b[i];
        }
      }
    }
    if IsHexOf(s, b) {
      assert IsDigit(s[2 * 0], b[0] / 16) && IsDigit(s[2 * 0 + 1], b[0] % 16);
      forall i | 0 <= i < |b| - 1
        ensures IsDigit(s[2..][2 * i], b[1..][i] / 16) && IsDigit(s[2..][2 * i + 1], b[1..][i] % 16)
      {
        assert s[2..][2 * i] == s[2 * (i + 1)] && s[2..][2 * i + 1] == s[2 * (i + 1) + 1];
      }
    }
  }

  lemma TwoDigits(hi: int, lo: int, b: byte)
    requires 0 <= hi < 16 && 0 <= lo < 16
    ensures b == 16 * hi + lo <==> hi == b / 16 && lo == b % 16
  {
  }

  lemma SameFromSecond(x: byte, xs: Bytes, b: Bytes)
    requires b != []
    ensures [x] + xs == b <==> x == b[0] && xs == b[1..]
  {
    assert b == [b[0]] + b[1..];
    assert ([x] + xs)[0] == x && ([x] + xs)[1..] == xs;
  }

  lemma DecodeFromSecond(s: Bytes, b: Bytes)
    requires |s| >= 2 && b != []
    ensures Decode(s) == Some(b) <==>
      DigitValue(s[0]) == Some(b[0] / 16) && DigitValue(s[1]) == Some(b[0] % 16) && Decode(s[2..]) == Some(b[1..])
  {
    var hi, lo, rest := DigitValue(s[0]), DigitValue(s[1]), Decode(s[2..]);
    if hi.Some? && lo.Some? && rest.Some? {
      TwoDigits(hi.value, lo.value, b[0]);
      SameFromSecond(16 * hi.value + lo.value, rest.value, b);
    }
  }

  /** Decoding reads exactly the texts of two digits a byte. */
  lemma {:induction false} DecodeReadsHex(s: Bytes, b: Bytes)
    ensures Decode(s) == Some(b) <==> IsHexOf(s, b)
    decreases |s|
  {
    if |s| >= 2 && b != [] {
      DecodeReadsHex(s[2..], b[1..]);
      DigitValueIs(s[0], b[0] / 16);
      DigitValueIs(s[1], b[0] % 16);
      DecodeFromSecond(s, b);
      HexFromSecond(s, b);
    } else {
      DecodeOfFew(s, b);
    }
  }

  lemma DecodeOfFew(s: Bytes, b: Bytes)
    requires |s| < 2 || b == []
    ensures Decode(s) == Some(b) <==> s == [] && b == []
  {
  }

  /** Encoding writes the lower-case ones. */
  lemma {:induction false} EncodeWritesLower(b: Bytes, i: nat)
    requires i < |b|
    ensures Encode(b)[2 * i] as char == LOWER[b[i] / 16] && Encode(b)[2 * i + 1] as char == LOWER[b[i] % 16]
  {
    if i > 0 {
      EncodeWritesLower(b[1..], i - 1);
    }
  }

  // ---- The root ----------------------------------------------------------------------------------

  /** What a leaf commits to: the bytes its hash is the hex of, or the hash as it stands if it is not hex. */
  ghost predicate Commits(hash: Bytes, data: Bytes)
  {
    IsHexOf(hash, data) || (data == hash && forall b :: !IsHexOf(hash, b))
  }

  lemma LeafDataIs(e: Entry, data: Bytes)
    ensures LeafData(e) == data <==> Commits(e.hash, data)
  {
    DecodeReadsHex(e.hash, LeafData(e));
    DecodeReadsHex(e.hash, data);
    if Decode(e.hash).None? {
      forall b
        ensures !IsHexOf(e.hash, b)
      {
        DecodeReadsHex(e.hash, b);
      }
    }
  }

  ghost predicate CommitsAll(entries: seq<Entry>, data: seq<Bytes>)
  {
    |data| == |entries| && forall i | 0 <= i < |data| :: Commits(entries[i].hash, data[i])
  }

  /** The root of a larger log is the hash of 1 and the roots of its two parts. */
  ghost predicate IsNodeOver(sha: Sha, root: Bytes, left: Bytes, right: Bytes)
  {
    exists l: Digest, r: Digest :: left == Encode(l) && right == Encode(r) && root == Encode(sha([1] + l + r))
  }

  /** The root is the Merkle tree hash of what the entries commit to: the hash of nothing, of 0 and the
      data, or of 1 and the roots of the two parts, cut at the largest power of two below the size. */
  lemma RootIsTreeHash(sha: Sha, entries: seq<Entry>, data: seq<Bytes>, k: nat)
    requires CommitsAll(entries, data)
    ensures |data| == 0 ==> MerkleRoot(sha, entries) == Encode(sha([]))
    ensures |data| == 1 ==> MerkleRoot(sha, entries) == Encode(sha([0] + data[0]))
    ensures IsPow2(k) && k < |data| <= 2 * k ==>
      IsNodeOver(sha, MerkleRoot(sha, entries), MerkleRoot(sha, entries[..k]), MerkleRoot(sha, entries[k..]))
  {
    var leaves := LeafHashes(sha, entries);
    if |data| == 1 {
      LeafDataIs(entries[0], data[0]);
    } else if IsPow2(k) && k < |data| <= 2 * k {
      SplitUnique(|data|, k);
      assert LeafHashes(sha, entries[..k]) == leaves[..k] && LeafHashes(sha, entries[k..]) == leaves[k..];
      var l, r := TreeHash(sha, leaves[..k]), TreeHash(sha, leaves[k..]);
      assert MerkleRoot(sha, entries) == Encode(sha([1] + l + r));
    }
  }

  // ---- What is accepted ------------------------------------------------------------------------------

  ghost predicate IsDigestHex(s: Bytes) { exists d: Digest :: IsHexOf(s, d) }

  lemma DecodeDigestReadsHex(s: Bytes)
    ensures DecodeDigest(s).Some? <==> IsDigestHex(s)
    ensures DecodeDigest(s).Some? ==> IsHexOf(s, DecodeDigest(s).value)
  {
    if DecodeDigest(s).Some? {
      DecodeReadsHex(s, DecodeDigest(s).value);
    }
    if d: Digest :| IsHexOf(s, d) {
      DecodeReadsHex(s, d);
    }
  }

  /** Node for node the hex of the digests. */
  ghost predicate Spells(path: seq<Bytes>, nodes: seq<Digest>)
  {
    |path| == |nodes| && forall i | 0 <= i < |path| :: IsHexOf(path[i], nodes[i])
  }

  lemma SpellsIffDecodes(path: seq<Bytes>, nodes: seq<Digest>)
    ensures Spells(path, nodes) <==> AllDigests(path) && DecodeAll(path) == nodes
  {
    forall i | 0 <= i < |path|
      ensures DecodeDigest(path[i]).Some? <==> IsDigestHex(path[i])
      ensures DecodeDigest(path[i]).Some? ==> IsHexOf(path[i], DecodeDigest(path[i]).value)
      ensures i < |nodes| && IsHexOf(path[i], nodes[i]) ==> DecodeDigest(path[i]) == Some(nodes[i])
    {
      DecodeDigestReadsHex(path[i]);
      if i < |nodes| {
        DecodeReadsHex(path[i], nodes[i]);
      }
    }
  }

  ghost predicate SameData(a: Entry, b: Entry)
  {
    exists data :: Commits(a.hash, data) && Commits(b.hash, data)
  }

  lemma SameDataIs(a: Entry, b: Entry)
    ensures SameData(a, b) <==> LeafData(a) == LeafData(b)
  {
    LeafDataIs(a, LeafData(a));
    LeafDataIs(b, LeafData(a));
    if data :| Commits(a.hash, data) && Commits(b.hash, data) {
      LeafDataIs(a, data);
      LeafDataIs(b, data);
    }
  }

  /** The index is in range and the path has the length the tree size predicts. */
  predicate Fits(proof: InclusionProof)
  {
    0 <= proof.leafIndex < proof.treeSize && |proof.auditPath| == |Sides(proof.leafIndex, proof.treeSize)|
  }

  /** Against the root of a log an inclusion proof for its size is accepted exactly if its index is in
      range, the entry commits to the data logged there, and the path spells the generator's. */
  lemma InclusionAcceptedIff(sha: Sha, entries: seq<Entry>, e: Entry, proof: InclusionProof)
    requires proof.treeSize == |entries|
    requires Fits(proof) ==> CollisionFree(sha, InclusionInputs(sha, entries, e, proof))
    ensures AcceptsInclusion(sha, e, proof, MerkleRoot(sha, entries))
       <==> && 0 <= proof.leafIndex < |entries| && SameData(e, entries[proof.leafIndex])
            && Spells(proof.auditPath, InclusionPath(sha, proof.leafIndex, LeafHashes(sha, entries)))
  {
    var leaves := LeafHashes(sha, entries);
    if 0 <= proof.leafIndex < |entries| {
      var path := InclusionPath(sha, proof.leafIndex, leaves);
      SpellsIffDecodes(proof.auditPath, path);
      SameDataIs(e, entries[proof.leafIndex]);
      InclusionPathFolds(sha, proof.leafIndex, leaves);
      if AcceptsInclusion(sha, e, proof, MerkleRoot(sha, entries)) {
        InclusionSound(sha, entries, e, proof);
      }
    }
  }

  /** Which requests for a proof are refused, and why. */
  lemma RefusalsAre(sha: Sha, entries: seq<Entry>, i: int)
    ensures MakeInclusionProof(sha, entries, i) == Err(EmptyLog) <==> entries == []
    ensures MakeInclusionProof(sha, entries, i) == Err(IndexOutOfRange) <==> entries != [] && (i < 0 || |entries| <= i)
    ensures MakeConsistencyProof(sha, i, entries) == Err(ConsistencyRange) <==> i < 0 || |entries| < i
  {
  }

  /** Two proofs that spell the same nodes for the same sizes are accepted alike. */
  lemma SpellingDoesNotMatter(
      sha: Sha, proof: ConsistencyProof, other: ConsistencyProof, nodes: seq<Digest>, oldRoot: Bytes, newRoot: Bytes)
    requires proof.oldSize == other.oldSize && proof.newSize == other.newSize
    requires Spells(proof.path, nodes) && Spells(other.path, nodes)
    ensures AcceptsConsistency(sha, proof, oldRoot, newRoot) <==> AcceptsConsistency(sha, other, oldRoot, newRoot)
  {
    SpellsIffDecodes(proof.path, nodes);
    SpellsIffDecodes(other.path, nodes);
  }

  lemma EncodedSpells(nodes: seq<Digest>)
    ensures Spells(EncodeAll(nodes), nodes)
  {
    DecodeAllEncodeAll(nodes);
    SpellsIffDecodes(EncodeAll(nodes), nodes);
  }

  ghost predicate SameDataUpTo(prior: seq<Entry>, later: seq<Entry>)
  {
    |prior| <= |later| && forall i | 0 <= i < |prior| :: SameData(prior[i], later[i])
  }

  lemma PrefixHasSameRoot(sha: Sha, prior: seq<Entry>, later: seq<Entry>)
    requires SameDataUpTo(prior, later)
    ensures MerkleRoot(sha, prior) == MerkleRoot(sha, later[..|prior|])
  {
    forall i | 0 <= i < |prior|
      ensures LeafHash(sha, prior[i]) == LeafHash(sha, later[i])
    {
      SameDataIs(prior[i], later[i]);
    }
    assert LeafHashes(sha, prior) == LeafHashes(sha, later[..|prior|]);
  }

  lemma AcceptedPathSpells(sha: Sha, proof: ConsistencyProof, oldRoot: Bytes, newRoot: Bytes)
    requires AcceptsConsistency(sha, proof, oldRoot, newRoot)
    ensures AllDigests(proof.path)
  {
  }

  /** Against the roots of two logs a consistency proof for their sizes is accepted exactly if the earlier log
      is a prefix of the later one in what the entries commit to, and the path spells the generator's. */
  lemma ConsistencyAcceptedIff(sha: Sha, prior: seq<Entry>, later: seq<Entry>, proof: ConsistencyProof)
    requires proof.oldSize == |prior| && proof.newSize == |later|
    requires CollisionFree(sha, ConsistencyInputs(sha, prior, later, proof))
    ensures AcceptsConsistency(sha, proof, MerkleRoot(sha, prior), MerkleRoot(sha, later))
       <==> && SameDataUpTo(prior, later)
            && Spells(proof.path, ConsistencyPath(sha, |prior|, LeafHashes(sha, later)))
  {
    if AcceptsConsistency(sha, proof, MerkleRoot(sha, prior), MerkleRoot(sha, later)) {
      ConsistencySound(sha, prior, later, proof);
      ConsistencyPathUnique(sha, prior, later, proof);
      AcceptedPathSpells(sha, proof, MerkleRoot(sha, prior), MerkleRoot(sha, later));
      SpellsIffDecodes(proof.path, ConsistencyPath(sha, |prior|, LeafHashes(sha, later)));
      forall i | 0 <= i < |prior|
        ensures SameData(prior[i], later[i])
      {
        SameDataIs(prior[i], later[i]);
      }
    } else if SameDataUpTo(prior, later) {
      var nodes := ConsistencyPath(sha, |prior|, LeafHashes(sha, later));
      PrefixHasSameRoot(sha, prior, later);
      ConsistencyComplete(sha, later, |prior|);
      EncodedSpells(nodes);
      if Spells(proof.path, nodes) {
        var generated := MakeConsistencyProof(sha, |prior|, later).value;
        SpellingDoesNotMatter(sha, proof, generated, nodes, MerkleRoot(sha, prior), MerkleRoot(sha, later));
      }
    }
  }

  /** From an empty log nothing about the new root is checked but that it is a digest, not even if the new
      log is empty too. */
  lemma FromEmptyAcceptedIff(sha: Sha, proof: ConsistencyProof, oldRoot: Bytes, newRoot: Bytes)
    requires proof.oldSize == 0 <= proof.newSize
    ensures AcceptsConsistency(sha, proof, oldRoot, newRoot)
       <==> proof.path == [] && oldRoot == Encode(sha([])) && IsDigestHex(newRoot)
  {
    DecodeDigestReadsHex(newRoot);
  }

  /** Whatever roots are claimed: the sizes are ordered, an empty old log has the empty root, equal sizes have
      equal roots, and a grown log has a path of digests. */
  lemma ConsistencyAcceptsOnly(sha: Sha, proof: ConsistencyProof, oldRoot: Bytes, newRoot: Bytes)
    requires AcceptsConsistency(sha, proof, oldRoot, newRoot)
    ensures 0 <= proof.oldSize <= proof.newSize && IsDigestHex(newRoot) && IsDigestHex(oldRoot)
    ensures proof.oldSize == 0 ==> proof.path == [] && oldRoot == Encode(sha([]))
    ensures 0 < proof.oldSize == proof.newSize ==> proof.path == [] && oldRoot == newRoot
    ensures 0 < proof.oldSize < proof.newSize ==>
      proof.path != [] && forall i | 0 <= i < |proof.path| :: IsDigestHex(proof.path[i])
  {
    DecodeDigestReadsHex(newRoot);
    DecodeDigestReadsHex(oldRoot);
    EncodedIsHex(sha([]));
    if 0 < proof.oldSize < proof.newSize {
      var (seed, rest) := Seed(proof.oldSize, oldRoot, DecodeAll(proof.path));
      EncodedIsHex(FoldOld(sha, seed, rest, SubProofSides(proof.oldSize, proof.newSize)));
      EncodedIsHex(FoldNew(sha, seed, rest, SubProofSides(proof.oldSize, proof.newSize)));
      forall i | 0 <= i < |proof.path|
        ensures IsDigestHex(proof.path[i])
      {
        DecodeDigestReadsHex(proof.path[i]);
      }
    }
  }

  lemma EncodedIsHex(d: Digest)
    ensures IsDigestHex(Encode(d))
  {
    DecodeEncode(d);
    DecodeReadsHex(Encode(d), d);
  }
}
