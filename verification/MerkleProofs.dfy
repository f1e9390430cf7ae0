/** Inclusion and consistency proofs over ledger entries: the generators, the two iterative
    verifiers, and the theorems joining them - every generated proof verifies, and every accepted
    proof means what it says. */
module MerkleProofs {
  import opened Hashing
  import opened Hex
  import opened Ledger
  import opened MerkleTree
  import opened Wrappers

  datatype ProofError = EmptyLog | IndexOutOfRange | ConsistencyRange

  datatype InclusionProof = InclusionProof(leafIndex: int, treeSize: int, auditPath: seq<Bytes>)

  datatype ConsistencyProof = ConsistencyProof(oldSize: int, newSize: int, path: seq<Bytes>)

  // ---- Leaves and roots --------------------------------------------------------------------

  /** The bytes a leaf commits to: the entry hash decoded from hex, or its raw text if it is not hex. */
  function LeafData(e: Entry): Bytes
  {
    match Decode(e.hash)
    case Some(data) => data
    case None => e.hash
  }

  function LeafHash(sha: Sha, e: Entry): Digest { sha(LeafInput(LeafData(e))) }

  function LeafHashes(sha: Sha, entries: seq<Entry>): (leaves: seq<Digest>)
    ensures |leaves| == |entries|
    ensures forall i | 0 <= i < |entries| :: leaves[i] == LeafHash(sha, entries[i])
  {
    seq(|entries|, i requires 0 <= i < |entries| => LeafHash(sha, entries[i]))
  }

  function MerkleRoot(sha: Sha, entries: seq<Entry>): Bytes
  {
    Encode(TreeHash(sha, LeafHashes(sha, entries)))
  }

  /** The root of an empty log, which the source spells as a literal. */
  function EmptyMerkleRoot(sha: Sha): Bytes { Encode(sha([])) }

  function EncodeAll(path: seq<Digest>): (hex: seq<Bytes>)
    ensures |hex| == |path|
    ensures forall i | 0 <= i < |path| :: hex[i] == Encode(path[i])
  {
    seq(|path|, i requires 0 <= i < |path| => Encode(path[i]))
  }

  predicate AllDigests(path: seq<Bytes>)
  {
    forall i | 0 <= i < |path| :: DecodeDigest(path[i]).Some?
  }

  /** A malformed string decodes to the zero array, as a fixed-size array that was never written. */
  function DigestOrZero(s: Bytes): Digest
  {
    match DecodeDigest(s)
    case Some(d) => d
    case None => ZeroDigest()
  }

  function DecodeAll(path: seq<Bytes>): (nodes: seq<Digest>)
    ensures |nodes| == |path|
    ensures forall i | 0 <= i < |path| :: nodes[i] == DigestOrZero(path[i])
  {
    seq(|path|, i requires 0 <= i < |path| => DigestOrZero(path[i]))
  }

  lemma DecodeAllEncodeAll(path: seq<Digest>)
    ensures AllDigests(EncodeAll(path)) && DecodeAll(EncodeAll(path)) == path
  {
    forall i | 0 <= i < |path|
      ensures DecodeDigest(EncodeAll(path)[i]) == Some(path[i])
    {
      DecodeEncode(path[i]);
    }
  }

  // ---- Generators --------------------------------------------------------------------------

  function MakeInclusionProof(sha: Sha, entries: seq<Entry>, i: int): Result<InclusionProof, ProofError>
  {
    if |entries| == 0 then Err(EmptyLog)
    else if i < 0 || i >= |entries| then Err(IndexOutOfRange)
    else Ok(InclusionProof(i, |entries|, EncodeAll(InclusionPath(sha, i, LeafHashes(sha, entries)))))
  }

  function ConsistencyPath(sha: Sha, m: nat, leaves: seq<Digest>): seq<Digest>
    requires m <= |leaves|
  {
    if m == 0 || m == |leaves| then [] else SubProof(sha, m, leaves, true)
  }

  function MakeConsistencyProof(sha: Sha, m: int, entries: seq<Entry>): Result<ConsistencyProof, ProofError>
  {
    if m < 0 || m > |entries| then Err(ConsistencyRange)
    else Ok(ConsistencyProof(m, |entries|, EncodeAll(ConsistencyPath(sha, m, LeafHashes(sha, entries)))))
  }

  // ---- What the verifiers accept -----------------------------------------------------------

  ghost predicate AcceptsInclusion(sha: Sha, e: Entry, proof: InclusionProof, root: Bytes)
  {
    && 0 <= proof.leafIndex < proof.treeSize
    && |proof.auditPath| == |Sides(proof.leafIndex, proof.treeSize)|
    && AllDigests(proof.auditPath)
    && Encode(FoldNew(sha, LeafHash(sha, e), DecodeAll(proof.auditPath),
                      Sides(proof.leafIndex, proof.treeSize))) == root
  }

  /** The node both running hashes of the consistency walk start from, and the nodes left to fold. */
  ghost function Seed(m: nat, oldRoot: Bytes, nodes: seq<Digest>): (Digest, seq<Digest>)
    requires nodes != []
  {
    if IsPow2(m) then (DigestOrZero(oldRoot), nodes) else (nodes[0], nodes[1..])
  }

  ghost predicate AcceptsConsistency(sha: Sha, proof: ConsistencyProof, oldRoot: Bytes, newRoot: Bytes)
  {
    var m, n := proof.oldSize, proof.newSize;
    if m < 0 || n < 0 || m > n then false
    else if m == 0 then proof.path == [] && oldRoot == EmptyMerkleRoot(sha) && DecodeDigest(newRoot).Some?
    else if m == n then proof.path == [] && oldRoot == newRoot && DecodeDigest(oldRoot).Some?
    else
      && AllDigests(proof.path) && proof.path != []
      && var (seed, rest) := Seed(m, oldRoot, DecodeAll(proof.path));
         var sides := SubProofSides(m, n);
         && |rest| == |sides|
         && Encode(FoldOld(sha, seed, rest, sides)) == oldRoot
         && Encode(FoldNew(sha, seed, rest, sides)) == newRoot
  }

  // ---- The iterative verifiers -------------------------------------------------------------

  /** The walk stands at node fn of a level whose last node is sn, with `sides` still to come. */
  ghost predicate WalkAt(fn: int, sn: int, sides: seq<Side>)
  {
    0 <= fn <= sn && sides == Sides(fn, sn + 1)
  }

  lemma WalkStep(fn: nat, sn: nat, sides: seq<Side>)
    requires WalkAt(fn, sn, sides) && sn > 0
    ensures fn % 2 == 0 && fn == sn ==> WalkAt(fn / 2, sn / 2, sides)
    ensures fn % 2 == 1 || fn < sn ==>
              && sides != [] && sides[0] == (if fn % 2 == 1 then OnLeft else OnRight)
              && WalkAt(fn / 2, sn / 2, sides[1..])
  {
    SidesHalve(fn, sn + 1);
  }

  /** The step after a left sibling: climb while the node is the unpaired last one of its level,
      then one level more. Both verifiers contain this loop and the shift after it. */
  method ClimbLeft(fn: nat, sn: nat, ghost sides: seq<Side>) returns (fn': nat, sn': nat)
    requires WalkAt(fn, sn, sides) && sn > 0 && (fn % 2 == 1 || fn == sn)
    ensures sides != [] && sides[0] == OnLeft && WalkAt(fn', sn', sides[1..])
  {
    fn', sn' := fn, sn;
    while fn' % 2 == 0 && fn' != 0
      invariant WalkAt(fn', sn', sides) && 0 < fn' && (fn' % 2 == 1 || fn' == sn')
      decreases fn'
    {
      WalkStep(fn', sn', sides);
      fn', sn' := fn' / 2, sn' / 2;
    }
    WalkStep(fn', sn', sides);
    fn', sn' := fn' / 2, sn' / 2;
  }

  method VerifyInclusion(sha: Sha, leafEntry: Entry, proof: InclusionProof, root: Bytes) returns (ok: bool)
    requires 0 <= proof.leafIndex < proof.treeSize ==> proof.treeSize <= MAX_TREE_SIZE
    ensures ok <==> AcceptsInclusion(sha, leafEntry, proof, root)
  {
    if proof.treeSize <= 0 || proof.leafIndex < 0 || proof.leafIndex >= proof.treeSize {
      return false;
    }
    SidesLength(proof.leafIndex, proof.treeSize);
    if |proof.auditPath| != InclusionPathLen(proof.leafIndex, proof.treeSize) {
      return false;
    }
    var acc := LeafHash(sha, leafEntry);
    var fn, sn := proof.leafIndex, proof.treeSize - 1;
    ghost var sides := Sides(fn, sn + 1);
    ghost var nodes := DecodeAll(proof.auditPath);
    ghost var target := FoldNew(sha, acc, nodes, sides);
    for i := 0 to |proof.auditPath|
      invariant WalkAt(fn, sn, sides) && |sides| == |nodes| - i
      invariant forall j | 0 <= j < i :: DecodeDigest(proof.auditPath[j]).Some?
      invariant FoldNew(sha, acc, nodes[i..], sides) == target
    {
      var sib := DecodeDigest(proof.auditPath[i]);
      if sib.None? {
        return false;
      }
      FoldStep(sha, acc, nodes, i, sides);
      if fn % 2 == 1 || fn == sn {
        acc := NodeHash(sha, sib.value, acc);
        fn, sn := ClimbLeft(fn, sn, sides);
      } else {
        acc := NodeHash(sha, acc, sib.value);
        WalkStep(fn, sn, sides);
        fn, sn := fn / 2, sn / 2;
      }
      sides := sides[1..];
    }
    return Encode(acc) == root;
  }

  lemma FoldStep(sha: Sha, acc: Digest, nodes: seq<Digest>, i: nat, sides: seq<Side>)
    requires i < |nodes| && sides != []
    ensures var next := if sides[0].OnLeft? then NodeHash(sha, nodes[i], acc) else NodeHash(sha, acc, nodes[i]);
            FoldNew(sha, acc, nodes[i..], sides) == FoldNew(sha, next, nodes[i + 1..], sides[1..])
    ensures var next := if sides[0].OnLeft? then NodeHash(sha, nodes[i], acc) else acc;
            FoldOld(sha, acc, nodes[i..], sides) == FoldOld(sha, next, nodes[i + 1..], sides[1..])
  {
    assert nodes[i..][1..] == nodes[i + 1..];
  }

  /** The verifier's first loop: from the last old leaf up to the root of the last complete subtree
      of the old tree. It ends at node 0 exactly when the old size is a power of two. */
  method SkipOldEdge(first: nat, second: nat) returns (fn: nat, sn: nat)
    requires 1 <= first < second
    ensures WalkAt(fn, sn, SubProofSides(first, second)) && sn > 0
    ensures fn == 0 <==> IsPow2(first)
  {
    fn, sn := first - 1, second - 1;
    ghost var sides, pow2 := SubProofSides(first, second), IsPow2(first);
    while fn % 2 == 1
      invariant OnEdge(fn, sn, sides, pow2)
      decreases fn
    {
      UpTheEdge(fn, sn, sides, pow2);
      fn, sn := fn / 2, sn / 2;
    }
    EndOfEdge(fn, sn, sides, pow2);
  }

  /** fn is the last node of the old tree at this level, whose size is a power of two or not like the
      old size itself, and the same sides are still ahead. */
  ghost predicate OnEdge(fn: nat, sn: nat, sides: seq<Side>, pow2: bool)
  {
    fn < sn && (pow2 <==> IsPow2(fn + 1)) && SubProofSides(fn + 1, sn + 1) == sides
  }

  lemma UpTheEdge(fn: nat, sn: nat, sides: seq<Side>, pow2: bool)
    requires OnEdge(fn, sn, sides, pow2) && fn % 2 == 1
    ensures OnEdge(fn / 2, sn / 2, sides, pow2)
  {
    HalvePow2(fn + 1, fn / 2 + 1);
    HalveEdge(fn + 1, sn + 1, fn / 2 + 1, sn / 2 + 1);
  }

  lemma EndOfEdge(fn: nat, sn: nat, sides: seq<Side>, pow2: bool)
    requires OnEdge(fn, sn, sides, pow2) && fn % 2 == 0
    ensures WalkAt(fn, sn, sides) && sn > 0 && (fn == 0 <==> pow2)
  {
    SubProofSidesOdd(fn + 1, sn + 1);
  }

  /** Up one level from the last leaf of an even old size. */
  lemma HalveEdge(m: nat, n: nat, m': nat, n': nat)
    requires 1 <= m < n && m == 2 * m' && n' == CeilHalf(n)
    ensures m' < n' && SubProofSides(m, n) == SubProofSides(m', n')
  {
    assert m / 2 == m';
    SubProofSidesHalve(m, n);
  }

  lemma HalvePow2(m: nat, m': nat)
    requires m == 2 * m' && m' > 0
    ensures IsPow2(m) <==> IsPow2(m')
  {
    assert m / 2 == m';
  }

  method VerifyConsistency(sha: Sha, proof: ConsistencyProof, oldRoot: Bytes, newRoot: Bytes) returns (ok: bool)
    ensures ok <==> AcceptsConsistency(sha, proof, oldRoot, newRoot)
  {
    var first, second := proof.oldSize, proof.newSize;
    if first < 0 || second < 0 || first > second {
      return false;
    }
    if first == 0 {
      if |proof.path| != 0 {
        return false;
      }
      return oldRoot == EmptyMerkleRoot(sha) && DecodeDigest(newRoot).Some?;
    }
    if first == second {
      return |proof.path| == 0 && oldRoot == newRoot && DecodeDigest(oldRoot).Some?;
    }
    if !AllDigests(proof.path) || |proof.path| == 0 {
      return false;
    }
    var path := DecodeAll(proof.path);

    var fn, sn := SkipOldEdge(first, second);
    var idx: nat;
    var fr: Digest;
    if fn == 0 {
      fr := DigestOrZero(oldRoot);
      idx := 0;
    } else {
      fr := path[0];
      idx := 1;
    }
    assert Seed(first, oldRoot, path) == (fr, path[idx..]);
    var fits, fr', sr' := FoldBoth(sha, path, idx, fn, sn, fr, SubProofSides(first, second));
    return fits && Encode(fr') == oldRoot && Encode(sr') == newRoot;
  }

  /** The verifier's second loop, from one seed towards both roots. It fits, and ends with both folds,
      exactly when there are as many nodes as sides. */
  method FoldBoth(
      sha: Sha, path: seq<Digest>, from: nat, fn0: nat, sn0: nat, seed: Digest, ghost sides0: seq<Side>)
      returns (fits: bool, fr: Digest, sr: Digest)
    requires from <= |path| && WalkAt(fn0, sn0, sides0)
    ensures fits <==> |path| - from == |sides0|
    ensures fits ==> fr == FoldOld(sha, seed, path[from..], sides0) && sr == FoldNew(sha, seed, path[from..], sides0)
  {
    var fn, sn, idx := fn0, sn0, from;
    fr, sr := seed, seed;
    ghost var sides := sides0;
    while idx < |path|
      invariant from <= idx <= |path| && WalkAt(fn, sn, sides) && |path| - idx - |sides| == |path| - from - |sides0|
      invariant FoldOld(sha, fr, path[idx..], sides) == FoldOld(sha, seed, path[from..], sides0)
      invariant FoldNew(sha, sr, path[idx..], sides) == FoldNew(sha, seed, path[from..], sides0)
    {
      var node := path[idx];
      WalkNonEmpty(fn, sn, sides);
      if sn == 0 {
        return false, fr, sr;
      }
      FoldStep(sha, fr, path, idx, sides);
      FoldStep(sha, sr, path, idx, sides);
      if fn % 2 == 1 || fn == sn {
        fr := NodeHash(sha, node, fr);
        sr := NodeHash(sha, node, sr);
        fn, sn := ClimbLeft(fn, sn, sides);
      } else {
        sr := NodeHash(sha, sr, node);
        WalkStep(fn, sn, sides);
        fn, sn := fn / 2, sn / 2;
      }
      idx, sides := idx + 1, sides[1..];
    }
    WalkNonEmpty(fn, sn, sides);
    assert path[idx..] == [];
    fits := sn == 0;
  }

  lemma WalkNonEmpty(fn: nat, sn: nat, sides: seq<Side>)
    requires WalkAt(fn, sn, sides)
    ensures sides == [] <==> sn == 0
  {
  }
}
