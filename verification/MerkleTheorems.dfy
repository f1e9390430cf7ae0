/** The two directions of the Merkle layer: every generated proof is accepted (completeness), and
    every accepted proof means what it says (soundness) - for any path a prover supplies. */
module MerkleTheorems {
  import opened Hashing
  import opened Hex
  import opened Ledger
  import opened MerkleProofs
  import opened MerkleTree
  import opened Wrappers

  // ---- Completeness ------------------------------------------------------------------------

  /** The audit path folds the leaf back to the root. */
  lemma {:induction false} InclusionPathFolds(sha: Sha, m: nat, leaves: seq<Digest>)
    requires m < |leaves|
    ensures RebuildsRoot(sha, leaves[m], InclusionPath(sha, m, leaves), Sides(m, |leaves|), leaves)
    decreases |leaves|
  {
    if |leaves| > 1 {
      var k := Split(|leaves|);
      var left, right := leaves[..k], leaves[k..];
      if m < k {
        InclusionPathFolds(sha, m, left);
        RebuildFromLeft(sha, leaves[m], InclusionPath(sha, m, left), Sides(m, k), leaves, k);
      } else {
        InclusionPathFolds(sha, m - k, right);
        RebuildFromRight(sha, leaves[m], InclusionPath(sha, m - k, right), Sides(m - k, |right|), leaves, k);
      }
    }
  }

  /** Folding the path over the leaf gives the tree's root. */
  ghost predicate RebuildsRoot(sha: Sha, leaf: Digest, path: seq<Digest>, sides: seq<Side>, leaves: seq<Digest>)
  {
    |path| == |sides| && FoldNew(sha, leaf, path, sides) == TreeHash(sha, leaves)
  }

  lemma RebuildFromLeft(sha: Sha, leaf: Digest, path: seq<Digest>, sides: seq<Side>, leaves: seq<Digest>, k: nat)
    requires |leaves| >= 2 && k == Split(|leaves|) && RebuildsRoot(sha, leaf, path, sides, leaves[..k])
    ensures RebuildsRoot(sha, leaf, path + [TreeHash(sha, leaves[k..])], sides + [OnRight], leaves)
  {
    FoldSnoc(sha, leaf, path, sides, TreeHash(sha, leaves[k..]), OnRight);
  }

  lemma RebuildFromRight(sha: Sha, leaf: Digest, path: seq<Digest>, sides: seq<Side>, leaves: seq<Digest>, k: nat)
    requires |leaves| >= 2 && k == Split(|leaves|) && RebuildsRoot(sha, leaf, path, sides, leaves[k..])
    ensures RebuildsRoot(sha, leaf, path + [TreeHash(sha, leaves[..k])], sides + [OnLeft], leaves)
  {
    FoldSnoc(sha, leaf, path, sides, TreeHash(sha, leaves[..k]), OnLeft);
  }

  /** Every index of a non-empty log gets a proof that is accepted against the log's root, with
      exactly the predicted and logarithmically many siblings. Other indices get an error. */
  lemma InclusionComplete(sha: Sha, entries: seq<Entry>, i: int)
    ensures MakeInclusionProof(sha, entries, i).Ok? <==> 0 <= i < |entries|
    ensures 0 <= i < |entries| ==>
              var proof := MakeInclusionProof(sha, entries, i).value;
              && AcceptsInclusion(sha, entries[i], proof, MerkleRoot(sha, entries))
              && |proof.auditPath| == InclusionPathLen(i, |entries|) <= CeilLog2(|entries|)
  {
    if 0 <= i < |entries| {
      var leaves := LeafHashes(sha, entries);
      InclusionPathFolds(sha, i, leaves);
      DecodeAllEncodeAll(InclusionPath(sha, i, leaves));
      SidesLength(i, |entries|);
      SidesBound(i, |entries|);
    }
  }

  /** The root of the subtree where SUBPROOF stops recursing. */
  function BaseHash(sha: Sha, m: nat, leaves: seq<Digest>): Digest
    requires 1 <= m <= |leaves|
    decreases |leaves|
  {
    if m == |leaves| then TreeHash(sha, leaves)
    else
      var k := Split(|leaves|);
      if m <= k then BaseHash(sha, m, leaves[..k]) else BaseHash(sha, m - k, leaves[k..])
  }

  /** The nodes SUBPROOF appends above that subtree. */
  function AboveBase(sha: Sha, m: nat, leaves: seq<Digest>): (path: seq<Digest>)
    requires 1 <= m <= |leaves|
    decreases |leaves|
  {
    if m == |leaves| then []
    else
      var k := Split(|leaves|);
      if m <= k
      then AboveBase(sha, m, leaves[..k]) + [TreeHash(sha, leaves[k..])]
      else AboveBase(sha, m - k, leaves[k..]) + [TreeHash(sha, leaves[..k])]
  }

  /** SUBPROOF carries the base root exactly when the verifier cannot seed from the old root. */
  lemma {:induction false} SubProofShape(sha: Sha, m: nat, leaves: seq<Digest>, b: bool)
    requires 1 <= m <= |leaves|
    ensures SubProof(sha, m, leaves, b) ==
            (if b && (m == |leaves| || IsPow2(m)) then [] else [BaseHash(sha, m, leaves)])
            + AboveBase(sha, m, leaves)
    decreases |leaves|
  {
    var n := |leaves|;
    if m < n {
      var k := Split(n);
      SplitIsPow2(n);
      if m <= k {
        SubProofShape(sha, m, leaves[..k], b);
      } else {
        if IsPow2(m) { SplitUnique(n, m); }
        SubProofShape(sha, m - k, leaves[k..], false);
      }
    }
  }

  ghost predicate FoldsTo(sha: Sha, seed: Digest, path: seq<Digest>, sides: seq<Side>, prior: seq<Digest>,
      later: seq<Digest>)
  {
    && |path| == |sides|
    && FoldOld(sha, seed, path, sides) == TreeHash(sha, prior)
    && FoldNew(sha, seed, path, sides) == TreeHash(sha, later)
  }

  lemma ExtendRight(sha: Sha, seed: Digest, path: seq<Digest>, sides: seq<Side>, prior: seq<Digest>,
      later: seq<Digest>, k: nat)
    requires |later| >= 2 && k == Split(|later|) && FoldsTo(sha, seed, path, sides, prior, later[..k])
    ensures FoldsTo(sha, seed, path + [TreeHash(sha, later[k..])], sides + [OnRight], prior, later)
  {
    FoldSnoc(sha, seed, path, sides, TreeHash(sha, later[k..]), OnRight);
  }

  lemma ExtendLeft(sha: Sha, seed: Digest, path: seq<Digest>, sides: seq<Side>, prior: seq<Digest>,
      later: seq<Digest>, k: nat)
    requires |later| >= 2 && k == Split(|later|) && |prior| >= 2 && k == Split(|prior|)
    requires prior[..k] == later[..k] && FoldsTo(sha, seed, path, sides, prior[k..], later[k..])
    ensures FoldsTo(sha, seed, path + [TreeHash(sha, later[..k])], sides + [OnLeft], prior, later)
  {
    FoldSnoc(sha, seed, path, sides, TreeHash(sha, later[..k]), OnLeft);
  }

  /** Folding from the base rebuilds both the old root and the new root. */
  lemma {:induction false} AboveBaseFolds(sha: Sha, m: nat, leaves: seq<Digest>)
    requires 1 <= m <= |leaves|
    ensures FoldsTo(
      sha, BaseHash(sha, m, leaves), AboveBase(sha, m, leaves), SubProofSides(m, |leaves|), leaves[..m], leaves)
    decreases |leaves|
  {
    var n := |leaves|;
    if m == n {
      assert leaves[..m] == leaves;
    } else {
      var k := Split(n);
      var base := BaseHash(sha, m, leaves);
      if m <= k {
        AboveBaseFolds(sha, m, leaves[..k]);
        assert leaves[..k][..m] == leaves[..m];
        ExtendRight(sha, base, AboveBase(sha, m, leaves[..k]), SubProofSides(m, k), leaves[..m], leaves, k);
      } else {
        AboveBaseFolds(sha, m - k, leaves[k..]);
        SplitOfPrefix(m, n);
        assert leaves[..m][k..] == leaves[k..][..m - k] && leaves[..m][..k] == leaves[..k];
        ExtendLeft(sha, base, AboveBase(sha, m - k, leaves[k..]), SubProofSides(m - k, n - k), leaves[..m], leaves, k);
      }
    }
  }

  /** At a power of two the base is the whole old tree. */
  lemma {:induction false} BaseAtPow2(sha: Sha, m: nat, leaves: seq<Digest>)
    requires 1 <= m < |leaves| && IsPow2(m)
    ensures BaseHash(sha, m, leaves) == TreeHash(sha, leaves[..m])
    decreases |leaves|
  {
    var n := |leaves|;
    var k := Split(n);
    SplitIsPow2(n);
    if m > k { SplitUnique(n, m); }
    if m < k { BaseAtPow2(sha, m, leaves[..k]); }
    assert leaves[..k][..m] == leaves[..m];
  }

  /** For every old size of every log the generated proof is accepted against the two roots and has
      at most ceil(log2 n) + 1 nodes. Sizes outside the log get an error. */
  lemma ConsistencyComplete(sha: Sha, entries: seq<Entry>, m: int)
    ensures MakeConsistencyProof(sha, m, entries).Ok? <==> 0 <= m <= |entries|
    ensures 0 <= m <= |entries| ==>
              var proof := MakeConsistencyProof(sha, m, entries).value;
              && AcceptsConsistency(sha, proof, MerkleRoot(sha, entries[..m]), MerkleRoot(sha, entries))
              && (|entries| > 0 ==> |proof.path| <= CeilLog2(|entries|) + 1)
  {
    if 0 <= m <= |entries| {
      var leaves := LeafHashes(sha, entries);
      var path := ConsistencyPath(sha, m, leaves);
      assert LeafHashes(sha, entries[..m]) == leaves[..m];
      DecodeAllEncodeAll(path);
      DecodeEncode(TreeHash(sha, leaves));
      DecodeEncode(TreeHash(sha, leaves[..m]));
      if m == |entries| {
        assert leaves[..m] == leaves;
      } else if m > 0 {
        SubProofShape(sha, m, leaves, true);
        AboveBaseFolds(sha, m, leaves);
        SubProofSidesBound(m, |leaves|);
        if IsPow2(m) { BaseAtPow2(sha, m, leaves); }
        assert path[0..] == path;
      }
    }
  }

  // ---- The inputs a run hashes -------------------------------------------------------------

  ghost function TreeInputs(sha: Sha, leaves: seq<Digest>): set<Bytes>
    decreases |leaves|
  {
    if |leaves| <= 1 then {}
    else
      var k := Split(|leaves|);
      {NodeInput(TreeHash(sha, leaves[..k]), TreeHash(sha, leaves[k..]))}
      + TreeInputs(sha, leaves[..k]) + TreeInputs(sha, leaves[k..])
  }

  function StepInput(acc: Digest, p: Digest, s: Side): Bytes
  {
    if s.OnLeft? then NodeInput(p, acc) else NodeInput(acc, p)
  }

  /** What step i of the new-root fold hashes. */
  function NewInputAt(sha: Sha, acc: Digest, path: seq<Digest>, sides: seq<Side>, i: nat): Bytes
    requires i < |path| == |sides|
  {
    StepInput(FoldNew(sha, acc, path[..i], sides[..i]), path[i], sides[i])
  }

  function OldInputAt(sha: Sha, acc: Digest, path: seq<Digest>, sides: seq<Side>, i: nat): Bytes
    requires i < |path| == |sides|
  {
    StepInput(FoldOld(sha, acc, path[..i], sides[..i]), path[i], sides[i])
  }

  ghost function FoldNewInputs(sha: Sha, acc: Digest, path: seq<Digest>, sides: seq<Side>): set<Bytes>
    requires |path| == |sides|
  {
    set i | 0 <= i < |path| :: NewInputAt(sha, acc, path, sides, i)
  }

  /** The old-root fold hashes at left siblings only. */
  ghost function FoldOldInputs(sha: Sha, acc: Digest, path: seq<Digest>, sides: seq<Side>): set<Bytes>
    requires |path| == |sides|
  {
    set i | 0 <= i < |path| && sides[i].OnLeft? :: OldInputAt(sha, acc, path, sides, i)
  }

  ghost function LeafInputs(entries: seq<Entry>): set<Bytes>
  {
    set e | e in entries :: LeafInput(LeafData(e))
  }

  /** Peeling the outermost node off a fold: the inner fold's inputs are among the outer one's. */
  lemma FoldInputsSnoc(sha: Sha, acc: Digest, path: seq<Digest>, sides: seq<Side>, p: Digest, s: Side)
    requires |path| == |sides|
    ensures FoldNewInputs(sha, acc, path, sides) <= FoldNewInputs(sha, acc, path + [p], sides + [s])
    ensures FoldOldInputs(sha, acc, path, sides) <= FoldOldInputs(sha, acc, path + [p], sides + [s])
    ensures StepInput(FoldNew(sha, acc, path, sides), p, s) in FoldNewInputs(sha, acc, path + [p], sides + [s])
    ensures s.OnLeft? ==>
              StepInput(FoldOld(sha, acc, path, sides), p, s) in FoldOldInputs(sha, acc, path + [p], sides + [s])
  {
    var q, t, n := path + [p], sides + [s], |path|;
    assert q[..n] == path && t[..n] == sides;
    assert NewInputAt(sha, acc, q, t, n) in FoldNewInputs(sha, acc, q, t);
    if s.OnLeft? {
      assert OldInputAt(sha, acc, q, t, n) in FoldOldInputs(sha, acc, q, t);
    }
    forall i | 0 <= i < n
      ensures NewInputAt(sha, acc, path, sides, i) == NewInputAt(sha, acc, q, t, i)
      ensures OldInputAt(sha, acc, path, sides, i) == OldInputAt(sha, acc, q, t, i)
    {
      assert q[..i] == path[..i] && t[..i] == sides[..i];
    }
  }

  lemma NodeHashInjective(sha: Sha, inputs: set<Bytes>, l1: Digest, r1: Digest, l2: Digest, r2: Digest)
    requires CollisionFree(sha, inputs) && NodeInput(l1, r1) in inputs && NodeInput(l2, r2) in inputs
    requires NodeHash(sha, l1, r1) == NodeHash(sha, l2, r2)
    ensures l1 == l2 && r1 == r2
  {
    assert NoCollision(sha, NodeInput(l1, r1), NodeInput(l2, r2));
    InputsInjective(l1, r1, l2, r2);
  }

  // ---- Soundness ---------------------------------------------------------------------------

  /** Two trees of the same size with the same root have the same leaves. */
  lemma {:induction false} SameTreeSameLeaves(sha: Sha, inputs: set<Bytes>, a: seq<Digest>, b: seq<Digest>)
    requires CollisionFree(sha, inputs) && TreeInputs(sha, a) <= inputs && TreeInputs(sha, b) <= inputs
    requires |a| == |b| && TreeHash(sha, a) == TreeHash(sha, b)
    ensures a == b
    decreases |a|
  {
    if |a| > 1 {
      var k := Split(|a|);
      NodeHashInjective(
        sha, inputs, TreeHash(sha, a[..k]), TreeHash(sha, a[k..]), TreeHash(sha, b[..k]), TreeHash(sha, b[k..]));
      SameTreeSameLeaves(sha, inputs, a[..k], b[..k]);
      SameTreeSameLeaves(sha, inputs, a[k..], b[k..]);
      assert a == a[..k] + a[k..] && b == b[..k] + b[k..];
    }
  }

  /** The fold of a path reaches a tree's root, hashing only known inputs. */
  ghost predicate NewReaches(sha: Sha, inputs: set<Bytes>, seed: Digest, path: seq<Digest>, sides: seq<Side>,
      tree: seq<Digest>)
  {
    && |path| == |sides| && FoldNewInputs(sha, seed, path, sides) <= inputs
    && FoldNew(sha, seed, path, sides) == TreeHash(sha, tree) && TreeInputs(sha, tree) <= inputs
  }

  ghost predicate OldReaches(sha: Sha, inputs: set<Bytes>, seed: Digest, path: seq<Digest>, sides: seq<Side>,
      tree: seq<Digest>)
  {
    && |path| == |sides| && FoldOldInputs(sha, seed, path, sides) <= inputs
    && FoldOld(sha, seed, path, sides) == TreeHash(sha, tree) && TreeInputs(sha, tree) <= inputs
  }

  /** The outermost node of a path that reaches the root is the root's other child. */
  lemma PeelNew(sha: Sha, inputs: set<Bytes>, seed: Digest, path: seq<Digest>, p: Digest, sides: seq<Side>, s: Side,
      tree: seq<Digest>, k: nat)
    requires CollisionFree(sha, inputs) && |tree| >= 2 && k == Split(|tree|)
    requires NewReaches(sha, inputs, seed, path + [p], sides + [s], tree)
    ensures s.OnRight? ==> p == TreeHash(sha, tree[k..]) && NewReaches(sha, inputs, seed, path, sides, tree[..k])
    ensures s.OnLeft? ==> p == TreeHash(sha, tree[..k]) && NewReaches(sha, inputs, seed, path, sides, tree[k..])
    ensures TreeInputs(sha, tree[..k]) <= inputs
  {
    FoldSnoc(sha, seed, path, sides, p, s);
    FoldInputsSnoc(sha, seed, path, sides, p, s);
    var inner, l, r := FoldNew(sha, seed, path, sides), TreeHash(sha, tree[..k]), TreeHash(sha, tree[k..]);
    if s.OnRight? {
      NodeHashInjective(sha, inputs, inner, p, l, r);
    } else {
      NodeHashInjective(sha, inputs, p, inner, l, r);
    }
  }

  /** The old fold ignores right siblings; a left sibling is the old root's left child. */
  lemma PeelOld(sha: Sha, inputs: set<Bytes>, seed: Digest, path: seq<Digest>, p: Digest, sides: seq<Side>, s: Side,
      tree: seq<Digest>, k: nat)
    requires CollisionFree(sha, inputs) && (s.OnLeft? ==> |tree| >= 2 && k == Split(|tree|))
    requires OldReaches(sha, inputs, seed, path + [p], sides + [s], tree)
    ensures s.OnRight? ==> OldReaches(sha, inputs, seed, path, sides, tree)
    ensures s.OnLeft? ==>
              && p == TreeHash(sha, tree[..k]) && TreeInputs(sha, tree[..k]) <= inputs
              && OldReaches(sha, inputs, seed, path, sides, tree[k..])
  {
    FoldSnoc(sha, seed, path, sides, p, s);
    FoldInputsSnoc(sha, seed, path, sides, p, s);
    if s.OnLeft? {
      NodeHashInjective(
        sha, inputs, p, FoldOld(sha, seed, path, sides), TreeHash(sha, tree[..k]), TreeHash(sha, tree[k..]));
    }
  }

  /** A path of the right length that folds to the root starts at the committed leaf and is the
      audit path. */
  lemma {:induction false} FoldReachesRoot(sha: Sha, inputs: set<Bytes>, acc: Digest, path: seq<Digest>, m: nat,
      leaves: seq<Digest>)
    requires m < |leaves| && CollisionFree(sha, inputs)
    requires NewReaches(sha, inputs, acc, path, Sides(m, |leaves|), leaves)
    ensures acc == leaves[m] && path == InclusionPath(sha, m, leaves)
    decreases |leaves|, 1
  {
    if |leaves| > 1 {
      var k, last := Split(|leaves|), |path| - 1;
      SplitSides(m, |leaves|);
      assert path == path[..last] + [path[last]];
      if m < k {
        ReachesFromLeft(sha, inputs, acc, path[..last], path[last], m, leaves, k);
      } else {
        ReachesFromRight(sha, inputs, acc, path[..last], path[last], m, leaves, k);
      }
    }
  }

  lemma SplitSides(m: nat, n: nat)
    requires m < n && n > 1
    ensures var k := Split(n);
      Sides(m, n) == if m < k then Sides(m, k) + [OnRight] else Sides(m - k, n - k) + [OnLeft]
  {
  }

  lemma {:induction false} ReachesFromLeft(sha: Sha, inputs: set<Bytes>, acc: Digest, inner: seq<Digest>, p: Digest,
      m: nat, leaves: seq<Digest>, k: nat)
    requires |leaves| > 1 && m < k == Split(|leaves|) && CollisionFree(sha, inputs)
    requires NewReaches(sha, inputs, acc, inner + [p], Sides(m, k) + [OnRight], leaves)
    ensures acc == leaves[m] && inner + [p] == InclusionPath(sha, m, leaves)
    decreases |leaves|, 0
  {
    PeelNew(sha, inputs, acc, inner, p, Sides(m, k), OnRight, leaves, k);
    FoldReachesRoot(sha, inputs, acc, inner, m, leaves[..k]);
  }

  lemma {:induction false} ReachesFromRight(sha: Sha, inputs: set<Bytes>, acc: Digest, inner: seq<Digest>, p: Digest,
      m: nat, leaves: seq<Digest>, k: nat)
    requires |leaves| > 1 && k == Split(|leaves|) && k <= m < |leaves| && CollisionFree(sha, inputs)
    requires NewReaches(sha, inputs, acc, inner + [p], Sides(m - k, |leaves| - k) + [OnLeft], leaves)
    ensures acc == leaves[m] && inner + [p] == InclusionPath(sha, m, leaves)
    decreases |leaves|, 0
  {
    var right, i := leaves[k..], m - k;
    PeelNew(sha, inputs, acc, inner, p, Sides(i, |right|), OnLeft, leaves, k);
    FoldReachesRoot(sha, inputs, acc, inner, i, right);
    InclusionPathOnRight(sha, m, leaves, k);
  }

  lemma InclusionPathOnRight(sha: Sha, m: nat, leaves: seq<Digest>, k: nat)
    requires |leaves| > 1 && k == Split(|leaves|) && k <= m < |leaves|
    ensures InclusionPath(sha, m, leaves) == InclusionPath(sha, m - k, leaves[k..]) + [TreeHash(sha, leaves[..k])]
    ensures leaves[m] == leaves[k..][m - k]
  {
  }

  /** Everything hashed by building the root and running the inclusion verifier. */
  ghost function InclusionInputs(sha: Sha, entries: seq<Entry>, e: Entry, proof: InclusionProof): set<Bytes>
    requires 0 <= proof.leafIndex < proof.treeSize && |proof.auditPath| == |Sides(proof.leafIndex, proof.treeSize)|
  {
    LeafInputs(entries + [e]) + TreeInputs(sha, LeafHashes(sha, entries))
    + FoldNewInputs(sha, LeafHash(sha, e), DecodeAll(proof.auditPath), Sides(proof.leafIndex, proof.treeSize))
  }

  /** An accepted inclusion proof proves inclusion: the entry's leaf data is the one committed at
      the index, and the path decodes to the audit path the generator would produce. */
  lemma InclusionSound(sha: Sha, entries: seq<Entry>, e: Entry, proof: InclusionProof)
    requires proof.treeSize == |entries|
    requires AcceptsInclusion(sha, e, proof, MerkleRoot(sha, entries))
    requires CollisionFree(sha, InclusionInputs(sha, entries, e, proof))
    ensures LeafData(e) == LeafData(entries[proof.leafIndex])
    ensures DecodeAll(proof.auditPath) == InclusionPath(sha, proof.leafIndex, LeafHashes(sha, entries))
  {
    var leaves, m := LeafHashes(sha, entries), proof.leafIndex;
    var inputs := InclusionInputs(sha, entries, e, proof);
    EncodeInjective(
      FoldNew(sha, LeafHash(sha, e), DecodeAll(proof.auditPath), Sides(m, |entries|)), TreeHash(sha, leaves));
    FoldReachesRoot(sha, inputs, LeafHash(sha, e), DecodeAll(proof.auditPath), m, leaves);
    SameLeafSameData(sha, inputs, e, entries[m]);
  }

  lemma SameLeafSameData(sha: Sha, inputs: set<Bytes>, a: Entry, b: Entry)
    requires CollisionFree(sha, inputs) && LeafHash(sha, a) == LeafHash(sha, b)
    requires LeafInput(LeafData(a)) in inputs && LeafInput(LeafData(b)) in inputs
    ensures LeafData(a) == LeafData(b)
  {
    assert NoCollision(sha, LeafInput(LeafData(a)), LeafInput(LeafData(b)));
    assert LeafData(a) == LeafInput(LeafData(a))[1..] && LeafData(b) == LeafInput(LeafData(b))[1..];
  }

  ghost predicate ReachesBoth(sha: Sha, inputs: set<Bytes>, seed: Digest, path: seq<Digest>, sides: seq<Side>,
      prior: seq<Digest>, later: seq<Digest>)
  {
    OldReaches(sha, inputs, seed, path, sides, prior) && NewReaches(sha, inputs, seed, path, sides, later)
  }

  /** A shared left sibling is the same left subtree of both trees. */
  lemma PeelBothLeft(sha: Sha, inputs: set<Bytes>, seed: Digest, path: seq<Digest>, p: Digest, sides: seq<Side>,
      prior: seq<Digest>, later: seq<Digest>, k: nat)
    requires CollisionFree(sha, inputs) && 2 <= |prior| <= |later| && k == Split(|prior|) == Split(|later|)
    requires ReachesBoth(sha, inputs, seed, path + [p], sides + [OnLeft], prior, later)
    ensures prior[..k] == later[..k] && p == TreeHash(sha, later[..k])
    ensures ReachesBoth(sha, inputs, seed, path, sides, prior[k..], later[k..])
  {
    PeelNew(sha, inputs, seed, path, p, sides, OnLeft, later, k);
    PeelOld(sha, inputs, seed, path, p, sides, OnLeft, prior, k);
    SameTreeSameLeaves(sha, inputs, prior[..k], later[..k]);
  }

  /** A right sibling is the new tree's right subtree, and the old tree does not reach there. */
  lemma PeelBothRight(sha: Sha, inputs: set<Bytes>, seed: Digest, path: seq<Digest>, p: Digest, sides: seq<Side>,
      prior: seq<Digest>, later: seq<Digest>, k: nat)
    requires CollisionFree(sha, inputs) && |later| >= 2 && k == Split(|later|)
    requires ReachesBoth(sha, inputs, seed, path + [p], sides + [OnRight], prior, later)
    ensures p == TreeHash(sha, later[k..]) && ReachesBoth(sha, inputs, seed, path, sides, prior, later[..k])
  {
    PeelNew(sha, inputs, seed, path, p, sides, OnRight, later, k);
    PeelOld(sha, inputs, seed, path, p, sides, OnRight, prior, k);
  }

  lemma SplitSubProofSides(m: nat, n: nat)
    requires 1 <= m < n
    ensures var k := Split(n);
      SubProofSides(m, n) == if m <= k then SubProofSides(m, k) + [OnRight] else SubProofSides(m - k, n - k) + [OnLeft]
  {
  }

  /** A path that folds one seed to both roots shows the old leaves to be the first new ones. */
  lemma {:induction false} FoldReachesBothRoots(sha: Sha, inputs: set<Bytes>, seed: Digest, path: seq<Digest>,
      prior: seq<Digest>, later: seq<Digest>)
    requires 1 <= |prior| <= |later| && CollisionFree(sha, inputs)
    requires ReachesBoth(sha, inputs, seed, path, SubProofSides(|prior|, |later|), prior, later)
    ensures prior == later[..|prior|]
    decreases |later|, 1
  {
    if |prior| == |later| {
      SameTreeSameLeaves(sha, inputs, prior, later);
    } else {
      var k, last := Split(|later|), |path| - 1;
      SplitSubProofSides(|prior|, |later|);
      assert path == path[..last] + [path[last]];
      if |prior| <= k {
        WithinLeftHalf(sha, inputs, seed, path[..last], path[last], prior, later, k);
      } else {
        IntoRightHalf(sha, inputs, seed, path[..last], path[last], prior, later, k);
      }
    }
  }

  lemma {:induction false} WithinLeftHalf(sha: Sha, inputs: set<Bytes>, seed: Digest, inner: seq<Digest>, p: Digest,
      prior: seq<Digest>, later: seq<Digest>, k: nat)
    requires 1 <= |prior| < |later| && k == Split(|later|) && |prior| <= k && CollisionFree(sha, inputs)
    requires ReachesBoth(sha, inputs, seed, inner + [p], SubProofSides(|prior|, k) + [OnRight], prior, later)
    ensures prior == later[..|prior|]
    decreases |later|, 0
  {
    PeelBothRight(sha, inputs, seed, inner, p, SubProofSides(|prior|, k), prior, later, k);
    FoldReachesBothRoots(sha, inputs, seed, inner, prior, later[..k]);
  }

  lemma {:induction false} IntoRightHalf(sha: Sha, inputs: set<Bytes>, seed: Digest, inner: seq<Digest>, p: Digest,
      prior: seq<Digest>, later: seq<Digest>, k: nat)
    requires 1 <= |prior| < |later| && k == Split(|later|) && |prior| > k && CollisionFree(sha, inputs)
    requires ReachesBoth(
      sha, inputs, seed, inner + [p], SubProofSides(|prior| - k, |later| - k) + [OnLeft], prior, later)
    ensures prior == later[..|prior|]
    decreases |later|, 0
  {
    var prior', later' := prior[k..], later[k..];
    SplitOfPrefix(|prior|, |later|);
    PeelBothLeft(sha, inputs, seed, inner, p, SubProofSides(|prior'|, |later'|), prior, later, k);
    FoldReachesBothRoots(sha, inputs, seed, inner, prior', later');
    SameHalves(prior, later, k);
  }

  /** Such a path is the generator's: the seed is the base SUBPROOF stops at, and the path the nodes above
      it. */
  lemma {:induction false} FoldIsSubProof(sha: Sha, inputs: set<Bytes>, seed: Digest, path: seq<Digest>,
      prior: seq<Digest>, later: seq<Digest>)
    requires 1 <= |prior| <= |later| && CollisionFree(sha, inputs)
    requires ReachesBoth(sha, inputs, seed, path, SubProofSides(|prior|, |later|), prior, later)
    ensures seed == BaseHash(sha, |prior|, later) && path == AboveBase(sha, |prior|, later)
    decreases |later|, 1
  {
    if |prior| < |later| {
      var k, last := Split(|later|), |path| - 1;
      SplitSubProofSides(|prior|, |later|);
      assert path == path[..last] + [path[last]];
      if |prior| <= k {
        SubProofWithinLeft(sha, inputs, seed, path[..last], path[last], prior, later, k);
      } else {
        SubProofIntoRight(sha, inputs, seed, path[..last], path[last], prior, later, k);
      }
    }
  }

  lemma {:induction false} SubProofWithinLeft(sha: Sha, inputs: set<Bytes>, seed: Digest, inner: seq<Digest>, p: Digest,
      prior: seq<Digest>, later: seq<Digest>, k: nat)
    requires 1 <= |prior| < |later| && k == Split(|later|) && |prior| <= k && CollisionFree(sha, inputs)
    requires ReachesBoth(sha, inputs, seed, inner + [p], SubProofSides(|prior|, k) + [OnRight], prior, later)
    ensures seed == BaseHash(sha, |prior|, later) && inner + [p] == AboveBase(sha, |prior|, later)
    decreases |later|, 0
  {
    PeelBothRight(sha, inputs, seed, inner, p, SubProofSides(|prior|, k), prior, later, k);
    FoldIsSubProof(sha, inputs, seed, inner, prior, later[..k]);
  }

  lemma {:induction false} SubProofIntoRight(sha: Sha, inputs: set<Bytes>, seed: Digest, inner: seq<Digest>, p: Digest,
      prior: seq<Digest>, later: seq<Digest>, k: nat)
    requires 1 <= |prior| < |later| && k == Split(|later|) && |prior| > k && CollisionFree(sha, inputs)
    requires ReachesBoth(
      sha, inputs, seed, inner + [p], SubProofSides(|prior| - k, |later| - k) + [OnLeft], prior, later)
    ensures seed == BaseHash(sha, |prior|, later) && inner + [p] == AboveBase(sha, |prior|, later)
    decreases |later|, 0
  {
    var prior', later' := prior[k..], later[k..];
    SplitOfPrefix(|prior|, |later|);
    PeelBothLeft(sha, inputs, seed, inner, p, SubProofSides(|prior'|, |later'|), prior, later, k);
    FoldIsSubProof(sha, inputs, seed, inner, prior', later');
  }

  lemma SameHalves<T>(a: seq<T>, b: seq<T>, k: nat)
    requires k <= |a| <= |b| && a[..k] == b[..k] && a[k..] == b[k..][..|a| - k]
    ensures a == b[..|a|]
  {
    assert a == a[..k] + a[k..] && b[..|a|] == b[..k] + b[k..][..|a| - k];
  }

  /** A prefix reaching past the split of the whole has the same split. */
  lemma SplitOfPrefix(m: nat, n: nat)
    requires n >= 2 && Split(n) < m <= n
    ensures Split(m) == Split(n)
  {
    SplitIsPow2(n);
    SplitUnique(m, Split(n));
  }

  /** Everything hashed by building both roots and running the consistency verifier. */
  ghost function ConsistencyInputs(sha: Sha, prior: seq<Entry>, later: seq<Entry>, proof: ConsistencyProof): set<Bytes>
  {
    LeafInputs(prior + later) + TreeInputs(sha, LeafHashes(sha, prior)) + TreeInputs(sha, LeafHashes(sha, later))
    + if !(0 < |prior| < |later|) || proof.path == [] then {} else
      var (seed, rest) := Seed(|prior|, MerkleRoot(sha, prior), DecodeAll(proof.path));
      var sides := SubProofSides(|prior|, |later|);
      if |rest| != |sides| then {} else FoldOldInputs(sha, seed, rest, sides) + FoldNewInputs(sha, seed, rest, sides)
  }

  /** An accepted consistency proof proves append-only growth: the prior log's leaf data is exactly
      the first part of the new log's, whatever path the prover supplied. */
  lemma ConsistencySound(sha: Sha, prior: seq<Entry>, later: seq<Entry>, proof: ConsistencyProof)
    requires proof.oldSize == |prior| && proof.newSize == |later|
    requires AcceptsConsistency(sha, proof, MerkleRoot(sha, prior), MerkleRoot(sha, later))
    requires CollisionFree(sha, ConsistencyInputs(sha, prior, later, proof))
    ensures |prior| <= |later|
    ensures forall i | 0 <= i < |prior| :: LeafData(prior[i]) == LeafData(later[i])
  {
    var a, b := LeafHashes(sha, prior), LeafHashes(sha, later);
    var inputs := ConsistencyInputs(sha, prior, later, proof);
    if |prior| > 0 {
      if |prior| == |later| {
        EncodeInjective(TreeHash(sha, a), TreeHash(sha, b));
        SameTreeSameLeaves(sha, inputs, a, b);
      } else {
        var (seed, rest) := Seed(|prior|, MerkleRoot(sha, prior), DecodeAll(proof.path));
        var sides := SubProofSides(|prior|, |later|);
        EncodeInjective(FoldOld(sha, seed, rest, sides), TreeHash(sha, a));
        EncodeInjective(FoldNew(sha, seed, rest, sides), TreeHash(sha, b));
        FoldReachesBothRoots(sha, inputs, seed, rest, a, b);
      }
      forall i | 0 <= i < |prior|
        ensures LeafData(prior[i]) == LeafData(later[i])
      {
        assert a[i] == b[i];
        assert prior[i] in prior + later && later[i] in prior + later;
        SameLeafSameData(sha, inputs, prior[i], later[i]);
      }
    }
  }

  /** And its path decodes to the one the generator produces: there is no other accepted proof. */
  lemma ConsistencyPathUnique(sha: Sha, prior: seq<Entry>, later: seq<Entry>, proof: ConsistencyProof)
    requires proof.oldSize == |prior| && proof.newSize == |later|
    requires AcceptsConsistency(sha, proof, MerkleRoot(sha, prior), MerkleRoot(sha, later))
    requires CollisionFree(sha, ConsistencyInputs(sha, prior, later, proof))
    ensures DecodeAll(proof.path) == ConsistencyPath(sha, |prior|, LeafHashes(sha, later))
  {
    var a, b := LeafHashes(sha, prior), LeafHashes(sha, later);
    if 0 < |prior| < |later| {
      var nodes := DecodeAll(proof.path);
      var (seed, rest) := Seed(|prior|, MerkleRoot(sha, prior), nodes);
      var sides := SubProofSides(|prior|, |later|);
      EncodeInjective(FoldOld(sha, seed, rest, sides), TreeHash(sha, a));
      EncodeInjective(FoldNew(sha, seed, rest, sides), TreeHash(sha, b));
      assert !IsPow2(|prior|) ==> nodes == [seed] + rest;
      NodesAreSubProof(sha, ConsistencyInputs(sha, prior, later, proof), nodes, seed, rest, a, b);
    }
  }

  lemma NodesAreSubProof(sha: Sha, inputs: set<Bytes>, nodes: seq<Digest>, seed: Digest, rest: seq<Digest>,
      prior: seq<Digest>, later: seq<Digest>)
    requires 1 <= |prior| < |later| && CollisionFree(sha, inputs)
    requires ReachesBoth(sha, inputs, seed, rest, SubProofSides(|prior|, |later|), prior, later)
    requires nodes == if IsPow2(|prior|) then rest else [seed] + rest
    ensures nodes == SubProof(sha, |prior|, later, true)
  {
    FoldIsSubProof(sha, inputs, seed, rest, prior, later);
    SubProofShape(sha, |prior|, later, true);
  }

  /** Without any assumption on the hash: an accepted inclusion proof is truthful, or two of the inputs
      listed are an explicit collision. */
  lemma InclusionOrCollision(sha: Sha, entries: seq<Entry>, e: Entry, proof: InclusionProof)
    requires proof.treeSize == |entries|
    requires AcceptsInclusion(sha, e, proof, MerkleRoot(sha, entries))
    ensures LeafData(e) == LeafData(entries[proof.leafIndex])
         || HasCollision(sha, InclusionInputs(sha, entries, e, proof))
  {
    CollisionFreeOrCollision(sha, InclusionInputs(sha, entries, e, proof));
    if CollisionFree(sha, InclusionInputs(sha, entries, e, proof)) {
      InclusionSound(sha, entries, e, proof);
    }
  }

  /** Likewise an accepted consistency proof shows an append-only prefix, or a collision. */
  lemma ConsistencyOrCollision(sha: Sha, prior: seq<Entry>, later: seq<Entry>, proof: ConsistencyProof)
    requires proof.oldSize == |prior| && proof.newSize == |later|
    requires AcceptsConsistency(sha, proof, MerkleRoot(sha, prior), MerkleRoot(sha, later))
    ensures IsPrefixInData(prior, later) || HasCollision(sha, ConsistencyInputs(sha, prior, later, proof))
  {
    CollisionFreeOrCollision(sha, ConsistencyInputs(sha, prior, later, proof));
    if CollisionFree(sha, ConsistencyInputs(sha, prior, later, proof)) {
      ConsistencySound(sha, prior, later, proof);
    }
  }

  ghost predicate IsPrefixInData(prior: seq<Entry>, later: seq<Entry>)
  {
    |prior| <= |later| && forall i | 0 <= i < |prior| :: LeafData(prior[i]) == LeafData(later[i])
  }

  // ---- Together with the hash chain --------------------------------------------------------

  /** In intact chains the leaf data is the entry hash, so equal leaf data means equal entries. */
  lemma SameLeafDataSameEntry(sha: Sha, canon: Canon, a: seq<Entry>, i: nat, b: seq<Entry>, j: nat)
    requires ChainOk(sha, canon, a) && i < |a| && ChainOk(sha, canon, b) && j < |b|
    requires CollisionFree(sha, ChainInputs(canon, a) + ChainInputs(canon, b))
    requires LeafData(a[i]) == LeafData(b[j])
    ensures SameContent(canon, a[i], b[j])
  {
    HashesAreHex(sha, canon, a, i);
    HashesAreHex(sha, canon, b, j);
    DecodeEncode(sha(HashInput(canon, a[i])));
    DecodeEncode(sha(HashInput(canon, b[j])));
    SameHashSameEntry(sha, canon, a, i, b, j);
  }

  /** An entry that carries its own chain hash and has an accepted inclusion proof against the root of
      an intact ledger is the logged entry, in content and not just in hash. */
  lemma IncludedEntryIsLogged(sha: Sha, canon: Canon, entries: seq<Entry>, e: Entry, proof: InclusionProof)
    requires ChainOk(sha, canon, entries) && proof.treeSize == |entries|
    requires |e.prevHash| == 64 && ChainHash(sha, canon, e, e.prevHash) == Some(e.hash)
    requires AcceptsInclusion(sha, e, proof, MerkleRoot(sha, entries))
    requires CollisionFree(sha, InclusionInputs(sha, entries, e, proof))
    requires CollisionFree(sha, ChainInputs(canon, entries) + {HashInput(canon, e)})
    ensures SameContent(canon, e, entries[proof.leafIndex])
  {
    InclusionSound(sha, entries, e, proof);
    var logged := entries[proof.leafIndex];
    HashesAreHex(sha, canon, entries, proof.leafIndex);
    var x, y := HashInput(canon, e), HashInput(canon, logged);
    DecodeEncode(sha(x));
    DecodeEncode(sha(y));
    assert y in ChainInputs(canon, entries) && NoCollision(sha, x, y);
    var n := |x| - 64;
    assert Content(canon, e).value == x[..n] && Content(canon, logged).value == y[..n];
    assert e.prevHash == x[n..] && logged.prevHash == y[n..];
  }

  /** Two intact ledgers of the same length with the same Merkle root have the same contents. */
  lemma SameRootSameLedger(sha: Sha, canon: Canon, a: seq<Entry>, b: seq<Entry>)
    requires ChainOk(sha, canon, a) && ChainOk(sha, canon, b)
    requires |a| == |b| && MerkleRoot(sha, a) == MerkleRoot(sha, b)
    requires CollisionFree(sha, ChainInputs(canon, a) + ChainInputs(canon, b))
    requires CollisionFree(
      sha, LeafInputs(a + b) + TreeInputs(sha, LeafHashes(sha, a)) + TreeInputs(sha, LeafHashes(sha, b)))
    ensures SameLedger(canon, a, b)
  {
    var x, y := LeafHashes(sha, a), LeafHashes(sha, b);
    var inputs := LeafInputs(a + b) + TreeInputs(sha, x) + TreeInputs(sha, y);
    EncodeInjective(TreeHash(sha, x), TreeHash(sha, y));
    SameTreeSameLeaves(sha, inputs, x, y);
    forall i | 0 <= i < |a|
      ensures SameContent(canon, a[i], b[i])
    {
      assert x[i] == y[i] && a[i] in a + b && b[i] in a + b;
      SameLeafSameData(sha, inputs, a[i], b[i]);
      SameLeafDataSameEntry(sha, canon, a, i, b, i);
    }
  }

  /** Between intact ledgers an accepted consistency proof means no entry was rewritten. */
  lemma ConsistentLedgersExtend(sha: Sha, canon: Canon, prior: seq<Entry>, later: seq<Entry>, proof: ConsistencyProof)
    requires ChainOk(sha, canon, prior) && ChainOk(sha, canon, later)
    requires proof.oldSize == |prior| && proof.newSize == |later|
    requires AcceptsConsistency(sha, proof, MerkleRoot(sha, prior), MerkleRoot(sha, later))
    requires CollisionFree(sha, ConsistencyInputs(sha, prior, later, proof))
    requires CollisionFree(sha, ChainInputs(canon, prior) + ChainInputs(canon, later))
    ensures |prior| <= |later| && SameLedger(canon, prior, later[..|prior|])
  {
    ConsistencySound(sha, prior, later, proof);
    forall i | 0 <= i < |prior|
      ensures SameContent(canon, prior[i], later[..|prior|][i])
    {
      SameLeafDataSameEntry(sha, canon, prior, i, later, i);
    }
  }
}
