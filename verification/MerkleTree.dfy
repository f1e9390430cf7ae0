/** The Merkle tree of RFC 6962 section 2.1 over leaf hashes, the generators of audit paths and
    consistency paths, and the shape facts that connect their top-down recursion to the bottom-up
    bit walk of the verifiers. */
module MerkleTree {
  import opened Hashing
  import opened Hex
  import opened Wrappers

  // ---- The split point ---------------------------------------------------------------------

  ghost predicate IsPow2(k: int)
    decreases k
  {
    k == 1 || (k > 1 && k % 2 == 0 && IsPow2(k / 2))
  }

  function CeilHalf(n: nat): nat { (n + 1) / 2 }

  /** The largest power of two strictly below n. */
  function Split(n: nat): (k: nat)
    requires n >= 2
    ensures 1 <= k < n <= 2 * k
  {
    DoubleWhileBelow(n, 1)
  }

  function DoubleWhileBelow(n: nat, k: nat): (r: nat)
    requires 1 <= k < n
    ensures k <= r < n <= 2 * r
    decreases n - k
  {
    if 2 * k < n then DoubleWhileBelow(n, 2 * k) else k
  }

  lemma {:induction false} DoublingHalves(n: nat, k: nat)
    requires 1 <= k < CeilHalf(n)
    ensures DoubleWhileBelow(n, 2 * k) == 2 * DoubleWhileBelow(CeilHalf(n), k)
    decreases n - k
  {
    if 2 * k < CeilHalf(n) {
      DoublingHalves(n, 2 * k);
    }
  }

  lemma SplitHalves(n: nat)
    requires n >= 3
    ensures Split(n) == 2 * Split(CeilHalf(n))
  {
    DoublingHalves(n, 1);
  }

  lemma {:induction false} SplitIsPow2(n: nat)
    requires n >= 2
    ensures IsPow2(Split(n))
  {
    if n > 2 {
      SplitHalves(n);
      SplitIsPow2(CeilHalf(n));
    }
  }

  /** The largest power of two below n is the only one within a factor of two of n. */
  lemma {:induction false} SplitUnique(n: nat, k: nat)
    requires n >= 2 && IsPow2(k) && k < n <= 2 * k
    ensures k == Split(n)
  {
    if k > 1 {
      SplitHalves(n);
      SplitUnique(CeilHalf(n), k / 2);
    }
  }

  /** No larger power of two is below n: "largest" is literal. */
  lemma {:induction false} SplitIsLargest(n: nat, j: nat)
    requires n >= 2 && IsPow2(j) && j < n
    ensures j <= Split(n)
    decreases n
  {
    if n > 2 && j > 1 {
      SplitHalves(n);
      SplitIsLargest(CeilHalf(n), j / 2);
    }
  }

  // ---- Machine integers: where the shifting loop stops -------------------------------------

  const MAX_TREE_SIZE: int := 0x4000_0000_0000_0000

  /** `k << 1` on a 64-bit two's-complement int. */
  function ShiftLeft64(k: int): int
  {
    var w := (2 * k) % 0x1_0000_0000_0000_0000;
    if w < 0x8000_0000_0000_0000 then w else w - 0x1_0000_0000_0000_0000
  }

  /** The value of k after i passes of `for k<<1 < n { k <<= 1 }` started at 1, guard ignored. */
  function Shifted(i: nat): int
  {
    if i == 0 then 1 else ShiftLeft64(Shifted(i - 1))
  }

  /** The loop leaves at pass i exactly when the guard first fails there. */
  ghost predicate StopsAt(n: int, i: nat)
  {
    ShiftLeft64(Shifted(i)) >= n
  }

  lemma ShiftInRange(k: int)
    requires 0 <= k < MAX_TREE_SIZE
    ensures ShiftLeft64(k) == 2 * k
  {
  }

  lemma {:induction false} ShiftedBelow63(i: nat)
    requires i < 63
    ensures Shifted(i) == Pow2(i)
  {
    if i > 0 {
      ShiftedBelow63(i - 1);
      Pow2Increases(i - 1, 62);
      Pow2At62();
      ShiftInRange(Shifted(i - 1));
    }
  }

  lemma ShiftWraps()
    ensures ShiftLeft64(MAX_TREE_SIZE) == -0x8000_0000_0000_0000
    ensures ShiftLeft64(-0x8000_0000_0000_0000) == 0 && ShiftLeft64(0) == 0
  {
  }

  lemma {:induction false} ShiftedFrom63(i: nat)
    requires i >= 63
    ensures Shifted(i) == if i == 63 then -0x8000_0000_0000_0000 else 0
  {
    ShiftWraps();
    if i == 63 {
      ShiftedBelow63(i - 1);
      Pow2At62();
    } else {
      ShiftedFrom63(i - 1);
    }
  }

  function Pow2(i: nat): int { if i == 0 then 1 else 2 * Pow2(i - 1) }

  lemma {:induction false} Pow2Increases(i: nat, j: nat)
    requires i < j
    ensures 1 <= Pow2(i) < Pow2(j)
    decreases j
  {
    if i < j - 1 {
      Pow2Increases(i, j - 1);
    } else if i > 0 {
      Pow2Increases(i - 1, i);
    }
  }

  lemma Pow2At62()
    ensures Pow2(62) == MAX_TREE_SIZE
  {
    assert Pow2(10) == 1024;
    assert Pow2(20) == 0x10_0000;
    assert Pow2(30) == 0x4000_0000;
    assert Pow2(40) == 0x100_0000_0000;
    assert Pow2(50) == 0x4_0000_0000_0000;
    assert Pow2(60) == 0x1000_0000_0000_0000;
  }

  /** On 64-bit ints the split loop terminates if and only if n is at most 2^62: above that the
      shifted value wraps to zero and stays there. */
  lemma SplitLoopStopsIff(n: int)
    requires 2 <= n < 0x8000_0000_0000_0000
    ensures (exists i: nat :: StopsAt(n, i)) <==> n <= MAX_TREE_SIZE
  {
    if n <= MAX_TREE_SIZE {
      ShiftedBelow63(61);
      ShiftedBelow63(62);
      Pow2At62();
      assert StopsAt(n, 61);
    } else {
      forall i: nat
        ensures !StopsAt(n, i)
      {
        if i + 1 < 63 {
          ShiftedBelow63(i + 1);
          if i + 1 < 62 { Pow2Increases(i + 1, 62); }
          Pow2At62();
        } else {
          ShiftedFrom63(i + 1);
        }
      }
    }
  }

  /** The loop itself. The bound is the one SplitLoopStopsIff shows to be exact. */
  method LargestPowerOfTwoLessThan(n: int) returns (k: int)
    requires 2 <= n <= MAX_TREE_SIZE
    ensures k == Split(n)
  {
    k := 1;
    while ShiftLeft64(k) < n
      invariant IsPow2(k) && 1 <= k < n
      decreases n - k
    {
      ShiftInRange(k);
      k := ShiftLeft64(k);
    }
    ShiftInRange(k);
    SplitUnique(n, k);
  }

  // ---- Hashing -----------------------------------------------------------------------------

  function LeafInput(data: Bytes): Bytes { [0] + data }

  function NodeInput(l: Digest, r: Digest): Bytes { [1] + l + r }

  /** Domain separation: a leaf input is never a node input, and both determine their parts. */
  lemma InputsInjective(l1: Digest, r1: Digest, l2: Digest, r2: Digest)
    requires NodeInput(l1, r1) == NodeInput(l2, r2)
    ensures l1 == l2 && r1 == r2
  {
    var x, y := NodeInput(l1, r1), NodeInput(l2, r2);
    assert l1 == x[1..33] && l2 == y[1..33];
    assert r1 == x[33..] && r2 == y[33..];
  }

  function NodeHash(sha: Sha, l: Digest, r: Digest): Digest { sha(NodeInput(l, r)) }

  /** MTH: the recursive tree hash. */
  function TreeHash(sha: Sha, leaves: seq<Digest>): Digest
    decreases |leaves|
  {
    if |leaves| == 0 then sha([])
    else if |leaves| == 1 then leaves[0]
    else
      var k := Split(|leaves|);
      NodeHash(sha, TreeHash(sha, leaves[..k]), TreeHash(sha, leaves[k..]))
  }

  /** PATH(m, D[n]): the audit path of leaf m, bottom-up. */
  function InclusionPath(sha: Sha, m: nat, leaves: seq<Digest>): (path: seq<Digest>)
    requires m < |leaves|
    decreases |leaves|
  {
    if |leaves| == 1 then []
    else
      var k := Split(|leaves|);
      if m < k
      then InclusionPath(sha, m, leaves[..k]) + [TreeHash(sha, leaves[k..])]
      else InclusionPath(sha, m - k, leaves[k..]) + [TreeHash(sha, leaves[..k])]
  }

  function InclusionPathLen(m: nat, n: nat): nat
    requires m < n
    decreases n
  {
    if n <= 1 then 0
    else
      var k := Split(n);
      if m < k then InclusionPathLen(m, k) + 1 else InclusionPathLen(m - k, n - k) + 1
  }

  /** SUBPROOF(m, D[n], b). */
  function SubProof(sha: Sha, m: nat, leaves: seq<Digest>, b: bool): (path: seq<Digest>)
    requires 1 <= m <= |leaves|
    decreases |leaves|
  {
    if m == |leaves| then (if b then [] else [TreeHash(sha, leaves)])
    else
      var k := Split(|leaves|);
      if m <= k
      then SubProof(sha, m, leaves[..k], b) + [TreeHash(sha, leaves[k..])]
      else SubProof(sha, m - k, leaves[k..], false) + [TreeHash(sha, leaves[..k])]
  }

  // ---- Sides: on which side each path node joins -------------------------------------------

  datatype Side = OnLeft | OnRight

  /** The sides of leaf m's siblings in a tree of n leaves, bottom-up. */
  function Sides(m: nat, n: nat): (s: seq<Side>)
    requires m < n
    decreases n
  {
    if n == 1 then []
    else
      var k := Split(n);
      if m < k then Sides(m, k) + [OnRight] else Sides(m - k, n - k) + [OnLeft]
  }

  /** The sides of the nodes SUBPROOF appends above its base subtree, bottom-up. */
  function SubProofSides(m: nat, n: nat): (s: seq<Side>)
    requires 1 <= m <= n
    decreases n
  {
    if m == n then []
    else
      var k := Split(n);
      if m <= k then SubProofSides(m, k) + [OnRight] else SubProofSides(m - k, n - k) + [OnLeft]
  }

  lemma {:induction false} SidesLength(m: nat, n: nat)
    requires m < n
    ensures |Sides(m, n)| == InclusionPathLen(m, n)
    decreases n
  {
    if n > 1 {
      var k := Split(n);
      if m < k { SidesLength(m, k); } else { SidesLength(m - k, n - k); }
    }
  }

  /** The split one level up, and how indices right of an even split halve. */
  lemma HalveAtSplit(m: nat, n: nat)
    requires m <= n && n >= 3
    ensures Split(n) % 2 == 0 && Split(CeilHalf(n)) == Split(n) / 2 && CeilHalf(Split(n)) == Split(n) / 2
    ensures m >= Split(n) ==> (m - Split(n)) / 2 == m / 2 - Split(n) / 2
    ensures CeilHalf(n - Split(n)) == CeilHalf(n) - Split(n) / 2
  {
    SplitHalves(n);
  }

  /** The siblings found on the lowest level: an odd index has a left sibling, an even one a right
      sibling, except that an even last index has none and simply moves up. */
  function LevelSides(m: nat, n: nat): seq<Side>
  {
    if m % 2 == 1 then [OnLeft] else if m < n - 1 then [OnRight] else []
  }

  lemma PushLevel<T>(level: seq<T>, inner: seq<T>, last: seq<T>, sub: seq<T>, whole: seq<T>)
    requires sub == level + inner && whole == sub + last
    ensures whole == level + (inner + last)
  {
  }

  /** One level of the bit walk. */
  lemma {:induction false} SidesHalve(m: nat, n: nat)
    requires m < n && n >= 2
    ensures m / 2 < CeilHalf(n)
    ensures Sides(m, n) == LevelSides(m, n) + Sides(m / 2, CeilHalf(n))
    decreases n
  {
    if n == 2 {
      assert Sides(0, 1) == [];
    } else {
      var k, h := Split(n), CeilHalf(n);
      HalveAtSplit(m, n);
      if m < k {
        SidesHalve(m, k);
        assert LevelSides(m, n) == LevelSides(m, k);
        PushLevel(LevelSides(m, k), Sides(m / 2, k / 2), [OnRight], Sides(m, k), Sides(m, n));
      } else {
        assert LevelSides(m, n) == LevelSides(m - k, n - k);
        if n - k > 1 {
          SidesHalve(m - k, n - k);
          PushLevel(
            LevelSides(m - k, n - k), Sides(m / 2 - k / 2, h - k / 2), [OnLeft], Sides(m - k, n - k), Sides(m, n));
        } else {
          assert Sides(0, 1) == [];
        }
      }
    }
  }

  /** An even old size moves up one level unchanged: the verifier's initial shift. */
  lemma {:induction false} SubProofSidesHalve(m: nat, n: nat)
    requires 1 <= m < n && m % 2 == 0
    ensures 1 <= m / 2 < CeilHalf(n)
    ensures SubProofSides(m, n) == SubProofSides(m / 2, CeilHalf(n))
    decreases n
  {
    var k := Split(n);
    HalveAtSplit(m, n);
    if m < k {
      SubProofSidesHalve(m, k);
    } else if m > k {
      SubProofSidesHalve(m - k, n - k);
    }
  }

  /** At an odd old size the base subtree is the last old leaf, so SUBPROOF's remaining nodes are
      that leaf's audit path. */
  lemma {:induction false} SubProofSidesOdd(m: nat, n: nat)
    requires 1 <= m < n && m % 2 == 1
    ensures SubProofSides(m, n) == Sides(m - 1, n)
    decreases n
  {
    var k := Split(n);
    if n > 2 { HalveAtSplit(m, n); }
    if m < k {
      SubProofSidesOdd(m, k);
    } else if m > k {
      SubProofSidesOdd(m - k, n - k);
    }
  }

  // ---- Path lengths ------------------------------------------------------------------------

  function CeilLog2(n: nat): nat
    requires n >= 1
  {
    if n == 1 then 0 else 1 + CeilLog2(CeilHalf(n))
  }

  /** CeilLog2(n) is the least exponent whose power of two reaches n. */
  lemma {:induction false} CeilLog2IsLeast(n: nat)
    requires n >= 1
    ensures n <= Pow2(CeilLog2(n))
    ensures n > 1 ==> Pow2(CeilLog2(n) - 1) < n
  {
    if n > 1 {
      var half := CeilHalf(n);
      CeilLog2IsLeast(half);
      assert Pow2(CeilLog2(n)) == 2 * Pow2(CeilLog2(half));
      if half > 1 {
        assert Pow2(CeilLog2(half)) == 2 * Pow2(CeilLog2(half) - 1);
      }
    }
  }

  lemma {:induction false} SidesBound(m: nat, n: nat)
    requires m < n
    ensures |Sides(m, n)| <= CeilLog2(n)
    decreases n
  {
    if n > 1 {
      SidesHalve(m, n);
      SidesBound(m / 2, CeilHalf(n));
    }
  }

  lemma {:induction false} SubProofSidesBound(m: nat, n: nat)
    requires 1 <= m < n
    ensures 1 <= |SubProofSides(m, n)| <= CeilLog2(n)
    decreases n
  {
    if m % 2 == 1 {
      SubProofSidesOdd(m, n);
      SidesBound(m - 1, n);
    } else {
      SubProofSidesHalve(m, n);
      SubProofSidesBound(m / 2, CeilHalf(n));
    }
  }

  // ---- Folding a path ----------------------------------------------------------------------

  /** Folds a bottom-up path into the root of the new tree. */
  function FoldNew(sha: Sha, acc: Digest, path: seq<Digest>, sides: seq<Side>): Digest
    decreases |path|
  {
    if path == [] || sides == [] then acc
    else
      var next := if sides[0].OnLeft? then NodeHash(sha, path[0], acc) else NodeHash(sha, acc, path[0]);
      FoldNew(sha, next, path[1..], sides[1..])
  }

  /** Folds only the left siblings: the root of the old tree. */
  function FoldOld(sha: Sha, acc: Digest, path: seq<Digest>, sides: seq<Side>): Digest
    decreases |path|
  {
    if path == [] || sides == [] then acc
    else
      var next := if sides[0].OnLeft? then NodeHash(sha, path[0], acc) else acc;
      FoldOld(sha, next, path[1..], sides[1..])
  }

  /** The last path node is the outermost one. */
  lemma {:induction false} FoldSnoc(sha: Sha, acc: Digest, path: seq<Digest>, sides: seq<Side>, p: Digest, s: Side)
    requires |path| == |sides|
    ensures FoldNew(sha, acc, path + [p], sides + [s]) ==
            var inner := FoldNew(sha, acc, path, sides);
            if s.OnLeft? then NodeHash(sha, p, inner) else NodeHash(sha, inner, p)
    ensures FoldOld(sha, acc, path + [p], sides + [s]) ==
            var inner := FoldOld(sha, acc, path, sides);
            if s.OnLeft? then NodeHash(sha, p, inner) else inner
    decreases |path|
  {
    if path == [] {
      assert (path + [p])[1..] == [] && (sides + [s])[1..] == [];
    } else {
      var q, t := path + [p], sides + [s];
      assert q[1..] == path[1..] + [p] && t[1..] == sides[1..] + [s];
      FoldSnoc(sha, if t[0].OnLeft? then NodeHash(sha, q[0], acc) else NodeHash(sha, acc, q[0]),
               path[1..], sides[1..], p, s);
      FoldSnoc(sha, if t[0].OnLeft? then NodeHash(sha, q[0], acc) else acc,
               path[1..], sides[1..], p, s);
    }
  }
}
