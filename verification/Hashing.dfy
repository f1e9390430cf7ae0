/** The hash function as the model sees it: an arbitrary function from byte strings to digests.
    Soundness results assume it collision-free only on the finitely many inputs that the ledgers
    and proofs at hand actually hash, never on all byte strings (which no function to 32 bytes is). */
module Hashing {
  import opened Hex

  type Sha = Bytes -> Digest

  ghost predicate NoCollision(sha: Sha, x: Bytes, y: Bytes)
  {
    sha(x) == sha(y) ==> x == y
  }

  ghost predicate CollisionFree(sha: Sha, inputs: set<Bytes>)
  {
    forall x, y {:trigger NoCollision(sha, x, y)} | x in inputs && y in inputs :: NoCollision(sha, x, y)
  }

  /** Two different listed inputs with one digest. */
  ghost predicate HasCollision(sha: Sha, inputs: set<Bytes>)
  {
    exists x, y {:trigger NoCollision(sha, x, y)} | x in inputs && y in inputs :: !NoCollision(sha, x, y)
  }

  lemma CollisionFreeOrCollision(sha: Sha, inputs: set<Bytes>)
    ensures CollisionFree(sha, inputs) <==> !HasCollision(sha, inputs)
  {
  }
}
