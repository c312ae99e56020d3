/** The sorted-pair Merkle tree behind an airdrop stage. SHA-256 is any function from inputs to
    digests; digests are compared as big-endian numbers. */
module Merkle {
  import opened Cosmos

  type Digest = nat

  /** What is hashed: an address with its amount, or two digests in ascending order. */
  datatype Input = LeafInput(address: Addr, amount: nat) | PairInput(low: Digest, high: Digest)

  type Hash = Input -> Digest

  datatype Tree = Leaf(address: Addr, amount: nat) | Node(left: Tree, right: Tree)

  function PairHash(sha: Hash, a: Digest, b: Digest): Digest {
    sha(if a <= b then PairInput(a, b) else PairInput(b, a))
  }

  /** The smaller digest is hashed first, whichever side it comes from. */
  lemma PairsAscend(sha: Hash, a: Digest, b: Digest)
    ensures PairHash(sha, a, b) == PairHash(sha, b, a)
    ensures exists low, high :: low <= high && {low, high} == {a, b} && PairHash(sha, a, b) == sha(PairInput(low, high))
  {
    if a <= b {
      assert {a, b} == {a, b} && PairHash(sha, a, b) == sha(PairInput(a, b));
    } else {
      assert {b, a} == {a, b} && PairHash(sha, a, b) == sha(PairInput(b, a));
    }
  }

  function Root(sha: Hash, t: Tree): Digest {
    match t
    case Leaf(address, amount) => sha(LeafInput(address, amount))
    case Node(left, right) => PairHash(sha, Root(sha, left), Root(sha, right))
  }

  function Leaves(t: Tree): seq<(Addr, nat)> {
    match t
    case Leaf(address, amount) => [(address, amount)]
    case Node(left, right) => Leaves(left) + Leaves(right)
  }

  /** The fold of a claim: the digest is paired with each sibling in turn. */
  function FoldProof(sha: Hash, digest: Digest, proof: seq<Digest>): Digest
    decreases proof
  {
    if proof == [] then digest else FoldProof(sha, PairHash(sha, digest, proof[0]), proof[1..])
  }

  predicate Verifies(sha: Hash, root: Digest, address: Addr, amount: nat, proof: seq<Digest>) {
    FoldProof(sha, sha(LeafInput(address, amount)), proof) == root
  }

  /** The siblings on the way from a leaf to the root. */
  function Siblings(sha: Hash, t: Tree, leaf: (Addr, nat)): seq<Digest> {
    match t
    case Leaf(_, _) => []
    case Node(left, right) =>
      if leaf in Leaves(left) then Siblings(sha, left, leaf) + [Root(sha, right)]
      else Siblings(sha, right, leaf) + [Root(sha, left)]
  }

  lemma {:induction false} FoldLast(sha: Hash, digest: Digest, proof: seq<Digest>, last: Digest)
    ensures FoldProof(sha, digest, proof + [last]) == PairHash(sha, FoldProof(sha, digest, proof), last)
    decreases proof
  {
    if proof == [] {
      assert (proof + [last])[1..] == [];
    } else {
      assert (proof + [last])[1..] == proof[1..] + [last];
      FoldLast(sha, PairHash(sha, digest, proof[0]), proof[1..], last);
    }
  }

  /** Completeness: every leaf of every tree verifies with its sibling path, on whichever side each
      sibling stands. */
  lemma {:induction false} LeavesVerify(sha: Hash, t: Tree, leaf: (Addr, nat))
    requires leaf in Leaves(t)
    ensures Verifies(sha, Root(sha, t), leaf.0, leaf.1, Siblings(sha, t, leaf))
  {
    match t
    case Leaf(_, _) =>
    case Node(left, right) =>
      var digest := sha(LeafInput(leaf.0, leaf.1));
      if leaf in Leaves(left) {
        LeavesVerify(sha, left, leaf);
        FoldLast(sha, digest, Siblings(sha, left, leaf), Root(sha, right));
      } else {
        LeavesVerify(sha, right, leaf);
        FoldLast(sha, digest, Siblings(sha, right, leaf), Root(sha, left));
      }
  }

  /** Two different inputs with one digest. */
  ghost predicate Collision(sha: Hash) {
    exists x, y :: x != y && sha(x) == sha(y)
  }

  lemma SamePairs(sha: Hash, a: Digest, b: Digest, c: Digest, d: Digest)
    requires PairHash(sha, a, b) == PairHash(sha, c, d)
    ensures a == c || a == d || Collision(sha)
  {
  }

  lemma LeafIsNoPair(sha: Hash, leaf: Input, a: Digest, b: Digest)
    requires leaf.LeafInput? && sha(leaf) == PairHash(sha, a, b)
    ensures Collision(sha)
  {
  }

  lemma Collide(sha: Hash, x: Input, y: Input)
    requires x != y && sha(x) == sha(y)
    ensures Collision(sha)
  {
  }

  /** Soundness, by reduction: whatever verifies against the root of a tree is one of its leaves, or
      exhibits a collision of the hash. */
  lemma {:induction false} OnlyLeavesVerify(sha: Hash, t: Tree, address: Addr, amount: nat, proof: seq<Digest>)
    requires Verifies(sha, Root(sha, t), address, amount, proof)
    ensures (address, amount) in Leaves(t) || Collision(sha)
    decreases |proof|
  {
    hide Collision;
    var input := LeafInput(address, amount);
    if proof == [] {
      match t
      case Leaf(a, n) =>
        if (address, amount) != (a, n) {
          assert Collision(sha) by { Collide(sha, input, LeafInput(a, n)); }
        }
      case Node(left, right) => LeafIsNoPair(sha, input, Root(sha, left), Root(sha, right));
    } else {
      var shorter, last := proof[..|proof| - 1], proof[|proof| - 1];
      var digest := FoldProof(sha, sha(input), shorter);
      assert proof == shorter + [last];
      FoldLast(sha, sha(input), shorter, last);
      match t
      case Leaf(a, n) => LeafIsNoPair(sha, LeafInput(a, n), digest, last);
      case Node(left, right) =>
        SamePairs(sha, digest, last, Root(sha, left), Root(sha, right));
        if digest == Root(sha, left) {
          OnlyLeavesVerify(sha, left, address, amount, shorter);
        } else if digest == Root(sha, right) {
          OnlyLeavesVerify(sha, right, address, amount, shorter);
        }
    }
  }
}
