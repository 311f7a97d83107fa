/**
 What an accepted authentication path, and an equal root, prove.

 A list of payloads denotes a perfect binary tree; the root is that tree's digest. Unless two of the
 strings that were actually hashed collide, the digest determines the tree, and a proof is accepted
 exactly when it is an authentication path of the tree.
 */
module MerkleSecurity {
  import opened Common
  import opened Merkle

  datatype Tree = Leaf(payload: string) | Node(left: Tree, right: Tree)

  function TreeHash(sha: Sha, t: Tree): Digest {
    match t
    case Leaf(payload) => LeafHash(sha, payload)
    case Node(left, right) => NodeHash(sha, TreeHash(sha, left), TreeHash(sha, right))
  }

  /** The strings hashed to compute the digest of a tree. */
  function TreeQueries(sha: Sha, t: Tree): set<string> {
    match t
    case Leaf(payload) => {LeafPreimage(payload)}
    case Node(left, right) =>
      {NodePreimage(TreeHash(sha, left), TreeHash(sha, right))} + TreeQueries(sha, left) + TreeQueries(sha, right)
  }

  predicate Perfect(t: Tree, height: nat) {
    match t
    case Leaf(_) => height == 0
    case Node(left, right) => height > 0 && Perfect(left, height - 1) && Perfect(right, height - 1)
  }

  predicate AllPerfect(trees: seq<Tree>, height: nat) {
    forall i :: 0 <= i < |trees| ==> Perfect(trees[i], height)
  }

  function LeafTrees(leaves: seq<string>): (r: seq<Tree>)
    ensures |r| == |leaves|
    ensures AllPerfect(r, 0)
  {
    if leaves == [] then [] else [Leaf(leaves[0])] + LeafTrees(leaves[1..])
  }

  function Grow(trees: seq<Tree>): (r: seq<Tree>)
    ensures |r| == |trees| / 2
  {
    if |trees| < 2 then [] else [Node(trees[0], trees[1])] + Grow(trees[2..])
  }

  /** The tree that the level-by-level construction builds over a row of trees. */
  function Top(trees: seq<Tree>): Tree
    requires |trees| > 0
    decreases |trees|
  {
    if |trees| == 1 then trees[0] else Top(Grow(Pad(trees)))
  }

  function MerkleTree(leaves: seq<string>): Tree
    requires |leaves| > 0
  {
    Top(LeafTrees(leaves))
  }

  function Hashes(sha: Sha, trees: seq<Tree>): (r: seq<string>)
    ensures |r| == |trees|
  {
    if trees == [] then [] else [TreeHash(sha, trees[0])] + Hashes(sha, trees[1..])
  }

  // ----- the construction computes the digest of that tree

  lemma {:induction false} HashAt(sha: Sha, trees: seq<Tree>, i: nat)
    requires i < |trees|
    ensures Hashes(sha, trees)[i] == TreeHash(sha, trees[i])
  {
    if i > 0 {
      HashAt(sha, trees[1..], i - 1);
    }
  }

  lemma PadHashes(sha: Sha, trees: seq<Tree>)
    ensures Hashes(sha, Pad(trees)) == Pad(Hashes(sha, trees))
  {
    var h, k := Hashes(sha, Pad(trees)), Pad(Hashes(sha, trees));
    forall i: nat | i < |h|
      ensures h[i] == k[i]
    {
      HashAt(sha, Pad(trees), i);
      HashAt(sha, trees, if i < |trees| then i else |trees| - 1);
    }
  }

  lemma {:induction false} GrowHashes(sha: Sha, trees: seq<Tree>)
    ensures Hashes(sha, Grow(trees)) == Parents(sha, Hashes(sha, trees))
  {
    if |trees| >= 2 {
      var h := Hashes(sha, trees);
      assert h[0] == TreeHash(sha, trees[0]) && h[1..] == Hashes(sha, trees[1..]);
      assert h[1] == TreeHash(sha, trees[1]) && h[2..] == Hashes(sha, trees[2..]) by {
        assert h[1..][0] == h[1] && h[1..][1..] == h[2..];
        assert trees[1..][1..] == trees[2..];
      }
      GrowHashes(sha, trees[2..]);
    }
  }

  lemma {:induction false} RootOfTrees(sha: Sha, trees: seq<Tree>)
    requires |trees| > 0
    ensures RootOf(sha, Hashes(sha, trees)) == TreeHash(sha, Top(trees))
    decreases |trees|
  {
    if |trees| == 1 {
      HashAt(sha, trees, 0);
    } else {
      ParentsOfHashes(sha, trees);
      RootOfTrees(sha, Grow(Pad(trees)));
    }
  }

  lemma {:induction false} LeafHashes(sha: Sha, leaves: seq<string>)
    ensures Hashes(sha, LeafTrees(leaves)) == LeafLevel(sha, leaves)
  {
    if leaves != [] {
      LeafHashes(sha, leaves[1..]);
    }
  }

  lemma MerkleRootIsTreeHash(sha: Sha, leaves: seq<string>)
    requires |leaves| > 0
    ensures MerkleRoot(sha, leaves) == TreeHash(sha, MerkleTree(leaves))
  {
    LeafHashes(sha, leaves);
    RootOfTrees(sha, LeafTrees(leaves));
  }

  // ----- the domains of the two kinds of preimage are disjoint, and each splits uniquely

  lemma DomainsDisjoint(payload: string, left: string, right: string)
    ensures LeafPreimage(payload) != NodePreimage(left, right)
  {
    assert DOMAIN_LEAF[21] == 'L' && DOMAIN_NODE[21] == 'N';
    assert LeafPreimage(payload)[21] == 'L';
    assert NodePreimage(left, right)[21] == (DOMAIN_NODE + ("|" + left + "|" + right))[21];
  }

  lemma LeafPreimageInjective(a: string, b: string)
    requires LeafPreimage(a) == LeafPreimage(b)
    ensures a == b
  {
    var p := DOMAIN_LEAF + "|";
    assert a == (p + a)[|p|..] && b == (p + b)[|p|..];
  }

  lemma SplitAtSeparator(a: string, b: string, c: string, d: string)
    requires a + ("|" + b) == c + ("|" + d)
    requires |a| == |c| || |b| == |d|
    ensures a == c && b == d
  {
    var s, t := a + ("|" + b), c + ("|" + d);
    assert |a| == |c|;
    assert a == s[..|a|] && c == t[..|a|];
    assert b == s[|a| + 1..] && d == t[|a| + 1..];
  }

  /** One digest of known length on either side of the separator is enough to split. */
  lemma NodePreimageInjective(a: string, b: string, c: string, d: string)
    requires NodePreimage(a, b) == NodePreimage(c, d)
    requires |a| == |c| || |b| == |d|
    ensures a == c && b == d
  {
    var p := DOMAIN_NODE + "|";
    assert NodePreimage(a, b) == p + (a + ("|" + b));
    assert NodePreimage(c, d) == p + (c + ("|" + d));
    assert a + ("|" + b) == (p + (a + ("|" + b)))[|p|..];
    assert c + ("|" + d) == (p + (c + ("|" + d)))[|p|..];
    SplitAtSeparator(a, b, c, d);
  }

  // ----- binding: the root determines the tree

  lemma {:induction false} TreeHashInjective(sha: Sha, s: Tree, t: Tree)
    requires CollisionFree(sha, TreeQueries(sha, s) + TreeQueries(sha, t))
    requires TreeHash(sha, s) == TreeHash(sha, t)
    ensures s == t
  {
    var q := TreeQueries(sha, s) + TreeQueries(sha, t);
    match (s, t) {
      case (Leaf(a), Leaf(b)) =>
        SameDigest(sha, q, LeafPreimage(a), LeafPreimage(b));
        LeafPreimageInjective(a, b);
      case (Leaf(a), Node(l, r)) =>
        SameDigest(sha, q, LeafPreimage(a), NodePreimage(TreeHash(sha, l), TreeHash(sha, r)));
        DomainsDisjoint(a, TreeHash(sha, l), TreeHash(sha, r));
      case (Node(l, r), Leaf(b)) =>
        SameDigest(sha, q, LeafPreimage(b), NodePreimage(TreeHash(sha, l), TreeHash(sha, r)));
        DomainsDisjoint(b, TreeHash(sha, l), TreeHash(sha, r));
      case (Node(l, r), Node(l', r')) =>
        SameDigest(sha, q, NodePreimage(TreeHash(sha, l), TreeHash(sha, r)),
                           NodePreimage(TreeHash(sha, l'), TreeHash(sha, r')));
        NodePreimageInjective(TreeHash(sha, l), TreeHash(sha, r), TreeHash(sha, l'), TreeHash(sha, r'));
        CollisionFreeSubset(sha, TreeQueries(sha, l) + TreeQueries(sha, l'), q);
        CollisionFreeSubset(sha, TreeQueries(sha, r) + TreeQueries(sha, r'), q);
        TreeHashInjective(sha, l, l');
        TreeHashInjective(sha, r, r');
    }
  }

  function Fringe(t: Tree): seq<string> {
    match t
    case Leaf(payload) => [payload]
    case Node(left, right) => Fringe(left) + Fringe(right)
  }

  function Fringes(trees: seq<Tree>): seq<string> {
    if trees == [] then [] else Fringe(trees[0]) + Fringes(trees[1..])
  }

  lemma {:induction false} GrowKeepsFringe(trees: seq<Tree>)
    requires |trees| % 2 == 0
    ensures Fringes(Grow(trees)) == Fringes(trees)
  {
    if |trees| >= 2 {
      GrowKeepsFringe(trees[2..]);
      assert trees[1..][1..] == trees[2..];
      assert Fringes(trees[1..]) == Fringe(trees[1]) + Fringes(trees[2..]);
      assert Fringes(trees) == Fringe(trees[0]) + (Fringe(trees[1]) + Fringes(trees[2..]));
    }
  }

  lemma {:induction false} FringesPrefix(a: seq<Tree>, b: seq<Tree>)
    ensures Fringes(a) <= Fringes(a + b)
  {
    if a != [] {
      FringesPrefix(a[1..], b);
      assert (a + b)[1..] == a[1..] + b;
    }
  }

  /** The leaves come first in the fringe of the tree; duplicates follow. */
  lemma {:induction false} RowPrefixOfTop(trees: seq<Tree>)
    requires |trees| > 0
    ensures Fringes(trees) <= Fringe(Top(trees))
    decreases |trees|
  {
    if |trees| > 1 {
      var p := Pad(trees);
      FringesPrefix(trees, p[|trees|..]);
      assert p == trees + p[|trees|..];
      GrowKeepsFringe(p);
      RowPrefixOfTop(Grow(p));
    } else {
      assert Fringes(trees[1..]) == [];
    }
  }

  lemma {:induction false} LeafFringes(leaves: seq<string>)
    ensures Fringes(LeafTrees(leaves)) == leaves
  {
    if leaves != [] {
      LeafFringes(leaves[1..]);
      assert leaves == [leaves[0]] + leaves[1..];
    }
  }

  /** The strings hashed to compute the root of a list. */
  function RootQueries(sha: Sha, leaves: seq<string>): set<string>
    requires |leaves| > 0
  {
    TreeQueries(sha, MerkleTree(leaves))
  }

  /**
   Binding. Lists with equal roots, of whatever lengths, have the same tree: the shorter is a prefix
   of the longer, so once the number of leaves is fixed (as a batch manifest fixes it) the list is.
   */
  lemma RootBindsLeaves(sha: Sha, a: seq<string>, b: seq<string>)
    requires |a| > 0 && |b| > 0
    requires CollisionFree(sha, RootQueries(sha, a) + RootQueries(sha, b))
    requires MerkleRoot(sha, a) == MerkleRoot(sha, b)
    ensures MerkleTree(a) == MerkleTree(b)
    ensures a <= b || b <= a
    ensures |a| == |b| ==> a == b
  {
    MerkleRootIsTreeHash(sha, a);
    MerkleRootIsTreeHash(sha, b);
    TreeHashInjective(sha, MerkleTree(a), MerkleTree(b));
    RowPrefixOfTop(LeafTrees(a));
    RowPrefixOfTop(LeafTrees(b));
    LeafFringes(a);
    LeafFringes(b);
  }

  /** Equal length is needed: repeating the last leaf of an odd list keeps the root. */
  lemma RepeatedLastLeafSameRoot(sha: Sha, leaves: seq<string>)
    requires |leaves| > 1 && |leaves| % 2 == 1
    ensures MerkleRoot(sha, leaves + [leaves[|leaves| - 1]]) == MerkleRoot(sha, leaves)
  {
    var longer := leaves + [leaves[|leaves| - 1]];
    var a, b := LeafLevel(sha, leaves), LeafLevel(sha, longer);
    forall i: nat | i < |longer|
      ensures b[i] == Pad(a)[i]
    {
      LeafAt(sha, longer, i);
      LeafAt(sha, leaves, if i < |leaves| then i else |leaves| - 1);
    }
    assert b == Pad(a) && Pad(b) == b;
    assert RootOf(sha, b) == RootOf(sha, Parents(sha, b));
  }

  // ----- soundness: which proofs are accepted

  /** `proof` is an authentication path of a leaf `payload` of `t`; its last step is the topmost. */
  ghost predicate Opens(sha: Sha, t: Tree, payload: string, proof: seq<ProofStep>)
    decreases t
  {
    match t
    case Leaf(p) => proof == [] && p == payload
    case Node(left, right) =>
      && proof != []
      && var last, rest := proof[|proof| - 1], proof[..|proof| - 1];
         if last.side == RIGHT then last.hash == TreeHash(sha, right) && Opens(sha, left, payload, rest)
         else last.hash == TreeHash(sha, left) && Opens(sha, right, payload, rest)
  }

  function StepPreimage(current: string, step: ProofStep): string {
    if step.side == LEFT then NodePreimage(step.hash, current) else NodePreimage(current, step.hash)
  }

  /** The strings hashed to check a proof. */
  function ProofQueries(sha: Sha, payload: string, proof: seq<ProofStep>): set<string>
    decreases |proof|
  {
    if proof == [] then {LeafPreimage(payload)}
    else
      var rest := proof[..|proof| - 1];
      ProofQueries(sha, payload, rest)
      + {StepPreimage(Climb(sha, LeafHash(sha, payload), rest), proof[|proof| - 1])}
  }

  lemma {:induction false} ClimbLast(sha: Sha, current: string, proof: seq<ProofStep>)
    requires proof != []
    ensures Climb(sha, current, proof)
         == Combine(sha, Climb(sha, current, proof[..|proof| - 1]), proof[|proof| - 1])
    decreases |proof|
  {
    if |proof| > 1 {
      ClimbLast(sha, Combine(sha, current, proof[0]), proof[1..]);
      assert proof[1..][..|proof| - 2] == proof[..|proof| - 1][1..];
    } else {
      assert proof[..0] == [] && proof[1..] == [];
    }
  }

  /** A proof that climbs to the digest of a tree is an authentication path of the tree. */
  lemma {:induction false} AcceptedProofOpens(sha: Sha, t: Tree, payload: string, proof: seq<ProofStep>)
    requires CollisionFree(sha, TreeQueries(sha, t) + ProofQueries(sha, payload, proof))
    requires Climb(sha, LeafHash(sha, payload), proof) == TreeHash(sha, t)
    ensures Opens(sha, t, payload, proof)
    decreases t
  {
    var q := TreeQueries(sha, t) + ProofQueries(sha, payload, proof);
    if proof == [] {
      match t {
        case Leaf(p) =>
          SameDigest(sha, q, LeafPreimage(payload), LeafPreimage(p));
          LeafPreimageInjective(payload, p);
        case Node(l, r) =>
          SameDigest(sha, q, LeafPreimage(payload), NodePreimage(TreeHash(sha, l), TreeHash(sha, r)));
          DomainsDisjoint(payload, TreeHash(sha, l), TreeHash(sha, r));
      }
    } else {
      var last, rest := proof[|proof| - 1], proof[..|proof| - 1];
      var current: Digest := Climbed(sha, LeafHash(sha, payload), rest);
      ClimbLast(sha, LeafHash(sha, payload), proof);
      var pre := StepPreimage(current, last);
      match t {
        case Leaf(p) =>
          SameDigest(sha, q, LeafPreimage(p), pre);
          DomainsDisjoint(p, if last.side == LEFT then last.hash else current, if last.side == LEFT then current else last.hash);
        case Node(l, r) =>
          SameDigest(sha, q, NodePreimage(TreeHash(sha, l), TreeHash(sha, r)), pre);
          if last.side == LEFT {
            NodePreimageInjective(TreeHash(sha, l), TreeHash(sha, r), last.hash, current);
            CollisionFreeSubset(sha, TreeQueries(sha, r) + ProofQueries(sha, payload, rest), q);
            AcceptedProofOpens(sha, r, payload, rest);
          } else {
            NodePreimageInjective(TreeHash(sha, l), TreeHash(sha, r), current, last.hash);
            CollisionFreeSubset(sha, TreeQueries(sha, l) + ProofQueries(sha, payload, rest), q);
            AcceptedProofOpens(sha, l, payload, rest);
          }
      }
    }
  }

  /** Climbing from a digest gives a digest. */
  function Climbed(sha: Sha, current: Digest, proof: seq<ProofStep>): (d: Digest)
    ensures d == Climb(sha, current, proof)
    decreases |proof|
  {
    if proof == [] then current else Climbed(sha, Combine(sha, current, proof[0]), proof[1..])
  }

  lemma {:induction false} GrowAt(trees: seq<Tree>, i: nat)
    requires 2 * i + 1 < |trees|
    ensures Grow(trees)[i] == Node(trees[2 * i], trees[2 * i + 1])
  {
    if i > 0 {
      GrowAt(trees[2..], i - 1);
    }
  }

  lemma GrowPerfect(trees: seq<Tree>, height: nat)
    requires AllPerfect(trees, height) && |trees| % 2 == 0
    ensures AllPerfect(Grow(trees), height + 1)
  {
    forall i | 0 <= i < |Grow(trees)|
      ensures Perfect(Grow(trees)[i], height + 1)
    {
      GrowAt(trees, i);
    }
  }

  /** The position below `parent` that a step with this side leads to, a duplicate counting as its original. */
  function Below(width: nat, parent: nat, side: Side): nat
    requires width > 0
  {
    var i := if side == RIGHT then 2 * parent else 2 * parent + 1;
    if i < width then i else width - 1
  }

  lemma BelowIsChild(width: nat, parent: nat, side: Side)
    requires 1 < width && 2 * parent < width
    ensures Below(width, parent, side) < width && Below(width, parent, side) / 2 == parent
    ensures Below(width, parent, side) != (if side == RIGHT then 2 * parent else 2 * parent + 1) ==>
              Below(width, parent, side) == 2 * parent == width - 1
    ensures side == (if Below(width, parent, side) % 2 == 0 then RIGHT else LEFT)
         || (Below(width, parent, side) == width - 1 && width % 2 == 1)
  {
  }

  /** Opening the tree over a row means opening one tree of the row and then following a path of the row. */
  lemma {:induction false} OpensRow(sha: Sha, trees: seq<Tree>, height: nat, payload: string, proof: seq<ProofStep>)
    returns (i: nat)
    requires |trees| > 0 && AllPerfect(trees, height)
    requires Opens(sha, Top(trees), payload, proof)
    ensures i < |trees| && height <= |proof|
    ensures Opens(sha, trees[i], payload, proof[..height])
    ensures IsPathFor(sha, Hashes(sha, trees), i, proof[height..])
    decreases |trees|
  {
    if |trees| == 1 {
      i := 0;
      OpensHeight(sha, trees[0], height, payload, proof);
      assert proof[..height] == proof && proof[height..] == [];
    } else {
      var p := Pad(trees);
      GrowPerfect(p, height);
      var parent := OpensRow(sha, Grow(p), height + 1, payload, proof);
      i := OpensPair(sha, trees, height, parent, payload, proof[..height + 1]);
      assert proof[..height + 1][..height] == proof[..height] && proof[..height + 1][height] == proof[height];
      ParentsOfHashes(sha, trees);
      PrependStep(sha, Hashes(sha, trees), i, proof, height);
    }
  }

  /** A path of the row above, with the step that leads to it, is a path of this row. */
  lemma PrependStep(sha: Sha, level: seq<string>, i: nat, proof: seq<ProofStep>, height: nat)
    requires |level| > 1 && i < |level| && height < |proof|
    requires Sibling(i) < |Pad(level)| && proof[height].hash == Pad(level)[Sibling(i)]
    requires proof[height].side == (if i % 2 == 0 then RIGHT else LEFT) || (i == |level| - 1 && |level| % 2 == 1)
    requires i / 2 < |Parents(sha, Pad(level))|
    requires IsPathFor(sha, Parents(sha, Pad(level)), i / 2, proof[height + 1..])
    ensures IsPathFor(sha, level, i, proof[height..])
  {
    assert proof[height..][0] == proof[height] && proof[height..][1..] == proof[height + 1..];
  }

  lemma ParentsOfHashes(sha: Sha, trees: seq<Tree>)
    ensures Hashes(sha, Grow(Pad(trees))) == Parents(sha, Pad(Hashes(sha, trees)))
  {
    PadHashes(sha, trees);
    GrowHashes(sha, Pad(trees));
  }

  /** The same for a single pair of neighbours in the padded row. */
  lemma OpensPair(sha: Sha, trees: seq<Tree>, height: nat, parent: nat, payload: string, proof: seq<ProofStep>)
    returns (i: nat)
    requires |trees| > 1 && parent < |Grow(Pad(trees))| && |proof| == height + 1
    requires Opens(sha, Grow(Pad(trees))[parent], payload, proof)
    ensures i < |trees| && i / 2 == parent
    ensures Opens(sha, trees[i], payload, proof[..height])
    ensures Sibling(i) < |Pad(trees)| && proof[height].hash == Pad(Hashes(sha, trees))[Sibling(i)]
    ensures proof[height].side == (if i % 2 == 0 then RIGHT else LEFT) || (i == |trees| - 1 && |trees| % 2 == 1)
  {
    var p := Pad(trees);
    GrowAt(p, parent);
    BelowIsChild(|trees|, parent, proof[height].side);
    i := Below(|trees|, parent, proof[height].side);
    PairOf(i);
    PadHashes(sha, trees);
    HashAt(sha, p, Sibling(i));
  }

  lemma {:induction false} OpensHeight(sha: Sha, t: Tree, height: nat, payload: string, proof: seq<ProofStep>)
    requires Perfect(t, height) && Opens(sha, t, payload, proof)
    ensures |proof| == height
    decreases t
  {
    match t {
      case Leaf(_) =>
      case Node(left, right) =>
        var last, rest := proof[|proof| - 1], proof[..|proof| - 1];
        OpensHeight(sha, if last.side == RIGHT then left else right, height - 1, payload, rest);
    }
  }

  lemma {:induction false} LeafTreeAt(leaves: seq<string>, i: nat)
    requires i < |leaves|
    ensures LeafTrees(leaves)[i] == Leaf(leaves[i])
  {
    if i > 0 {
      LeafTreeAt(leaves[1..], i - 1);
    }
  }

  /**
   Soundness and completeness together. A proof of any length is accepted against the root of a list
   exactly when it is an authentication path, in the sense of `IsPathFor`, of a position that holds
   the payload.
   */
  lemma AcceptedIffPath(sha: Sha, leaves: seq<string>, payload: string, proof: seq<ProofStep>)
    requires |leaves| > 0
    requires CollisionFree(sha, RootQueries(sha, leaves) + ProofQueries(sha, payload, proof))
    ensures Verifies(sha, payload, proof, MerkleRoot(sha, leaves))
       <==> exists i: nat :: i < |leaves| && leaves[i] == payload && IsPathFor(sha, LeafLevel(sha, leaves), i, proof)
  {
    var level := LeafLevel(sha, leaves);
    MerkleRootIsTreeHash(sha, leaves);
    if Verifies(sha, payload, proof, MerkleRoot(sha, leaves)) {
      AcceptedProofOpens(sha, MerkleTree(leaves), payload, proof);
      var i := OpensRow(sha, LeafTrees(leaves), 0, payload, proof);
      LeafTreeAt(leaves, i);
      LeafHashes(sha, leaves);
      assert proof[0..] == proof;
    }
    if i: nat :| i < |leaves| && leaves[i] == payload && IsPathFor(sha, level, i, proof) {
      LeafAt(sha, leaves, i);
      PathClimbsToRoot(sha, level, i, proof);
    }
  }

  /** Paths of one position differ at most in the side named at a duplicated node. */
  lemma {:induction false} PathHashesUnique(sha: Sha, level: seq<string>, i: nat, p: seq<ProofStep>, q: seq<ProofStep>)
    requires i < |level| && IsPathFor(sha, level, i, p) && IsPathFor(sha, level, i, q)
    ensures |p| == |q| && forall k :: 0 <= k < |p| ==> p[k].hash == q[k].hash
    decreases |level|
  {
    if |level| > 1 {
      PathHashesUnique(sha, Parents(sha, Pad(level)), i / 2, p[1..], q[1..]);
      forall k | 0 <= k < |p|
        ensures p[k].hash == q[k].hash
      {
        if k > 0 {
          assert p[k] == p[1..][k - 1] && q[k] == q[1..][k - 1];
        }
      }
    }
  }

  /** Hence an accepted proof carries exactly the digests that `generate_proof` emits for some leaf. */
  lemma AcceptedProofIsGenerated(sha: Sha, leaves: seq<string>, payload: string, proof: seq<ProofStep>) returns (i: nat)
    requires |leaves| > 0
    requires CollisionFree(sha, RootQueries(sha, leaves) + ProofQueries(sha, payload, proof))
    requires Verifies(sha, payload, proof, MerkleRoot(sha, leaves))
    ensures i < |leaves| && leaves[i] == payload
    ensures |proof| == |Path(sha, leaves, i)|
    ensures forall k :: 0 <= k < |proof| ==> proof[k].hash == Path(sha, leaves, i)[k].hash
  {
    var level := LeafLevel(sha, leaves);
    AcceptedIffPath(sha, leaves, payload, proof);
    i :| i < |leaves| && leaves[i] == payload && IsPathFor(sha, level, i, proof);
    PathFromIsPath(sha, level, i);
    PathHashesUnique(sha, level, i, proof, PathFrom(sha, level, i));
  }
}
