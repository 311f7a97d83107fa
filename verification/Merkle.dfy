/**
 The Merkle tree over journal payload hashes: the level-by-level construction with its duplicated
 last node, authentication paths, and what an accepted path proves.

 The construction works on lists of digests. Its meaning is given by a tree of payloads (`Tree`,
 `Top`), and the security results are about that tree.
 */
module Merkle {
  import opened Common

  const DOMAIN_LEAF := "BANKIO:LEDGER:MERKLE:LEAF:V1"
  const DOMAIN_NODE := "BANKIO:LEDGER:MERKLE:NODE:V1"

  function LeafPreimage(payload: string): string {
    DOMAIN_LEAF + "|" + payload
  }

  function NodePreimage(left: string, right: string): string {
    DOMAIN_NODE + "|" + left + "|" + right
  }

  function LeafHash(sha: Sha, payload: string): Digest {
    sha(LeafPreimage(payload))
  }

  function NodeHash(sha: Sha, left: string, right: string): Digest {
    sha(NodePreimage(left, right))
  }

  // ----- levels

  function Pad<T>(level: seq<T>): (r: seq<T>)
    ensures |r| % 2 == 0 && |level| <= |r| <= |level| + 1
  {
    if |level| % 2 == 1 then level + [level[|level| - 1]] else level
  }

  /** The next level up: one node per pair of neighbours. */
  function Parents(sha: Sha, level: seq<string>): (r: seq<string>)
    ensures |r| == |level| / 2
  {
    if |level| < 2 then [] else [NodeHash(sha, level[0], level[1])] + Parents(sha, level[2..])
  }

  lemma {:induction false} ParentAt(sha: Sha, level: seq<string>, i: nat)
    requires 2 * i + 1 < |level|
    ensures Parents(sha, level)[i] == NodeHash(sha, level[2 * i], level[2 * i + 1])
  {
    if i > 0 {
      ParentAt(sha, level[2..], i - 1);
    }
  }

  /** All levels above and including `level`, each stored with its padding; the root level is not padded. */
  function Levels(sha: Sha, level: seq<string>): (r: seq<seq<string>>)
    requires |level| > 0
    ensures |r| > 0
    decreases |level|
  {
    if |level| == 1 then [level] else [Pad(level)] + Levels(sha, Parents(sha, Pad(level)))
  }

  function LeafLevel(sha: Sha, leaves: seq<string>): (r: seq<string>)
    ensures |r| == |leaves|
  {
    if leaves == [] then [] else [LeafHash(sha, leaves[0])] + LeafLevel(sha, leaves[1..])
  }

  lemma {:induction false} LeafAt(sha: Sha, leaves: seq<string>, i: nat)
    requires i < |leaves|
    ensures LeafLevel(sha, leaves)[i] == LeafHash(sha, leaves[i])
  {
    if i > 0 {
      LeafAt(sha, leaves[1..], i - 1);
    }
  }

  /** The digest at the top of the levels over `level`. */
  function RootOf(sha: Sha, level: seq<string>): string
    requires |level| > 0
    decreases |level|
  {
    if |level| == 1 then level[0] else RootOf(sha, Parents(sha, Pad(level)))
  }

  function MerkleRoot(sha: Sha, leaves: seq<string>): string
    requires |leaves| > 0
  {
    RootOf(sha, LeafLevel(sha, leaves))
  }

  lemma {:induction false} RootIsLastLevel(sha: Sha, level: seq<string>)
    requires |level| > 0
    ensures Levels(sha, level)[|Levels(sha, level)| - 1] == [RootOf(sha, level)]
    decreases |level|
  {
    if |level| > 1 {
      RootIsLastLevel(sha, Parents(sha, Pad(level)));
    }
  }

  datatype MerkleError = NoLeaves

  /** `build_levels`: grow the levels bottom-up, padding the current last level in place. */
  method BuildLevels(sha: Sha, leaves: seq<string>) returns (r: Result<seq<seq<string>>, MerkleError>)
    ensures r == if leaves == [] then Err(NoLeaves) else Ok(Levels(sha, LeafLevel(sha, leaves)))
  {
    if leaves == [] {
      return Err(NoLeaves);
    }
    var level := LeafLevel(sha, leaves);
    var levels := [level];
    ghost var all := Levels(sha, level);
    ghost var n := 0;  // levels finished
    while |level| > 1
      invariant |level| > 0 && n < |all| && levels == all[..n] + [level]
      invariant all[n..] == Levels(sha, level)
      decreases |level|
    {
      NextLevel(sha, all, n, level);
      if |level| % 2 == 1 {
        level := level + [level[|level| - 1]];
        levels := levels[|levels| - 1 := level];
      }
      assert levels == all[..n + 1];
      var next := Parents(sha, level);
      levels := levels + [next];
      level := next;
      n := n + 1;
    }
    LastLevel(sha, all, n, level);
    assert levels == all;
    r := Ok(levels);
  }

  /** Where the levels from the `i`-th on are those over `below`, the `i`-th is `below` padded. */
  lemma NextLevel(sha: Sha, levels: seq<seq<string>>, i: nat, below: seq<string>)
    requires i < |levels| && |below| > 1 && levels[i..] == Levels(sha, below)
    ensures i + 1 < |levels| && levels[i] == Pad(below) && |Pad(below)| < 2 * |below|
    ensures levels[i + 1..] == Levels(sha, Parents(sha, Pad(below)))
  {
    assert levels[i] == levels[i..][0] && levels[i + 1..] == levels[i..][1..];
  }

  lemma LastLevel(sha: Sha, levels: seq<seq<string>>, i: nat, below: seq<string>)
    requires i < |levels| && |below| > 0 && levels[i..] == Levels(sha, below)
    ensures |below| == 1 <==> i + 1 == |levels|
    ensures |below| == 1 ==> levels[i] == below
  {
    assert levels[i] == levels[i..][0];
    assert |below| > 1 ==> |levels[i..]| > 1;
  }

  // ----- authentication paths

  datatype Side = LEFT | RIGHT

  datatype ProofStep = ProofStep(hash: string, side: Side)

  /** `idx ^ 1` */
  function Sibling(idx: nat): nat {
    if idx % 2 == 0 then idx + 1 else idx - 1
  }

  lemma SiblingInRange(width: nat, idx: nat)
    requires idx < width && width % 2 == 0
    ensures Sibling(idx) < width && idx / 2 < width / 2
  {
  }

  function StepAt(level: seq<string>, idx: nat): ProofStep
    requires |level| > 0
  {
    var sibling := if Sibling(idx) >= |level| then |level| - 1 else Sibling(idx);
    ProofStep(level[sibling], if sibling < idx then LEFT else RIGHT)
  }

  /** The authentication path of position `idx` in the tree over `level`. */
  function PathFrom(sha: Sha, level: seq<string>, idx: nat): seq<ProofStep>
    requires |level| > 0
    decreases |level|
  {
    if |level| == 1 then []
    else [StepAt(Pad(level), idx)] + PathFrom(sha, Parents(sha, Pad(level)), idx / 2)
  }

  function Path(sha: Sha, leaves: seq<string>, idx: nat): seq<ProofStep>
    requires |leaves| > 0
  {
    PathFrom(sha, LeafLevel(sha, leaves), idx)
  }

  /** The body of the loop of `generate_proof`: the sibling at one level, clamped to the level. */
  method AuthStep(level: seq<string>, idx: nat) returns (step: ProofStep, ghost missing: bool)
    requires |level| > 0
    ensures step == StepAt(level, idx)
    ensures missing <==> Sibling(idx) >= |level|
  {
    var sibling := Sibling(idx);
    missing := sibling >= |level|;
    if sibling >= |level| {
      sibling := |level| - 1;
    }
    step := ProofStep(level[sibling], if sibling < idx then LEFT else RIGHT);
  }

  /** Some step of the path of `idx` would reach outside its level: the clamp of `generate_proof` fires. */
  predicate Clamps(sha: Sha, level: seq<string>, idx: nat)
    requires |level| > 0
    decreases |level|
  {
    |level| > 1 && (Sibling(idx) >= |Pad(level)| || Clamps(sha, Parents(sha, Pad(level)), idx / 2))
  }

  /** For a position of the level every sibling exists. */
  lemma {:induction false} PositionNeverClamps(sha: Sha, level: seq<string>, idx: nat)
    requires idx < |level|
    ensures !Clamps(sha, level, idx)
    decreases |level|
  {
    if |level| > 1 {
      SiblingInRange(|Pad(level)|, idx);
      PositionNeverClamps(sha, Parents(sha, Pad(level)), idx / 2);
    }
  }

  /** `generate_proof`; `clamped` records whether the clamp fired, which it never does for an index of the list. */
  method GenerateProof(sha: Sha, leaves: seq<string>, index: nat)
    returns (r: Result<seq<ProofStep>, MerkleError>, ghost clamped: bool)
    ensures r == if leaves == [] then Err(NoLeaves) else Ok(Path(sha, leaves, index))
    ensures clamped <==> leaves != [] && Clamps(sha, LeafLevel(sha, leaves), index)
    ensures index < |leaves| ==> !clamped
  {
    clamped := false;
    var built := BuildLevels(sha, leaves);
    if built.Err? {
      return Err(built.error), false;
    }
    var levels := built.value;
    ghost var below := LeafLevel(sha, leaves);  // level i before its padding
    ghost var whole := PathFrom(sha, below, index);
    var proof: seq<ProofStep> := [];
    var idx: nat := index;
    var i := 0;
    while i < |levels| - 1
      invariant i < |levels| && i <= |whole| && |below| > 0
      invariant levels[i..] == Levels(sha, below)
      invariant whole[i..] == PathFrom(sha, below, idx)
      invariant proof == whole[..i]
      invariant clamped || Clamps(sha, below, idx) <==> Clamps(sha, LeafLevel(sha, leaves), index)
    {
      LastLevel(sha, levels, i, below);
      NextLevel(sha, levels, i, below);
      NextStep(sha, whole, i, below, idx);
      var step, missing := AuthStep(levels[i], idx);
      clamped := clamped || missing;
      assert whole[..i + 1] == whole[..i] + [step];
      proof := proof + [step];
      below := Parents(sha, Pad(below));
      idx := idx / 2;
      i := i + 1;
    }
    LastLevel(sha, levels, i, below);
    assert whole[i..] == [];
    assert proof == whole;
    if index < |leaves| {
      PositionNeverClamps(sha, LeafLevel(sha, leaves), index);
    }
    r := Ok(proof);
  }

  /** Where the path from the `i`-th step on is that of `idx` in `below`, the `i`-th step is its first. */
  lemma NextStep(sha: Sha, whole: seq<ProofStep>, i: nat, below: seq<string>, idx: nat)
    requires i <= |whole| && |below| > 1 && whole[i..] == PathFrom(sha, below, idx)
    ensures i < |whole| && whole[i] == StepAt(Pad(below), idx)
    ensures whole[i + 1..] == PathFrom(sha, Parents(sha, Pad(below)), idx / 2)
  {
    assert whole[i] == whole[i..][0] && whole[i + 1..] == whole[i..][1..];
  }

  /** One step of climbing towards the root. */
  function Combine(sha: Sha, current: string, step: ProofStep): Digest {
    if step.side == LEFT then NodeHash(sha, step.hash, current) else NodeHash(sha, current, step.hash)
  }

  function Climb(sha: Sha, current: string, proof: seq<ProofStep>): string
    decreases |proof|
  {
    if proof == [] then current else Climb(sha, Combine(sha, current, proof[0]), proof[1..])
  }

  predicate Verifies(sha: Sha, payload: string, proof: seq<ProofStep>, root: string) {
    Climb(sha, LeafHash(sha, payload), proof) == root
  }

  method VerifyProof(sha: Sha, payload: string, proof: seq<ProofStep>, root: string) returns (ok: bool)
    ensures ok == Verifies(sha, payload, proof, root)
  {
    var current := LeafHash(sha, payload);
    for i := 0 to |proof|
      invariant Climb(sha, current, proof[i..]) == Climb(sha, LeafHash(sha, payload), proof)
    {
      assert proof[i..][1..] == proof[i + 1..];
      if proof[i].side == LEFT {
        current := NodeHash(sha, proof[i].hash, current);
      } else {
        current := NodeHash(sha, current, proof[i].hash);
      }
    }
    ok := current == root;
  }

  // ----- which paths exist

  /**
   `proof` is an authentication path for position `i` of `level`: at every level it supplies the
   sibling's digest, on the side opposite to the position's parity. Only at a duplicated last node,
   whose sibling is itself, may either side be named.
   */
  ghost predicate IsPathFor(sha: Sha, level: seq<string>, i: nat, proof: seq<ProofStep>)
    requires i < |level|
    decreases |level|
  {
    if |level| == 1 then proof == []
    else
      && proof != []
      && proof[0].hash == Pad(level)[Sibling(i)]
      && (proof[0].side == (if i % 2 == 0 then RIGHT else LEFT) || (i == |level| - 1 && |level| % 2 == 1))
      && IsPathFor(sha, Parents(sha, Pad(level)), i / 2, proof[1..])
  }

  lemma {:induction false} PathFromIsPath(sha: Sha, level: seq<string>, i: nat)
    requires i < |level|
    ensures IsPathFor(sha, level, i, PathFrom(sha, level, i))
    decreases |level|
  {
    if |level| > 1 {
      var up := Parents(sha, Pad(level));
      PathFromIsPath(sha, up, i / 2);
      assert PathFrom(sha, level, i)[1..] == PathFrom(sha, up, i / 2);
    }
  }

  lemma PairOf(i: nat)
    ensures i % 2 == 0 ==> i == 2 * (i / 2) && Sibling(i) == 2 * (i / 2) + 1
    ensures i % 2 == 1 ==> i == 2 * (i / 2) + 1 && Sibling(i) == 2 * (i / 2)
  {
  }

  /** One step of such a path reaches the parent of its position. */
  lemma StepReachesParent(sha: Sha, level: seq<string>, i: nat, step: ProofStep)
    requires |level| > 1 && i < |level| && step.hash == Pad(level)[Sibling(i)]
    requires step.side == (if i % 2 == 0 then RIGHT else LEFT) || (i == |level| - 1 && |level| % 2 == 1)
    ensures i / 2 < |Parents(sha, Pad(level))|
    ensures Combine(sha, level[i], step) == Parents(sha, Pad(level))[i / 2]
  {
    var p := Pad(level);
    PairOf(i);
    ParentAt(sha, p, i / 2);
    assert level[i] == p[i];
  }

  /** Any such path climbs from its position to the root. */
  lemma {:induction false} PathClimbsToRoot(sha: Sha, level: seq<string>, i: nat, proof: seq<ProofStep>)
    requires i < |level| && IsPathFor(sha, level, i, proof)
    ensures Climb(sha, level[i], proof) == RootOf(sha, level)
    decreases |level|
  {
    if |level| > 1 {
      StepReachesParent(sha, level, i, proof[0]);
      PathClimbsToRoot(sha, Parents(sha, Pad(level)), i / 2, proof[1..]);
    }
  }

  /** Completeness: the path generated for any leaf is accepted against the root of its list. */
  lemma GeneratedProofVerifies(sha: Sha, leaves: seq<string>, i: nat)
    requires i < |leaves|
    ensures Verifies(sha, leaves[i], Path(sha, leaves, i), MerkleRoot(sha, leaves))
  {
    var level := LeafLevel(sha, leaves);
    PathFromIsPath(sha, level, i);
    PathClimbsToRoot(sha, level, i, PathFrom(sha, level, i));
    LeafAt(sha, leaves, i);
  }
}
