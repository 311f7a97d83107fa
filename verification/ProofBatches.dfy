/**
 Sealed proof batches: a batch commits a contiguous run of posted journals to a Merkle root, and its
 signed manifest to the batches before it.
 */
module ProofBatches {
  import opened Common
  import opened Json
  import opened Journals
  import opened Canonical
  import opened Merkle

  const MAX_BATCH_SIZE := 10000
  const MERKLE_VERSION := "merkle-v1"

  // ----- manifests and signatures

  /** The part of a manifest that varies; the two remaining version fields are constants. */
  datatype Manifest = Manifest(
    canonicalization: string,
    algorithm: string,
    sequence: nat,
    first: nat,
    last: nat,
    count: nat,
    root: string,
    previousHash: string,
    sealedAt: string)

  function ManifestJson(m: Manifest): Json {
    Obj([
      Field("canonicalization_version", Str(m.canonicalization)),
      Field("entry_count", Num(m.count)),
      Field("first_journal_id", Num(m.first)),
      Field("hash_algorithm", Str(m.algorithm)),
      Field("last_journal_id", Num(m.last)),
      Field("merkle_root", Str(m.root)),
      Field("merkle_version", Str(MERKLE_VERSION)),
      Field("previous_batch_hash", Str(m.previousHash)),
      Field("proof_version", Str(PROOF_VERSION)),
      Field("sealed_at", Str(m.sealedAt)),
      Field("sequence", Num(m.sequence))])
  }

  function ManifestBytes(m: Manifest): string {
    Dumps(ManifestJson(m))
  }

  lemma ManifestJsonInjective(a: Manifest, b: Manifest)
    requires ManifestJson(a) == ManifestJson(b)
    ensures a == b
  {
    var f, g := ManifestJson(a).fields, ManifestJson(b).fields;
    assert f[0].value == g[0].value && f[1].value == g[1].value && f[2].value == g[2].value;
    assert f[3].value == g[3].value && f[4].value == g[4].value && f[5].value == g[5].value;
    assert f[7].value == g[7].value && f[9].value == g[9].value && f[10].value == g[10].value;
  }

  ghost predicate NamesManifest(text: Manifest -> string) {
    forall a, b :: text(a) == text(b) ==> a == b
  }

  /** The signed bytes determine the manifest. */
  lemma ManifestBytesNameManifest()
    ensures NamesManifest(ManifestBytes)
  {
    forall a, b | ManifestBytes(a) == ManifestBytes(b)
      ensures a == b
    {
      DumpsInjective(ManifestJson(a), ManifestJson(b));
      ManifestJsonInjective(a, b);
    }
  }

  /** The texts that can stand for `ManifestBytes`, which is one of them. */
  type ManifestText = text: Manifest -> string | NamesManifest(text)
    witness (ManifestBytesNameManifest(); ManifestBytes)

  datatype Signature = Signature(algorithm: string, keyId: string, version: string, value: string)

  datatype KeyPair = KeyPair(sign: string -> Signature, verify: (string, Signature) -> bool)

  ghost predicate AcceptsOwn(k: KeyPair) {
    forall m :: k.verify(m, k.sign(m))
  }

  /** A signer accepts what it signed; nothing else is assumed unless a lemma says so. */
  type Signer = k: KeyPair | AcceptsOwn(k)
    witness KeyPair((m: string) => Signature("", "", "", m), (m: string, s: Signature) => true)

  datatype Sealing = Sealing(h: Hashing, manifestText: ManifestText, signer: Signer)

  // ----- batches

  datatype BatchStatus = OPEN | SEALED | ANCHORED | VERIFIED | FAILED

  datatype Batch = Batch(
    sequence: nat,
    first: nat,
    last: nat,
    count: nat,
    root: string,
    previousHash: string,
    manifestHash: string,
    canonicalization: string,
    algorithm: string,
    status: BatchStatus,
    sealedAt: string,
    signature: Signature)

  function ManifestOf(b: Batch): Manifest {
    Manifest(b.canonicalization, b.algorithm, b.sequence, b.first, b.last, b.count, b.root, b.previousHash, b.sealedAt)
  }

  function ManifestHash(c: Sealing, m: Manifest): Digest {
    ChainHash(c.h, m.root, c.h.sha(c.manifestText(m)))
  }

  predicate SignatureVerifies(c: Sealing, b: Batch) {
    c.signer.verify(c.manifestText(ManifestOf(b)), b.signature)
  }

  function Payloads(journals: seq<Journal>): (r: seq<string>)
    ensures |r| == |journals|
  {
    if journals == [] then [] else [journals[0].payloadHash] + Payloads(journals[1..])
  }

  lemma {:induction false} PayloadAt(journals: seq<Journal>, i: nat)
    requires i < |journals|
    ensures Payloads(journals)[i] == journals[i].payloadHash
  {
    if i > 0 {
      PayloadAt(journals[1..], i - 1);
    }
  }

  // ----- sealing

  /** The posted journals with an id in `lo..hi`, in the order of the table. */
  function IdRange(journals: seq<Journal>, lo: nat, hi: nat): seq<Journal> {
    Select(journals, (j: Journal) => j.status == POSTED && lo <= j.id <= hi)
  }

  /** The posted journals with an id of at least `lo`. */
  function IdFrom(journals: seq<Journal>, lo: nat): seq<Journal> {
    Select(journals, (j: Journal) => j.status == POSTED && lo <= j.id)
  }

  function Truncate(journals: seq<Journal>, limit: nat): seq<Journal> {
    if |journals| <= limit then journals else journals[..limit]
  }

  /** The longest initial run without a gap in the ids. */
  function Run(journals: seq<Journal>): seq<Journal> {
    if |journals| <= 1 then journals
    else if journals[1].id == journals[0].id + 1 then [journals[0]] + Run(journals[1..])
    else [journals[0]]
  }

  predicate Contiguous(journals: seq<Journal>) {
    forall i :: 0 < i < |journals| ==> journals[i].id == journals[0].id + i
  }

  lemma {:induction false} RunIsContiguousPrefix(journals: seq<Journal>)
    ensures Run(journals) <= journals && Contiguous(Run(journals))
    ensures journals != [] ==> Run(journals) != []
    ensures |Run(journals)| < |journals| ==> journals[|Run(journals)|].id != journals[0].id + |Run(journals)|
  {
    if |journals| > 1 && journals[1].id == journals[0].id + 1 {
      RunIsContiguousPrefix(journals[1..]);
      var rest := Run(journals[1..]);
      forall i | 0 < i < |Run(journals)|
        ensures Run(journals)[i].id == journals[0].id + i
      {
        assert Run(journals)[i] == rest[i - 1];
      }
      assert rest <= journals[1..];
      assert Run(journals) == [journals[0]] + rest;
    }
  }

  function LowerBound(batches: seq<Batch>): nat {
    if batches == [] then 0 else batches[|batches| - 1].last + 1
  }

  function LastHash(batches: seq<Batch>): string {
    if batches == [] then GENESIS else batches[|batches| - 1].manifestHash
  }

  function Selection(journals: seq<Journal>, batches: seq<Batch>): seq<Journal> {
    Run(Truncate(IdFrom(journals, LowerBound(batches)), MAX_BATCH_SIZE))
  }

  /**
   A batch takes the unsealed journals in order, and stops for one of three reasons: there are no more, the
   ids have a gap, or there are 10000.
   */
  lemma SelectionStops(journals: seq<Journal>, batches: seq<Batch>)
    ensures var unsealed, selected := IdFrom(journals, LowerBound(batches)), Selection(journals, batches);
            && selected <= unsealed && |selected| <= 10000 && Contiguous(selected)
            && (|selected| < |unsealed| ==> |selected| == 10000 || unsealed[|selected|].id != unsealed[0].id + |selected|)
  {
    hide IdFrom;
    var unsealed := IdFrom(journals, LowerBound(batches));
    RunIsContiguousPrefix(Truncate(unsealed, MAX_BATCH_SIZE));
  }

  function NextSequence(batches: seq<Batch>): nat {
    if batches == [] then 1 else batches[|batches| - 1].sequence + 1
  }

  function NewBatch(c: Sealing, batches: seq<Batch>, selected: seq<Journal>, now: string): Batch
    requires selected != []
  {
    var m := Manifest(CANONICALIZATION_VERSION, HASH_ALGORITHM, NextSequence(batches),
                      selected[0].id, selected[|selected| - 1].id, |selected|,
                      MerkleRoot(c.h.sha, Payloads(selected)), LastHash(batches), now);
    Batch(m.sequence, m.first, m.last, m.count, m.root, m.previousHash, ManifestHash(c, m),
          m.canonicalization, m.algorithm, SEALED, m.sealedAt, c.signer.sign(c.manifestText(m)))
  }

  function SealedBatches(c: Sealing, journals: seq<Journal>, batches: seq<Batch>, now: string): seq<Batch> {
    var selected := Selection(journals, batches);
    if selected == [] then batches else batches + [NewBatch(c, batches, selected, now)]
  }

  class BatchService {
    const c: Sealing
    var batches: seq<Batch>

    constructor (c: Sealing)
      ensures this.c == c && batches == []
    {
      this.c := c;
      batches := [];
    }

    /** `seal_batch` over the current journal table; None when nothing new is posted. */
    method SealBatch(journals: seq<Journal>, now: string) returns (r: Option<Batch>)
      modifies this
      ensures batches == SealedBatches(c, journals, old(batches), now)
      ensures r.None? <==> Selection(journals, old(batches)) == []
      ensures r.Some? ==> r.value == NewBatch(c, old(batches), Selection(journals, old(batches)), now)
    {
      var lower := LowerBound(batches);
      var candidates := Truncate(IdFrom(journals, lower), MAX_BATCH_SIZE);
      var selected := SelectRun(candidates);
      if selected == [] {
        return None;
      }
      var batch := NewBatch(c, batches, selected, now);
      batches := batches + [batch];
      r := Some(batch);
    }
  }

  /** The selection loop of `seal_batch`: stop at the first gap in the ids. */
  method SelectRun(candidates: seq<Journal>) returns (selected: seq<Journal>)
    ensures selected == Run(candidates)
  {
    selected := [];
    RunIsContiguousPrefix(candidates);
    for i := 0 to |candidates|
      invariant selected == candidates[..i] && i <= |Run(candidates)|
    {
      if selected != [] && candidates[i].id != selected[|selected| - 1].id + 1 {
        break;
      }
      selected := selected + [candidates[i]];
      assert selected == candidates[..i + 1];
    }
  }

  // ----- proofs from batches

  /** `generate_merkle_proof`'s choice: the first batch that is not FAILED and whose range holds the id. */
  function FindBatch(batches: seq<Batch>, id: nat): (r: Option<Batch>)
    ensures r.Some? ==> r.value in batches && r.value.status != FAILED && r.value.first <= id <= r.value.last
    ensures r.None? ==> forall b :: b in batches && b.status != FAILED ==> !(b.first <= id <= b.last)
  {
    if batches == [] then None
    else if batches[0].status != FAILED && batches[0].first <= id <= batches[0].last then Some(batches[0])
    else FindBatch(batches[1..], id)
  }

  datatype ProofError = NotInSealedBatch | TreeError(error: MerkleError)

  /** `generate_merkle_proof`: the leaves are read back from the journal table by id range. */
  function MerkleProofOf(c: Sealing, journals: seq<Journal>, batches: seq<Batch>, j: Journal)
    : Result<(Batch, seq<ProofStep>), ProofError>
  {
    match FindBatch(batches, j.id)
    case None => Err(NotInSealedBatch)
    case Some(b) =>
      var leaves := Payloads(IdRange(journals, b.first, b.last));
      if leaves == [] then Err(TreeError(NoLeaves)) else Ok((b, Path(c.h.sha, leaves, j.id - b.first)))
  }

  /** The proof of `j` from batch `b` would need the clamp of `generate_proof`. */
  predicate ProofClamps(c: Sealing, journals: seq<Journal>, b: Batch, j: Journal)
    requires b.first <= j.id
  {
    var leaves := Payloads(IdRange(journals, b.first, b.last));
    leaves != [] && Clamps(c.h.sha, LeafLevel(c.h.sha, leaves), j.id - b.first)
  }

  method GenerateMerkleProof(c: Sealing, journals: seq<Journal>, batches: seq<Batch>, j: Journal)
    returns (r: Result<(Batch, seq<ProofStep>), ProofError>, ghost clamped: bool)
    ensures r == MerkleProofOf(c, journals, batches, j)
    ensures r.Ok? ==> r.value.0.first <= j.id && (clamped <==> ProofClamps(c, journals, r.value.0, j))
  {
    hide Path, Payloads, IdRange, Clamps;
    clamped := false;
    var found := FindBatch(batches, j.id);
    if found.None? {
      return Err(NotInSealedBatch), false;
    }
    var b := found.value;
    var leaves := Payloads(IdRange(journals, b.first, b.last));
    var proof, fired := GenerateProof(c.h.sha, leaves, j.id - b.first);
    clamped := fired;
    r := match proof
         case Err(e) => Err(TreeError(e))
         case Ok(steps) => Ok((b, steps));
  }
}
