/**
 Everything that the verdict of `verify_journal` attests, and what becomes of it when a stored row is altered.
 */
module VerdictOutcomes {
  import opened Common
  import opened Journals
  import opened Canonical
  import opened Merkle
  import opened Ledger
  import opened ProofBatches
  import opened LedgerRuns
  import opened Anchors
  import opened ProofVerification
  import opened ProofTheorems

  /** The row is posted, its payload hash is that of its content, and its chain hash that of its predecessor's and it. */
  predicate HashesHold(h: Hashing, j: Journal) {
    && j.status == POSTED && j.payloadHash == PayloadHash(h, j)
    && j.previousHash != "" && j.chainHash == ChainHash(h, j.previousHash, j.payloadHash)
  }

  /** The row found, with a batch and its proof, passes every check before the anchor. */
  predicate Sealed(c: Sealing, j: Journal, b: Batch, proof: seq<ProofStep>) {
    HashesHold(c.h, j) && b.first <= j.id <= b.last && b.status != BatchStatus.FAILED && Verifies(c.h.sha, j.payloadHash, proof, b.root)
  }

  predicate Published(a: Anchoring, b: Batch, anchor: Anchor) {
    anchor.key == AnchorKey(b) && anchor.commitment == CommitmentOf(a, b)
  }

  predicate HasTime(anchor: Anchor) {
    anchor.status == CONFIRMED && anchor.confirmedAt != ""
  }

  /**
   The verdict in terms of the rows that are looked up: Failed unless the journal is found, its hashes hold
   and its proof opens the root; else Pending unless its live anchor is confirmed; else Verified exactly if
   the batch signature verifies and the anchor carries the batch's commitment.
   */
  lemma VerdictIff(c: Sealing, a: Anchoring, db: Database, reference: string)
    ensures var found := ByReference(db.journals, reference);
            var verdict := VerdictOf(c, a, db, reference);
            if found.None? || MerkleProofOf(c, db.journals, db.batches, found.value).Err? then verdict == Failed
            else
              var (b, proof) := MerkleProofOf(c, db.journals, db.batches, found.value).value;
              var live := Live(db.anchors, AnchorKey(b));
              && (verdict != Failed ==> Sealed(c, found.value, b, proof))
              && (verdict == Pending <==>
                    Sealed(c, found.value, b, proof) && (live.None? || !HasTime(db.anchors[live.value])))
              && (verdict == Verified <==>
                    && Sealed(c, found.value, b, proof) && SignatureVerifies(c, b)
                    && live.Some? && HasTime(db.anchors[live.value]) && Published(a, b, db.anchors[live.value]))
  {
    hide Verifies, SignatureVerifies, Path, IdRange, Payloads;
  }

  /** So a positive verdict attests all of this about rows that are in the database. */
  lemma VerifiedAttests(c: Sealing, a: Anchoring, db: Database, reference: string)
    returns (j: Journal, b: Batch, proof: seq<ProofStep>, anchor: Anchor)
    requires VerdictOf(c, a, db, reference) == Verified
    ensures j in db.journals && j.reference == reference && ByReference(db.journals, reference) == Some(j)
    ensures j.status == POSTED && j.payloadHash == PayloadHash(c.h, j)
    ensures j.chainHash == ChainHash(c.h, j.previousHash, j.payloadHash) && j.previousHash != ""
    ensures b in db.batches && b.first <= j.id <= b.last && SignatureVerifies(c, b)
    ensures Verifies(c.h.sha, j.payloadHash, proof, b.root)
    ensures anchor in db.anchors && anchor.key == AnchorKey(b) && anchor.status == CONFIRMED && anchor.confirmedAt != ""
    ensures anchor.commitment == CommitmentOf(a, b)
  {
    VerdictIff(c, a, db, reference);
    hide VerdictOf, Verifies, SignatureVerifies, Path, IdRange, Payloads;
    j := ByReference(db.journals, reference).value;
    b, proof := MerkleProofOf(c, db.journals, db.batches, j).value.0, MerkleProofOf(c, db.journals, db.batches, j).value.1;
    anchor := db.anchors[Live(db.anchors, AnchorKey(b)).value];
  }

  // ----- a stored row is altered

  function Altered(db: Database, i: nat, row: Journal): Database
    requires i < |db.journals|
  {
    db.(journals := db.journals[i := row])
  }

  lemma {:induction false} AlteredIsFound(journals: seq<Journal>, i: nat, row: Journal)
    requires i < |journals| && ByReference(journals, row.reference) == Some(journals[i])
    requires forall k :: 0 <= k < i ==> journals[k].reference != row.reference
    ensures ByReference(journals[i := row], row.reference) == Some(row)
  {
    if i > 0 {
      assert journals[i := row][1..] == journals[1..][i - 1 := row];
      AlteredIsFound(journals[1..], i - 1, row);
    }
  }

  /**
   In every reachable system, sealed and anchored or not: put any row whose hashes do not hold in the place of
   a journal, under its reference, and the verdict is Failed.
   */
  lemma AlteredRowFails(c: Sealing, a: Anchoring, events: seq<Event>, i: nat, row: Journal)
    requires i < |AfterEvents(c, a, Genesis, events).ledger.book.journals|
    requires row.reference == AfterEvents(c, a, Genesis, events).ledger.book.journals[i].reference && !HashesHold(c.h, row)
    ensures VerdictOf(c, a, Altered(DatabaseOf(AfterEvents(c, a, Genesis, events)), i, row), row.reference) == Failed
  {
    ReachableSystemOk(c, a, events);
    var s := AfterEvents(c, a, Genesis, events);
    var js := s.ledger.book.journals;
    hide AfterEvents, VerdictOf, BatchesOk, AnchorsOk, HashesHold;
    FoundByReference(js, i);
    forall k: nat | k < i
      ensures js[k].reference != row.reference
    {
      assert ReferencesDiffer(js, k, i);
    }
    AlteredIsFound(js, i, row);
    VerdictIff(c, a, Altered(DatabaseOf(s), i, row), row.reference);
  }

  /** In particular any other chain hash, the one update of a posted row that the table's guards let through. */
  lemma OtherChainHashFails(c: Sealing, a: Anchoring, events: seq<Event>, i: nat, chainHash: string)
    requires i < |AfterEvents(c, a, Genesis, events).ledger.book.journals|
    requires chainHash != AfterEvents(c, a, Genesis, events).ledger.book.journals[i].chainHash
    ensures var s := AfterEvents(c, a, Genesis, events);
            var j := s.ledger.book.journals[i];
            VerdictOf(c, a, Altered(DatabaseOf(s), i, j.(chainHash := chainHash)), j.reference) == Failed
  {
    ReachableSystemOk(c, a, events);
    var s := AfterEvents(c, a, Genesis, events);
    hide AfterEvents, VerdictOf, AnchorsOk, BatchesOk;
    PostedIsConsistent(c, s.ledger, i);
    var j := s.ledger.book.journals[i];
    ChainHashDecided(c.h, j, chainHash);
    AlteredRowFails(c, a, events, i, j.(chainHash := chainHash));
  }

  /** The other two fields decide a row's chain hash, so at most one value of it holds. */
  lemma ChainHashDecided(h: Hashing, j: Journal, chainHash: string)
    requires j.chainHash == ChainHash(h, j.previousHash, j.payloadHash) && chainHash != j.chainHash
    ensures !HashesHold(h, j.(chainHash := chainHash))
  {
  }
}
