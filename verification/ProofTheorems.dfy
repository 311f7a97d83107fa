/**
 What the verdict of `verify_journal` means: in honest states it says exactly whether the journal is
 sealed and its batch anchored, and for an arbitrary database a positive verdict proves that the
 journal shown is the one that was honestly posted.
 */
module ProofTheorems {
  import opened Common
  import opened Journals
  import opened Canonical
  import opened Ledger
  import opened Merkle
  import opened MerkleSecurity
  import opened ProofBatches
  import opened HashChain
  import opened LedgerRuns
  import opened BatchChain
  import opened Anchors
  import opened ProofVerification

  function DatabaseOf(s: System): Database {
    Database(s.ledger.book.journals, s.ledger.batches, s.anchors)
  }

  // ----- completeness

  lemma {:induction false} FirstByReference(journals: seq<Journal>, i: nat) returns (n: nat)
    requires i < |journals|
    ensures n < |journals| && journals[n].reference == journals[i].reference
    ensures ByReference(journals, journals[i].reference) == Some(journals[n])
  {
    if journals[0].reference == journals[i].reference {
      n := 0;
    } else {
      n := FirstByReference(journals[1..], i - 1);
      n := n + 1;
    }
  }

  lemma FoundByReference(journals: seq<Journal>, i: nat)
    requires ReferencesUnique(journals) && i < |journals|
    ensures ByReference(journals, journals[i].reference) == Some(journals[i])
  {
    var n := FirstByReference(journals, i);
    assert n < i ==> ReferencesDiffer(journals, n, i);
    assert i < n ==> ReferencesDiffer(journals, i, n);
  }

  lemma PostedIsConsistent(c: Sealing, s: State, i: nat)
    requires LedgerOk(c, s) && i < |s.book.journals|
    ensures SelfConsistent(c.h, s.book.journals[i])
  {
    var js := s.book.journals;
    assert LinkedAt(c.h, js, i) && JournalOk(s.book.accounts, js[i]);
    assert i > 0 ==> LinkedAt(c.h, js, i - 1);
    assert |js[i].previousHash| == 64;
  }

  lemma {:induction false} FindBatchIndex(batches: seq<Batch>, id: nat) returns (n: nat)
    requires FindBatch(batches, id).Some?
    ensures n < |batches| && FindBatch(batches, id) == Some(batches[n])
  {
    if batches[0].status != BatchStatus.FAILED && batches[0].first <= id <= batches[0].last {
      n := 0;
    } else {
      n := FindBatchIndex(batches[1..], id);
      n := n + 1;
    }
  }

  /** The batch that vouches for a covered journal is the one that covers it. */
  lemma FoundBatch(c: Sealing, s: State, i: nat, k: nat)
    requires LedgerOk(c, s) && i < |s.book.journals| && k < |s.batches|
    requires Covered(s.batches[..k]) <= i < Covered(s.batches[..k]) + s.batches[k].count
    ensures FindBatch(s.batches, s.book.journals[i].id) == Some(s.batches[k])
  {
    hide BatchesOk, Covered, ChainValid, ReversalsOk, AllOk;
    var id := s.book.journals[i].id;
    InRangeIffCovered(c, s.book.journals, s.batches, k, i);
    HonestBatchContinues(c, s.book.journals, s.batches, k);
    assert s.batches[k] in s.batches;
    var n := FindBatchIndex(s.batches, id);
    InRangeIffCovered(c, s.book.journals, s.batches, n, i);
    if n < k {
      CoveredOrdered(s.batches, n, k);
    } else if k < n {
      CoveredOrdered(s.batches, k, n);
    }
  }

  /** Reading a batch's id range back from the table gives exactly the journals it committed. */
  lemma RangeReadsBack(c: Sealing, s: State, k: nat)
    requires LedgerOk(c, s) && k < |s.batches|
    ensures var off, b := Covered(s.batches[..k]), s.batches[k];
            && off + b.count <= |s.book.journals|
            && IdRange(s.book.journals, b.first, b.last) == s.book.journals[off..off + b.count]
  {
    hide BatchesOk, Covered, ChainValid, ReversalsOk;
    var js, off, b := s.book.journals, Covered(s.batches[..k]), s.batches[k];
    BatchHolds(c, js, s.batches, k);
    forall i | 0 <= i < |js|
      ensures (js[i].status == POSTED && b.first <= js[i].id <= b.last) <==> off <= i < off + b.count
    {
      assert JournalOk(s.book.accounts, js[i]);
      InRangeIffCovered(c, js, s.batches, k, i);
    }
    SelectSlice(js, (j: Journal) => j.status == POSTED && b.first <= j.id <= b.last, off, off + b.count);
  }

  lemma BatchRoot(c: Sealing, journals: seq<Journal>, batches: seq<Batch>, k: nat)
    requires BatchesOk(c, journals, batches) && k < |batches|
    ensures var off, b := Covered(batches[..k]), batches[k];
            && 0 < b.count && off + b.count <= |journals|
            && b.root == MerkleRoot(c.h.sha, Payloads(journals[off..off + b.count]))
  {
    hide BatchesOk, Covered, MerkleRoot, Payloads, Contiguous, ManifestHash, ManifestOf, LastHash;
    BatchAt(c, journals, batches, k);
  }

  /**
   The proof generated for a covered journal, at index `id - first`, never needs the clamp and verifies
   against the sealed root.
   */
  lemma CoveredProofVerifies(c: Sealing, s: State, i: nat, k: nat)
    requires LedgerOk(c, s) && i < |s.book.journals| && k < |s.batches|
    requires Covered(s.batches[..k]) <= i < Covered(s.batches[..k]) + s.batches[k].count
    ensures var j, b := s.book.journals[i], s.batches[k];
            var made := MerkleProofOf(c, s.book.journals, s.batches, j);
            && made.Ok? && made.value.0 == b && Verifies(c.h.sha, j.payloadHash, made.value.1, b.root)
            && b.first <= j.id && !ProofClamps(c, s.book.journals, b, j)
  {
    hide BatchesOk, Covered, BookOk, Verifies, Path, MerkleRoot, Clamps;
    var js, off, b := s.book.journals, Covered(s.batches[..k]), s.batches[k];
    FoundBatch(c, s, i, k);
    RangeReadsBack(c, s, k);
    BatchHolds(c, js, s.batches, k);
    BatchRoot(c, js, s.batches, k);
    var slice := js[off..off + b.count];
    var leaves := Payloads(slice);
    assert js[i].id - b.first == i - off && slice[i - off] == js[i];
    PayloadAt(slice, i - off);
    GeneratedProofVerifies(c.h.sha, leaves, i - off);
    PositionNeverClamps(c.h.sha, LeafLevel(c.h.sha, leaves), i - off);
  }

  lemma CoveredIsIncluded(c: Sealing, s: System, i: nat, k: nat)
    requires LedgerOk(c, s.ledger) && i < |s.ledger.book.journals| && k < |s.ledger.batches|
    requires Covered(s.ledger.batches[..k]) <= i < Covered(s.ledger.batches[..k]) + s.ledger.batches[k].count
    ensures Included(c, DatabaseOf(s), s.ledger.book.journals[i].reference)
         == Some((s.ledger.book.journals[i], s.ledger.batches[k]))
  {
    hide BatchesOk, Covered, ChainValid, MerkleProofOf, Verifies, SelfConsistent;
    FoundByReference(s.ledger.book.journals, i);
    PostedIsConsistent(c, s.ledger, i);
    CoveredProofVerifies(c, s.ledger, i, k);
  }

  lemma UncoveredIsNotIncluded(c: Sealing, s: System, i: nat)
    requires LedgerOk(c, s.ledger) && Covered(s.ledger.batches) <= i < |s.ledger.book.journals|
    ensures Included(c, DatabaseOf(s), s.ledger.book.journals[i].reference) == None
  {
    hide BatchesOk, ChainValid, Verifies, SelfConsistent;
    var js, batches := s.ledger.book.journals, s.ledger.batches;
    FoundByReference(js, i);
    var found := FindBatch(batches, js[i].id);
    if found.Some? {
      var n := FindBatchIndex(batches, js[i].id);
      InRangeIffCovered(c, js, batches, n, i);
      CoveredMonotone(batches, n);
    }
  }

  /** The live anchor of an honest batch is confirmed exactly when the batch is ANCHORED. */
  lemma ConfirmedIffAnchored(c: Sealing, a: Anchoring, s: System, k: nat)
    requires SystemOk(c, a, s) && k < |s.ledger.batches|
    ensures IsConfirmed(DatabaseOf(s), s.ledger.batches[k]) <==> s.ledger.batches[k].status == ANCHORED
    ensures IsConfirmed(DatabaseOf(s), s.ledger.batches[k]) ==> CommitmentMatches(a, DatabaseOf(s), s.ledger.batches[k])
  {
    hide LedgerOk;
    var w, b := WorldOf(s), s.ledger.batches[k];
    assert AnchoredIffConfirmed(a, w, k);
    if b.status == ANCHORED {
      var l: nat :| l < |w.anchors| && ConfirmsBatch(a, w, l, k);
      assert RowOk(a, w, l);
      LiveIsUnique(a, w, l);
    }
    if IsConfirmed(DatabaseOf(s), b) {
      var l := Live(w.anchors, AnchorKey(b)).value;
      SameKeySameBatch(a, w, l, k);
      assert RowOk(a, w, l);
      assert ConfirmsBatch(a, w, l, k);
    }
  }

  /**
   Completeness. After every run, every posted journal gets the verdict that its history deserves:
   Failed before it is sealed, Pending while its batch awaits its anchor, Verified once anchored.
   */
  lemma HonestVerdict(c: Sealing, a: Anchoring, events: seq<Event>, i: nat)
    requires i < |AfterEvents(c, a, Genesis, events).ledger.book.journals|
    ensures var s := AfterEvents(c, a, Genesis, events);
            var j := s.ledger.book.journals[i];
            var batch := FindBatch(s.ledger.batches, j.id);
            VerdictOf(c, a, DatabaseOf(s), j.reference)
            == if batch.None? then Failed else if batch.value.status == ANCHORED then Verified else Pending
  {
    ReachableSystemOk(c, a, events);
    var s := AfterEvents(c, a, Genesis, events);
    hide AfterEvents, LedgerOk, AnchorsOk, Covered, Included, IsConfirmed, CommitmentMatches;
    if i < Covered(s.ledger.batches) {
      var k := CoveringBatch(s.ledger.batches, i);
      CoveredIsIncluded(c, s, i, k);
      FoundBatch(c, s.ledger, i, k);
      ConfirmedIffAnchored(c, a, s, k);
      SystemSignature(c, s, k);
    } else {
      UncoveredIsNotIncluded(c, s, i);
      UncoveredHasNoBatch(c, s.ledger, i);
    }
  }

  lemma SystemSignature(c: Sealing, s: System, k: nat)
    requires LedgerOk(c, s.ledger) && k < |s.ledger.batches|
    ensures SignatureVerifies(c, s.ledger.batches[k])
  {
    HonestBatchContinues(c, s.ledger.book.journals, s.ledger.batches, k);
  }

  lemma UncoveredHasNoBatch(c: Sealing, s: State, i: nat)
    requires LedgerOk(c, s) && Covered(s.batches) <= i < |s.book.journals|
    ensures FindBatch(s.batches, s.book.journals[i].id) == None
  {
    hide BatchesOk, ChainValid;
    var found := FindBatch(s.batches, s.book.journals[i].id);
    if found.Some? {
      var n := FindBatchIndex(s.batches, s.book.journals[i].id);
      InRangeIffCovered(c, s.book.journals, s.batches, n, i);
      CoveredMonotone(s.batches, n);
    }
  }

  /**
   A Pending verdict says nothing about the signature: it is the same whatever signer is asked. When a bad
   signature is reported is the subject of `BadSignatures`.
   */
  lemma PendingIgnoresSignature(c: Sealing, other: Signer, a: Anchoring, db: Database, reference: string)
    ensures VerdictOf(c, a, db, reference) == Pending <==> VerdictOf(c.(signer := other), a, db, reference) == Pending
  {
    IncludedIgnoresSigner(c, other, db, reference);
  }

  lemma IncludedIgnoresSigner(c: Sealing, other: Signer, db: Database, reference: string)
    ensures Included(c, db, reference) == Included(c.(signer := other), db, reference)
  {
    var found := ByReference(db.journals, reference);
    if found.Some? {
      assert MerkleProofOf(c, db.journals, db.batches, found.value)
          == MerkleProofOf(c.(signer := other), db.journals, db.batches, found.value);
    }
  }

  // ----- soundness

  /** The texts hashed when the honest journals were posted. */
  ghost function PostQueries(h: Hashing, journals: seq<Journal>): set<string> {
    set j | j in journals :: h.entryText(j)
  }

  /** The strings hashed when the honest batches were sealed. */
  function SealQueries(sha: Sha, journals: seq<Journal>, batches: seq<Batch>): set<string> {
    if batches == [] then {}
    else
      var rest, n := batches[..|batches| - 1], batches[|batches| - 1].count;
      var off := Covered(rest);
      var own := if 0 < n && off + n <= |journals| then RootQueries(sha, Payloads(journals[off..off + n])) else {};
      SealQueries(sha, journals, rest) + own
  }

  /** The strings hashed when the database at hand was verified. */
  ghost function CheckQueries(c: Sealing, db: Database, j: Journal): set<string> {
    var made := MerkleProofOf(c, db.journals, db.batches, j);
    {c.h.entryText(j)} + (if made.Ok? then ProofQueries(c.h.sha, j.payloadHash, made.value.1) else {})
  }

  lemma {:induction false} BatchQueries(c: Sealing, journals: seq<Journal>, batches: seq<Batch>, k: nat)
    requires BatchesOk(c, journals, batches) && k < |batches|
    ensures var off, n := Covered(batches[..k]), batches[k].count;
            && 0 < n && off + n <= |journals|
            && RootQueries(c.h.sha, Payloads(journals[off..off + n])) <= SealQueries(c.h.sha, journals, batches)
    decreases |batches|
  {
    hide BatchesOk, RootQueries, Payloads;
    BatchHolds(c, journals, batches, k);
    var rest := batches[..|batches| - 1];
    if k < |batches| - 1 {
      EarlierBatchesOk(c, journals, batches);
      BatchQueries(c, journals, rest, k);
      assert rest[..k] == batches[..k] && rest[k] == batches[k];
    } else {
      assert batches[..k] == rest;
    }
  }

  lemma EarlierBatchesOk(c: Sealing, journals: seq<Journal>, batches: seq<Batch>)
    requires BatchesOk(c, journals, batches) && batches != []
    ensures BatchesOk(c, journals, batches[..|batches| - 1])
  {
  }

  lemma {:induction false} PayloadFrom(journals: seq<Journal>, payload: string) returns (i: nat)
    requires payload in Payloads(journals)
    ensures i < |journals| && journals[i].payloadHash == payload
  {
    if journals[0].payloadHash == payload {
      i := 0;
    } else {
      i := PayloadFrom(journals[1..], payload);
      i := i + 1;
    }
  }

  /** An accepted inclusion proof against an honest root leads to an honest journal with the payload hash. */
  lemma InclusionLeadsToHonest(c: Sealing, s: State, k: nat, payload: string, proof: seq<ProofStep>) returns (h: Journal)
    requires LedgerOk(c, s) && k < |s.batches|
    requires CollisionFree(c.h.sha, SealQueries(c.h.sha, s.book.journals, s.batches) + ProofQueries(c.h.sha, payload, proof))
    requires Verifies(c.h.sha, payload, proof, s.batches[k].root)
    ensures h in s.book.journals && h.payloadHash == payload
  {
    hide BatchesOk, BookOk, Covered, RootQueries, ProofQueries, SealQueries, MerkleRoot, Verifies, IsPathFor;
    var js, off, b := s.book.journals, Covered(s.batches[..k]), s.batches[k];
    BatchQueries(c, js, s.batches, k);
    BatchRoot(c, js, s.batches, k);
    var slice := js[off..off + b.count];
    var leaves := Payloads(slice);
    CollisionFreeSubset(c.h.sha, RootQueries(c.h.sha, leaves) + ProofQueries(c.h.sha, payload, proof),
                        SealQueries(c.h.sha, js, s.batches) + ProofQueries(c.h.sha, payload, proof));
    var i := AcceptedProofIsGenerated(c.h.sha, leaves, payload, proof);
    PayloadAt(slice, i);
    h := slice[i];
  }

  /**
   Soundness. Let `s` be the honest ledger after any run, and `db` any database at all, tampered with
   in any way. If verification accepts a journal of `db` with a signature that was not forged, then a
   journal with that id, reference, posting time, currency and multiset of lines was honestly posted,
   unless two of the strings hashed along the way collide.
   */
  lemma VerifiedIsGenuine(c: Sealing, a: Anchoring, steps: seq<Step>, db: Database, reference: string) returns (h: Journal)
    requires VerdictOf(c, a, db, reference) == Verified
    requires NotForged(c, After(c, Start, steps).batches, Included(c, db, reference).value.1)
    requires var s := After(c, Start, steps);
             CollisionFree(c.h.sha, PostQueries(c.h, s.book.journals)
                                    + SealQueries(c.h.sha, s.book.journals, s.batches)
                                    + CheckQueries(c, db, Included(c, db, reference).value.0))
    ensures h in After(c, Start, steps).book.journals
    ensures ContentOf(h) == ContentOf(Included(c, db, reference).value.0)
  {
    ReachableLedgerOk(c, steps);
    h := AcceptedIsGenuine(c, After(c, Start, steps), db, reference);
  }

  /** The same from the checks up to the signature alone, in any state that satisfies the invariant. */
  lemma AcceptedIsGenuine(c: Sealing, s: State, db: Database, reference: string) returns (h: Journal)
    requires LedgerOk(c, s) && Included(c, db, reference).Some?
    requires SignatureVerifies(c, Included(c, db, reference).value.1)
    requires NotForged(c, s.batches, Included(c, db, reference).value.1)
    requires CollisionFree(c.h.sha, PostQueries(c.h, s.book.journals)
                                    + SealQueries(c.h.sha, s.book.journals, s.batches)
                                    + CheckQueries(c, db, Included(c, db, reference).value.0))
    ensures h in s.book.journals && ContentOf(h) == ContentOf(Included(c, db, reference).value.0)
  {
    hide LedgerOk, SealQueries, ProofQueries, Verifies;
    var (j, b) := Included(c, db, reference).value;
    var proof := MerkleProofOf(c, db.journals, db.batches, j).value.1;
    var q := PostQueries(c.h, s.book.journals) + SealQueries(c.h.sha, s.book.journals, s.batches) + CheckQueries(c, db, j);
    var k := SignedManifestIsHonest(c, s.batches, b);
    assert b.root == ManifestOf(b).root == ManifestOf(s.batches[k]).root;
    CollisionFreeSubset(c.h.sha, SealQueries(c.h.sha, s.book.journals, s.batches)
                                 + ProofQueries(c.h.sha, j.payloadHash, proof), q);
    h := InclusionLeadsToHonest(c, s, k, j.payloadHash, proof);
    HonestPayload(c, s, h);
    assert c.h.entryText(h) in PostQueries(c.h, s.book.journals);
    SameDigest(c.h.sha, q, c.h.entryText(h), c.h.entryText(j));
    SameEntryText(c.h, h, j);
  }

  lemma HonestPayload(c: Sealing, s: State, h: Journal)
    requires LedgerOk(c, s) && h in s.book.journals
    ensures h.payloadHash == PayloadHash(c.h, h)
  {
    var i: nat :| i < |s.book.journals| && s.book.journals[i] == h;
    PostedIsConsistent(c, s, i);
  }
}
