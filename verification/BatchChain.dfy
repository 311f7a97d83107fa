/**
 The command that re-verifies the chain of batch manifests: what it accepts in honest states, and what
 its acceptance of an arbitrary table proves when signatures cannot be forged.
 */
module BatchChain {
  import opened Common
  import opened Journals
  import opened ProofBatches
  import opened LedgerRuns

  function PreviousHash(rows: seq<Batch>, i: nat): string
    requires i <= |rows|
  {
    if i == 0 then GENESIS else rows[i - 1].manifestHash
  }

  predicate ContinuesAt(c: Sealing, rows: seq<Batch>, i: nat)
    requires i < |rows|
  {
    && rows[i].sequence == i + 1
    && rows[i].previousHash == PreviousHash(rows, i)
    && SignatureVerifies(c, rows[i])
  }

  predicate BatchChainValid(c: Sealing, rows: seq<Batch>) {
    forall i: nat :: i < |rows| ==> ContinuesAt(c, rows, i)
  }

  function ActiveRows(table: seq<Batch>): seq<Batch> {
    Select(table, (b: Batch) => b.status in {SEALED, ANCHORED, VERIFIED})
  }

  datatype BatchProblem = SequenceGap | PreviousHashMismatch | InvalidSignature

  function BatchProblems(c: Sealing, b: Batch, expected: nat, previous: string): (r: seq<BatchProblem>)
    ensures r == [] <==> b.sequence == expected && b.previousHash == previous && SignatureVerifies(c, b)
  {
    (if b.sequence != expected then [SequenceGap] else [])
    + (if b.previousHash != previous then [PreviousHashMismatch] else [])
    + (if !SignatureVerifies(c, b) then [InvalidSignature] else [])
  }

  /** `verify_batch_chain` over the batch table in sequence order. */
  method VerifyBatchChain(c: Sealing, table: seq<Batch>)
    returns (checked: nat, failures: nat, problems: seq<BatchProblem>)
    ensures failures == 0 <==> BatchChainValid(c, ActiveRows(table))
    ensures failures == 0 ==> checked == |ActiveRows(table)| && problems == []
    ensures failures != 0 ==>
              && failures == 1 && 0 < checked <= |ActiveRows(table)| && problems != []
              && !ContinuesAt(c, ActiveRows(table), checked - 1)
              && forall i: nat :: i < checked - 1 ==> ContinuesAt(c, ActiveRows(table), i)
  {
    var rows := ActiveRows(table);
    var previous, expected := GENESIS, 1;
    failures, checked, problems := 0, 0, [];
    for k := 0 to |rows|
      invariant failures == 0 && problems == [] && checked == k && expected == k + 1
      invariant previous == PreviousHash(rows, k)
      invariant forall i: nat :: i < k ==> ContinuesAt(c, rows, i)
    {
      var b := rows[k];
      checked := checked + 1;
      problems := BatchProblems(c, b, expected, previous);
      if problems != [] {
        failures := failures + 1;
        assert !ContinuesAt(c, rows, k);
        return;
      }
      assert ContinuesAt(c, rows, k);
      previous := b.manifestHash;
      expected := expected + 1;
    }
  }

  lemma HonestBatchContinues(c: Sealing, journals: seq<Journal>, batches: seq<Batch>, i: nat)
    requires BatchesOk(c, journals, batches) && i < |batches|
    ensures ContinuesAt(c, batches, i) && batches[i].status in {SEALED, ANCHORED}
  {
    BatchAt(c, journals, batches, i);
    assert i > 0 ==> batches[..i][i - 1] == batches[i - 1];
    assert AcceptsOwn(c.signer);
    assert c.signer.verify(c.manifestText(ManifestOf(batches[i])), c.signer.sign(c.manifestText(ManifestOf(batches[i]))));
  }

  lemma HonestBatchesValid(c: Sealing, journals: seq<Journal>, batches: seq<Batch>)
    requires BatchesOk(c, journals, batches)
    ensures ActiveRows(batches) == batches && BatchChainValid(c, batches)
  {
    forall i: nat | i < |batches|
      ensures ContinuesAt(c, batches, i) && batches[i].status in {SEALED, ANCHORED, VERIFIED}
    {
      HonestBatchContinues(c, journals, batches, i);
    }
    SelectAll(batches, (b: Batch) => b.status in {SEALED, ANCHORED, VERIFIED});
  }

  /** The batch-chain command reports no failure in any reachable state. */
  lemma ReachableBatchesVerify(c: Sealing, steps: seq<Step>)
    ensures BatchChainValid(c, ActiveRows(After(c, Start, steps).batches))
  {
    ReachableLedgerOk(c, steps);
    var s := After(c, Start, steps);
    HonestBatchesValid(c, s.book.journals, s.batches);
  }

  // ----- arbitrary tables

  /** If the signature stored in `b` verifies, it is on a manifest that was honestly signed. */
  ghost predicate NotForged(c: Sealing, honest: seq<Batch>, b: Batch) {
    SignatureVerifies(c, b) ==>
      exists k :: 0 <= k < |honest| && c.manifestText(ManifestOf(b)) == c.manifestText(ManifestOf(honest[k]))
  }

  ghost predicate NoneForged(c: Sealing, honest: seq<Batch>, rows: seq<Batch>) {
    forall i :: 0 <= i < |rows| ==> NotForged(c, honest, rows[i])
  }

  lemma SignedManifestIsHonest(c: Sealing, honest: seq<Batch>, b: Batch) returns (k: nat)
    requires NotForged(c, honest, b) && SignatureVerifies(c, b)
    ensures k < |honest| && ManifestOf(b) == ManifestOf(honest[k])
  {
    k :| k < |honest| && c.manifestText(ManifestOf(b)) == c.manifestText(ManifestOf(honest[k]));
    assert NamesManifest(c.manifestText);
  }

  /** Row `i` agrees with the honest batch `i` in everything that is signed, and is signed. */
  predicate AgreesAt(c: Sealing, rows: seq<Batch>, honest: seq<Batch>, i: nat)
    requires i < |rows|
  {
    && i < |honest| && ManifestOf(rows[i]) == ManifestOf(honest[i]) && SignatureVerifies(c, rows[i])
    && (i + 1 < |rows| ==> rows[i].manifestHash == honest[i].manifestHash)
  }

  /**
   Without forged signatures the command accepts exactly the prefixes of the honest batch history:
   every signed field is the honest one, and so is every manifest hash but the last row's, which the
   command never recomputes. (Dropping batches from the end is therefore not detected.)
   */
  lemma AcceptedBatchesArePrefix(c: Sealing, journals: seq<Journal>, honest: seq<Batch>, rows: seq<Batch>)
    requires BatchesOk(c, journals, honest) && NoneForged(c, honest, rows)
    ensures BatchChainValid(c, rows) <==> forall i: nat :: i < |rows| ==> AgreesAt(c, rows, honest, i)
  {
    if BatchChainValid(c, rows) {
      forall i: nat | i < |rows|
        ensures AgreesAt(c, rows, honest, i)
      {
        RowAgrees(c, journals, honest, rows, i);
      }
    }
    if forall i: nat :: i < |rows| ==> AgreesAt(c, rows, honest, i) {
      forall i: nat | i < |rows|
        ensures ContinuesAt(c, rows, i)
      {
        RowContinues(c, journals, honest, rows, i);
      }
    }
  }

  lemma RowIsHonest(c: Sealing, journals: seq<Journal>, honest: seq<Batch>, rows: seq<Batch>, i: nat)
    requires BatchesOk(c, journals, honest) && NoneForged(c, honest, rows)
    requires i < |rows| && ContinuesAt(c, rows, i)
    ensures i < |honest| && ManifestOf(rows[i]) == ManifestOf(honest[i])
  {
    var k := SignedManifestIsHonest(c, honest, rows[i]);
    HonestBatchContinues(c, journals, honest, k);
    assert rows[i].sequence == ManifestOf(rows[i]).sequence == ManifestOf(honest[k]).sequence == k + 1;
  }

  lemma RowAgrees(c: Sealing, journals: seq<Journal>, honest: seq<Batch>, rows: seq<Batch>, i: nat)
    requires BatchesOk(c, journals, honest) && NoneForged(c, honest, rows)
    requires BatchChainValid(c, rows) && i < |rows|
    ensures AgreesAt(c, rows, honest, i)
  {
    assert ContinuesAt(c, rows, i);
    RowIsHonest(c, journals, honest, rows, i);
    if i + 1 < |rows| {
      assert ContinuesAt(c, rows, i + 1);
      RowIsHonest(c, journals, honest, rows, i + 1);
      HonestBatchContinues(c, journals, honest, i + 1);
      assert ManifestOf(rows[i + 1]).previousHash == ManifestOf(honest[i + 1]).previousHash;
    }
  }

  lemma RowContinues(c: Sealing, journals: seq<Journal>, honest: seq<Batch>, rows: seq<Batch>, i: nat)
    requires BatchesOk(c, journals, honest) && i < |rows|
    requires forall k: nat :: k < |rows| ==> AgreesAt(c, rows, honest, k)
    ensures ContinuesAt(c, rows, i)
  {
    assert AgreesAt(c, rows, honest, i);
    HonestBatchContinues(c, journals, honest, i);
    assert ManifestOf(rows[i]).sequence == ManifestOf(honest[i]).sequence;
    assert ManifestOf(rows[i]).previousHash == ManifestOf(honest[i]).previousHash;
    if i > 0 {
      assert AgreesAt(c, rows, honest, i - 1);
    }
  }

  /** The one stored hash that the command does not look at: the newest batch's own manifest hash. */
  lemma TipHashIsNotChecked(c: Sealing, rows: seq<Batch>, anything: string)
    requires rows != [] && BatchChainValid(c, rows)
    ensures BatchChainValid(c, rows[|rows| - 1 := rows[|rows| - 1].(manifestHash := anything)])
  {
    var changed := rows[|rows| - 1 := rows[|rows| - 1].(manifestHash := anything)];
    forall i: nat | i < |changed|
      ensures ContinuesAt(c, changed, i)
    {
      assert ContinuesAt(c, rows, i);
      assert ManifestOf(changed[i]) == ManifestOf(rows[i]);
    }
  }
}
