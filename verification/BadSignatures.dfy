/**
 When `verify_journal` reports a batch signature that does not verify, and a run after which it does not.
 */
module BadSignatures {
  import opened Common
  import opened Journals
  import opened Canonical
  import opened Merkle
  import opened Ledger
  import opened ProofBatches
  import opened LedgerRuns
  import opened BatchChain
  import opened Anchors
  import opened ProofVerification
  import opened ProofTheorems

  /**
   For a journal that is included in a batch with a bad signature, the verdict is Failed exactly when the
   batch's live anchor is confirmed. Otherwise it is Pending: the bad signature goes unreported.
   */
  lemma BadSignatureVerdict(c: Sealing, a: Anchoring, db: Database, reference: string)
    requires Included(c, db, reference).Some? && !SignatureVerifies(c, Included(c, db, reference).value.1)
    ensures VerdictOf(c, a, db, reference) == Failed <==> IsConfirmed(db, Included(c, db, reference).value.1)
    ensures VerdictOf(c, a, db, reference) == Pending <==> !IsConfirmed(db, Included(c, db, reference).value.1)
  {
    hide Included, IsConfirmed, SignatureVerifies;
  }

  // ----- a stored signature is replaced

  function Resigned(db: Database, k: nat, signature: Signature): Database
    requires k < |db.batches|
  {
    db.(batches := db.batches[k := db.batches[k].(signature := signature)])
  }

  lemma {:induction false} FirstContaining(batches: seq<Batch>, id: nat, k: nat)
    requires k < |batches| && batches[k].status != BatchStatus.FAILED && batches[k].first <= id <= batches[k].last
    requires forall n :: 0 <= n < k ==> !(batches[n].first <= id <= batches[n].last)
    ensures FindBatch(batches, id) == Some(batches[k])
  {
    if k > 0 {
      FirstContaining(batches[1..], id, k - 1);
    }
  }

  /** Where the signature stands is all that changes: the journal is included in the batch with the new one. */
  lemma ResignedIsIncluded(c: Sealing, s: System, i: nat, k: nat, signature: Signature)
    requires LedgerOk(c, s.ledger) && i < |s.ledger.book.journals| && k < |s.ledger.batches|
    requires Covered(s.ledger.batches[..k]) <= i < Covered(s.ledger.batches[..k]) + s.ledger.batches[k].count
    ensures var db := Resigned(DatabaseOf(s), k, signature);
            Included(c, db, s.ledger.book.journals[i].reference) == Some((s.ledger.book.journals[i], db.batches[k]))
  {
    hide BatchesOk, Covered, Verifies, SelfConsistent, Path, Clamps, AllOk, ReversalsOk;
    var js, batches, j := s.ledger.book.journals, s.ledger.batches, s.ledger.book.journals[i];
    var db := Resigned(DatabaseOf(s), k, signature);
    FoundByReference(js, i);
    PostedIsConsistent(c, s.ledger, i);
    CoveredProofVerifies(c, s.ledger, i, k);
    HonestBatchContinues(c, js, batches, k);
    InRangeIffCovered(c, js, batches, k, i);
    forall n: nat | n < k
      ensures !(db.batches[n].first <= j.id <= db.batches[n].last)
    {
      InRangeIffCovered(c, js, batches, n, i);
      CoveredOrdered(batches, n, k);
    }
    FoundBatch(c, s.ledger, i, k);
    FirstContaining(db.batches, j.id, k);
  }

  /**
   In every reachable system: replace the stored signature of a sealed batch that is not anchored by any one
   that does not verify, and each of its journals still gets Pending. Once it is anchored, each gets Failed.
   */
  lemma ReplacedSignatureVerdict(c: Sealing, a: Anchoring, events: seq<Event>, i: nat, k: nat, signature: Signature)
    requires var s := AfterEvents(c, a, Genesis, events);
             && i < |s.ledger.book.journals| && k < |s.ledger.batches|
             && Covered(s.ledger.batches[..k]) <= i < Covered(s.ledger.batches[..k]) + s.ledger.batches[k].count
             && !SignatureVerifies(c, s.ledger.batches[k].(signature := signature))
    ensures var s := AfterEvents(c, a, Genesis, events);
            VerdictOf(c, a, Resigned(DatabaseOf(s), k, signature), s.ledger.book.journals[i].reference)
            == if s.ledger.batches[k].status == ANCHORED then Failed else Pending
  {
    ReachableSystemOk(c, a, events);
    var s := AfterEvents(c, a, Genesis, events);
    hide AfterEvents, LedgerOk, AnchorsOk, Covered, Included, Live;
    ResignedIsIncluded(c, s, i, k, signature);
    ConfirmedIffAnchored(c, a, s, k);
    var db := Resigned(DatabaseOf(s), k, signature);
    assert AnchorKey(db.batches[k]) == AnchorKey(s.ledger.batches[k]);
    assert IsConfirmed(db, db.batches[k]) <==> IsConfirmed(DatabaseOf(s), s.ledger.batches[k]);
    BadSignatureVerdict(c, a, db, s.ledger.book.journals[i].reference);
  }

  // ----- a run that gets there

  const DEPOSIT := Posting("JRN-1", "", [Line("CASH", DEBIT, 100), Line("DEPOSITS", CREDIT, 100)], "2026-01-01T00:00:00+00:00", "")

  function OneSealedJournal(): seq<Event> {
    [LedgerStep(OpenAccount("CASH", ASSET, "USD")), LedgerStep(OpenAccount("DEPOSITS", LIABILITY, "USD")),
     LedgerStep(Post(DEPOSIT)), LedgerStep(Seal("2026-01-02T00:00:00+00:00"))]
  }

  function DepositAccounts(): Accounts {
    map["CASH" := LedgerAccount(ASSET, "USD", LedgerStatus.ACTIVE),
        "DEPOSITS" := LedgerAccount(LIABILITY, "USD", LedgerStatus.ACTIVE)]
  }

  lemma DepositPosts()
    ensures LinesKnown(DepositAccounts(), DEPOSIT.lines)
    ensures PostProblem(Book(0, DepositAccounts(), []), DEPOSIT).None?
  {
    MovementHasNoProblem(Book(0, DepositAccounts(), []), DEPOSIT, "CASH", "DEPOSITS", 100);
  }

  function Next(c: Sealing, a: Anchoring, s: System, e: Event): System {
    if Possible(s, e) then Happens(c, a, s, e) else s
  }

  lemma FourEvents(c: Sealing, a: Anchoring, s: System, e: Event, f: Event, g: Event, d: Event)
    ensures AfterEvents(c, a, s, [e, f, g, d]) == Next(c, a, Next(c, a, Next(c, a, Next(c, a, s, e), f), g), d)
  {
    hide Happens, Possible;
    assert [e, f, g, d][1..] == [f, g, d] && [f, g, d][1..] == [g, d] && [g, d][1..] == [d] && [d][1..] == [];
    var s1 := Next(c, a, s, e);
    var s2 := Next(c, a, s1, f);
    var s3 := Next(c, a, s2, g);
    assert AfterEvents(c, a, s3, [d]) == Next(c, a, s3, d);
    assert AfterEvents(c, a, s2, [g, d]) == AfterEvents(c, a, s3, [d]);
    assert AfterEvents(c, a, s1, [f, g, d]) == AfterEvents(c, a, s2, [g, d]);
  }

  /** After posting one journal and sealing it, the only batch holds it and is not anchored. */
  lemma OneSealedJournalRun(c: Sealing, a: Anchoring)
    ensures var s := AfterEvents(c, a, Genesis, OneSealedJournal());
            && |s.ledger.book.journals| == 1 && |s.ledger.batches| == 1
            && s.ledger.book.journals[0].reference == "JRN-1"
            && s.ledger.batches[0].status == SEALED && s.ledger.batches[0].count == 1
            && s.anchors == [] && s.provider == Provider([], false)
  {
    hide AfterEvents;
    DepositPosts();
    var book := Book(0, DepositAccounts(), []);
    var s0 := Genesis;
    var events := OneSealedJournal();
    var s1 := Happens(c, a, s0, events[0]);
    var s2 := Happens(c, a, s1, events[1]);
    assert s2.ledger.book.accounts == DepositAccounts();
    assert s2 == s0.(ledger := State(book, []));
    var j := NewJournal(c.h, book, DEPOSIT);
    var s3 := Happens(c, a, s2, events[2]);
    assert s3.ledger == State(Book(1, DepositAccounts(), [j]), []);
    assert Selection([j], []) == [j] by {
      SelectAll([j], (x: Journal) => x.status == POSTED && 0 <= x.id);
    }
    var s4 := Happens(c, a, s3, events[3]);
    assert s4.ledger.batches == [NewBatch(c, [], [j], "2026-01-02T00:00:00+00:00")];
    FourEvents(c, a, s0, events[0], events[1], events[2], events[3]);
  }

  /** The input itself: after that run, any signature that does not verify may stand there, and the verdict is Pending. */
  lemma BadSignatureGoesUnreported(c: Sealing, a: Anchoring, signature: Signature)
    ensures var s := AfterEvents(c, a, Genesis, OneSealedJournal());
            && |s.ledger.batches| == 1
            && var db := Resigned(DatabaseOf(s), 0, signature);
               !SignatureVerifies(c, db.batches[0]) ==> VerdictOf(c, a, db, "JRN-1") == Pending
  {
    OneSealedJournalRun(c, a);
    var s := AfterEvents(c, a, Genesis, OneSealedJournal());
    hide AfterEvents, OneSealedJournal, SignatureVerifies, VerdictOf;
    assert s.ledger.batches[..0] == [];
    if !SignatureVerifies(c, s.ledger.batches[0].(signature := signature)) {
      ReplacedSignatureVerdict(c, a, OneSealedJournal(), 0, 0, signature);
    }
  }
}
