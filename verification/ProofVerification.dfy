/**
 End-to-end verification of one journal for an auditor: canonical hash, chain link, Merkle inclusion,
 signed manifest, external anchor. Completeness is about honest states, soundness about any database.
 */
module ProofVerification {
  import opened Common
  import opened Journals
  import opened Canonical
  import opened Ledger
  import opened Merkle
  import opened MerkleSecurity
  import opened ProofBatches
  import opened HashChain
  import opened LedgerRuns
  import opened BatchChain
  import opened Anchors

  /** The tables that verification reads. */
  datatype Database = Database(journals: seq<Journal>, batches: seq<Batch>, anchors: seq<Anchor>)

  datatype Verdict = Pending | Verified | Failed

  datatype Check =
    | JournalExists | Posted | CanonicalHash | HashChainLink | MerkleProof | BatchSignature
    | ExternalAnchor | AnchorExists | AnchorConfirmation | AnchorCommitment

  datatype CheckResult = CheckResult(check: Check, passed: bool)

  datatype Report = Report(checks: seq<CheckResult>, result: Verdict)

  function ByReference(journals: seq<Journal>, reference: string): (r: Option<Journal>)
    ensures r.Some? ==> r.value in journals && r.value.reference == reference
  {
    if journals == [] then None
    else if journals[0].reference == reference then Some(journals[0])
    else ByReference(journals[1..], reference)
  }

  predicate SelfConsistent(h: Hashing, j: Journal) {
    && j.status == POSTED && j.payloadHash == PayloadHash(h, j)
    && j.chainHash == ChainHash(h, j.previousHash, j.payloadHash) && j.previousHash != ""
  }

  /** The journal and the batch that vouches for it, when every check before the signature passes. */
  function Included(c: Sealing, db: Database, reference: string): Option<(Journal, Batch)> {
    match ByReference(db.journals, reference)
    case None => None
    case Some(j) =>
      if !SelfConsistent(c.h, j) then None
      else match MerkleProofOf(c, db.journals, db.batches, j)
        case Err(_) => None
        case Ok(p) => if Verifies(c.h.sha, j.payloadHash, p.1, p.0.root) then Some((j, p.0)) else None
  }

  function LiveAnchor(db: Database, b: Batch): Option<Anchor> {
    match Live(db.anchors, AnchorKey(b))
    case None => None
    case Some(k) => Some(db.anchors[k])
  }

  predicate IsConfirmed(db: Database, b: Batch) {
    var live := LiveAnchor(db, b);
    live.Some? && live.value.status == CONFIRMED && live.value.confirmedAt != ""
  }

  predicate CommitmentMatches(a: Anchoring, db: Database, b: Batch) {
    var live := LiveAnchor(db, b);
    live.Some? && live.value.commitment == CommitmentOf(a, b)
  }

  predicate AllPass(checks: seq<CheckResult>) {
    forall k :: 0 <= k < |checks| ==> checks[k].passed
  }

  /** The outcome of verification for the journal with this reference. */
  function VerdictOf(c: Sealing, a: Anchoring, db: Database, reference: string): Verdict {
    match Included(c, db, reference)
    case None => Failed
    case Some(found) =>
      if !IsConfirmed(db, found.1) then Pending
      else if SignatureVerifies(c, found.1) && CommitmentMatches(a, db, found.1) then Verified
      else Failed
  }

  /** `verify_journal`. The verdict is Verified exactly when every recorded check passed. */
  method VerifyJournal(c: Sealing, a: Anchoring, db: Database, reference: string) returns (report: Report)
    ensures report.result == VerdictOf(c, a, db, reference)
    ensures report.result == Verified <==> AllPass(report.checks)
  {
    var checks, included := VerifyInclusion(c, db, reference);
    if included.None? {
      return Report(checks, Failed);
    }
    var b := included.value.1;
    var signed := SignatureVerifies(c, b);
    var rest, result := VerifyAnchor(a, db, b, signed);
    AllPassAppend(checks, [CheckResult(BatchSignature, signed)] + rest);
    AllPassAppend([CheckResult(BatchSignature, signed)], rest);
    assert AllPass([CheckResult(BatchSignature, signed)]) <==> [CheckResult(BatchSignature, signed)][0].passed;
    report := Report(checks + ([CheckResult(BatchSignature, signed)] + rest), result);
  }

  lemma AllPassAppend(a: seq<CheckResult>, b: seq<CheckResult>)
    ensures AllPass(a + b) <==> AllPass(a) && AllPass(b)
  {
    if AllPass(a + b) {
      assert forall k :: 0 <= k < |a| ==> (a + b)[k] == a[k];
      assert forall k :: 0 <= k < |b| ==> (a + b)[|a| + k] == b[k];
    }
  }

  /** The first part of `verify_journal`: the journal itself, and its inclusion in a batch. */
  method VerifyInclusion(c: Sealing, db: Database, reference: string)
    returns (checks: seq<CheckResult>, included: Option<(Journal, Batch)>)
    ensures included == Included(c, db, reference)
    ensures included.Some? <==> AllPass(checks)
  {
    var found := ByReference(db.journals, reference);
    checks := [CheckResult(JournalExists, found.Some?)];
    if found.None? {
      assert !checks[0].passed;
      return checks, None;
    }
    var j := found.value;
    var posted, hashed := j.status == POSTED, j.payloadHash == PayloadHash(c.h, j);
    checks := checks + [CheckResult(Posted, posted), CheckResult(CanonicalHash, hashed)];
    if !(posted && hashed) {
      assert !checks[1].passed || !checks[2].passed;
      return checks, None;
    }
    var linked := j.chainHash == ChainHash(c.h, j.previousHash, j.payloadHash) && j.previousHash != "";
    checks := checks + [CheckResult(HashChainLink, linked)];
    if !linked {
      assert !checks[3].passed;
      return checks, None;
    }
    var proved, _ := GenerateMerkleProof(c, db.journals, db.batches, j);
    var ok := false;
    if proved.Ok? {
      ok := VerifyProof(c.h.sha, j.payloadHash, proved.value.1, proved.value.0.root);
    }
    checks := checks + [CheckResult(MerkleProof, ok)];
    assert checks[4].passed == ok;
    included := if ok then Some((j, proved.value.0)) else None;
  }

  /** The last part of `verify_journal`: the external anchor. `ok` says whether all went well so far. */
  method VerifyAnchor(a: Anchoring, db: Database, b: Batch, ok: bool) returns (checks: seq<CheckResult>, result: Verdict)
    ensures result == if !IsConfirmed(db, b) then Pending
                      else if ok && CommitmentMatches(a, db, b) then Verified else Failed
    ensures result == Verified ==> AllPass(checks)
    ensures result != Verified && ok ==> !AllPass(checks)
  {
    var anchor := LiveAnchor(db, b);
    if anchor.None? {
      checks := [CheckResult(ExternalAnchor, false)];
      assert !checks[0].passed;
      return checks, Pending;
    }
    var confirmed := anchor.value.status == CONFIRMED && anchor.value.confirmedAt != "";
    checks := [CheckResult(AnchorExists, true), CheckResult(AnchorConfirmation, confirmed)];
    if !confirmed {
      assert !checks[1].passed;
      return checks, Pending;
    }
    var matches := anchor.value.commitment == CommitmentOf(a, b);
    checks := checks + [CheckResult(AnchorCommitment, matches)];
    assert checks[2].passed == matches;
    result := if ok && matches then Verified else Failed;
  }

  // ----- runs of the ledger together with anchoring

  datatype System = System(ledger: State, anchors: seq<Anchor>, provider: Provider)

  datatype Event =
    | LedgerStep(step: Step)
    | AnchorBatch(batch: nat)
    | ConfirmAnchor(row: nat, now: string)
    | ProviderFailsNext
    | ProviderRestarts

  const Genesis := System(Start, [], Provider([], false))

  function WorldOf(s: System): World {
    World(s.ledger.batches, s.anchors, s.provider)
  }

  function WithWorld(s: System, w: World): System {
    System(s.ledger.(batches := w.batches), w.anchors, w.provider)
  }

  predicate Possible(s: System, e: Event) {
    match e
    case LedgerStep(step) => Enabled(s.ledger, step)
    case AnchorBatch(i) => i < |s.ledger.batches|
    case ConfirmAnchor(k, now) => k < |s.anchors| && s.anchors[k].batch < |s.ledger.batches| && now != ""
    case ProviderFailsNext => true
    case ProviderRestarts => true
  }

  function Happens(c: Sealing, a: Anchoring, s: System, e: Event): System
    requires Possible(s, e)
  {
    match e
    case LedgerStep(step) => s.(ledger := Apply(c, s.ledger, step))
    case AnchorBatch(i) => WithWorld(s, Anchored(a, WorldOf(s), i))
    case ConfirmAnchor(k, now) => WithWorld(s, Confirmed(a, WorldOf(s), k, now))
    case ProviderFailsNext => s.(provider := s.provider.(failNext := true))
    case ProviderRestarts => s.(provider := Provider([], false))
  }

  function AfterEvents(c: Sealing, a: Anchoring, s: System, events: seq<Event>): System
    decreases |events|
  {
    if events == [] then s
    else AfterEvents(c, a, if Possible(s, events[0]) then Happens(c, a, s, events[0]) else s, events[1..])
  }

  ghost predicate SystemOk(c: Sealing, a: Anchoring, s: System) {
    LedgerOk(c, s.ledger) && AnchorsOk(a, WorldOf(s))
  }

  lemma StatusKeepsBatch(c: Sealing, journals: seq<Journal>, off: nat, previous: string, sequence: nat, b: Batch)
    requires BatchOk(c, journals, off, previous, sequence, b)
    ensures BatchOk(c, journals, off, previous, sequence, b.(status := ANCHORED))
  {
    assert ManifestOf(b.(status := ANCHORED)) == ManifestOf(b);
  }

  /** Marking a batch ANCHORED leaves everything that is committed or signed as it was. */
  lemma {:induction false} StatusKeepsBatches(c: Sealing, journals: seq<Journal>, batches: seq<Batch>, i: nat)
    requires BatchesOk(c, journals, batches) && i < |batches|
    ensures var marked := MarkAnchored(batches, i);
            BatchesOk(c, journals, marked) && Covered(marked) == Covered(batches) && LastHash(marked) == LastHash(batches)
    decreases |batches|
  {
    hide BatchOk;
    var marked := MarkAnchored(batches, i);
    var n := |batches| - 1;
    if i < n {
      StatusKeepsBatches(c, journals, batches[..n], i);
      assert marked[..n] == MarkAnchored(batches[..n], i);
    } else {
      StatusKeepsBatch(c, journals, Covered(batches[..n]), LastHash(batches[..n]), |batches|, batches[n]);
      assert marked[..n] == batches[..n];
    }
  }

  lemma LedgerStepKeepsSystem(c: Sealing, a: Anchoring, s: System, step: Step)
    requires SystemOk(c, a, s) && Enabled(s.ledger, step)
    ensures SystemOk(c, a, s.(ledger := Apply(c, s.ledger, step)))
  {
    StepKeepsLedger(c, s.ledger, step);
    if step.Seal? && Selection(s.ledger.book.journals, s.ledger.batches) != [] {
      var b := NewBatch(c, s.ledger.batches, Selection(s.ledger.book.journals, s.ledger.batches), step.now);
      SequenceIsLength(c, s.ledger.book.journals, s.ledger.batches);
      SealKeepsOk(a, WorldOf(s), b);
    }
  }

  lemma ConfirmMarksAtMostOne(a: Anchoring, w: World, k: nat, now: string)
    requires k < |w.anchors| && w.anchors[k].batch < |w.batches|
    ensures var v := Confirmed(a, w, k, now);
            v.batches == w.batches || v.batches == MarkAnchored(w.batches, w.anchors[k].batch)
  {
  }

  lemma ConfirmKeepsSystem(c: Sealing, a: Anchoring, s: System, k: nat, now: string)
    requires SystemOk(c, a, s) && k < |s.anchors| && s.anchors[k].batch < |s.ledger.batches| && now != ""
    ensures SystemOk(c, a, WithWorld(s, Confirmed(a, WorldOf(s), k, now)))
  {
    hide BookOk, BatchesOk, AnchorsOk, Confirmed;
    ConfirmKeepsOk(a, WorldOf(s), k, now);
    ConfirmMarksAtMostOne(a, WorldOf(s), k, now);
    var v := Confirmed(a, WorldOf(s), k, now);
    if v.batches != s.ledger.batches {
      StatusKeepsBatches(c, s.ledger.book.journals, s.ledger.batches, s.anchors[k].batch);
    }
  }

  lemma {:induction false} EventsKeepSystem(c: Sealing, a: Anchoring, s: System, events: seq<Event>)
    requires SystemOk(c, a, s)
    ensures SystemOk(c, a, AfterEvents(c, a, s, events))
    decreases |events|
  {
    if events != [] {
      if Possible(s, events[0]) {
        EventKeepsSystem(c, a, s, events[0]);
        EventsKeepSystem(c, a, Happens(c, a, s, events[0]), events[1..]);
      } else {
        EventsKeepSystem(c, a, s, events[1..]);
      }
    }
  }

  lemma EventKeepsSystem(c: Sealing, a: Anchoring, s: System, e: Event)
    requires SystemOk(c, a, s) && Possible(s, e)
    ensures SystemOk(c, a, Happens(c, a, s, e))
  {
    match e {
      case LedgerStep(step) => LedgerStepKeepsSystem(c, a, s, step);
      case AnchorBatch(i) => AnchorKeepsOk(a, WorldOf(s), i);
      case ConfirmAnchor(k, now) => ConfirmKeepsSystem(c, a, s, k, now);
      case ProviderFailsNext => ProviderIrrelevant(a, WorldOf(s), s.provider.(failNext := true));
      case ProviderRestarts => ProviderIrrelevant(a, WorldOf(s), Provider([], false));
    }
  }

  lemma ProviderIrrelevant(a: Anchoring, w: World, p: Provider)
    requires AnchorsOk(a, w)
    ensures AnchorsOk(a, w.(provider := p))
  {
    var v := w.(provider := p);
    forall k: nat | k < |w.anchors|
      ensures RowOk(a, v, k)
    {
      assert RowOk(a, w, k);
    }
    forall i: nat | i < |w.batches|
      ensures AnchoredIffConfirmed(a, v, i)
    {
      assert AnchoredIffConfirmed(a, w, i);
      if k: nat :| k < |w.anchors| && ConfirmsBatch(a, w, k, i) {
        assert ConfirmsBatch(a, v, k, i);
      }
      if k: nat :| k < |v.anchors| && ConfirmsBatch(a, v, k, i) {
        assert ConfirmsBatch(a, w, k, i);
      }
    }
  }

  /** The anchor protocol, over every run of submissions, provider failures, restarts, retries and polls. */
  lemma ReachableSystemOk(c: Sealing, a: Anchoring, events: seq<Event>)
    ensures SystemOk(c, a, AfterEvents(c, a, Genesis, events))
  {
    EventsKeepSystem(c, a, Genesis, events);
  }
}
