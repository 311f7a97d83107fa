/**
 Runs of the ledger: any sequence of account openings, status changes, postings (successful or not),
 reversals and seals. `LedgerOk` holds in every state of every run; both verification commands and
 the partition of history into batches follow from it.
 */
module LedgerRuns {
  import opened Common
  import opened Journals
  import opened Canonical
  import opened Ledger
  import opened HashChain
  import opened ProofBatches
  import opened Merkle

  datatype State = State(book: Book, batches: seq<Batch>)

  datatype Step =
    | OpenAccount(code: string, kind: AccountKind, currency: string)
    | SetStatus(code: string, status: LedgerStatus)
    | Post(posting: Posting)
    | Reverse(index: nat, reference: string, description: string, at: string)
    | Seal(now: string)

  const Start := State(Book(0, map[], []), [])

  /** What callers guarantee: they pass existing rows and a posting time. */
  predicate Enabled(s: State, step: Step) {
    match step
    case OpenAccount(_, _, _) => true
    case SetStatus(code, _) => code in s.book.accounts
    case Post(p) => LinesKnown(s.book.accounts, p.lines) && p.at != ""
    case Reverse(i, _, _, at) =>
      i < |s.book.journals| && at != "" && LinesKnown(s.book.accounts, Mirror(s.book.journals[i].lines))
    case Seal(_) => true
  }

  function WithAccount(book: Book, code: string, account: LedgerAccount): Book {
    book.(accounts := book.accounts[code := account])
  }

  function Apply(c: Sealing, s: State, step: Step): State
    requires Enabled(s, step)
  {
    match step
    case OpenAccount(code, kind, currency) =>
      if code in s.book.accounts then s
      else s.(book := WithAccount(s.book, code, LedgerAccount(kind, currency, LedgerStatus.ACTIVE)))
    case SetStatus(code, status) => s.(book := WithAccount(s.book, code, s.book.accounts[code].(status := status)))
    case Post(p) => s.(book := PostedBook(c.h, s.book, p))
    case Reverse(i, reference, description, at) =>
      var original := s.book.journals[i];
      s.(book := ReversedBook(c.h, s.book, original, ReversalPosting(original, reference, description, at)))
    case Seal(now) => s.(batches := SealedBatches(c, s.book.journals, s.batches, now))
  }

  /** The state after a run; a step that its caller may not take is skipped. */
  function After(c: Sealing, s: State, steps: seq<Step>): State
    decreases |steps|
  {
    if steps == [] then s
    else After(c, if Enabled(s, steps[0]) then Apply(c, s, steps[0]) else s, steps[1..])
  }

  // ----- the invariant on journals

  predicate Balanced(lines: seq<Line>) {
    SumSide(lines, DEBIT) == SumSide(lines, CREDIT)
  }

  predicate AllPositive(lines: seq<Line>) {
    forall l :: l in lines ==> l.amount > 0
  }

  predicate JournalOk(accounts: Accounts, j: Journal) {
    && j.status == POSTED && j.postedAt != "" && j.lines != []
    && LinesKnown(accounts, j.lines) && AllInCurrency(accounts, j.lines, j.currency)
    && AllPositive(j.lines) && Balanced(j.lines)
  }

  predicate AllOk(accounts: Accounts, journals: seq<Journal>) {
    forall j :: j in journals ==> JournalOk(accounts, j)
  }

  // Facts about two rows are stated through predicates, so that they are used only where they are named.

  predicate IdLess(journals: seq<Journal>, i: nat, k: nat)
    requires i < |journals| && k < |journals|
  {
    journals[i].id < journals[k].id
  }

  predicate IdBelow(journals: seq<Journal>, i: nat, bound: nat)
    requires i < |journals|
  {
    journals[i].id < bound
  }

  predicate Ascending(journals: seq<Journal>, bound: nat) {
    && (forall i: nat, k: nat :: i < k < |journals| ==> IdLess(journals, i, k))
    && (forall i: nat :: i < |journals| ==> IdBelow(journals, i, bound))
  }

  predicate ReferencesDiffer(journals: seq<Journal>, i: nat, k: nat)
    requires i < |journals| && k < |journals|
  {
    journals[i].reference != journals[k].reference
  }

  predicate ReferencesUnique(journals: seq<Journal>) {
    forall i: nat, k: nat :: i < k < |journals| ==> ReferencesDiffer(journals, i, k)
  }

  predicate TargetsDiffer(journals: seq<Journal>, i: nat, k: nat)
    requires i < |journals| && k < |journals|
  {
    journals[i].reverses.Some? ==> journals[i].reverses != journals[k].reverses
  }

  /** Row `i`, if it reverses anything, mirrors the lines of an earlier row. */
  ghost predicate ReversesEarlier(journals: seq<Journal>, i: nat)
    requires i < |journals|
  {
    journals[i].reverses.Some? ==>
      exists k: nat :: k < i && journals[k].id == journals[i].reverses.value && journals[i].lines == Mirror(journals[k].lines)
  }

  ghost predicate ReversalsOk(journals: seq<Journal>) {
    && (forall i: nat :: i < |journals| ==> ReversesEarlier(journals, i))
    && (forall i: nat, k: nat :: i < k < |journals| ==> TargetsDiffer(journals, i, k))
  }

  ghost predicate BookOk(h: Hashing, book: Book) {
    && AllOk(book.accounts, book.journals)
    && Ascending(book.journals, book.nextId)
    && ReferencesUnique(book.journals)
    && ReversalsOk(book.journals)
    && ChainValid(h, book.journals)
  }

  lemma {:induction false} NoProblemMeansPositive(accounts: Accounts, lines: seq<Line>)
    requires LinesKnown(accounts, lines) && LineProblem(accounts, lines).None?
    ensures AllPositive(lines)
  {
    if lines != [] {
      assert forall l :: l in lines[1..] ==> l in lines;
      NoProblemMeansPositive(accounts, lines[1..]);
      assert forall l :: l in lines ==> l == lines[0] || l in lines[1..];
    }
  }

  /** The two accounts of a movement are open, in the same currency, and the reference is new. */
  predicate MovementFits(book: Book, reference: string, x: string, y: string) {
    && x in book.accounts && y in book.accounts && book.accounts[x].currency == book.accounts[y].currency
    && book.accounts[x].status == LedgerStatus.ACTIVE && book.accounts[y].status == LedgerStatus.ACTIVE
    && !ReferenceUsed(book.journals, reference)
  }

  /** Such a movement of a positive amount meets no refusal. */
  lemma MovementHasNoProblem(book: Book, p: Posting, x: string, y: string, n: int)
    requires p.lines == [Line(x, DEBIT, n), Line(y, CREDIT, n)] && n > 0 && MovementFits(book, p.reference, x, y)
    requires p.declared == "" || p.declared == book.accounts[x].currency
    ensures LinesKnown(book.accounts, p.lines) && PostProblem(book, p).None?
  {
    PairProblem(book, p, Line(x, DEBIT, n), Line(y, CREDIT, n));
  }

  /**
   A posting of two opposite lines passes exactly if its amount is positive, its reference is new, and both
   accounts are active and in one currency, the declared one if any is declared.
   */
  lemma PairProblem(book: Book, p: Posting, d: Line, c: Line)
    requires p.lines == [d, c] && d.side != c.side && d.amount == c.amount
    requires d.account in book.accounts && c.account in book.accounts
    ensures LinesKnown(book.accounts, p.lines)
    ensures PostProblem(book, p).None? <==>
              && d.amount > 0 && MovementFits(book, p.reference, d.account, c.account)
              && (p.declared == "" || p.declared == book.accounts[d.account].currency)
  {
    var lines := p.lines;
    assert lines[1..] == [c] && [c][1..] == [] && [] + [d] == [d] && [d] + [c] == lines;
    SumSideSnoc([], d, DEBIT);
    SumSideSnoc([], d, CREDIT);
    SumSideSnoc([d], c, DEBIT);
    SumSideSnoc([d], c, CREDIT);
    assert LineProblem(book.accounts, [c]).None? <==> book.accounts[c.account].status == LedgerStatus.ACTIVE && c.amount > 0 by {
      assert LineProblem(book.accounts, [c][1..]).None?;
    }
    assert AllInCurrency(book.accounts, lines, CurrencyOf(book.accounts, lines))
      <==> book.accounts[d.account].currency == book.accounts[c.account].currency by {
      assert d in lines && c in lines;
    }
  }

  lemma NewJournalOk(h: Hashing, book: Book, p: Posting)
    requires LinesKnown(book.accounts, p.lines) && p.at != "" && PostProblem(book, p).None?
    ensures JournalOk(book.accounts, NewJournal(h, book, p))
  {
    NoProblemMeansPositive(book.accounts, p.lines);
  }

  lemma NewJournalLinks(h: Hashing, book: Book, p: Posting, reverses: Option<nat>)
    requires LinesKnown(book.accounts, p.lines) && p.lines != []
    requires ChainValid(h, book.journals)
    ensures ChainValid(h, book.journals + [NewJournal(h, book, p).(reverses := reverses)])
  {
    var j := NewJournal(h, book, p).(reverses := reverses);
    var js := book.journals + [j];
    forall i: nat | i < |js|
      ensures LinkedAt(h, js, i)
    {
      if i < |book.journals| {
        assert LinkedAt(h, book.journals, i);
      } else {
        NewJournalHashed(h, book, p, reverses);
      }
    }
  }

  /** The hashes are computed before the reversal link is set and do not cover it. */
  lemma NewJournalHashed(h: Hashing, book: Book, p: Posting, reverses: Option<nat>)
    requires LinesKnown(book.accounts, p.lines) && p.lines != []
    ensures var j := NewJournal(h, book, p).(reverses := reverses);
            && j.payloadHash == PayloadHash(h, j) && j.previousHash == Tip(book.journals)
            && j.chainHash == ChainHash(h, j.previousHash, j.payloadHash)
  {
    var j := NewJournal(h, book, p).(reverses := reverses);
    var draft := Journal(book.nextId, p.reference, p.description, CurrencyOf(book.accounts, p.lines), POSTED, p.at,
                         p.lines, "", "", "", None);
    assert ContentOf(j) == ContentOf(draft);
    SameEntryText(h, j, draft);
  }

  lemma AppendReversals(journals: seq<Journal>, j: Journal)
    requires ReversalsOk(journals)
    requires j.reverses.Some? ==> !IsReversed(journals, j.reverses.value)
    requires j.reverses.Some? ==>
               exists k: nat :: k < |journals| && journals[k].id == j.reverses.value && j.lines == Mirror(journals[k].lines)
    ensures ReversalsOk(journals + [j])
  {
    var js := journals + [j];
    forall i: nat | i < |js|
      ensures ReversesEarlier(js, i)
    {
      if i < |journals| {
        assert ReversesEarlier(journals, i);
        if journals[i].reverses.Some? {
          var k: nat :| k < i && journals[k].id == journals[i].reverses.value && journals[i].lines == Mirror(journals[k].lines);
          assert js[k] == journals[k] && js[i] == journals[i];
        }
      } else if j.reverses.Some? {
        var k: nat :| k < |journals| && journals[k].id == j.reverses.value && j.lines == Mirror(journals[k].lines);
        assert js[k] == journals[k];
      }
    }
    forall i: nat, k: nat | i < k < |js|
      ensures TargetsDiffer(js, i, k)
    {
      if k < |journals| {
        assert TargetsDiffer(journals, i, k);
      }
    }
  }

  lemma AppendKeepsOrder(journals: seq<Journal>, bound: nat, j: Journal)
    requires Ascending(journals, bound) && ReferencesUnique(journals)
    requires j.id == bound && !ReferenceUsed(journals, j.reference)
    ensures Ascending(journals + [j], bound + 1) && ReferencesUnique(journals + [j])
  {
    var js, next := journals + [j], bound + 1;
    forall i: nat, k: nat | i < k < |js|
      ensures IdLess(js, i, k) && ReferencesDiffer(js, i, k)
    {
      assert IdBelow(journals, i, bound);
      if k < |journals| {
        assert IdLess(journals, i, k) && ReferencesDiffer(journals, i, k);
      }
    }
    forall i: nat | i < |js|
      ensures IdBelow(js, i, next)
    {
      if i < |journals| {
        assert IdBelow(journals, i, bound);
      }
    }
  }

  lemma AppendKeepsBook(h: Hashing, book: Book, p: Posting, reverses: Option<nat>)
    requires BookOk(h, book)
    requires LinesKnown(book.accounts, p.lines) && p.at != "" && PostProblem(book, p).None?
    requires reverses.Some? ==> !IsReversed(book.journals, reverses.value)
    requires reverses.Some? ==>
               exists k: nat :: k < |book.journals| && book.journals[k].id == reverses.value
                                && p.lines == Mirror(book.journals[k].lines)
    ensures BookOk(h, Book(book.nextId + 1, book.accounts,
                           book.journals + [NewJournal(h, book, p).(reverses := reverses)]))
  {
    NewJournalOk(h, book, p);
    NewJournalLinks(h, book, p, reverses);
    AppendReversals(book.journals, NewJournal(h, book, p).(reverses := reverses));
    AppendKeepsOrder(book.journals, book.nextId, NewJournal(h, book, p).(reverses := reverses));
  }

  lemma BurnKeepsBook(h: Hashing, book: Book)
    requires BookOk(h, book)
    ensures BookOk(h, book.(nextId := book.nextId + 1))
  {
    var next := book.nextId + 1;
    forall i: nat | i < |book.journals|
      ensures IdBelow(book.journals, i, next)
    {
      assert IdBelow(book.journals, i, book.nextId);
    }
  }

  lemma PostKeepsBook(h: Hashing, book: Book, p: Posting)
    requires BookOk(h, book) && LinesKnown(book.accounts, p.lines) && p.at != ""
    ensures BookOk(h, PostedBook(h, book, p))
    ensures book.journals <= PostedBook(h, book, p).journals
  {
    if PostProblem(book, p).None? {
      AppendKeepsBook(h, book, p, None);
      assert NewJournal(h, book, p).(reverses := None) == NewJournal(h, book, p);
    } else {
      BurnKeepsBook(h, book);
    }
  }

  lemma ReverseKeepsBook(h: Hashing, book: Book, i: nat, p: Posting)
    requires BookOk(h, book) && i < |book.journals| && p.at != ""
    requires p.lines == Mirror(book.journals[i].lines) && LinesKnown(book.accounts, p.lines)
    ensures BookOk(h, ReversedBook(h, book, book.journals[i], p))
    ensures book.journals <= ReversedBook(h, book, book.journals[i], p).journals
  {
    var original := book.journals[i];
    if ReverseProblem(book, original, p).None? {
      AppendKeepsBook(h, book, p, Some(original.id));
      var posted := PostedBook(h, book, p).journals;
      assert posted == book.journals + [NewJournal(h, book, p)];
      assert LinkLast(posted, original.id) == book.journals + [NewJournal(h, book, p).(reverses := Some(original.id))];
    } else if ReverseProblem(book, original, p).value.PostingFailed? {
      PostKeepsBook(h, book, p);
    }
  }

  lemma AccountKeepsBook(h: Hashing, book: Book, code: string, account: LedgerAccount)
    requires BookOk(h, book)
    requires code in book.accounts ==> account.currency == book.accounts[code].currency
    ensures BookOk(h, WithAccount(book, code, account))
  {
    var accounts := WithAccount(book, code, account).accounts;
    forall j | j in book.journals
      ensures JournalOk(accounts, j)
    {
      assert JournalOk(book.accounts, j);
    }
  }

  // ----- the invariant on batches

  /** Batch `b` commits the journals at positions `off .. off + b.count`. */
  predicate BatchOk(c: Sealing, journals: seq<Journal>, off: nat, previous: string, sequence: nat, b: Batch) {
    && 0 < b.count <= MAX_BATCH_SIZE && off + b.count <= |journals|
    && CommitsTo(c, journals[off..off + b.count], b)
    && b.previousHash == previous && b.sequence == sequence
    && b.status in {SEALED, ANCHORED}
    && b.manifestHash == ManifestHash(c, ManifestOf(b))
    && b.signature == c.signer.sign(c.manifestText(ManifestOf(b)))
  }

  predicate CommitsTo(c: Sealing, slice: seq<Journal>, b: Batch) {
    && slice != [] && |slice| == b.count && Contiguous(slice)
    && b.first == slice[0].id && b.last == slice[|slice| - 1].id
    && b.root == MerkleRoot(c.h.sha, Payloads(slice))
  }

  /** How many journals the batches commit. */
  function Covered(batches: seq<Batch>): nat {
    if batches == [] then 0 else Covered(batches[..|batches| - 1]) + batches[|batches| - 1].count
  }

  predicate BatchesOk(c: Sealing, journals: seq<Journal>, batches: seq<Batch>) {
    batches == [] ||
    var rest := batches[..|batches| - 1];
    && BatchesOk(c, journals, rest)
    && BatchOk(c, journals, Covered(rest), LastHash(rest), |batches|, batches[|batches| - 1])
  }

  ghost predicate LedgerOk(c: Sealing, s: State) {
    BookOk(c.h, s.book) && BatchesOk(c, s.book.journals, s.batches)
  }

  lemma {:induction false} BatchesOkExtends(c: Sealing, journals: seq<Journal>, more: seq<Journal>, batches: seq<Batch>)
    requires BatchesOk(c, journals, batches) && journals <= more
    ensures BatchesOk(c, more, batches)
    decreases |batches|
  {
    if batches != [] {
      var rest := batches[..|batches| - 1];
      BatchesOkExtends(c, journals, more, rest);
      BatchOkExtends(c, journals, more, Covered(rest), LastHash(rest), |batches|, batches[|batches| - 1]);
    }
  }

  lemma BatchOkExtends(c: Sealing, journals: seq<Journal>, more: seq<Journal>, off: nat, previous: string,
                       sequence: nat, b: Batch)
    requires BatchOk(c, journals, off, previous, sequence, b) && journals <= more
    ensures BatchOk(c, more, off, previous, sequence, b)
  {
    assert more[off..off + b.count] == journals[off..off + b.count];
  }

  lemma SliceIds(c: Sealing, journals: seq<Journal>, off: nat, previous: string, sequence: nat, b: Batch)
    requires BatchOk(c, journals, off, previous, sequence, b)
    ensures b.last == b.first + b.count - 1
    ensures forall i :: off <= i < off + b.count ==> journals[i].id == b.first + (i - off)
  {
    var slice := journals[off..off + b.count];
    assert Contiguous(slice);
    forall i | off <= i < off + b.count
      ensures journals[i].id == b.first + (i - off)
    {
      assert slice[i - off] == journals[i];
    }
  }

  lemma CoveredWithin(c: Sealing, journals: seq<Journal>, batches: seq<Batch>)
    requires BatchesOk(c, journals, batches) && batches != []
    ensures 0 < Covered(batches) <= |journals|
    ensures journals[Covered(batches) - 1].id == batches[|batches| - 1].last
  {
    var rest := batches[..|batches| - 1];
    SliceIds(c, journals, Covered(rest), LastHash(rest), |batches|, batches[|batches| - 1]);
  }

  lemma AroundPosition(journals: seq<Journal>, n: nat, lo: nat)
    requires forall a: nat, b: nat :: a < b < |journals| ==> IdLess(journals, a, b)
    requires 0 < n <= |journals| && journals[n - 1].id + 1 == lo
    ensures forall i :: 0 <= i < |journals| ==> (lo <= journals[i].id <==> n <= i)
  {
    forall i: nat | i < |journals|
      ensures lo <= journals[i].id <==> n <= i
    {
      if i < n - 1 {
        assert IdLess(journals, i, n - 1);
      } else if n <= i {
        assert IdLess(journals, n - 1, i);
      }
    }
  }

  lemma AscendingAround(book: Book, c: Sealing, batches: seq<Batch>)
    requires BookOk(c.h, book) && BatchesOk(c, book.journals, batches)
    ensures Covered(batches) <= |book.journals|
    ensures forall i :: 0 <= i < |book.journals| ==>
              (LowerBound(batches) <= book.journals[i].id <==> Covered(batches) <= i)
  {
    if batches != [] {
      hide BatchesOk, Covered;
      CoveredWithin(c, book.journals, batches);
      AroundPosition(book.journals, Covered(batches), LowerBound(batches));
    }
  }

  /** What is left to seal is exactly what the batches do not cover. */
  lemma UnsealedIsSuffix(c: Sealing, book: Book, batches: seq<Batch>)
    requires BookOk(c.h, book) && BatchesOk(c, book.journals, batches)
    ensures Covered(batches) <= |book.journals|
    ensures IdFrom(book.journals, LowerBound(batches)) == book.journals[Covered(batches)..]
  {
    var js, lo := book.journals, LowerBound(batches);
    AscendingAround(book, c, batches);
    forall i | 0 <= i < |js|
      ensures js[i].status == POSTED
    {
      assert JournalOk(book.accounts, js[i]);
    }
    SelectSlice(js, (j: Journal) => j.status == POSTED && lo <= j.id, Covered(batches), |js|);
  }

  lemma SelectionIsNextSlice(c: Sealing, book: Book, batches: seq<Batch>)
    requires BookOk(c.h, book) && BatchesOk(c, book.journals, batches)
    ensures var n, selected := Covered(batches), Selection(book.journals, batches);
            && |selected| <= MAX_BATCH_SIZE && n + |selected| <= |book.journals|
            && selected == book.journals[n..n + |selected|] && Contiguous(selected)
            && (selected == [] <==> n == |book.journals|)
  {
    hide BookOk, BatchesOk, Contiguous, Run, Truncate;
    UnsealedIsSuffix(c, book, batches);
    RunOfSuffix(book.journals, Covered(batches));
  }

  lemma RunOfSuffix(journals: seq<Journal>, n: nat)
    requires n <= |journals|
    ensures var selected := Run(Truncate(journals[n..], MAX_BATCH_SIZE));
            && |selected| <= MAX_BATCH_SIZE && n + |selected| <= |journals|
            && selected == journals[n..n + |selected|] && Contiguous(selected)
            && (selected == [] <==> n == |journals|)
  {
    var candidates := Truncate(journals[n..], MAX_BATCH_SIZE);
    RunIsContiguousPrefix(candidates);
    var selected := Run(candidates);
    assert candidates <= journals[n..];
    assert selected == journals[n..][..|selected|] == journals[n..n + |selected|];
  }

  lemma SealKeepsBatches(c: Sealing, book: Book, batches: seq<Batch>, now: string)
    requires BookOk(c.h, book) && BatchesOk(c, book.journals, batches)
    ensures BatchesOk(c, book.journals, SealedBatches(c, book.journals, batches, now))
  {
    hide BookOk;
    SelectionIsNextSlice(c, book, batches);
    var selected := Selection(book.journals, batches);
    if selected != [] {
      SequenceIsLength(c, book.journals, batches);
      NewBatchOk(c, book.journals, Covered(batches), batches, selected, now);
      AppendBatch(c, book.journals, batches, NewBatch(c, batches, selected, now));
    }
  }

  lemma AppendBatch(c: Sealing, journals: seq<Journal>, batches: seq<Batch>, b: Batch)
    requires BatchesOk(c, journals, batches)
    requires BatchOk(c, journals, Covered(batches), LastHash(batches), |batches| + 1, b)
    ensures BatchesOk(c, journals, batches + [b])
  {
    assert (batches + [b])[..|batches|] == batches;
  }

  lemma NewBatchOk(c: Sealing, journals: seq<Journal>, off: nat, batches: seq<Batch>, selected: seq<Journal>, now: string)
    requires 0 < |selected| <= MAX_BATCH_SIZE && off + |selected| <= |journals|
    requires selected == journals[off..off + |selected|] && Contiguous(selected)
    ensures BatchOk(c, journals, off, LastHash(batches), NextSequence(batches), NewBatch(c, batches, selected, now))
  {
  }

  lemma SequenceIsLength(c: Sealing, journals: seq<Journal>, batches: seq<Batch>)
    requires BatchesOk(c, journals, batches)
    ensures NextSequence(batches) == |batches| + 1
  {
  }

  // ----- every state of every run

  lemma StepKeepsLedger(c: Sealing, s: State, step: Step)
    requires LedgerOk(c, s) && Enabled(s, step)
    ensures LedgerOk(c, Apply(c, s, step))
  {
    match step {
      case OpenAccount(code, kind, currency) =>
        if code !in s.book.accounts {
          AccountKeepsBook(c.h, s.book, code, LedgerAccount(kind, currency, LedgerStatus.ACTIVE));
        }
      case SetStatus(code, status) =>
        AccountKeepsBook(c.h, s.book, code, s.book.accounts[code].(status := status));
      case Post(p) =>
        PostKeepsBook(c.h, s.book, p);
        BatchesOkExtends(c, s.book.journals, PostedBook(c.h, s.book, p).journals, s.batches);
      case Reverse(i, reference, description, at) =>
        var p := ReversalPosting(s.book.journals[i], reference, description, at);
        ReverseKeepsBook(c.h, s.book, i, p);
        BatchesOkExtends(c, s.book.journals, ReversedBook(c.h, s.book, s.book.journals[i], p).journals, s.batches);
      case Seal(now) =>
        SealKeepsBatches(c, s.book, s.batches, now);
    }
  }

  lemma {:induction false} RunKeepsLedger(c: Sealing, s: State, steps: seq<Step>)
    requires LedgerOk(c, s)
    ensures LedgerOk(c, After(c, s, steps))
    decreases |steps|
  {
    if steps != [] {
      if Enabled(s, steps[0]) {
        StepKeepsLedger(c, s, steps[0]);
        RunKeepsLedger(c, Apply(c, s, steps[0]), steps[1..]);
      } else {
        RunKeepsLedger(c, s, steps[1..]);
      }
    }
  }

  /** The invariant holds in every reachable state. */
  lemma ReachableLedgerOk(c: Sealing, steps: seq<Step>)
    ensures LedgerOk(c, After(c, Start, steps))
  {
    RunKeepsLedger(c, Start, steps);
  }

  /** The journal-chain command reports no failure in any reachable state. */
  lemma ReachableChainVerifies(c: Sealing, steps: seq<Step>)
    ensures ChainValid(c.h, PostedRows(After(c, Start, steps).book.journals))
  {
    ReachableLedgerOk(c, steps);
    var book := After(c, Start, steps).book;
    forall i | 0 <= i < |book.journals|
      ensures book.journals[i].status == POSTED
    {
      assert JournalOk(book.accounts, book.journals[i]);
    }
    SelectAll(book.journals, (j: Journal) => j.status == POSTED);
  }

  // ----- sealing partitions history

  lemma {:induction false} CoveredMonotone(batches: seq<Batch>, k: nat)
    requires k < |batches|
    ensures Covered(batches[..k]) + batches[k].count == Covered(batches[..k + 1]) <= Covered(batches)
    decreases |batches|
  {
    assert batches[..k + 1][..k] == batches[..k];
    if k + 1 == |batches| {
      assert batches[..k + 1] == batches;
    } else {
      CoveredMonotone(batches[..|batches| - 1], k);
      assert batches[..|batches| - 1][..k] == batches[..k] && batches[..|batches| - 1][..k + 1] == batches[..k + 1];
    }
  }

  lemma {:induction false} BatchAt(c: Sealing, journals: seq<Journal>, batches: seq<Batch>, k: nat)
    requires BatchesOk(c, journals, batches) && k < |batches|
    ensures BatchOk(c, journals, Covered(batches[..k]), LastHash(batches[..k]), k + 1, batches[k])
    decreases |batches|
  {
    if k < |batches| - 1 {
      BatchAt(c, journals, batches[..|batches| - 1], k);
      assert batches[..|batches| - 1][..k] == batches[..k];
    }
  }

  /** The journals of batch `k`, by position. */
  lemma BatchHolds(c: Sealing, journals: seq<Journal>, batches: seq<Batch>, k: nat)
    requires BatchesOk(c, journals, batches) && k < |batches|
    ensures var off, b := Covered(batches[..k]), batches[k];
            && 0 < b.count && off + b.count <= |journals|
            && b.last == b.first + b.count - 1
            && (forall i :: off <= i < off + b.count ==> journals[i].id == b.first + (i - off))
  {
    BatchAt(c, journals, batches, k);
    SliceIds(c, journals, Covered(batches[..k]), LastHash(batches[..k]), k + 1, batches[k]);
  }

  /** A journal lies in the id range of batch `k` exactly when its position is one of the batch's. */
  lemma InRangeIffCovered(c: Sealing, journals: seq<Journal>, batches: seq<Batch>, k: nat, i: nat)
    requires BatchesOk(c, journals, batches) && k < |batches| && i < |journals|
    requires forall a: nat, b: nat :: a < b < |journals| ==> IdLess(journals, a, b)
    ensures batches[k].first <= journals[i].id <= batches[k].last
       <==> Covered(batches[..k]) <= i < Covered(batches[..k]) + batches[k].count
  {
    BatchHolds(c, journals, batches, k);
    var off, b := Covered(batches[..k]), batches[k];
    if i < off {
      assert IdLess(journals, i, off);
    } else if i >= off + b.count {
      assert IdLess(journals, off + b.count - 1, i);
    }
  }

  lemma {:induction false} CoveringBatch(batches: seq<Batch>, i: nat) returns (k: nat)
    requires i < Covered(batches)
    ensures k < |batches| && Covered(batches[..k]) <= i < Covered(batches[..k]) + batches[k].count
    decreases |batches|
  {
    var rest := batches[..|batches| - 1];
    if i < Covered(rest) {
      k := CoveringBatch(rest, i);
      assert rest[..k] == batches[..k];
    } else {
      k := |batches| - 1;
    }
  }

  lemma {:induction false} CoveredOrdered(batches: seq<Batch>, k: nat, l: nat)
    requires k < l < |batches|
    ensures Covered(batches[..k]) + batches[k].count <= Covered(batches[..l])
    decreases l
  {
    CoveredMonotone(batches, k);
    if k + 1 < l {
      CoveredOrdered(batches, k, l - 1);
      CoveredMonotone(batches, l - 1);
    }
  }

  /** `id` belongs to a posted journal. */
  predicate IsPosted(journals: seq<Journal>, id: nat) {
    exists j :: j in journals && j.id == id && j.status == POSTED
  }

  /** The batch's count is its width, and every id inside its range is that of a posted journal. */
  ghost predicate RangeIsPosted(journals: seq<Journal>, b: Batch) {
    b.count == b.last - b.first + 1 && forall id: nat {:trigger IsPosted(journals, id)} ::
      b.first <= id <= b.last ==> IsPosted(journals, id)
  }

  lemma CoveredRangeIsPosted(c: Sealing, s: State, k: nat)
    requires LedgerOk(c, s) && k < |s.batches|
    ensures RangeIsPosted(s.book.journals, s.batches[k])
  {
    var js, b := s.book.journals, s.batches[k];
    BatchHolds(c, js, s.batches, k);
    forall id: nat | b.first <= id <= b.last
      ensures IsPosted(js, id)
    {
      var j := js[Covered(s.batches[..k]) + (id - b.first)];
      assert JournalOk(s.book.accounts, j);
    }
  }

  lemma LaterBatchAbove(c: Sealing, s: State, k: nat, l: nat)
    requires LedgerOk(c, s) && k < l < |s.batches|
    ensures s.batches[k].last < s.batches[l].first
  {
    var js := s.book.journals;
    BatchHolds(c, js, s.batches, k);
    BatchHolds(c, js, s.batches, l);
    CoveredOrdered(s.batches, k, l);
    var a, b := Covered(s.batches[..k]) + s.batches[k].count - 1, Covered(s.batches[..l]);
    assert IdLess(js, a, b);
  }

  /**
   Batch ranges are strictly increasing, their counts are their widths, and every id inside a range is
   that of a posted journal, even though failed postings leave gaps in the ids.
   */
  lemma BatchRangesIncrease(c: Sealing, steps: seq<Step>)
    ensures var s := After(c, Start, steps);
            && (forall k :: 0 <= k < |s.batches| ==> RangeIsPosted(s.book.journals, s.batches[k]))
            && (forall k, l :: 0 <= k < l < |s.batches| ==> s.batches[k].last < s.batches[l].first)
  {
    ReachableLedgerOk(c, steps);
    var s := After(c, Start, steps);
    forall k: nat | k < |s.batches|
      ensures RangeIsPosted(s.book.journals, s.batches[k])
    {
      CoveredRangeIsPosted(c, s, k);
    }
    forall k: nat, l: nat | k < l < |s.batches|
      ensures s.batches[k].last < s.batches[l].first
    {
      LaterBatchAbove(c, s, k, l);
    }
  }

  /** Every posted journal up to the last sealed id lies in exactly one batch. */
  lemma SealedJournalInOneBatch(c: Sealing, steps: seq<Step>, i: nat) returns (k: nat)
    requires var s := After(c, Start, steps);
             i < |s.book.journals| && s.book.journals[i].id < LowerBound(s.batches)
    ensures var s := After(c, Start, steps);
            && k < |s.batches| && s.batches[k].first <= s.book.journals[i].id <= s.batches[k].last
            && forall l :: 0 <= l < |s.batches| && l != k ==>
                 !(s.batches[l].first <= s.book.journals[i].id <= s.batches[l].last)
  {
    ReachableLedgerOk(c, steps);
    var s := After(c, Start, steps);
    var js := s.book.journals;
    AscendingAround(s.book, c, s.batches);
    k := CoveringBatch(s.batches, i);
    InRangeIffCovered(c, js, s.batches, k, i);
    forall l: nat | l < |s.batches| && l != k
      ensures !(s.batches[l].first <= js[i].id <= s.batches[l].last)
    {
      InRangeIffCovered(c, js, s.batches, l, i);
      if l < k {
        CoveredOrdered(s.batches, l, k);
      } else {
        CoveredOrdered(s.batches, k, l);
      }
    }
  }

  /** Sealing returns None exactly when every posted journal is in a batch. */
  lemma NothingLeftIffCovered(c: Sealing, book: Book, batches: seq<Batch>)
    requires BookOk(c.h, book) && BatchesOk(c, book.journals, batches)
    ensures Covered(batches) <= |book.journals|
    ensures Selection(book.journals, batches) == [] <==> Covered(batches) == |book.journals|
  {
    SelectionIsNextSlice(c, book, batches);
  }

  /** Sealing `rounds` times. */
  function SealTimes(c: Sealing, journals: seq<Journal>, batches: seq<Batch>, now: string, rounds: nat): seq<Batch>
    decreases rounds
  {
    if rounds == 0 then batches
    else SealTimes(c, journals, SealedBatches(c, journals, batches, now), now, rounds - 1)
  }

  /** A seal that returns a batch covers more journals than before. */
  lemma SealAdvances(c: Sealing, book: Book, batches: seq<Batch>, now: string)
    requires BookOk(c.h, book) && BatchesOk(c, book.journals, batches)
    ensures var sealed := SealedBatches(c, book.journals, batches, now);
            Covered(batches) <= Covered(sealed) <= |book.journals| && (Covered(batches) < |book.journals| ==> Covered(batches) < Covered(sealed))
  {
    NothingLeftIffCovered(c, book, batches);
    var selected := Selection(book.journals, batches);
    if selected != [] {
      var b := NewBatch(c, batches, selected, now);
      assert (batches + [b])[..|batches|] == batches;
      SelectionIsNextSlice(c, book, batches);
    }
  }

  lemma {:induction false} SealTimesKeeps(c: Sealing, book: Book, batches: seq<Batch>, now: string, rounds: nat)
    returns (all: seq<Batch>)
    requires BookOk(c.h, book) && BatchesOk(c, book.journals, batches)
    ensures all == SealTimes(c, book.journals, batches, now, rounds)
    ensures BatchesOk(c, book.journals, all)
    ensures rounds >= |book.journals| - Covered(batches) ==> Covered(all) == |book.journals|
    decreases rounds
  {
    hide BookOk, BatchesOk, SealedBatches, Selection, Covered;
    if rounds == 0 {
      all := batches;
      NothingLeftIffCovered(c, book, batches);
    } else {
      var sealed := SealedBatches(c, book.journals, batches, now);
      SealKeepsBatches(c, book, batches, now);
      SealAdvances(c, book, batches, now);
      all := SealTimesKeeps(c, book, sealed, now, rounds - 1);
    }
  }

  /**
   Sealing over and over terminates with everything covered: as many rounds as there are unsealed
   journals suffice, and then the next seal returns None.
   */
  lemma SealingCoversAll(c: Sealing, steps: seq<Step>, now: string, rounds: nat)
    requires var s := After(c, Start, steps); rounds >= |s.book.journals| - Covered(s.batches)
    ensures var s := After(c, Start, steps);
            var all := SealTimes(c, s.book.journals, s.batches, now, rounds);
            Covered(all) == |s.book.journals| && Selection(s.book.journals, all) == []
  {
    ReachableLedgerOk(c, steps);
    var s := After(c, Start, steps);
    var all := SealTimesKeeps(c, s.book, s.batches, now, rounds);
    NothingLeftIffCovered(c, s.book, all);
  }
}
