/**
 Runs of the banking services. `BankOk` ties every transfer row to the journal that records it and
 holds in all reachable states; the money results are stated for arbitrary runs from any such state.
 */
module BankRuns {
  import opened Common
  import opened Journals
  import opened Canonical
  import opened Ledger
  import opened LedgerRuns
  import opened Accounting
  import opened Banking

  // ----- postings, seen from a bank

  lemma EnsureKeepsBook(h: Hashing, book: Book, code: string, currency: string)
    requires BookOk(h, book)
    ensures BookOk(h, EnsureAccount(book, code, currency))
    ensures EnsureAccount(book, code, currency).journals == book.journals && EnsureAccount(book, code, currency).nextId == book.nextId
    ensures forall x :: x in book.accounts ==>
              x in EnsureAccount(book, code, currency).accounts && EnsureAccount(book, code, currency).accounts[x] == book.accounts[x]
    ensures code in EnsureAccount(book, code, currency).accounts
  {
    if code !in book.accounts {
      AccountKeepsBook(h, book, code, LedgerAccount(ASSET, currency, LedgerStatus.ACTIVE));
    }
  }

  lemma BurnsKeepBook(h: Hashing, book: Book, nextId: nat)
    requires BookOk(h, book) && nextId >= book.nextId
    ensures BookOk(h, book.(nextId := nextId))
  {
    hide AllOk, ReversalsOk, ReferencesUnique, HashChain.ChainValid;
    forall i: nat | i < |book.journals|
      ensures IdBelow(book.journals, i, nextId)
    {
      assert IdBelow(book.journals, i, book.nextId);
    }
  }

  /** A successful posting appends one journal with the given lines; a failed one only burns ids. */
  lemma PostLinesEffect(h: Hashing, bank: Bank, book: Book, p: Posting)
    requires BookOk(h, bank.book) && BookOk(h, book) && book.journals == bank.book.journals
    requires book.nextId == bank.book.nextId && LinesKnown(book.accounts, p.lines) && p.at != ""
    ensures var r := PostLines(h, bank, book, p);
            && BookOk(h, r.0.book) && r.0.book.nextId >= bank.book.nextId
            && (r.1.Some? ==> r.0 == Aborted(bank, r.0.book.nextId))
            && (r.1.None? ==>
                  && r.0 == bank.(book := r.0.book) && r.0.book.accounts == book.accounts
                  && Appended(bank.book, r.0.book, p.lines))
  {
    PostKeepsBook(h, book, p);
    var posted := PostedBook(h, book, p);
    hide BookOk;
    if PostProblem(book, p).Some? {
      BurnsKeepBook(h, bank.book, posted.nextId);
    } else {
      assert posted.journals == book.journals + [NewJournal(h, book, p)];
    }
  }

  /** A movement that fits is always posted. */
  lemma MovementPosts(h: Hashing, bank: Bank, book: Book, p: Posting, x: string, y: string, n: int)
    requires p.lines == [Line(x, DEBIT, n), Line(y, CREDIT, n)] && n > 0 && MovementFits(book, p.reference, x, y)
    requires p.declared == "" || p.declared == book.accounts[x].currency
    ensures LinesKnown(book.accounts, p.lines)
    ensures var r := PostLines(h, bank, book, p);
            && r.1.None? && r.0 == bank.(book := r.0.book) && r.0.book.accounts == book.accounts
            && |r.0.book.journals| == |book.journals| + 1 && book.journals <= r.0.book.journals
            && var j := r.0.book.journals[|book.journals|];
               j.reference == p.reference && j.lines == p.lines && j.status == POSTED
  {
    MovementHasNoProblem(book, p, x, y, n);
  }

  /** The new book has one more journal: it has the old book's next id, the lines, and reverses nothing. */
  ghost predicate Appended(old_: Book, new_: Book, lines: seq<Line>) {
    && |new_.journals| == |old_.journals| + 1 && old_.journals <= new_.journals
    && var j := new_.journals[|old_.journals|];
       j.id == old_.nextId && j.lines == lines && j.status == POSTED && j.reverses == None
  }

  // ----- the invariant

  function Codes(accounts: seq<Account>): (r: seq<string>)
    ensures |r| == |accounts| && forall i :: 0 <= i < |r| ==> r[i] == accounts[i].code
  {
    if accounts == [] then [] else [accounts[0].code] + Codes(accounts[1..])
  }

  /** Each customer has a ledger account of its own, a liability, apart from the bank's own accounts. */
  ghost predicate AccountsOk(bank: Bank) {
    && NoDuplicates(Codes(bank.accounts))
    && forall a :: a in bank.accounts ==>
         && a.code in bank.book.accounts && bank.book.accounts[a.code].kind == LIABILITY
         && a.code !in {CLEARING, FUNDING, PAYMENT_INCOME}
  }

  predicate Recorded(journals: seq<Journal>, id: nat, lines: seq<Line>) {
    exists j :: j in journals && j.id == id && j.lines == lines
  }

  /**
   The lifecycle of one transfer. A row has a journal exactly when it is COMPLETED or REVERSED; that
   journal moves exactly the transfer's amount between its parties; and the row is REVERSED exactly when
   the journal has a reversal.
   */
  predicate TransferOk(bank: Bank, t: Transfer) {
    && PartiesExist(bank, t)
    && (t.status != FAILED ==> t.amount > 0)
    && (t.journal.Some? <==> t.status in {COMPLETED, REVERSED})
    && (t.journal.Some? ==>
          && Recorded(bank.book.journals, t.journal.value, TransferLines(bank.accounts, t))
          && (t.status == REVERSED <==> IsReversed(bank.book.journals, t.journal.value)))
  }

  /** CREATED, PROCESSING and CANCELED never outlive a transaction. */
  predicate Resting(t: Transfer) {
    t.status in {PENDING, COMPLETED, FAILED, REVERSED, UNDER_REVIEW}
  }

  ghost predicate AllResting(bank: Bank) {
    forall i :: 0 <= i < |bank.transfers| ==> Resting(bank.transfers[i])
  }

  /** Different rows have different keys, references and journals. */
  predicate RowsDiffer(transfers: seq<Transfer>, i: nat, k: nat)
    requires i < |transfers| && k < |transfers|
  {
    && transfers[i].key != transfers[k].key && transfers[i].reference != transfers[k].reference
    && (transfers[i].journal.Some? ==> transfers[i].journal != transfers[k].journal)
  }

  predicate BillsDiffer(payments: seq<Payment>, i: nat, k: nat)
    requires i < |payments| && k < |payments|
  {
    payments[i].bill != payments[k].bill && payments[i].key != payments[k].key
  }

  ghost predicate TransfersOk(bank: Bank) {
    && (forall t :: t in bank.transfers ==> TransferOk(bank, t))
    && (forall i: nat, k: nat :: i < k < |bank.transfers| ==> RowsDiffer(bank.transfers, i, k))
    && (forall i: nat, k: nat :: i < k < |bank.payments| ==> BillsDiffer(bank.payments, i, k))
  }

  ghost predicate BankOk(h: Hashing, bank: Bank) {
    BookOk(h, bank.book) && AccountsOk(bank) && TransfersOk(bank)
  }

  lemma BankOkShape(h: Hashing, bank: Bank)
    requires BankOk(h, bank)
    ensures CodesKnown(bank) && AllPartiesExist(bank)
  {
    forall i | 0 <= i < |bank.transfers|
      ensures PartiesExist(bank, bank.transfers[i])
    {
      assert TransferOk(bank, bank.transfers[i]);
    }
  }

  /** Journal ids are below the next id, so a new journal's id is new. */
  lemma RecordedIsOld(h: Hashing, book: Book, id: nat, lines: seq<Line>)
    requires BookOk(h, book) && Recorded(book.journals, id, lines)
    ensures id < book.nextId
  {
    var j :| j in book.journals && j.id == id && j.lines == lines;
    var i: nat :| i < |book.journals| && book.journals[i] == j;
    assert IdBelow(book.journals, i, book.nextId);
  }

  /** Rows that were fine stay fine when a journal is appended that reverses none of theirs. */
  lemma TransferOkGrows(old_: Bank, new_: Bank, t: Transfer)
    requires TransferOk(old_, t)
    requires |new_.accounts| == |old_.accounts| && Codes(new_.accounts) == Codes(old_.accounts)
    requires old_.book.journals <= new_.book.journals
    requires t.journal.Some? ==>
               forall n :: |old_.book.journals| <= n < |new_.book.journals| ==> new_.book.journals[n].reverses != t.journal
    ensures TransferOk(new_, t)
  {
    if t.journal.Some? {
      var id, lines := t.journal.value, TransferLines(old_.accounts, t);
      assert TransferLines(new_.accounts, t) == lines by {
        assert Codes(new_.accounts)[t.source] == Codes(old_.accounts)[t.source];
        if t.destination.Some? {
          assert Codes(new_.accounts)[t.destination.value] == Codes(old_.accounts)[t.destination.value];
        }
      }
      var j :| j in old_.book.journals && j.id == id && j.lines == lines;
      assert j in new_.book.journals;
      ReversedGrows(old_.book.journals, new_.book.journals, id);
    }
  }

  lemma ReversedGrows(old_: seq<Journal>, new_: seq<Journal>, id: nat)
    requires old_ <= new_ && forall n :: |old_| <= n < |new_| ==> new_[n].reverses != Some(id)
    ensures IsReversed(old_, id) <==> IsReversed(new_, id)
  {
    if IsReversed(old_, id) {
      var i :| 0 <= i < |old_| && old_[i].reverses == Some(id);
      assert new_[i].reverses == Some(id);
    }
  }

  /** A service that leaves transfers alone and appends a journal (or nothing) keeps the invariant. */
  lemma UnrelatedKeepsOk(h: Hashing, old_: Bank, new_: Bank)
    requires BankOk(h, old_) && BookOk(h, new_.book)
    requires new_.transfers == old_.transfers && new_.accounts == old_.accounts
    requires forall i: nat, k: nat :: i < k < |new_.payments| ==> BillsDiffer(new_.payments, i, k)
    requires forall x :: x in old_.book.accounts ==> x in new_.book.accounts && new_.book.accounts[x].kind == old_.book.accounts[x].kind
    requires old_.book.journals <= new_.book.journals
    requires forall n :: |old_.book.journals| <= n < |new_.book.journals| ==> new_.book.journals[n].reverses == None
    ensures BankOk(h, new_)
  {
    hide BookOk;
    forall t | t in new_.transfers
      ensures TransferOk(new_, t)
    {
      TransferOkGrows(old_, new_, t);
    }
  }

  lemma AbortKeepsOk(h: Hashing, bank: Bank, nextId: nat)
    requires BankOk(h, bank) && nextId >= bank.book.nextId
    ensures BankOk(h, Aborted(bank, nextId))
  {
    BurnsKeepBook(h, bank.book, nextId);
    UnrelatedKeepsOk(h, bank, Aborted(bank, nextId));
  }

  // ----- single rows

  /** Row `i` may be replaced by a row without a journal. */
  lemma ReplaceWithoutJournal(h: Hashing, bank: Bank, i: nat, t: Transfer)
    requires BankOk(h, bank) && i < |bank.transfers|
    requires t.journal.None? && t.key == bank.transfers[i].key && t.reference == bank.transfers[i].reference
    requires TransferOk(bank, t)
    ensures BankOk(h, bank.(transfers := bank.transfers[i := t]))
  {
    hide BookOk;
    var v := bank.(transfers := bank.transfers[i := t]);
    forall s | s in v.transfers
      ensures TransferOk(v, s)
    {
      assert s == t || s in bank.transfers;
      assert TransferOk(bank, s);
    }
    forall a: nat, b: nat | a < b < |v.transfers|
      ensures RowsDiffer(v.transfers, a, b)
    {
      assert RowsDiffer(bank.transfers, a, b);
    }
  }

  lemma AppendRow(h: Hashing, bank: Bank, t: Transfer)
    requires BankOk(h, bank) && t.journal.None? && TransferOk(bank, t)
    requires FindTransfer(bank.transfers, t.key).None? && !ReferenceExists(bank.transfers, t.reference)
    ensures BankOk(h, bank.(transfers := bank.transfers + [t]))
  {
    hide BookOk;
    var v := bank.(transfers := bank.transfers + [t]);
    forall s | s in v.transfers
      ensures TransferOk(v, s)
    {
      assert s == t || s in bank.transfers;
      assert TransferOk(bank, s);
    }
    forall a: nat, b: nat | a < b < |v.transfers|
      ensures RowsDiffer(v.transfers, a, b)
    {
      if b < |bank.transfers| {
        assert RowsDiffer(bank.transfers, a, b);
      }
    }
  }

  // ----- settling

  /** A successful settlement, in terms of the row and the journal that it adds. */
  ghost predicate SettlesRow(bank: Bank, v: Bank, i: nat)
    requires i < |bank.transfers| && PartiesExist(bank, bank.transfers[i])
  {
    var t := bank.transfers[i];
    && v == bank.(book := v.book, transfers := v.transfers)
    && v.transfers == bank.transfers[i := t.(journal := Some(bank.book.nextId), status := COMPLETED)]
    && Appended(bank.book, v.book, TransferLines(bank.accounts, t))
    && PROCESSING in AllowedNext(t.status)
    && (forall x :: x in bank.book.accounts ==> x in v.book.accounts && v.book.accounts[x].kind == bank.book.accounts[x].kind)
  }

  lemma SettledEffect(h: Hashing, bank: Bank, i: nat, at: string)
    requires BankOk(h, bank) && i < |bank.transfers| && at != ""
    ensures CodesKnown(bank) && AllPartiesExist(bank)
    ensures var r := Settled(h, bank, i, at);
            && BookOk(h, r.0.book) && r.0.book.nextId >= bank.book.nextId
            && (r.1.Some? ==> r.0 == Aborted(bank, r.0.book.nextId))
            && (r.1.None? ==> SettlesRow(bank, r.0, i))
  {
    BankOkShape(h, bank);
    hide BookOk, AccountsOk, TransfersOk;
    var t := bank.transfers[i];
    EnsureKeepsBook(h, bank.book, CLEARING, "USD");
    var p := Posting(t.reference, "Transfer " + t.reference, TransferLines(bank.accounts, t), at, "");
    PostLinesEffect(h, bank, EnsureAccount(bank.book, CLEARING, "USD"), p);
    var posted := PostLines(h, bank, EnsureAccount(bank.book, CLEARING, "USD"), p);
    if posted.1.None? && PROCESSING !in AllowedNext(t.status) {
      BurnsKeepBook(h, bank.book, posted.0.book.nextId);
    }
  }

  lemma SettledRowOk(h: Hashing, bank: Bank, v: Bank, i: nat)
    requires BankOk(h, bank) && i < |bank.transfers| && PartiesExist(bank, bank.transfers[i])
    requires SettlesRow(bank, v, i) && BookOk(h, v.book)
    ensures TransferOk(v, v.transfers[i])
  {
    assert TransferOk(bank, bank.transfers[i]);
    NewIdNotReversed(h, bank.book, v.book);
    hide BookOk, IsReversed, TransfersOk, AccountsOk;
    var n, id := |bank.book.journals|, bank.book.nextId;
    var j := v.book.journals[n];
    assert j in v.book.journals && j.id == id;
  }

  lemma RowJournalsAreOld(h: Hashing, bank: Bank)
    requires BankOk(h, bank)
    ensures forall s :: s in bank.transfers && s.journal.Some? ==> s.journal.value < bank.book.nextId
  {
    hide BookOk;
    forall s | s in bank.transfers && s.journal.Some?
      ensures s.journal.value < bank.book.nextId
    {
      assert TransferOk(bank, s);
      RecordedIsOld(h, bank.book, s.journal.value, TransferLines(bank.accounts, s));
    }
  }

  /** Nothing reverses a journal that did not exist before. */
  lemma NewIdNotReversed(h: Hashing, old_: Book, new_: Book)
    requires BookOk(h, old_) && old_.journals <= new_.journals
    requires forall n :: |old_.journals| <= n < |new_.journals| ==> new_.journals[n].reverses == None
    ensures !IsReversed(new_.journals, old_.nextId)
  {
    forall i: nat | i < |new_.journals|
      ensures new_.journals[i].reverses != Some(old_.nextId)
    {
      if i < |old_.journals| {
        assert ReversesEarlier(old_.journals, i);
        if old_.journals[i].reverses.Some? {
          var k: nat :| k < i && old_.journals[k].id == old_.journals[i].reverses.value
                        && old_.journals[i].lines == Mirror(old_.journals[k].lines);
          assert IdBelow(old_.journals, k, old_.nextId);
        }
      }
    }
  }

  lemma SettledKeepsOk(h: Hashing, bank: Bank, i: nat, at: string)
    requires BankOk(h, bank) && i < |bank.transfers| && at != ""
    requires bank.transfers[i].status in {CREATED, PENDING, PROCESSING, UNDER_REVIEW}
    ensures CodesKnown(bank) && AllPartiesExist(bank)
    ensures BankOk(h, Settled(h, bank, i, at).0)
  {
    SettledEffect(h, bank, i, at);
    var r := Settled(h, bank, i, at);
    hide Settled, BookOk;
    if r.1.Some? {
      AbortKeepsOk(h, bank, r.0.book.nextId);
    } else {
      SettledRowOk(h, bank, r.0, i);
      RowJournalsAreOld(h, bank);
      SettledRowsOk(h, bank, r.0, i);
    }
  }

  lemma SettledRowsOk(h: Hashing, bank: Bank, v: Bank, i: nat)
    requires BankOk(h, bank) && i < |bank.transfers| && PartiesExist(bank, bank.transfers[i])
    requires SettlesRow(bank, v, i) && BookOk(h, v.book) && TransferOk(v, v.transfers[i])
    requires forall s :: s in bank.transfers && s.journal.Some? ==> s.journal.value < bank.book.nextId
    ensures BankOk(h, v)
  {
    hide BookOk;
    forall s | s in v.transfers
      ensures TransferOk(v, s)
    {
      if s != v.transfers[i] {
        assert s in bank.transfers;
        assert TransferOk(bank, s);
        TransferOkGrows(bank, v, s);
      }
    }
    forall a: nat, b: nat | a < b < |v.transfers|
      ensures RowsDiffer(v.transfers, a, b)
    {
      assert RowsDiffer(bank.transfers, a, b);
      assert bank.transfers[a] in bank.transfers && bank.transfers[b] in bank.transfers;
    }
  }

  // ----- the services keep the invariant

  function WithNewRow(bank: Bank, q: TransferRequest): Bank {
    bank.(transfers := bank.transfers + [NewTransfer(q)])
  }

  /** An execution changes nothing but ids, or adds the new row, or adds it and settles it. */
  lemma ExecutedShape(h: Hashing, bank: Bank, actor: Actor, q: TransferRequest)
    requires BankOk(h, bank) && q.at != ""
    ensures CodesKnown(bank) && Executed(h, bank, actor, q).0.book.nextId >= bank.book.nextId
    ensures BookOk(h, Executed(h, bank, actor, q).0.book)
    ensures var v, created := Executed(h, bank, actor, q).0, WithNewRow(bank, q);
            || v == Aborted(bank, v.book.nextId)
            || (&& TransferProblem(bank, actor, q).None? && BankOk(h, created)
                && ((v == created && InitialStatus(q) != CREATED) || (InitialStatus(q) == CREATED && PartiesExist(created, NewTransfer(q)) && SettlesRow(created, v, |bank.transfers|))))
  {
    BankOkShape(h, bank);
    hide BookOk, AccountsOk, Settled;
    if FindTransfer(bank.transfers, q.key).None? && TransferProblem(bank, actor, q).None? {
      AppendRow(h, bank, NewTransfer(q));
      hide TransferProblem;
      SettledEffect(h, WithNewRow(bank, q), |bank.transfers|, q.at);
      hide TransfersOk;
    }
  }

  lemma ExecutedKeepsOk(h: Hashing, bank: Bank, actor: Actor, q: TransferRequest)
    requires BankOk(h, bank) && AllResting(bank) && q.at != ""
    ensures CodesKnown(bank)
    ensures BankOk(h, Executed(h, bank, actor, q).0) && AllResting(Executed(h, bank, actor, q).0)
  {
    ExecutedShape(h, bank, actor, q);
    var v, created, i := Executed(h, bank, actor, q).0, WithNewRow(bank, q), |bank.transfers|;
    hide BankOk, Executed, TransferProblem, FindTransfer, TransferLines, PartiesExist;
    if v == Aborted(bank, v.book.nextId) {
      AbortKeepsOk(h, bank, v.book.nextId);
    } else if v != created {
      SettledRowOk(h, created, v, i);
      RowJournalsAreOld(h, created);
      SettledRowsOk(h, created, v, i);
    }
  }

  lemma GateBlockedKeepsOk(h: Hashing, bank: Bank, q: TransferRequest)
    requires BankOk(h, bank) && AllResting(bank)
    ensures BankOk(h, GateBlocked(bank, q)) && AllResting(GateBlocked(bank, q))
  {
    hide BookOk, AccountsOk;
    if FindTransfer(bank.transfers, q.key).None? && !ReferenceExists(bank.transfers, q.reference)
       && PartiesExist(bank, NewTransfer(q)) {
      AppendRow(h, bank, NewTransfer(q).(status := FAILED));
    }
  }

  lemma MarkFailedKeepsOk(h: Hashing, bank: Bank, i: nat)
    requires BankOk(h, bank) && i < |bank.transfers| && bank.transfers[i].journal.None?
    ensures BankOk(h, MarkFailed(bank, i))
  {
    assert TransferOk(bank, bank.transfers[i]);
    ReplaceWithoutJournal(h, bank, i, bank.transfers[i].(status := FAILED));
  }

  lemma ProcessedOneKeepsOk(h: Hashing, bank: Bank, i: nat, at: string)
    requires BankOk(h, bank) && i < |bank.transfers| && bank.transfers[i].status == PENDING && at != ""
    ensures CodesKnown(bank) && AllPartiesExist(bank)
    ensures var r := ProcessedOne(h, bank, i, at);
            && BankOk(h, r.0) && |r.0.transfers| == |bank.transfers| && r.0.book.nextId >= bank.book.nextId
            && (r.1.None? ==> Resting(r.0.transfers[i]))
            && (forall k :: 0 <= k < |bank.transfers| && k != i ==> r.0.transfers[k] == bank.transfers[k])
  {
    BankOkShape(h, bank);
    assert TransferOk(bank, bank.transfers[i]);
    hide BookOk, AccountsOk, TransfersOk, Settled;
    MarkFailedKeepsOk(h, bank, i);
    SettledKeepsOk(h, bank, i, at);
    SettledEffect(h, bank, i, at);
  }

  lemma {:induction false} ProcessedFromKeepsOk(h: Hashing, bank: Bank, i: nat, now: nat, at: string)
    requires BankOk(h, bank) && AllResting(bank) && at != ""
    ensures CodesKnown(bank) && AllPartiesExist(bank)
    ensures ProcessedFrom(h, bank, i, now, at).0.book.nextId >= bank.book.nextId
    ensures ProcessedFrom(h, bank, i, now, at).1.None? ==>
              BankOk(h, ProcessedFrom(h, bank, i, now, at).0) && AllResting(ProcessedFrom(h, bank, i, now, at).0)
    decreases |bank.transfers| - i
  {
    BankOkShape(h, bank);
    hide BankOk, ProcessedOne;
    if i < |bank.transfers| {
      if IsDue(bank.transfers[i], now) {
        ProcessedOneKeepsOk(h, bank, i, at);
        var one := ProcessedOne(h, bank, i, at);
        if one.1.None? {
          ProcessedFromKeepsOk(h, one.0, i + 1, now, at);
        }
      } else {
        ProcessedFromKeepsOk(h, bank, i + 1, now, at);
      }
    }
  }

  lemma ProcessedKeepsOk(h: Hashing, bank: Bank, now: nat, at: string)
    requires BankOk(h, bank) && AllResting(bank) && at != ""
    ensures CodesKnown(bank) && AllPartiesExist(bank)
    ensures BankOk(h, Processed(h, bank, now, at).0) && AllResting(Processed(h, bank, now, at).0)
  {
    ProcessedFromKeepsOk(h, bank, 0, now, at);
    hide BankOk, ProcessedFrom;
    var r := ProcessedFrom(h, bank, 0, now, at);
    if r.1.Some? {
      AbortKeepsOk(h, bank, r.0.book.nextId);
    }
  }

  /**
   Approval of a reviewed transfer either fails it, when the funds are short, or aborts: with the funds
   there, settling starts a second transition to PROCESSING, which the table does not have.
   */
  lemma ApprovalNeverCompletes(h: Hashing, bank: Bank, i: nat, at: string)
    requires BankOk(h, bank) && i < |bank.transfers| && bank.transfers[i].status == UNDER_REVIEW && at != ""
    ensures CodesKnown(bank) && AllPartiesExist(bank)
    ensures var r, t := Approved(h, bank, i, at), bank.transfers[i];
            && (r.1.None? <==> Available(bank, t.source) < t.amount)
            && (r.1.None? ==> r.0 == MarkFailed(bank, i))
            && (r.1.Some? ==> r.0 == Aborted(bank, r.0.book.nextId) && r.0.book.nextId >= bank.book.nextId)
  {
    BankOkShape(h, bank);
    var t := bank.transfers[i];
    assert TransferOk(bank, t);
    var processing := bank.(transfers := bank.transfers[i := t.(status := PROCESSING)]);
    ReplaceWithoutJournal(h, bank, i, t.(status := PROCESSING));
    SettledEffect(h, processing, i, at);
    hide BankOk, Settled;
    assert Available(processing, t.source) == Available(bank, t.source);
    assert MarkFailed(processing, i) == MarkFailed(bank, i);
  }

  lemma ApprovedKeepsOk(h: Hashing, bank: Bank, i: nat, at: string)
    requires BankOk(h, bank) && AllResting(bank) && i < |bank.transfers| && at != ""
    ensures CodesKnown(bank) && AllPartiesExist(bank)
    ensures BankOk(h, Approved(h, bank, i, at).0) && AllResting(Approved(h, bank, i, at).0)
  {
    BankOkShape(h, bank);
    if bank.transfers[i].status == UNDER_REVIEW {
      ApprovalNeverCompletes(h, bank, i, at);
      assert TransferOk(bank, bank.transfers[i]);
      var r := Approved(h, bank, i, at);
      hide BankOk, Approved;
      if r.1.None? {
        MarkFailedKeepsOk(h, bank, i);
      } else {
        AbortKeepsOk(h, bank, r.0.book.nextId);
      }
    }
  }

  /** A reversal appends one mirrored journal that names its original, or only burns ids. */
  lemma ReversalEffect(h: Hashing, book: Book, original: Journal, p: Posting)
    requires BookOk(h, book) && original in book.journals && p.lines == Mirror(original.lines) && p.at != ""
    ensures LinesKnown(book.accounts, p.lines)
    ensures var r := ReversedBook(h, book, original, p);
            && BookOk(h, r) && r.accounts == book.accounts && r.nextId >= book.nextId
            && (ReverseProblem(book, original, p).Some? ==> r == book.(nextId := r.nextId))
            && (ReverseProblem(book, original, p).None? ==>
                  && |r.journals| == |book.journals| + 1 && book.journals <= r.journals
                  && r.journals[|book.journals|].lines == p.lines && r.journals[|book.journals|].status == POSTED
                  && r.journals[|book.journals|].reverses == Some(original.id))
  {
    assert JournalOk(book.accounts, original);
    MirrorKnown(book.accounts, original.lines);
    var i: nat :| i < |book.journals| && book.journals[i] == original;
    ReverseKeepsBook(h, book, i, p);
    hide BookOk;
    if ReverseProblem(book, original, p).None? {
      assert PostedBook(h, book, p).journals == book.journals + [NewJournal(h, book, p)];
    }
  }

  lemma JournalLinesKnown(h: Hashing, book: Book)
    requires BookOk(h, book)
    ensures forall j :: j in book.journals ==> LinesKnown(book.accounts, j.lines)
  {
    forall j | j in book.journals
      ensures LinesKnown(book.accounts, j.lines)
    {
      assert JournalOk(book.accounts, j);
    }
  }

  /** A successful reversal, in terms of the row and the journal that it adds. */
  ghost predicate ReversesRow(bank: Bank, v: Bank, i: nat)
    requires i < |bank.transfers|
  {
    var t := bank.transfers[i];
    && v == bank.(book := v.book, transfers := v.transfers) && v.book.accounts == bank.book.accounts
    && t.status == COMPLETED && t.journal.Some?
    && v.transfers == bank.transfers[i := t.(status := REVERSED)]
    && |v.book.journals| == |bank.book.journals| + 1 && bank.book.journals <= v.book.journals
    && var j := v.book.journals[|bank.book.journals|];
       j.reverses == t.journal && j.status == POSTED
       && PartiesExist(bank, t) && j.lines == Mirror(TransferLines(bank.accounts, t))
  }

  lemma TransferReversedEffect(h: Hashing, bank: Bank, i: nat, at: string)
    requires BankOk(h, bank) && i < |bank.transfers| && at != ""
    ensures forall j :: j in bank.book.journals ==> LinesKnown(bank.book.accounts, j.lines)
    ensures var r := TransferReversed(h, bank, i, at);
            && BookOk(h, r.0.book) && r.0.book.nextId >= bank.book.nextId
            && (r.1.Some? ==> r.0 == Aborted(bank, r.0.book.nextId))
            && (r.1.None? ==> ReversesRow(bank, r.0, i))
  {
    JournalLinesKnown(h, bank.book);
    var t := bank.transfers[i];
    if t.status == COMPLETED && t.journal.Some? {
      var found := JournalWithId(bank.book.journals, t.journal.value);
      if found.Some? {
        assert TransferOk(bank, t);
        SameIdSameJournal(h, bank.book, found.value, t.journal.value, TransferLines(bank.accounts, t));
        hide BookOk, TransfersOk, AccountsOk;
        ReversalEffect(h, bank.book, found.value, ReversalPosting(found.value, "REV-" + t.reference, "", at));
      }
    }
  }

  lemma SameIdSameJournal(h: Hashing, book: Book, j: Journal, id: nat, lines: seq<Line>)
    requires BookOk(h, book) && j in book.journals && j.id == id && Recorded(book.journals, id, lines)
    ensures j.lines == lines
  {
    var r :| r in book.journals && r.id == id && r.lines == lines;
    var a: nat :| a < |book.journals| && book.journals[a] == j;
    var b: nat :| b < |book.journals| && book.journals[b] == r;
    assert a < b ==> IdLess(book.journals, a, b);
    assert b < a ==> IdLess(book.journals, b, a);
  }

  lemma ReversedRowsOk(h: Hashing, bank: Bank, v: Bank, i: nat)
    requires BankOk(h, bank) && i < |bank.transfers| && ReversesRow(bank, v, i) && BookOk(h, v.book)
    ensures BankOk(h, v)
  {
    hide BookOk;
    var t, n := bank.transfers[i], |bank.book.journals|;
    assert TransferOk(bank, t);
    assert v.book.journals[n].reverses == t.journal;
    assert IsReversed(v.book.journals, t.journal.value);
    assert TransferOk(v, v.transfers[i]) by {
      var j :| j in bank.book.journals && j.id == t.journal.value && j.lines == TransferLines(bank.accounts, t);
      assert j in v.book.journals;
    }
    forall k: nat | k < |v.transfers|
      ensures TransferOk(v, v.transfers[k])
    {
      if k != i {
        assert TransferOk(bank, bank.transfers[k]);
        assert k < i ==> RowsDiffer(bank.transfers, k, i);
        assert i < k ==> RowsDiffer(bank.transfers, i, k);
        TransferOkGrows(bank, v, bank.transfers[k]);
      }
    }
    forall a: nat, b: nat | a < b < |v.transfers|
      ensures RowsDiffer(v.transfers, a, b)
    {
      assert RowsDiffer(bank.transfers, a, b);
    }
  }

  lemma TransferReversedKeepsOk(h: Hashing, bank: Bank, i: nat, at: string)
    requires BankOk(h, bank) && AllResting(bank) && i < |bank.transfers| && at != ""
    ensures forall j :: j in bank.book.journals ==> LinesKnown(bank.book.accounts, j.lines)
    ensures BankOk(h, TransferReversed(h, bank, i, at).0) && AllResting(TransferReversed(h, bank, i, at).0)
  {
    TransferReversedEffect(h, bank, i, at);
    hide BankOk, TransferReversed;
    var r := TransferReversed(h, bank, i, at);
    if r.1.Some? {
      AbortKeepsOk(h, bank, r.0.book.nextId);
    } else {
      ReversedRowsOk(h, bank, r.0, i);
    }
  }

  /** A service that posts one journal and leaves the transfers alone. */
  ghost predicate PostsOnly(bank: Bank, v: Bank, lines: seq<Line>) {
    && v == bank.(book := v.book, payments := v.payments, records := v.records)
    && Appended(bank.book, v.book, lines)
    && (forall x :: x in bank.book.accounts ==> x in v.book.accounts && v.book.accounts[x].kind == bank.book.accounts[x].kind)
  }

  lemma ServicePosting(h: Hashing, bank: Bank, code: string, currency: string, p: Posting)
    requires BankOk(h, bank) && LinesKnown(EnsureAccount(bank.book, code, currency).accounts, p.lines) && p.at != ""
    ensures var r := PostLines(h, bank, EnsureAccount(bank.book, code, currency), p);
            && BookOk(h, r.0.book) && r.0.book.nextId >= bank.book.nextId
            && (r.1.Some? ==> r.0 == Aborted(bank, r.0.book.nextId))
            && (r.1.None? ==> PostsOnly(bank, r.0, p.lines) && r.0.payments == bank.payments && r.0.records == bank.records)
  {
    hide BookOk, AccountsOk, TransfersOk, PostLines;
    EnsureKeepsBook(h, bank.book, code, currency);
    PostLinesEffect(h, bank, EnsureAccount(bank.book, code, currency), p);
  }

  lemma FundedEffect(h: Hashing, bank: Bank, q: FundingRequest)
    requires BankOk(h, bank) && q.at != ""
    ensures CodesKnown(bank)
    ensures var r := Funded(h, bank, q);
            && BookOk(h, r.0.book) && r.0.book.nextId >= bank.book.nextId && r.0.payments == bank.payments
            && (r.0 == Aborted(bank, r.0.book.nextId)
                || (&& q.amount > 0 && q.account < |bank.accounts|
                    && PostsOnly(bank, r.0, FundingLines(bank.accounts[q.account], q.amount))
                    && |r.0.records| == |bank.records| + 1 && r.0.records[..|bank.records|] == bank.records
                    && r.0.records[|bank.records|].amount == q.amount))
  {
    BankOkShape(h, bank);
    if q.account < |bank.accounts| {
      var account := bank.accounts[q.account];
      assert account in bank.accounts;
      var p := Posting(q.reference, q.reference, FundingLines(account, q.amount), q.at, account.currency);
      ServicePosting(h, bank, FUNDING, account.currency, p);
      hide BankOk, PostLines;
      BurnsKeepBookAfter(h, bank, PostLines(h, bank, EnsureAccount(bank.book, FUNDING, account.currency), p).0.book.nextId);
    }
  }

  lemma BurnsKeepBookAfter(h: Hashing, bank: Bank, nextId: nat)
    requires BankOk(h, bank)
    ensures nextId >= bank.book.nextId ==> BookOk(h, Aborted(bank, nextId).book)
  {
    if nextId >= bank.book.nextId {
      BurnsKeepBook(h, bank.book, nextId);
    }
  }

  lemma FundedKeepsOk(h: Hashing, bank: Bank, q: FundingRequest)
    requires BankOk(h, bank) && AllResting(bank) && q.at != ""
    ensures CodesKnown(bank)
    ensures BankOk(h, Funded(h, bank, q).0) && AllResting(Funded(h, bank, q).0)
  {
    FundedEffect(h, bank, q);
    var r := Funded(h, bank, q);
    BankPayments(h, bank);
    hide BankOk, Funded;
    if r.0 == Aborted(bank, r.0.book.nextId) {
      AbortKeepsOk(h, bank, r.0.book.nextId);
    } else {
      UnrelatedKeepsOk(h, bank, r.0);
    }
  }

  lemma BankPayments(h: Hashing, bank: Bank)
    requires BankOk(h, bank)
    ensures forall i: nat, k: nat :: i < k < |bank.payments| ==> BillsDiffer(bank.payments, i, k)
  {
  }

  lemma BillSettledEffect(h: Hashing, bank: Bank, actor: Actor, q: BillRequest)
    requires BankOk(h, bank) && q.at != ""
    ensures CodesKnown(bank)
    ensures var r := BillSettled(h, bank, actor, q);
            && BookOk(h, r.0.book) && r.0.book.nextId >= bank.book.nextId && r.0.records == bank.records
            && (r.0 == Aborted(bank, r.0.book.nextId)
                || (&& q.account < |bank.accounts| && q.bill < |bank.bills|
                    && bank.bills[q.bill] <= Available(bank, q.account)
                    && PostsOnly(bank, r.0, BillLines(bank.accounts[q.account], bank.bills[q.bill]))
                    && !BillPaid(bank.payments, q.bill) && !PaymentKeyUsed(bank.payments, q.key)
                    && r.0.payments == bank.payments + [Payment(q.bill, q.account, bank.bills[q.bill], q.key, bank.book.nextId)]))
  {
    BankOkShape(h, bank);
    if q.account < |bank.accounts| && q.bill < |bank.bills| {
      var account, amount := bank.accounts[q.account], bank.bills[q.bill];
      assert account in bank.accounts;
      var p := Posting(q.reference, q.reference, BillLines(account, amount), q.at, "");
      ServicePosting(h, bank, PAYMENT_INCOME, "USD", p);
      hide BankOk, PostLines;
    }
  }

  lemma BillSettledKeepsOk(h: Hashing, bank: Bank, actor: Actor, q: BillRequest)
    requires BankOk(h, bank) && AllResting(bank) && q.at != ""
    ensures CodesKnown(bank)
    ensures BankOk(h, BillSettled(h, bank, actor, q).0) && AllResting(BillSettled(h, bank, actor, q).0)
  {
    BillSettledEffect(h, bank, actor, q);
    var r := BillSettled(h, bank, actor, q);
    BankPayments(h, bank);
    hide BankOk, BillSettled;
    if r.0 == Aborted(bank, r.0.book.nextId) {
      AbortKeepsOk(h, bank, r.0.book.nextId);
    } else {
      forall i: nat, k: nat | i < k < |r.0.payments|
        ensures BillsDiffer(r.0.payments, i, k)
      {
        if k < |bank.payments| {
          assert BillsDiffer(bank.payments, i, k);
        }
      }
      UnrelatedKeepsOk(h, bank, r.0);
    }
  }
}
