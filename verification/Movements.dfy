/**
 What one posting of a service does to the balances, and when the ledger accepts it. The outcomes of the
 services are stated in these terms.
 */
module Movements {
  import opened Common
  import opened Journals
  import opened Canonical
  import opened Ledger
  import opened LedgerRuns
  import opened Accounting
  import opened Banking
  import opened BankRuns
  import opened BankTheorems

  /** Between `bank` and `v` the amount `n` was debited to `x` and credited to `y`; no other balance moved. */
  ghost predicate Moves(bank: Bank, v: Bank, x: string, y: string, n: int) {
    && v.accounts == bank.accounts
    && forall code: string ::
         NetOf(v.book.journals, code) == NetOf(bank.book.journals, code) + (if code == x then n else 0) - (if code == y then n else 0)
  }

  /** Nothing moved: what a refused call leaves is the old state, save for ids that were handed out. */
  predicate NothingMoved(bank: Bank, v: Bank) {
    v == Aborted(bank, v.book.nextId) && v.book.nextId >= bank.book.nextId
  }

  lemma UnmovedItself(bank: Bank)
    ensures NothingMoved(bank, bank)
  {
  }

  /**
   The ledger accepts a movement of `n` from `x` to `y`, one of which may be a settlement account that the
   call opens: the amount is positive, the reference new, and both accounts are active, in one currency,
   which is the declared one if any is declared.
   */
  predicate Acceptable(bank: Bank, settlement: string, currency: string, p: Posting, x: string, y: string, n: int) {
    var book := EnsureAccount(bank.book, settlement, currency);
    n > 0 && MovementFits(book, p.reference, x, y) && (p.declared == "" || p.declared == book.accounts[x].currency)
  }

  lemma MovesOnce(bank: Bank, v: Bank, x: string, y: string, n: int)
    requires v.accounts == bank.accounts && Appended(bank.book, v.book, [Line(x, DEBIT, n), Line(y, CREDIT, n)])
    ensures Moves(bank, v, x, y, n)
  {
    forall code: string
      ensures NetOf(v.book.journals, code)
           == NetOf(bank.book.journals, code) + (if code == x then n else 0) - (if code == y then n else 0)
    {
      NetAfterAppend(bank.book.journals, v.book.journals, code);
      TwoLines(Line(x, DEBIT, n), Line(y, CREDIT, n), code);
    }
  }

  /** A posting of a service is made exactly when it is acceptable; then it moves its amount. */
  lemma ServiceMoves(h: Hashing, bank: Bank, settlement: string, currency: string, p: Posting, x: string, y: string, n: int)
    requires BankOk(h, bank) && p.lines == [Line(x, DEBIT, n), Line(y, CREDIT, n)] && p.at != ""
    requires LinesKnown(EnsureAccount(bank.book, settlement, currency).accounts, p.lines)
    ensures var r := PostLines(h, bank, EnsureAccount(bank.book, settlement, currency), p);
            && (r.1.None? <==> Acceptable(bank, settlement, currency, p, x, y, n))
            && (if r.1.None? then r.0 == bank.(book := r.0.book) && Moves(bank, r.0, x, y, n) && BankOk(h, r.0)
                else NothingMoved(bank, r.0))
  {
    var book := EnsureAccount(bank.book, settlement, currency);
    assert p.lines[0] in p.lines && p.lines[1] in p.lines;
    PairProblem(book, p, Line(x, DEBIT, n), Line(y, CREDIT, n));
    ServicePosting(h, bank, settlement, currency, p);
    BankPayments(h, bank);
    hide BankOk, EnsureAccount, LinesKnown;
    var r := PostLines(h, bank, book, p);
    assert r.1.None? <==> PostProblem(book, p).None?;
    hide PostLines;
    if r.1.None? {
      MovesOnce(bank, r.0, x, y, n);
      UnrelatedKeepsOk(h, bank, r.0);
    }
  }

  /** The chart of accounts after it: the settlement account, if it was missing, has been opened as an active asset. */
  lemma ChartAfter(h: Hashing, bank: Bank, settlement: string, currency: string, p: Posting)
    requires LinesKnown(EnsureAccount(bank.book, settlement, currency).accounts, p.lines)
    ensures var r := PostLines(h, bank, EnsureAccount(bank.book, settlement, currency), p);
            var added := LedgerAccount(ASSET, currency, LedgerStatus.ACTIVE);
            r.0.book.accounts == if r.1.Some? || settlement in bank.book.accounts then bank.book.accounts
                                 else bank.book.accounts[settlement := added]
  {
    hide PostProblem;
  }

  /** In terms of a customer's available balance. */
  lemma MovesAvailable(h: Hashing, bank: Bank, v: Bank, x: string, y: string, n: int, a: nat)
    requires BankOk(h, bank) && Moves(bank, v, x, y, n) && a < |bank.accounts|
    ensures var code := bank.accounts[a].code;
            Available(v, a) == Available(bank, a) - (if code == x then n else 0) + (if code == y then n else 0)
  {
  }
}
