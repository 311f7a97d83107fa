/**
 What the card services do to the ledger: a purchase and a statement payment each move exactly their amount
 from the customer's account to the card receivable, and disturb nothing else.
 */
module CardMoney {
  import opened Common
  import opened Journals
  import opened Canonical
  import opened Ledger
  import opened LedgerRuns
  import opened Accounting
  import opened Banking
  import opened BankRuns
  import opened BankTheorems
  import opened Cards

  /** Between `bank` and `v` the account `a` has lost `amount` to the receivable; all other accounts stand still. */
  ghost predicate PaidToReceivable(h: Hashing, bank: Bank, v: Bank, a: nat, amount: int)
    requires a < |bank.accounts|
  {
    && BankOk(h, v) && v.accounts == bank.accounts && v.transfers == bank.transfers
    && BalanceOf(v, a) == BalanceOf(bank, a) - amount
    && AccountBalance(v.book.journals, RECEIVABLE, ASSET) == AccountBalance(bank.book.journals, RECEIVABLE, ASSET) - amount
    && forall code: string :: code !in {RECEIVABLE, bank.accounts[a].code} ==>
         NetOf(v.book.journals, code) == NetOf(bank.book.journals, code)
  }

  lemma OneMovement(h: Hashing, bank: Bank, v: Bank, a: nat, amount: int)
    requires BankOk(h, bank) && BankOk(h, v) && a < |bank.accounts| && bank.accounts[a].code != RECEIVABLE
    requires PostsOnly(bank, v, CardLines(bank.accounts[a], amount))
    ensures PaidToReceivable(h, bank, v, a, amount)
  {
    hide BankOk;
    var lines := CardLines(bank.accounts[a], amount);
    assert lines == [lines[0], lines[1]];
    forall code: string
      ensures NetOf(v.book.journals, code) == NetOf(bank.book.journals, code) + NetDebit(lines, code)
    {
      NetAfterAppend(bank.book.journals, v.book.journals, code);
    }
    forall code: string
      ensures NetDebit(lines, code) == (if bank.accounts[a].code == code then amount else 0) + (if RECEIVABLE == code then -amount else 0)
    {
      TwoLines(lines[0], lines[1], code);
    }
  }

  /** A card posting moves its amount, or is refused and leaves the books alone. */
  lemma CardPosting(h: Hashing, bank: Bank, a: nat, amount: int, reference: string, description: string, at: string)
    requires BankOk(h, bank) && a < |bank.accounts| && bank.accounts[a].code != RECEIVABLE && at != ""
    ensures CodesKnown(bank)
    ensures var r := CardPosted(h, bank, a, amount, reference, description, at);
            if r.1.None? then PaidToReceivable(h, bank, r.0, a, amount)
            else BankOk(h, r.0) && r.0 == Aborted(bank, r.0.book.nextId)
  {
    BankOkShape(h, bank);
    BankPayments(h, bank);
    assert bank.accounts[a] in bank.accounts;
    EnsureKeepsBook(h, bank.book, RECEIVABLE, "USD");
    hide BankOk;
    ServicePosting(h, bank, RECEIVABLE, "USD", Posting(reference, description, CardLines(bank.accounts[a], amount), at, ""));
    var r := CardPosted(h, bank, a, amount, reference, description, at);
    hide CardPosted;
    if r.1.None? {
      UnrelatedKeepsOk(h, bank, r.0);
      OneMovement(h, bank, r.0, a, amount);
    } else {
      AbortKeepsOk(h, bank, r.0.book.nextId);
    }
  }

  /** A new purchase takes its amount from the account; a replayed, declined or refused one takes nothing. */
  lemma PurchaseMovesItsAmount(h: Hashing, s: CardState, q: PurchaseRequest)
    requires BankOk(h, s.bank) && AccountsExist(s) && q.at != ""
    requires forall a :: 0 <= a < |s.bank.accounts| ==> s.bank.accounts[a].code != RECEIVABLE
    ensures var v := Purchased(h, s, q).0;
            if |v.purchases| > |s.purchases| then
              q.card < |s.cards| && PaidToReceivable(h, s.bank, v.bank, s.cards[q.card].account, q.amount)
            else BankOk(h, v.bank) && v.bank == Aborted(s.bank, v.bank.book.nextId)
  {
    hide BankOk, PaidToReceivable, PurchaseProblem, FindBought;
    if q.card < |s.cards| {
      CardPosting(h, s.bank, s.cards[q.card].account, q.amount, q.reference, q.description, q.at);
    }
    hide CardPosted;
  }

  /** A statement payment takes exactly the total that it reports, once per key. */
  lemma PaymentMovesItsTotal(h: Hashing, s: CardState, q: PaymentRequest)
    requires BankOk(h, s.bank) && AccountsExist(s) && q.at != "" && FindPaid(s.marks, q.key).None?
    requires forall a :: 0 <= a < |s.bank.accounts| ==> s.bank.accounts[a].code != RECEIVABLE
    ensures var r := StatementsPaid(h, s, q);
            if r.1.Ok? then
              q.card < |s.cards| && PaidToReceivable(h, s.bank, r.0.bank, s.cards[q.card].account, r.1.value)
            else BankOk(h, r.0.bank) && r.0.bank == Aborted(s.bank, r.0.bank.book.nextId)
  {
    hide BankOk, PaidToReceivable, FindPaid, CoveredTotal, MarkPaid, BalanceOf;
    if q.card < |s.cards| {
      CardPosting(h, s.bank, s.cards[q.card].account, CoveredTotal(s, q, |s.statements|), q.reference, q.description, q.at);
    }
    hide CardPosted;
  }
}
