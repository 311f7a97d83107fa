/**
 A loan of which one installment cannot be repaid without a key: the state in which `DigitsKeyBlocks` bites,
 reached from an empty bank.
 */
module LoanInstance {
  import opened Common
  import opened Journals
  import opened Canonical
  import opened Ledger
  import opened LedgerRuns
  import opened Accounting
  import opened Banking
  import opened BankRuns
  import opened BankTheorems
  import opened OneAccount
  import opened Calendar
  import opened Loans
  import opened LoanRuns
  import opened LoanTheorems
  import Annuity
  import Json

  /** 1000 cents over two months, without interest. */
  const LOAN := Loan(1000, 2, 0.0, REVIEW, Some(700), Some(0))

  function Requested(today: Day): LoanState {
    LoanState(EmptyBank(), [LOAN], [], [], today)
  }

  function SlipOf(reference: string): Slip {
    Slip(reference, "", NOON)
  }

  lemma RequestedOk(h: Hashing, today: Day)
    ensures LoansOk(h, Requested(today)) && LoanReady(Requested(today))
  {
    EmptyBankOk(h);
    NoLoansYet(h, EmptyBank(), today);
    AppliedKeepsOk(h, LoanState(EmptyBank(), [], [], [], today), LOAN);
    assert [] + [LOAN] == [LOAN];
    ReadyLoans(h, Requested(today));
  }

  lemma TwoPaymentsOf500()
    ensures Annuity.MonthlyPayment(1000, 0.0, 2) == Ok(500)
  {
    assert Annuity.MonthlyRate(0.0) == 0.0;
    assert Annuity.Unrounded(1000.0, 0.0, 2) == 500.0;
    assert Annuity.RoundHalfUp(500.0) == 500;
  }

  /** The loan as it stands after its approval: active, both installments open, the money in the account. */
  ghost predicate JustDisbursed(h: Hashing, s: LoanState) {
    && LoansOk(h, s) && LoanReady(s)
    && |s.loans| == 1 && s.loans[0].status == LoanStatus.ACTIVE && s.loans[0].account == Some(0)
    && |s.schedule| == 2 && OpenRow(s.schedule[0]) && OpenRow(s.schedule[1])
    && (forall key: string :: FindRepayment(s.marks, key).None?)
    && s.bank.accounts == EmptyBank().accounts && Available(s.bank, 0) == 1000
    && MovementFits(EnsureAccount(s.bank.book, PORTFOLIO, "USD"), "R", CODE, PORTFOLIO)
  }

  predicate OpenRow(row: Installment) {
    row.loan == 0 && row.amount == 500 && row.journal.None?
  }

  /** The disbursement of the empty bank's loan is posted and pays out 1000. */
  lemma PayoutPosts(h: Hashing)
    ensures LinesKnown(EnsureAccount(EmptyBank().book, PORTFOLIO, "USD").accounts, DisbursementLines(EmptyBank().accounts[0], 1000))
    ensures var r := LoanPosted(h, EmptyBank(), DisbursementLines(EmptyBank().accounts[0], 1000), SlipOf("L"));
            && r.1.None? && r.0.accounts == EmptyBank().accounts && Available(r.0, 0) == 1000
            && MovementFits(EnsureAccount(r.0.book, PORTFOLIO, "USD"), "R", CODE, PORTFOLIO)
  {
    var bank, lines := EmptyBank(), DisbursementLines(EmptyBank().accounts[0], 1000);
    var book := EnsureAccount(bank.book, PORTFOLIO, "USD");
    MovementPosts(h, bank, book, Posting("L", "", lines, SlipOf("L").at, ""), PORTFOLIO, CODE, 1000);
    var r := LoanPosted(h, bank, lines, SlipOf("L"));
    assert r.0.book.journals[0].reference == "L";
    assert NetOf(bank.book.journals, CODE) == 0;
    NetAfterAppend(bank.book.journals, r.0.book.journals, CODE);
    TwoLines(lines[0], lines[1], CODE);
    assert lines == [lines[0], lines[1]];
  }

  lemma ApprovalDisburses(h: Hashing, today: Day)
    ensures LoanReady(Requested(today)) && JustDisbursed(h, LoanApproved(h, Requested(today), 0, SlipOf("L")).0)
  {
    var s := Requested(today);
    RequestedOk(h, today);
    ApprovedKeepsLoans(h, s, 0, SlipOf("L"));
    var v := LoanApproved(h, s, 0, SlipOf("L")).0;
    ReadyLoans(h, v);
    TwoPaymentsOf500();
    PayoutPosts(h);
    hide LoansOk, LoanPosted, MovementFits, Available, Annuity.MonthlyPayment;
    assert !IsDisbursed([], 0);
    assert v.marks == [] + [Disbursement(0, today)] && v.schedule == [] + NewRows(0, 500, today, 2);
    forall key: string
      ensures FindRepayment(v.marks, key).None?
    {
      assert v.marks[1..] == [];
    }
  }

  /**
   Disburse the loan, repay its first installment under the key that spells the id of the second: that
   succeeds, and from then on repaying the second without a key reports success and pays nothing.
   */
  lemma SecondInstallmentBlocked(h: Hashing, today: Day)
    ensures LoanReady(Requested(today))
    ensures var s := LoanApproved(h, Requested(today), 0, SlipOf("L")).0;
            && LoansOk(h, s) && LoanReady(s) && |s.schedule| == 2
            && var first := Repaid(h, s, 0, Json.Digits(1), SlipOf("R"));
               && first.1 == Ok(0) && LoanReady(first.0) && first.0.schedule[0].journal.Some?
               && Repaid(h, first.0, 1, "", SlipOf("S")) == (first.0, Ok(0))
               && first.0.schedule[1].journal.None? && first.0.loans[0].status == LoanStatus.ACTIVE
  {
    ApprovalDisburses(h, today);
    var s := LoanApproved(h, Requested(today), 0, SlipOf("L")).0;
    hide LoanApproved;
    FirstRepaymentSucceeds(h, s);
    DigitsKeyBlocks(h, s, 0, 1, SlipOf("R"), SlipOf("S"));
  }

  lemma FirstRepaymentSucceeds(h: Hashing, s: LoanState)
    requires JustDisbursed(h, s)
    ensures var first := Repaid(h, s, 0, Json.Digits(1), SlipOf("R"));
            && first.1 == Ok(0) && |first.0.schedule| == 2 && first.0.schedule[0].journal.Some?
            && first.0.schedule[1] == s.schedule[1] && first.0.loans == s.loans
  {
    var lines := RepaymentLines(s.bank.accounts[0], 500);
    var book := EnsureAccount(s.bank.book, PORTFOLIO, "USD");
    MovementPosts(h, s.bank, book, Posting("R", "", lines, SlipOf("R").at, ""), CODE, PORTFOLIO, 500);
    assert LoanPosted(h, s.bank, lines, SlipOf("R")).1.None?;
    hide LoansOk, LoanPosted, MovementFits, Available, FindRepayment, Json.Digits;
    var schedule := s.schedule[0 := s.schedule[0].(journal := Some(s.bank.book.nextId))];
    assert schedule[1].loan == 0 && schedule[1].journal.None?;
    assert !AllPaid(schedule, 0);
  }
}
