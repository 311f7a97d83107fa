/**
 Exactly when the lending services pass, what they then move, and that a refused call moves nothing.
 */
module LoanOutcomes {
  import opened Common
  import opened Journals
  import opened Canonical
  import opened Ledger
  import opened LedgerRuns
  import opened Accounting
  import opened Banking
  import opened BankRuns
  import opened BankTheorems
  import opened Movements
  import opened Calendar
  import opened Loans
  import opened LoanRuns
  import opened LoanTheorems
  import Annuity

  /** A bank with sound books, none of whose customers owns the portfolio account. */
  ghost predicate Lends(h: Hashing, s: LoanState) {
    BankOk(h, s.bank) && PORTFOLIO !in Codes(s.bank.accounts) && LoanReady(s)
  }

  // ----- application and approval

  /** An application within the product's range goes to review with its score; any other leaves no trace. */
  lemma ApplicationOutcome(s: LoanState, amount: int, min: int, max: int, term: int, rate: real, score: int, account: Option<nat>)
    ensures var r := Applied(s, amount, min, max, term, rate, score, account);
            if min <= amount <= max then
              && r.1.None? && |r.0.loans| == |s.loans| + 1 && r.0 == s.(loans := r.0.loans) && r.0.loans[..|s.loans|] == s.loans
              && var loan := r.0.loans[|s.loans|];
                 && loan.status == REVIEW && loan.score == Some(score) && loan.amount == amount && loan.term == term
                 && loan.rate == rate && loan.account == account
            else r == (s, Some(AmountOutsideRange))
  {
  }

  predicate IsCreditworthy(loan: Loan) {
    loan.score.Some? && loan.score.value >= 550
  }

  /**
   Only a loan in review is decided. Below a score of 550, or without one, it is rejected and no money moves;
   otherwise it is disbursed there and then or nothing happens.
   */
  lemma ApprovalOutcome(h: Hashing, s: LoanState, i: nat, slip: Slip)
    requires Lends(h, s) && i < |s.loans| && slip.at != ""
    ensures var r, loan := LoanApproved(h, s, i, slip), s.loans[i];
            if loan.status != REVIEW then r == (s, Some(NotInReview))
            else if !IsCreditworthy(loan) then r == (s.(loans := s.loans[i := loan.(status := REJECTED)]), None)
            else
              && (r.1.Some? ==> r.0 == s.(bank := r.0.bank) && NothingMoved(s.bank, r.0.bank))
              && (r.1.None? <==> IsDisbursed(s.marks, i) || DisbursementPasses(s, i, slip))
              && (r.1.None? && !IsDisbursed(s.marks, i) ==> Disburses(s, r.0, i))
  {
    var loan := s.loans[i];
    if loan.status == REVIEW && IsCreditworthy(loan) {
      var approved := s.(loans := s.loans[i := loan.(status := APPROVED)]);
      hide BankOk, Disbursed, Disburses, IsDisbursed, Acceptable, Annuity.MonthlyPayment;
      assert LoanReady(approved);
      DisbursementOutcome(h, approved, i, slip);
      SameDisbursement(s, approved, Disbursed(h, approved, i, slip).0, i);
      assert DisbursementPasses(approved, i, slip) <==> DisbursementPasses(s, i, slip);
    }
  }

  lemma SameDisbursement(s: LoanState, approved: LoanState, v: LoanState, i: nat)
    requires i < |s.loans| && approved == s.(loans := s.loans[i := s.loans[i].(status := APPROVED)])
    ensures Disburses(approved, v, i) ==> Disburses(s, v, i)
  {
    assert approved.loans[i := approved.loans[i].(status := LoanStatus.ACTIVE)] == s.loans[i := s.loans[i].(status := LoanStatus.ACTIVE)];
    if Disburses(approved, v, i) {
      forall k | |s.schedule| <= k < |v.schedule|
        ensures IsInstallment(v.schedule[k], s.loans[i], i, s.today, k - |s.schedule| + 1)
      {
        assert IsInstallment(v.schedule[k], approved.loans[i], i, s.today, k - |s.schedule| + 1);
      }
    }
  }

  // ----- disbursement

  function PayoutPosting(account: Account, amount: int, slip: Slip): Posting {
    Posting(slip.reference, slip.description, DisbursementLines(account, amount), slip.at, "")
  }

  predicate DisbursementPasses(s: LoanState, i: nat, slip: Slip)
    requires i < |s.loans| && LoanAccountsExist(s)
  {
    var loan := s.loans[i];
    && loan.account.Some? && Annuity.MonthlyPayment(loan.amount, loan.rate, loan.term).Ok?
    && var account := s.bank.accounts[loan.account.value];
       && account.status == CustomerStatus.ACTIVE
       && Acceptable(s.bank, PORTFOLIO, "USD", PayoutPosting(account, loan.amount, slip), PORTFOLIO, account.code, loan.amount)
  }

  /** The principal goes to the borrower, and the loan becomes active with one installment for each month. */
  ghost predicate Disburses(s: LoanState, v: LoanState, i: nat)
    requires i < |s.loans|
  {
    var loan := s.loans[i];
    && loan.account.Some? && loan.account.value < |s.bank.accounts|
    && v.bank == s.bank.(book := v.bank.book)
    && Moves(s.bank, v.bank, PORTFOLIO, s.bank.accounts[loan.account.value].code, loan.amount)
    && v == s.(bank := v.bank, loans := s.loans[i := loan.(status := LoanStatus.ACTIVE)], schedule := v.schedule,
               marks := s.marks + [Disbursement(i, s.today)])
    && loan.term >= 1 && |v.schedule| == |s.schedule| + loan.term && v.schedule[..|s.schedule|] == s.schedule
    && forall k :: |s.schedule| <= k < |v.schedule| ==> IsInstallment(v.schedule[k], loan, i, s.today, k - |s.schedule| + 1)
  }

  predicate IsInstallment(row: Installment, loan: Loan, i: nat, today: Day, number: nat) {
    && row.loan == i && row.number == number && row.due == AddMonths(today, number) && row.journal.None?
    && Annuity.MonthlyPayment(loan.amount, loan.rate, loan.term) == Ok(row.amount)
  }

  lemma DisbursementOutcome(h: Hashing, s: LoanState, i: nat, slip: Slip)
    requires Lends(h, s) && i < |s.loans| && slip.at != ""
    ensures var r := Disbursed(h, s, i, slip);
            if IsDisbursed(s.marks, i) then r == (s, None)
            else
              && (r.1.None? <==> DisbursementPasses(s, i, slip))
              && (r.1.Some? ==> r.0 == s.(bank := r.0.bank) && NothingMoved(s.bank, r.0.bank))
              && (r.1.None? ==> Disburses(s, r.0, i))
  {
    var loan := s.loans[i];
    if loan.account.Some? {
      var account := s.bank.accounts[loan.account.value];
      LoanMoves(h, s.bank, loan.account.value, PayoutPosting(account, loan.amount, slip), PORTFOLIO, account.code, loan.amount);
    }
    hide BankOk, LoanPosted, Moves, Acceptable, IsDisbursed, Annuity.MonthlyPayment, Disburses, NewRows, NothingMoved;
    assert NothingMoved(s.bank, s.bank) by {
      UnmovedItself(s.bank);
    }
    var r := Disbursed(h, s, i, slip);
    if r.1.None? && !IsDisbursed(s.marks, i) {
      NewScheduleRows(s, r.0, i);
    }
  }

  lemma NewScheduleRows(s: LoanState, v: LoanState, i: nat)
    requires i < |s.loans| && LoanAccountsExist(s)
    requires var loan := s.loans[i];
             var payment := Annuity.MonthlyPayment(loan.amount, loan.rate, loan.term);
             && loan.account.Some? && v.bank == s.bank.(book := v.bank.book)
             && Moves(s.bank, v.bank, PORTFOLIO, s.bank.accounts[loan.account.value].code, loan.amount)
             && payment.Ok? && loan.term >= 0
             && v == s.(bank := v.bank, loans := s.loans[i := loan.(status := LoanStatus.ACTIVE)],
                        schedule := s.schedule + NewRows(i, payment.value, s.today, loan.term),
                        marks := s.marks + [Disbursement(i, s.today)])
    ensures Disburses(s, v, i)
  {
    TermPositive(s.loans[i]);
    hide Moves, Annuity.MonthlyPayment;
  }

  lemma TermPositive(loan: Loan)
    requires Annuity.MonthlyPayment(loan.amount, loan.rate, loan.term).Ok?
    ensures loan.term >= 1
  {
  }

  /** A posting between a borrower and the portfolio. */
  lemma LoanMoves(h: Hashing, bank: Bank, a: nat, p: Posting, x: string, y: string, n: int)
    requires BankOk(h, bank) && PORTFOLIO !in Codes(bank.accounts) && a < |bank.accounts|
    requires p.lines == [Line(x, DEBIT, n), Line(y, CREDIT, n)] && p.at != "" && p.declared == ""
    requires (x == PORTFOLIO && y == bank.accounts[a].code) || (x == bank.accounts[a].code && y == PORTFOLIO)
    ensures LinesKnown(EnsureAccount(bank.book, PORTFOLIO, "USD").accounts, p.lines)
    ensures var r := LoanPosted(h, bank, p.lines, Slip(p.reference, p.description, p.at));
            && (r.1.None? <==> Acceptable(bank, PORTFOLIO, "USD", p, x, y, n))
            && NothingMoved(bank, Aborted(bank, r.0.book.nextId))
            && (if r.1.None? then r.0 == bank.(book := r.0.book) && Moves(bank, r.0, x, y, n)
                  && Available(r.0, a) == Available(bank, a) + (if x == PORTFOLIO then n else -n)
                else NothingMoved(bank, r.0))
  {
    OwnCode(bank, a);
    hide BankOk, Moves, Acceptable, PostLines, Available;
    LoanLinesKnown(h, bank, a, p.lines);
    ServiceMoves(h, bank, PORTFOLIO, "USD", p, x, y, n);
    ServicePosting(h, bank, PORTFOLIO, "USD", p);
    var v := LoanPosted(h, bank, p.lines, Slip(p.reference, p.description, p.at)).0;
    if Moves(bank, v, x, y, n) {
      MovesAvailable(h, bank, v, x, y, n, a);
    }
  }

  // ----- repayment

  function RepayPosting(account: Account, amount: int, slip: Slip): Posting {
    Posting(slip.reference, slip.description, RepaymentLines(account, amount), slip.at, "")
  }

  /** The installment is open, and the borrower's account has it. */
  predicate RepaymentPasses(s: LoanState, k: nat, slip: Slip)
    requires k < |s.schedule| && s.schedule[k].loan < |s.loans| && LoanAccountsExist(s)
  {
    var row := s.schedule[k];
    var borrower := s.loans[row.loan].account;
    && row.journal.None? && borrower.Some? && row.amount <= Available(s.bank, borrower.value)
    && var account := s.bank.accounts[borrower.value];
       Acceptable(s.bank, PORTFOLIO, "USD", RepayPosting(account, row.amount, slip), account.code, PORTFOLIO, row.amount)
  }

  predicate NewKey(s: LoanState, key: string) {
    forall m :: m in s.marks && m.Repayment? ==> m.key != key
  }

  /** The installment and nothing else is paid, in full, by a borrower who stays solvent; the last one pays off the loan. */
  ghost predicate Repays(s: LoanState, v: LoanState, k: nat, key: string)
    requires k < |s.schedule| && s.schedule[k].loan < |s.loans|
  {
    var row, loan := s.schedule[k], s.loans[s.schedule[k].loan];
    && loan.account.Some? && loan.account.value < |s.bank.accounts| && v.bank == s.bank.(book := v.bank.book)
    && Moves(s.bank, v.bank, s.bank.accounts[loan.account.value].code, PORTFOLIO, row.amount)
    && 0 <= Available(v.bank, loan.account.value) == Available(s.bank, loan.account.value) - row.amount
    && v.schedule == s.schedule[k := row.(journal := Some(s.bank.book.nextId))]
    && v == s.(bank := v.bank, schedule := v.schedule, loans := v.loans, marks := s.marks + [Repayment(key, k)])
    && v.loans == if forall l :: 0 <= l < |v.schedule| && v.schedule[l].loan == row.loan ==> v.schedule[l].journal.Some?
                  then s.loans[row.loan := loan.(status := PAID)] else s.loans
  }

  lemma RepaymentOutcome(h: Hashing, s: LoanState, k: nat, key: string, slip: Slip)
    requires Lends(h, s) && k < |s.schedule| && slip.at != "" && NewKey(s, RepayKey(k, key))
    ensures var r := Repaid(h, s, k, key, slip);
            && (r.1.Ok? <==> RepaymentPasses(s, k, slip))
            && (r.1.Err? ==> r.0 == s.(bank := r.0.bank) && NothingMoved(s.bank, r.0.bank))
            && (r.1.Ok? ==> r.1.value == k && Repays(s, r.0, k, RepayKey(k, key)))
  {
    assert FindRepayment(s.marks, RepayKey(k, key)).None?;
    var row := s.schedule[k];
    var borrower := s.loans[row.loan].account;
    if borrower.Some? {
      var account := s.bank.accounts[borrower.value];
      LoanMoves(h, s.bank, borrower.value, RepayPosting(account, row.amount, slip), account.code, PORTFOLIO, row.amount);
      OwnCode(s.bank, borrower.value);
    }
    hide BankOk, LoanPosted, Moves, Acceptable, FindRepayment, Available, RepayKey, NewKey, Repays, NothingMoved, AllPaid;
    assert NothingMoved(s.bank, s.bank) by {
      UnmovedItself(s.bank);
    }
    var r := Repaid(h, s, k, key, slip);
    if r.1.Ok? {
      PaidRows(s, r.0, k, RepayKey(k, key));
    }
  }

  lemma PaidRows(s: LoanState, v: LoanState, k: nat, key: string)
    requires LoanReady(s) && k < |s.schedule|
    requires var row, loan := s.schedule[k], s.loans[s.schedule[k].loan];
             && loan.account.Some? && v.bank == s.bank.(book := v.bank.book)
             && Moves(s.bank, v.bank, s.bank.accounts[loan.account.value].code, PORTFOLIO, row.amount)
             && 0 <= Available(v.bank, loan.account.value) == Available(s.bank, loan.account.value) - row.amount
             && var schedule := s.schedule[k := row.(journal := Some(s.bank.book.nextId))];
                v == s.(bank := v.bank, schedule := schedule, marks := s.marks + [Repayment(key, k)],
                        loans := if AllPaid(schedule, row.loan) then s.loans[row.loan := loan.(status := PAID)] else s.loans)
    ensures Repays(s, v, k, key)
  {
    hide Moves, Available;
  }

  /** A key that was used before stands for the installment it paid, and nothing happens. */
  lemma UsedKeyOutcome(h: Hashing, s: LoanState, k: nat, key: string, slip: Slip)
    requires Lends(h, s) && k < |s.schedule| && !NewKey(s, RepayKey(k, key))
    ensures var r := Repaid(h, s, k, key, slip);
            r.0 == s && r.1.Ok? && Repayment(RepayKey(k, key), r.1.value) in s.marks
  {
  }
}
