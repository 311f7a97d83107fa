/**
 The lending services as they run, each against its specification in `Loans`.
 */
module LoanServices {
  import opened Common
  import opened Journals
  import opened Canonical
  import opened Ledger
  import opened Accounting
  import opened Banking
  import opened Calendar
  import opened Loans
  import Annuity

  class LoanService {
    const h: Hashing
    var bank: Bank
    var loans: seq<Loan>
    var schedule: seq<Installment>
    var marks: seq<LoanMark>
    var today: Day

    constructor (h: Hashing, bank: Bank, today: Day)
      ensures this.h == h && State() == LoanState(bank, [], [], [], today)
    {
      this.h, this.bank, this.today := h, bank, today;
      loans, schedule, marks := [], [], [];
    }

    function State(): LoanState
      reads this
    {
      LoanState(bank, loans, schedule, marks, today)
    }

    /** An exception leaves everything as it was in `saved`, but for the ids handed out. */
    method Rollback(saved: LoanState)
      requires saved.today == today
      modifies this
      ensures State() == LoanAborted(saved, old(bank.book.nextId))
    {
      bank := Aborted(saved.bank, bank.book.nextId);
      loans, schedule, marks := saved.loans, saved.schedule, saved.marks;
    }

    /** `apply_for_loan` */
    method ApplyForLoan(amount: int, min: int, max: int, term: int, rate: real, score: int, account: Option<nat>)
      returns (problem: Option<LoanError>)
      modifies this`loans
      ensures (State(), problem) == Applied(old(State()), amount, min, max, term, rate, score, account)
    {
      if amount < min || amount > max {
        return Some(AmountOutsideRange);
      }
      var application := Loan(amount, term, rate, SUBMITTED, None, account);
      application := application.(score := Some(score));
      application := application.(status := REVIEW);
      loans := loans + [application];
      problem := None;
    }

    /** The rows of a new schedule, one after the other. */
    method CreateSchedule(i: nat, payment: int, term: nat)
      modifies this`schedule
      ensures schedule == old(schedule) + NewRows(i, payment, today, term)
    {
      for n := 0 to term
        invariant schedule == old(schedule) + NewRows(i, payment, today, n)
      {
        schedule := schedule + [Installment(i, n + 1, AddMonths(today, n + 1), payment, None)];
      }
    }

    /** `disburse` */
    method Disburse(i: nat, slip: Slip) returns (problem: Option<LoanError>)
      requires i < |loans| && LoanAccountsExist(State())
      modifies this
      ensures (State(), problem) == Disbursed(h, old(State()), i, slip) && today == old(today)
    {
      if IsDisbursed(marks, i) {
        return None;
      }
      var loan := loans[i];
      if loan.account.None? {
        return Some(NoAccount);
      }
      var account := bank.accounts[loan.account.value];
      if account.status != CustomerStatus.ACTIVE {
        return Some(LoanAccountNotActive);
      }
      var saved := State();
      var posted := LoanPosted(h, bank, DisbursementLines(account, loan.amount), slip);
      bank := posted.0;
      if posted.1.Some? {
        return Some(LoanPostingRefused(posted.1.value));
      }
      loans := loans[i := loan.(status := LoanStatus.ACTIVE)];
      var payment := Annuity.MonthlyPayment(loan.amount, loan.rate, loan.term);
      if payment.Err? {
        Rollback(saved);
        return Some(BadPayment(payment.error));
      }
      CreateSchedule(i, payment.value, loan.term);
      marks := marks + [Disbursement(i, today)];
      problem := None;
    }

    /** `approve` */
    method Approve(i: nat, slip: Slip) returns (problem: Option<LoanError>)
      requires i < |loans| && LoanAccountsExist(State())
      modifies this
      ensures (State(), problem) == LoanApproved(h, old(State()), i, slip)
    {
      var loan := loans[i];
      if loan.status != REVIEW {
        return Some(NotInReview);
      }
      if loan.score.None? || loan.score.value < MIN_SCORE {
        loans := loans[i := loan.(status := REJECTED)];
        return None;
      }
      var saved := State();
      loans := loans[i := loan.(status := APPROVED)];
      problem := Disburse(i, slip);
      if problem.Some? {
        Rollback(saved);
      }
    }

    /** Is an installment of the loan still open? */
    method HasUnpaid(loan: nat) returns (found: bool)
      ensures found <==> !AllPaid(schedule, loan)
    {
      found := false;
      for k := 0 to |schedule|
        invariant found <==> !AllPaid(schedule[..k], loan)
      {
        assert schedule[..k + 1] == schedule[..k] + [schedule[k]];
        LastPaid(schedule[..k], schedule[k], loan);
        if schedule[k].loan == loan && schedule[k].journal.None? {
          found := true;
        }
      }
      assert schedule[..|schedule|] == schedule;
    }

    /** `repay_installment` */
    method RepayInstallment(k: nat, key: string, slip: Slip) returns (r: Result<nat, LoanError>)
      requires k < |schedule| && schedule[k].loan < |loans| && LoanAccountsExist(State())
      modifies this
      ensures (State(), r) == Repaid(h, old(State()), k, key, slip)
    {
      var name := RepayKey(k, key);
      var existing := FindRepayment(marks, name);
      if existing.Some? {
        return Ok(existing.value);
      }
      var row := schedule[k];
      if row.journal.Some? {
        return Err(InstallmentAlreadyPaid);
      }
      var loan := loans[row.loan];
      if loan.account.None? {
        return Err(NoAccount);
      }
      if Available(bank, loan.account.value) < row.amount {
        return Err(LoanFundsShort);
      }
      var journal := bank.book.nextId;
      var posted := LoanPosted(h, bank, RepaymentLines(bank.accounts[loan.account.value], row.amount), slip);
      bank := posted.0;
      if posted.1.Some? {
        return Err(LoanPostingRefused(posted.1.value));
      }
      schedule := schedule[k := row.(journal := Some(journal))];
      var unpaid := HasUnpaid(row.loan);
      if !unpaid {
        loans := loans[row.loan := loan.(status := PAID)];
      }
      marks := marks + [Repayment(name, k)];
      r := Ok(k);
    }
  }

  lemma LastPaid(schedule: seq<Installment>, row: Installment, loan: nat)
    ensures AllPaid(schedule + [row], loan) <==> AllPaid(schedule, loan) && (row.loan == loan ==> row.journal.Some?)
  {
    var all := schedule + [row];
    assert all[|schedule|] == row;
    if AllPaid(all, loan) {
      forall k | 0 <= k < |schedule| && schedule[k].loan == loan
        ensures schedule[k].journal.Some?
      {
        assert all[k].loan == loan;
      }
    }
  }
}
