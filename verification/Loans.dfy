/**
 Loans over the ledger: application, approval, disbursement with its repayment schedule, and repayment.
 Each function below is one service call, all or nothing.
 */
module Loans {
  import opened Common
  import opened Journals
  import opened Canonical
  import opened Ledger
  import opened Accounting
  import opened Banking
  import opened Calendar
  import Annuity
  import Json

  datatype LoanStatus = DRAFT | SUBMITTED | REVIEW | APPROVED | REJECTED | ACTIVE | PAID | DEFAULTED

  /** Amounts are in cents; `rate` is the yearly percentage. */
  datatype Loan = Loan(amount: int, term: int, rate: real, status: LoanStatus, score: Option<int>, account: Option<nat>)

  /** One row of the repayment schedule; it is paid once it has a journal. */
  datatype Installment = Installment(loan: nat, number: int, due: Day, amount: int, journal: Option<nat>)

  /** Idempotency records, under `loan-disburse:` and `loan-repay:`. */
  datatype LoanMark = Disbursement(loan: nat, on: Day) | Repayment(key: string, installment: nat)

  datatype LoanState = LoanState(
    bank: Bank, loans: seq<Loan>, schedule: seq<Installment>, marks: seq<LoanMark>, today: Day)

  datatype LoanError =
    | AmountOutsideRange | NotInReview | NoAccount | LoanAccountNotActive | InstallmentAlreadyPaid | LoanFundsShort
    | BadPayment(payment: Annuity.PaymentError) | LoanPostingRefused(error: BankError)

  const PORTFOLIO := "3100-LOAN-PORTFOLIO"
  const MIN_SCORE := 550

  /** Reference, description and time of the journal that a call posts. */
  datatype Slip = Slip(reference: string, description: string, at: string)

  predicate LoanAccountsExist(s: LoanState) {
    CodesKnown(s.bank) && forall i :: 0 <= i < |s.loans| && s.loans[i].account.Some? ==> s.loans[i].account.value < |s.bank.accounts|
  }

  function LoanPosted(h: Hashing, bank: Bank, lines: seq<Line>, slip: Slip): (Bank, Option<BankError>)
    requires LinesKnown(EnsureAccount(bank.book, PORTFOLIO, "USD").accounts, lines)
  {
    PostLines(h, bank, EnsureAccount(bank.book, PORTFOLIO, "USD"), Posting(slip.reference, slip.description, lines, slip.at, ""))
  }

  // ----- application and approval

  /** `apply_for_loan`; `score` is the credit score that it computes. */
  function Applied(s: LoanState, amount: int, min: int, max: int, term: int, rate: real, score: int, account: Option<nat>): (LoanState, Option<LoanError>) {
    if amount < min || amount > max then (s, Some(AmountOutsideRange))
    else (s.(loans := s.loans + [Loan(amount, term, rate, REVIEW, Some(score), account)]), None)
  }

  predicate IsDisbursed(marks: seq<LoanMark>, i: nat) {
    exists k :: 0 <= k < |marks| && DisbursesLoan(marks[k], i)
  }

  predicate DisbursesLoan(m: LoanMark, i: nat) {
    m.Disbursement? && m.loan == i
  }

  /** The rows of a new schedule, numbered from 1; row `n` is due `n` months after the disbursement. */
  function NewRows(loan: nat, payment: int, today: Day, n: nat): (rows: seq<Installment>)
    ensures |rows| == n
    ensures forall k :: 0 <= k < n ==> rows[k] == Installment(loan, k + 1, AddMonths(today, k + 1), payment, None)
  {
    if n == 0 then [] else NewRows(loan, payment, today, n - 1) + [Installment(loan, n, AddMonths(today, n), payment, None)]
  }

  function LoanAborted(s: LoanState, nextId: nat): LoanState {
    s.(bank := Aborted(s.bank, nextId))
  }

  /** Portfolio up, the borrower's deposit up. */
  function DisbursementLines(account: Account, amount: int): seq<Line> {
    [Line(PORTFOLIO, DEBIT, amount), Line(account.code, CREDIT, amount)]
  }

  /** `disburse`; a disbursed loan is left as it is. */
  function Disbursed(h: Hashing, s: LoanState, i: nat, slip: Slip): (LoanState, Option<LoanError>)
    requires i < |s.loans| && LoanAccountsExist(s)
  {
    var loan := s.loans[i];
    if IsDisbursed(s.marks, i) then (s, None)
    else if loan.account.None? then (s, Some(NoAccount))
    else
      var account := s.bank.accounts[loan.account.value];
      if account.status != CustomerStatus.ACTIVE then (s, Some(LoanAccountNotActive))
      else
        var posted := LoanPosted(h, s.bank, DisbursementLines(account, loan.amount), slip);
        if posted.1.Some? then (s.(bank := posted.0), Some(LoanPostingRefused(posted.1.value)))
        else
          match Annuity.MonthlyPayment(loan.amount, loan.rate, loan.term)
          case Err(e) => (LoanAborted(s, posted.0.book.nextId), Some(BadPayment(e)))
          case Ok(payment) =>
            (s.(bank := posted.0,
                loans := s.loans[i := loan.(status := LoanStatus.ACTIVE)],
                schedule := s.schedule + NewRows(i, payment, s.today, loan.term),
                marks := s.marks + [Disbursement(i, s.today)]), None)
  }

  /** `approve`, which disburses at once. */
  function LoanApproved(h: Hashing, s: LoanState, i: nat, slip: Slip): (LoanState, Option<LoanError>)
    requires i < |s.loans| && LoanAccountsExist(s)
  {
    var loan := s.loans[i];
    if loan.status != REVIEW then (s, Some(NotInReview))
    else if loan.score.None? || loan.score.value < MIN_SCORE then (s.(loans := s.loans[i := loan.(status := REJECTED)]), None)
    else
      var approved := s.(loans := s.loans[i := loan.(status := APPROVED)]);
      var r := Disbursed(h, approved, i, slip);
      if r.1.Some? then (LoanAborted(s, r.0.bank.book.nextId), r.1) else r
  }

  // ----- repayment

  /** The key under which a repayment is recorded: the caller's, or else the installment's own id. */
  function RepayKey(k: nat, key: string): string {
    if key == "" then Json.Digits(k) else key
  }

  function FindRepayment(marks: seq<LoanMark>, key: string): (r: Option<nat>)
    ensures r.Some? <==> exists i :: 0 <= i < |marks| && marks[i].Repayment? && marks[i].key == key
    ensures r.Some? ==> exists i :: 0 <= i < |marks| && marks[i] == Repayment(key, r.value)
  {
    if marks == [] then None
    else if marks[0].Repayment? && marks[0].key == key then Some(marks[0].installment)
    else
      var r := FindRepayment(marks[1..], key);
      assert forall i :: 0 <= i < |marks[1..]| ==> marks[1..][i] == marks[i + 1];
      r
  }

  predicate AllPaid(schedule: seq<Installment>, loan: nat) {
    forall k :: 0 <= k < |schedule| && schedule[k].loan == loan ==> schedule[k].journal.Some?
  }

  /** The borrower's deposit down, portfolio down. */
  function RepaymentLines(account: Account, amount: int): seq<Line> {
    [Line(account.code, DEBIT, amount), Line(PORTFOLIO, CREDIT, amount)]
  }

  /** `repay_installment`; the result is the installment that the key stands for. */
  function Repaid(h: Hashing, s: LoanState, k: nat, key: string, slip: Slip): (LoanState, Result<nat, LoanError>)
    requires k < |s.schedule| && s.schedule[k].loan < |s.loans| && LoanAccountsExist(s)
  {
    var row := s.schedule[k];
    var loan := s.loans[row.loan];
    if FindRepayment(s.marks, RepayKey(k, key)).Some? then (s, Ok(FindRepayment(s.marks, RepayKey(k, key)).value))
    else if row.journal.Some? then (s, Err(InstallmentAlreadyPaid))
    else if loan.account.None? then (s, Err(NoAccount))
    else if Available(s.bank, loan.account.value) < row.amount then (s, Err(LoanFundsShort))
    else
      var account := s.bank.accounts[loan.account.value];
      var posted := LoanPosted(h, s.bank, RepaymentLines(account, row.amount), slip);
      match posted.1
      case Some(e) => (s.(bank := posted.0), Err(LoanPostingRefused(e)))
      case None =>
        var schedule := s.schedule[k := row.(journal := Some(s.bank.book.nextId))];
        (s.(bank := posted.0,
            loans := if AllPaid(schedule, row.loan) then s.loans[row.loan := loan.(status := PAID)] else s.loans,
            schedule := schedule,
            marks := s.marks + [Repayment(RepayKey(k, key), k)]),
         Ok(k))
  }
}
