/**
 Results about whole runs of the lending services: conservation of the loan book, one disbursement per loan
 and one settlement per installment, the schedule, and what an idempotency key stands for.
 */
module LoanTheorems {
  import opened Common
  import opened Journals
  import opened Canonical
  import opened Ledger
  import opened LedgerRuns
  import opened Accounting
  import opened Banking
  import opened BankRuns
  import opened Calendar
  import opened Loans
  import opened LoanRuns
  import Annuity
  import Json

  // ----- steps

  datatype LoanStep =
    | ApplyFor(amount: int, min: int, max: int, term: int, rate: real, score: int, account: Option<nat>)
    | Approve(loan: nat, slip: Slip)
    | Disburse(loan: nat, slip: Slip)
    | Repay(installment: nat, key: string, slip: Slip)
    | Elsewhere(bank: Bank)
    | NewDate(date: Day)

  /**
   Callers pass existing rows, accounts and a posting time; the clock moves forward; and the other services
   may do to the bank whatever keeps it sound and leaves the portfolio account alone.
   */
  ghost predicate AllowedLoan(h: Hashing, s: LoanState, step: LoanStep) {
    match step
    case ApplyFor(_, _, _, _, _, _, account) => account.Some? ==> account.value < |s.bank.accounts|
    case Approve(i, slip) => i < |s.loans| && slip.at != ""
    case Disburse(i, slip) => i < |s.loans| && slip.at != ""
    case Repay(k, _, slip) => k < |s.schedule| && slip.at != ""
    case Elsewhere(bank) => BankOk(h, bank) && Codes(bank.accounts) == Codes(s.bank.accounts)
                            && NetOf(bank.book.journals, PORTFOLIO) == NetOf(s.bank.book.journals, PORTFOLIO)
    case NewDate(date) => NotAfter(s.today, date)
  }

  predicate LoanReady(s: LoanState) {
    LoanAccountsExist(s) && forall k :: 0 <= k < |s.schedule| ==> s.schedule[k].loan < |s.loans|
  }

  ghost function ApplyLoan(h: Hashing, s: LoanState, step: LoanStep): LoanState
    requires LoanReady(s) && AllowedLoan(h, s, step)
  {
    match step
    case ApplyFor(amount, min, max, term, rate, score, account) => Applied(s, amount, min, max, term, rate, score, account).0
    case Approve(i, slip) => LoanApproved(h, s, i, slip).0
    case Disburse(i, slip) => Disbursed(h, s, i, slip).0
    case Repay(k, key, slip) => Repaid(h, s, k, key, slip).0
    case Elsewhere(bank) => s.(bank := bank)
    case NewDate(date) => s.(today := date)
  }

  ghost function LoanAfter(h: Hashing, s: LoanState, steps: seq<LoanStep>): LoanState
    decreases |steps|
  {
    if steps == [] then s
    else LoanAfter(h, if LoanReady(s) && AllowedLoan(h, s, steps[0]) then ApplyLoan(h, s, steps[0]) else s, steps[1..])
  }

  // ----- steps keep the invariant

  lemma ReadyLoans(h: Hashing, s: LoanState)
    requires LoansOk(h, s)
    ensures LoanReady(s)
  {
    BankOkShape(h, s.bank);
    forall i | 0 <= i < |s.loans| && s.loans[i].account.Some?
      ensures s.loans[i].account.value < |s.bank.accounts|
    {
      assert LoanOk(s, i);
    }
    forall k | 0 <= k < |s.schedule|
      ensures s.schedule[k].loan < |s.loans|
    {
      assert RowOk(s, k);
    }
  }

  /** The rows do not care which bank they stand beside, as long as it has the same number of accounts. */
  lemma SameRowsOk(s: LoanState, v: LoanState)
    requires RowsOk(s) && v == s.(bank := v.bank, today := v.today) && |v.bank.accounts| == |s.bank.accounts|
    requires NotAfter(s.today, v.today)
    ensures RowsOk(v)
  {
    forall i: nat | i < |v.loans|
      ensures LoanOk(v, i)
    {
      assert LoanOk(s, i);
    }
    forall k: nat | k < |v.schedule|
      ensures RowOk(v, k)
    {
      assert RowOk(s, k);
    }
    forall m: nat | m < |v.marks|
      ensures MarkOk(v, m)
    {
      assert MarkOk(s, m);
    }
  }

  lemma BankChanged(h: Hashing, s: LoanState, bank: Bank)
    requires LoansOk(h, s) && BankOk(h, bank) && Codes(bank.accounts) == Codes(s.bank.accounts)
    requires NetOf(bank.book.journals, PORTFOLIO) == NetOf(s.bank.book.journals, PORTFOLIO)
    ensures LoansOk(h, s.(bank := bank))
  {
    hide BankOk;
    SameRowsOk(s, s.(bank := bank));
  }

  lemma AbortMovesNothing(h: Hashing, bank: Bank, nextId: nat)
    requires BankOk(h, bank) && nextId >= bank.book.nextId
    ensures BankMoves(h, bank, Aborted(bank, nextId), 0)
  {
    AbortKeepsOk(h, bank, nextId);
  }

  /** The rows have changed to those of `v`, and the portfolio with them. */
  lemma RowsAndBank(h: Hashing, s: LoanState, v: LoanState, bank: Bank, change: int)
    requires LoansOk(h, s) && RowsOk(v) && v.bank == s.bank && BankMoves(h, s.bank, bank, change)
    requires Principal(v.loans) - PaidBack(v.schedule) == Principal(s.loans) - PaidBack(s.schedule) + change
    ensures LoansOk(h, v.(bank := bank))
  {
    hide BankOk, RowsOk, Principal, PaidBack;
    SameRowsOk(v, v.(bank := bank));
  }

  /** A disbursement brings its rows and moves the portfolio up by the principal, or it changes no row. */
  lemma DisbursedShape(h: Hashing, s: LoanState, i: nat, slip: Slip)
    requires BankOk(h, s.bank) && PORTFOLIO !in Codes(s.bank.accounts) && LoanReady(s) && i < |s.loans| && slip.at != ""
    ensures var r := Disbursed(h, s, i, slip);
            var payment := Annuity.MonthlyPayment(s.loans[i].amount, s.loans[i].rate, s.loans[i].term);
            || (r.0 == s.(bank := r.0.bank) && BankMoves(h, s.bank, r.0.bank, 0))
            || (&& payment.Ok? && CanDisburse(s, i, payment.value) && s.loans[i].term > 0
                && r.0 == DisbursedRows(s, i, payment.value).(bank := r.0.bank)
                && BankMoves(h, s.bank, r.0.bank, s.loans[i].amount))
  {
    hide LoanPosted, BankOk, IsDisbursed;
    AbortMovesNothing(h, s.bank, s.bank.book.nextId);
    var loan := s.loans[i];
    if !IsDisbursed(s.marks, i) && loan.account.Some? {
      DisbursementPosting(h, s.bank, loan.account.value, loan.amount, slip);
      var posted := LoanPosted(h, s.bank, DisbursementLines(s.bank.accounts[loan.account.value], loan.amount), slip);
      AbortMovesNothing(h, s.bank, posted.0.book.nextId);
    }
  }

  lemma DisbursedKeepsOk(h: Hashing, s: LoanState, i: nat, slip: Slip)
    requires LoansOk(h, s) && i < |s.loans| && slip.at != ""
    ensures LoanReady(s) && LoansOk(h, Disbursed(h, s, i, slip).0)
    ensures Disbursed(h, s, i, slip).0.bank.book.nextId >= s.bank.book.nextId
  {
    ReadyLoans(h, s);
    DisbursedShape(h, s, i, slip);
    hide Disbursed, BankOk, RowsOk, CanDisburse, DisbursedRows, Annuity.MonthlyPayment;
    var v := Disbursed(h, s, i, slip).0;
    if v == s.(bank := v.bank) {
      BankChanged(h, s, v.bank);
    } else {
      var payment := Annuity.MonthlyPayment(s.loans[i].amount, s.loans[i].rate, s.loans[i].term).value;
      DisbursedRowsOk(s, i, payment);
      SameBank(s, i, payment);
      RowsAndBank(h, s, DisbursedRows(s, i, payment), v.bank, s.loans[i].amount);
    }
  }

  lemma SameBank(s: LoanState, i: nat, payment: int)
    requires i < |s.loans| && s.loans[i].term >= 0
    ensures DisbursedRows(s, i, payment).bank == s.bank
  {
  }

  lemma LoanAbortOk(h: Hashing, s: LoanState, nextId: nat)
    requires LoansOk(h, s) && nextId >= s.bank.book.nextId
    ensures LoansOk(h, LoanAborted(s, nextId))
  {
    AbortKeepsOk(h, s.bank, nextId);
    hide BankOk;
    BankChanged(h, s, Aborted(s.bank, nextId));
  }

  lemma ApprovedKeepsLoans(h: Hashing, s: LoanState, i: nat, slip: Slip)
    requires LoansOk(h, s) && i < |s.loans| && slip.at != ""
    ensures LoanReady(s) && LoansOk(h, LoanApproved(h, s, i, slip).0)
  {
    ReadyLoans(h, s);
    var loan := s.loans[i];
    hide BankOk, RowsOk, Disbursed;
    if loan.status == REVIEW {
      StatusKeepsOk(h, s, i, REJECTED);
      StatusKeepsOk(h, s, i, APPROVED);
      var approved := s.(loans := s.loans[i := loan.(status := APPROVED)]);
      DisbursedKeepsOk(h, approved, i, slip);
      LoanAbortOk(h, s, Disbursed(h, approved, i, slip).0.bank.book.nextId);
    }
  }

  lemma StatusKeepsOk(h: Hashing, s: LoanState, i: nat, status: LoanStatus)
    requires LoansOk(h, s) && i < |s.loans| && s.loans[i].status == REVIEW && status in {REJECTED, APPROVED}
    ensures LoansOk(h, s.(loans := s.loans[i := s.loans[i].(status := status)]))
  {
    StatusChanged(s, i, status);
    hide BankOk, RowsOk;
    PrincipalUpdated(s.loans, i, s.loans[i].(status := status));
  }

  lemma AppliedKeepsOk(h: Hashing, s: LoanState, loan: Loan)
    requires LoansOk(h, s) && !Lent(loan) && (loan.account.Some? ==> loan.account.value < |s.bank.accounts|)
    ensures LoansOk(h, s.(loans := s.loans + [loan]))
  {
    LoanAppended(s, loan);
    hide BankOk, RowsOk;
    assert (s.loans + [loan])[..|s.loans|] == s.loans;
  }

  /** A repayment marks its row and moves the portfolio down by the installment, or it changes no row. */
  lemma RepaidShape(h: Hashing, s: LoanState, k: nat, key: string, slip: Slip)
    requires BankOk(h, s.bank) && PORTFOLIO !in Codes(s.bank.accounts) && LoanReady(s) && k < |s.schedule| && slip.at != ""
    ensures var r := Repaid(h, s, k, key, slip);
            || (r.0 == s.(bank := r.0.bank) && BankMoves(h, s.bank, r.0.bank, 0))
            || (&& s.schedule[k].journal.None? && FindRepayment(s.marks, RepayKey(k, key)).None?
                && r.0 == RepaidRows(s, k, RepayKey(k, key), s.bank.book.nextId).(bank := r.0.bank)
                && BankMoves(h, s.bank, r.0.bank, -s.schedule[k].amount))
  {
    hide LoanPosted, BankOk, FindRepayment, AllPaid, RepayKey;
    AbortMovesNothing(h, s.bank, s.bank.book.nextId);
    var row := s.schedule[k];
    var loan := s.loans[row.loan];
    if loan.account.Some? {
      RepaymentPosting(h, s.bank, loan.account.value, row.amount, slip);
    }
  }

  lemma RepaidKeepsOk(h: Hashing, s: LoanState, k: nat, key: string, slip: Slip)
    requires LoansOk(h, s) && k < |s.schedule| && slip.at != ""
    ensures LoanReady(s) && LoansOk(h, Repaid(h, s, k, key, slip).0)
  {
    ReadyLoans(h, s);
    RepaidShape(h, s, k, key, slip);
    hide Repaid, BankOk, RowsOk, RepayKey, AllPaid, FindRepayment;
    var v := Repaid(h, s, k, key, slip).0;
    if v == s.(bank := v.bank) {
      BankChanged(h, s, v.bank);
    } else {
      RepaidRowsOk(s, k, RepayKey(k, key), s.bank.book.nextId);
      RowsAndBank(h, s, RepaidRows(s, k, RepayKey(k, key), s.bank.book.nextId), v.bank, -s.schedule[k].amount);
    }
  }

  lemma LoanStepKeepsOk(h: Hashing, s: LoanState, step: LoanStep)
    requires LoansOk(h, s) && AllowedLoan(h, s, step)
    ensures LoanReady(s) && LoansOk(h, ApplyLoan(h, s, step))
  {
    ReadyLoans(h, s);
    hide LoansOk, Disbursed, LoanApproved, Repaid;
    match step {
      case ApplyFor(amount, min, max, term, rate, score, account) =>
        AppliedKeepsOk(h, s, Loan(amount, term, rate, REVIEW, Some(score), account));
      case Approve(i, slip) => ApprovedKeepsLoans(h, s, i, slip);
      case Disburse(i, slip) => DisbursedKeepsOk(h, s, i, slip);
      case Repay(k, key, slip) => RepaidKeepsOk(h, s, k, key, slip);
      case Elsewhere(bank) => BankChanged(h, s, bank);
      case NewDate(date) => DateKeepsOk(h, s, date);
    }
  }

  lemma DateKeepsOk(h: Hashing, s: LoanState, date: Day)
    requires LoansOk(h, s) && NotAfter(s.today, date)
    ensures LoansOk(h, s.(today := date))
  {
    hide BankOk;
    SameRowsOk(s, s.(today := date));
  }

  // ----- the theorems

  /**
   In every reachable state the portfolio balance is the principal of the disbursed loans minus the paid
   installments; a loan is disbursed exactly when it is ACTIVE or PAID, and PAID exactly when all its
   installments, as many as it has months, are paid.
   */
  lemma {:induction false} LoanBookConserved(h: Hashing, s: LoanState, steps: seq<LoanStep>)
    requires LoansOk(h, s)
    ensures LoansOk(h, LoanAfter(h, s, steps))
    decreases |steps|
  {
    ReadyLoans(h, s);
    hide LoansOk, ApplyLoan;
    if steps != [] {
      if AllowedLoan(h, s, steps[0]) {
        LoanStepKeepsOk(h, s, steps[0]);
        LoanBookConserved(h, ApplyLoan(h, s, steps[0]), steps[1..]);
      } else {
        LoanBookConserved(h, s, steps[1..]);
      }
    }
  }

  /** Before the first loan, with nothing on the portfolio account, the invariant holds. */
  lemma NoLoansYet(h: Hashing, bank: Bank, today: Day)
    requires BankOk(h, bank) && PORTFOLIO !in Codes(bank.accounts) && NetOf(bank.book.journals, PORTFOLIO) == 0
    ensures LoansOk(h, LoanState(bank, [], [], [], today))
  {
  }

  lemma {:induction false} CountWithin(schedule: seq<Installment>, loan: nat, lo: int, hi: int)
    requires forall k: nat :: k < |schedule| && schedule[k].loan == loan ==> lo <= schedule[k].number <= hi
    requires forall k: nat, l: nat :: k < l < |schedule| ==> RowsOrdered(schedule, k, l)
    requires lo <= hi + 1
    ensures RowCount(schedule, loan) <= hi - lo + 1
    decreases |schedule|
  {
    if schedule != [] {
      var n := |schedule| - 1;
      var rest := schedule[..n];
      assert forall k: nat :: k < n ==> rest[k] == schedule[k];
      forall k: nat, l: nat | k < l < n
        ensures RowsOrdered(rest, k, l)
      {
        assert RowsOrdered(schedule, k, l);
      }
      if schedule[n].loan == loan {
        forall k: nat | k < n && rest[k].loan == loan
          ensures rest[k].number <= schedule[n].number - 1
        {
          assert RowsOrdered(schedule, k, n);
        }
        CountWithin(rest, loan, lo, schedule[n].number - 1);
      } else {
        CountWithin(rest, loan, lo, hi);
      }
    }
  }

  /** Has the loan an installment with this number? */
  predicate HasNumber(schedule: seq<Installment>, loan: nat, number: int) {
    exists k: nat :: k < |schedule| && schedule[k].loan == loan && schedule[k].number == number
  }

  lemma {:induction false} GapCosts(schedule: seq<Installment>, loan: nat, lo: int, hi: int, gap: int)
    requires forall k: nat :: k < |schedule| && schedule[k].loan == loan ==> lo <= schedule[k].number <= hi
    requires forall k: nat, l: nat :: k < l < |schedule| ==> RowsOrdered(schedule, k, l)
    requires lo <= gap <= hi && !HasNumber(schedule, loan, gap)
    ensures RowCount(schedule, loan) <= hi - lo
    decreases |schedule|
  {
    if schedule != [] {
      var n := |schedule| - 1;
      var rest := schedule[..n];
      assert forall k: nat :: k < n ==> rest[k] == schedule[k];
      forall k: nat, l: nat | k < l < n
        ensures RowsOrdered(rest, k, l)
      {
        assert RowsOrdered(schedule, k, l);
      }
      if schedule[n].loan == loan {
        forall k: nat | k < n && rest[k].loan == loan
          ensures rest[k].number <= schedule[n].number - 1
        {
          assert RowsOrdered(schedule, k, n);
        }
        if gap < schedule[n].number {
          GapCosts(rest, loan, lo, schedule[n].number - 1, gap);
        } else {
          CountWithin(rest, loan, lo, schedule[n].number - 1);
        }
      } else {
        GapCosts(rest, loan, lo, hi, gap);
      }
    }
  }

  /** A disbursed loan's schedule has every installment from 1 to its term. */
  lemma ScheduleIsComplete(s: LoanState, i: nat, number: int)
    requires RowsOk(s) && i < |s.loans| && Lent(s.loans[i]) && 1 <= number <= s.loans[i].term
    ensures HasNumber(s.schedule, i, number)
  {
    assert LoanOk(s, i);
    forall k: nat | k < |s.schedule| && s.schedule[k].loan == i
      ensures 1 <= s.schedule[k].number <= s.loans[i].term
    {
      assert RowOk(s, k);
    }
    if !HasNumber(s.schedule, i, number) {
      GapCosts(s.schedule, i, 1, s.loans[i].term, number);
    }
  }

  /** Installments of one loan are counted from one day and fall due strictly later and later. */
  lemma DueDatesIncrease(s: LoanState, k: nat, l: nat)
    requires RowsOk(s) && k < l < |s.schedule| && s.schedule[k].loan == s.schedule[l].loan
    ensures Before(s.schedule[k].due, s.schedule[l].due) && s.schedule[k].number < s.schedule[l].number
    ensures MonthIndex(s.schedule[l].due) - MonthIndex(s.schedule[k].due) == s.schedule[l].number - s.schedule[k].number
    ensures s.schedule[k].amount == s.schedule[l].amount
  {
    assert RowOk(s, k) && RowOk(s, l) && RowsOrdered(s.schedule, k, l);
    var start := OneStart(s, k, l);
    hide *;
    AddMonthsCorrect(start, s.schedule[k].number, s.schedule[l].number);
    AddMonthsCorrect(start, s.schedule[l].number, s.schedule[l].number);
  }

  lemma OneStart(s: LoanState, k: nat, l: nat) returns (start: Day)
    requires RowsOk(s) && k < |s.schedule| && l < |s.schedule| && s.schedule[k].loan == s.schedule[l].loan
    ensures s.schedule[k].number >= 1 && s.schedule[l].number >= 1
    ensures s.schedule[k].due == AddMonths(start, s.schedule[k].number)
    ensures s.schedule[l].due == AddMonths(start, s.schedule[l].number)
  {
    assert RowOk(s, k) && RowOk(s, l);
    var m: nat :| m < |s.marks| && DatesRow(s.marks[m], s.schedule[k]);
    var n: nat :| n < |s.marks| && DatesRow(s.marks[n], s.schedule[l]);
    hide AddMonths, Annuity.MonthlyPayment;
    assert m < n ==> MarksDiffer(s.marks, m, n);
    assert n < m ==> MarksDiffer(s.marks, n, m);
    start := s.marks[m].on;
  }

  // ----- settled once

  /** Later, an installment is the same; if it was paid, with the same journal. */
  predicate StaysPaid(r: Installment, u: Installment) {
    u == r.(journal := u.journal) && (r.journal.Some? ==> u.journal == r.journal)
  }

  ghost predicate RowsStayPaid(a: seq<Installment>, b: seq<Installment>) {
    |a| <= |b| && forall k: nat :: k < |a| ==> StaysPaid(a[k], b[k])
  }

  lemma StepStaysPaid(h: Hashing, s: LoanState, step: LoanStep)
    requires LoanReady(s) && AllowedLoan(h, s, step)
    ensures RowsStayPaid(s.schedule, ApplyLoan(h, s, step).schedule)
  {
    hide LoanPosted, AllPaid, BankOk, IsDisbursed, Annuity.MonthlyPayment;
  }

  /** A paid installment stays paid, by the journal that paid it, whatever is called afterwards. */
  lemma {:induction false} PaidOnce(h: Hashing, s: LoanState, steps: seq<LoanStep>)
    requires LoansOk(h, s)
    ensures RowsStayPaid(s.schedule, LoanAfter(h, s, steps).schedule)
    decreases |steps|
  {
    ReadyLoans(h, s);
    hide LoansOk, ApplyLoan;
    if steps != [] {
      if AllowedLoan(h, s, steps[0]) {
        var v := ApplyLoan(h, s, steps[0]);
        LoanStepKeepsOk(h, s, steps[0]);
        StepStaysPaid(h, s, steps[0]);
        PaidOnce(h, v, steps[1..]);
        StaysPaidOn(s.schedule, v.schedule, LoanAfter(h, v, steps[1..]).schedule);
      } else {
        PaidOnce(h, s, steps[1..]);
      }
    }
  }

  lemma StaysPaidOn(a: seq<Installment>, b: seq<Installment>, c: seq<Installment>)
    requires RowsStayPaid(a, b) && RowsStayPaid(b, c)
    ensures RowsStayPaid(a, c)
  {
    forall k: nat | k < |a|
      ensures StaysPaid(a[k], c[k])
    {
      assert StaysPaid(a[k], b[k]) && StaysPaid(b[k], c[k]);
    }
  }

  // ----- idempotency keys

  /**
   A repayment call that reports success has paid its own installment exactly when its key had not been used
   for another one: a known key replays the installment that it stands for and moves no money.
   */
  lemma SuccessMeansPaid(h: Hashing, s: LoanState, k: nat, key: string, slip: Slip)
    requires LoansOk(h, s) && k < |s.schedule| && slip.at != ""
    ensures LoanReady(s)
    ensures var r, used := Repaid(h, s, k, key, slip), FindRepayment(s.marks, RepayKey(k, key));
            r.1.Ok? ==>
              && (used.Some? ==> r == (s, Ok(used.value)))
              && (s.schedule[k].journal.None? ==> (r.0.schedule[k].journal.Some? <==> used.None?))
              && (r.1.value == k ==> r.0.schedule[k].journal.Some?)
  {
    ReadyLoans(h, s);
    var used := FindRepayment(s.marks, RepayKey(k, key));
    if used.Some? {
      var m: nat :| m < |s.marks| && s.marks[m] == Repayment(RepayKey(k, key), used.value);
      assert MarkOk(s, m);
    }
    hide LoanPosted;
  }

  /**
   Keys given by callers share a name space with installment ids: once some installment has been paid under
   the digits of another one's id, repaying that other one without a key reports success and pays nothing.
   */
  lemma DigitsKeyBlocks(h: Hashing, s: LoanState, k: nat, other: nat, slip: Slip, again: Slip)
    requires LoansOk(h, s) && k < |s.schedule| && other < |s.schedule| && k != other && slip.at != "" && again.at != ""
    requires s.schedule[other].journal.None? && FindRepayment(s.marks, Json.Digits(other)).None?
    ensures LoanReady(s)
    ensures var first := Repaid(h, s, k, Json.Digits(other), slip);
            LoanReady(first.0) && (first.1.Ok? ==>
              && Repaid(h, first.0, other, "", again) == (first.0, Ok(k))
              && first.0.schedule[other].journal.None?)
  {
    ReadyLoans(h, s);
    RepaidKeepsOk(h, s, k, Json.Digits(other), slip);
    var first := Repaid(h, s, k, Json.Digits(other), slip);
    ReadyLoans(h, first.0);
    Json.DigitsAreDigits(other);
    if first.1.Ok? {
      hide LoanPosted, LoansOk, Json.Digits;
      KeyFound(h, first.0, Json.Digits(other), k, |s.marks|);
    }
  }

  lemma KeyFound(h: Hashing, s: LoanState, key: string, k: nat, m: nat)
    requires LoansOk(h, s) && m < |s.marks| && s.marks[m] == Repayment(key, k)
    ensures FindRepayment(s.marks, key) == Some(k)
  {
    var found := FindRepayment(s.marks, key);
    var n: nat :| n < |s.marks| && s.marks[n] == Repayment(key, found.value);
    assert m < n ==> MarksDiffer(s.marks, m, n);
    assert n < m ==> MarksDiffer(s.marks, n, m);
  }
}
