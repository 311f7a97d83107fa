/**
 Runs of the lending services. `LoansOk` holds in all reachable states; with it, the loan portfolio is what
 was lent minus what was paid back.
 */
module LoanRuns {
  import opened Common
  import opened Journals
  import opened Canonical
  import opened Ledger
  import opened LedgerRuns
  import opened Accounting
  import opened Banking
  import opened BankRuns
  import opened BankTheorems
  import opened Calendar
  import opened Loans
  import Annuity
  import Json

  // ----- sums over rows

  predicate Lent(loan: Loan) {
    loan.status == LoanStatus.ACTIVE || loan.status == PAID
  }

  /** Principal of the disbursed loans. */
  function Principal(loans: seq<Loan>): int {
    if loans == [] then 0
    else Principal(loans[..|loans| - 1]) + (if Lent(loans[|loans| - 1]) then loans[|loans| - 1].amount else 0)
  }

  /** What the paid installments come to. */
  function PaidBack(schedule: seq<Installment>): int {
    if schedule == [] then 0
    else PaidBack(schedule[..|schedule| - 1]) + (if schedule[|schedule| - 1].journal.Some? then schedule[|schedule| - 1].amount else 0)
  }

  /** How many installments a loan has. */
  function RowCount(schedule: seq<Installment>, loan: nat): nat {
    if schedule == [] then 0
    else RowCount(schedule[..|schedule| - 1], loan) + (if schedule[|schedule| - 1].loan == loan then 1 else 0)
  }

  lemma {:induction false} PrincipalUpdated(loans: seq<Loan>, i: nat, loan: Loan)
    requires i < |loans|
    ensures Principal(loans[i := loan])
         == Principal(loans) - (if Lent(loans[i]) then loans[i].amount else 0) + (if Lent(loan) then loan.amount else 0)
  {
    var n := |loans| - 1;
    if i < n {
      assert loans[i := loan][..n] == loans[..n][i := loan];
      PrincipalUpdated(loans[..n], i, loan);
    } else {
      assert loans[i := loan][..n] == loans[..n];
    }
  }

  lemma {:induction false} RowPaid(schedule: seq<Installment>, k: nat, row: Installment, loan: nat)
    requires k < |schedule| && schedule[k].journal.None? && row == schedule[k].(journal := row.journal) && row.journal.Some?
    ensures PaidBack(schedule[k := row]) == PaidBack(schedule) + row.amount
    ensures RowCount(schedule[k := row], loan) == RowCount(schedule, loan)
  {
    var n := |schedule| - 1;
    if k < n {
      assert schedule[k := row][..n] == schedule[..n][k := row];
      RowPaid(schedule[..n], k, row, loan);
    } else {
      assert schedule[k := row][..n] == schedule[..n];
    }
  }

  lemma RowAdded(schedule: seq<Installment>, row: Installment, loan: nat)
    requires row.journal.None?
    ensures PaidBack(schedule + [row]) == PaidBack(schedule)
    ensures RowCount(schedule + [row], loan) == RowCount(schedule, loan) + (if row.loan == loan then 1 else 0)
  {
    assert (schedule + [row])[..|schedule|] == schedule;
  }

  lemma {:induction false} RowsAppended(schedule: seq<Installment>, i: nat, payment: int, today: Day, n: nat, loan: nat)
    ensures PaidBack(schedule + NewRows(i, payment, today, n)) == PaidBack(schedule)
    ensures RowCount(schedule + NewRows(i, payment, today, n), loan) == RowCount(schedule, loan) + (if loan == i then n else 0)
  {
    if n == 0 {
      assert schedule + NewRows(i, payment, today, n) == schedule;
    } else {
      hide PaidBack, RowCount, AddMonths;
      var row := Installment(i, n, AddMonths(today, n), payment, None);
      var before := schedule + NewRows(i, payment, today, n - 1);
      assert schedule + NewRows(i, payment, today, n) == before + [row];
      RowsAppended(schedule, i, payment, today, n - 1, loan);
      RowAdded(before, row, loan);
    }
  }

  // ----- the invariant

  /** The books show exactly the money that is out. */
  predicate PortfolioExplained(s: LoanState) {
    AccountBalance(s.bank.book.journals, PORTFOLIO, ASSET) == Principal(s.loans) - PaidBack(s.schedule)
  }

  /** A loan was disbursed exactly when it is ACTIVE or PAID; its schedule is complete, and it is PAID exactly when that is. */
  predicate LoanOk(s: LoanState, i: nat)
    requires i < |s.loans|
  {
    var loan := s.loans[i];
    && (loan.account.Some? ==> loan.account.value < |s.bank.accounts|)
    && (Lent(loan) <==> IsDisbursed(s.marks, i))
    && (Lent(loan) ==>
          && loan.account.Some? && loan.term >= 1 && RowCount(s.schedule, i) == loan.term
          && Annuity.MonthlyPayment(loan.amount, loan.rate, loan.term).Ok?
          && (loan.status == PAID <==> AllPaid(s.schedule, i)))
    && (!Lent(loan) ==> RowCount(s.schedule, i) == 0)
  }

  /** A row belongs to a disbursed loan and is due the right number of months after its disbursement. */
  predicate RowOk(s: LoanState, k: nat)
    requires k < |s.schedule|
  {
    var row := s.schedule[k];
    && row.loan < |s.loans| && Lent(s.loans[row.loan])
    && 1 <= row.number <= s.loans[row.loan].term
    && Annuity.MonthlyPayment(s.loans[row.loan].amount, s.loans[row.loan].rate, s.loans[row.loan].term) == Ok(row.amount)
    && DatedFrom(s.marks, row)
  }

  predicate DatedFrom(marks: seq<LoanMark>, row: Installment) {
    row.number >= 1 && exists m :: 0 <= m < |marks| && DatesRow(marks[m], row)
  }

  predicate DatesRow(m: LoanMark, row: Installment)
    requires row.number >= 1
  {
    m.Disbursement? && m.loan == row.loan && row.due == AddMonths(m.on, row.number)
  }

  /** Rows of one loan are numbered upwards. */
  predicate RowsOrdered(schedule: seq<Installment>, k: nat, l: nat)
    requires k < |schedule| && l < |schedule|
  {
    schedule[k].loan == schedule[l].loan ==> schedule[k].number < schedule[l].number
  }

  /** Each loan is disbursed once; each installment is settled once, under one key, and then it is paid. */
  predicate MarksDiffer(marks: seq<LoanMark>, m: nat, n: nat)
    requires m < |marks| && n < |marks|
  {
    && (marks[m].Disbursement? && marks[n].Disbursement? ==> marks[m].loan != marks[n].loan)
    && (marks[m].Repayment? && marks[n].Repayment? ==> marks[m].key != marks[n].key && marks[m].installment != marks[n].installment)
  }

  predicate MarkOk(s: LoanState, m: nat)
    requires m < |s.marks|
  {
    match s.marks[m]
    case Disbursement(loan, on) => loan < |s.loans| && NotAfter(on, s.today)
    case Repayment(_, k) => k < |s.schedule| && s.schedule[k].journal.Some?
  }

  ghost predicate RowsOk(s: LoanState) {
    && (forall i: nat :: i < |s.loans| ==> LoanOk(s, i))
    && (forall k: nat :: k < |s.schedule| ==> RowOk(s, k))
    && (forall k: nat, l: nat :: k < l < |s.schedule| ==> RowsOrdered(s.schedule, k, l))
    && (forall m: nat :: m < |s.marks| ==> MarkOk(s, m))
    && (forall m: nat, n: nat :: m < n < |s.marks| ==> MarksDiffer(s.marks, m, n))
  }

  ghost predicate LoansOk(h: Hashing, s: LoanState) {
    && BankOk(h, s.bank) && PORTFOLIO !in Codes(s.bank.accounts)
    && RowsOk(s) && PortfolioExplained(s)
  }

  // ----- the money

  lemma OwnCode(bank: Bank, a: nat)
    requires a < |bank.accounts| && PORTFOLIO !in Codes(bank.accounts)
    ensures bank.accounts[a].code != PORTFOLIO
  {
    assert Codes(bank.accounts)[a] == bank.accounts[a].code;
  }

  /** The bank is sound again, with the same customers, and the portfolio has moved by `change`. */
  ghost predicate BankMoves(h: Hashing, bank: Bank, v: Bank, change: int) {
    && BankOk(h, v) && v.accounts == bank.accounts && v.book.nextId >= bank.book.nextId
    && NetOf(v.book.journals, PORTFOLIO) == NetOf(bank.book.journals, PORTFOLIO) + change
  }

  lemma LoanLinesKnown(h: Hashing, bank: Bank, a: nat, lines: seq<Line>)
    requires BankOk(h, bank) && a < |bank.accounts|
    requires forall l :: l in lines ==> l.account == PORTFOLIO || l.account == bank.accounts[a].code
    ensures LinesKnown(EnsureAccount(bank.book, PORTFOLIO, "USD").accounts, lines)
  {
    BankOkShape(h, bank);
    assert bank.accounts[a] in bank.accounts;
    EnsureKeepsBook(h, bank.book, PORTFOLIO, "USD");
  }

  /** A posting of two lines moves the portfolio by what they say of it, or changes nothing but ids. */
  lemma LoanPosting(h: Hashing, bank: Bank, lines: seq<Line>, change: int, slip: Slip)
    requires BankOk(h, bank) && slip.at != "" && |lines| == 2
    requires LinesKnown(EnsureAccount(bank.book, PORTFOLIO, "USD").accounts, lines)
    requires NetDebit(lines, PORTFOLIO) == change
    ensures var r := LoanPosted(h, bank, lines, slip);
            BankMoves(h, bank, r.0, if r.1.None? then change else 0)
  {
    ServicePosting(h, bank, PORTFOLIO, "USD", Posting(slip.reference, slip.description, lines, slip.at, ""));
    var r := LoanPosted(h, bank, lines, slip);
    BankPayments(h, bank);
    hide LoanPosted, BankOk, NetDebit;
    if r.1.Some? {
      AbortKeepsOk(h, bank, r.0.book.nextId);
    } else {
      UnrelatedKeepsOk(h, bank, r.0);
      NetAfterAppend(bank.book.journals, r.0.book.journals, PORTFOLIO);
    }
  }

  lemma DisbursementPosting(h: Hashing, bank: Bank, a: nat, amount: int, slip: Slip)
    requires BankOk(h, bank) && PORTFOLIO !in Codes(bank.accounts) && a < |bank.accounts| && slip.at != ""
    ensures LinesKnown(EnsureAccount(bank.book, PORTFOLIO, "USD").accounts, DisbursementLines(bank.accounts[a], amount))
    ensures var r := LoanPosted(h, bank, DisbursementLines(bank.accounts[a], amount), slip);
            BankMoves(h, bank, r.0, if r.1.None? then amount else 0)
  {
    hide BankOk, LoanPosted;
    var lines := DisbursementLines(bank.accounts[a], amount);
    OwnCode(bank, a);
    LoanLinesKnown(h, bank, a, lines);
    TwoLines(lines[0], lines[1], PORTFOLIO);
    LoanPosting(h, bank, lines, amount, slip);
  }

  lemma RepaymentPosting(h: Hashing, bank: Bank, a: nat, amount: int, slip: Slip)
    requires BankOk(h, bank) && PORTFOLIO !in Codes(bank.accounts) && a < |bank.accounts| && slip.at != ""
    ensures LinesKnown(EnsureAccount(bank.book, PORTFOLIO, "USD").accounts, RepaymentLines(bank.accounts[a], amount))
    ensures var r := LoanPosted(h, bank, RepaymentLines(bank.accounts[a], amount), slip);
            BankMoves(h, bank, r.0, if r.1.None? then -amount else 0)
  {
    hide BankOk, LoanPosted;
    var lines := RepaymentLines(bank.accounts[a], amount);
    OwnCode(bank, a);
    LoanLinesKnown(h, bank, a, lines);
    TwoLines(lines[0], lines[1], PORTFOLIO);
    LoanPosting(h, bank, lines, -amount, slip);
  }

  // ----- the rows

  lemma MarksGrow(marks: seq<LoanMark>, m: LoanMark, i: nat, row: Installment)
    ensures IsDisbursed(marks + [m], i) <==> IsDisbursed(marks, i) || DisbursesLoan(m, i)
    ensures row.number >= 1 && (DatedFrom(marks, row) || DatesRow(m, row)) ==> DatedFrom(marks + [m], row)
  {
    var all := marks + [m];
    if IsDisbursed(marks, i) {
      var k: nat :| k < |marks| && DisbursesLoan(marks[k], i);
      assert DisbursesLoan(all[k], i);
    }
    if DisbursesLoan(m, i) {
      assert DisbursesLoan(all[|marks|], i);
    }
    if row.number >= 1 && DatedFrom(marks, row) {
      var k: nat :| k < |marks| && DatesRow(marks[k], row);
      assert DatesRow(all[k], row);
    }
    if row.number >= 1 && DatesRow(m, row) {
      assert DatesRow(all[|marks|], row);
    }
  }

  /** A loan that is not lent may become another such loan. */
  lemma StatusChanged(s: LoanState, i: nat, status: LoanStatus)
    requires RowsOk(s) && i < |s.loans| && !Lent(s.loans[i]) && !Lent(s.loans[i].(status := status))
    ensures RowsOk(s.(loans := s.loans[i := s.loans[i].(status := status)]))
  {
    var v := s.(loans := s.loans[i := s.loans[i].(status := status)]);
    forall j: nat | j < |v.loans|
      ensures LoanOk(v, j)
    {
      assert LoanOk(s, j);
    }
    forall k: nat | k < |v.schedule|
      ensures RowOk(v, k)
    {
      assert RowOk(s, k);
    }
    forall m: nat | m < |v.marks|
      ensures MarkOk(v, m)
    {
      assert MarkOk(s, m);
    }
  }

  lemma LoanAppended(s: LoanState, loan: Loan)
    requires RowsOk(s) && !Lent(loan) && (loan.account.Some? ==> loan.account.value < |s.bank.accounts|)
    ensures RowsOk(s.(loans := s.loans + [loan]))
  {
    var v := s.(loans := s.loans + [loan]);
    NewLoanUntouched(s);
    forall j: nat | j < |v.loans|
      ensures LoanOk(v, j)
    {
      assert j < |s.loans| ==> LoanOk(s, j);
    }
    forall k: nat | k < |v.schedule|
      ensures RowOk(v, k)
    {
      assert RowOk(s, k);
    }
    forall m: nat | m < |v.marks|
      ensures MarkOk(v, m)
    {
      assert MarkOk(s, m);
    }
  }

  lemma NewLoanUntouched(s: LoanState)
    requires RowsOk(s)
    ensures !IsDisbursed(s.marks, |s.loans|) && RowCount(s.schedule, |s.loans|) == 0
  {
    forall m | 0 <= m < |s.marks|
      ensures !DisbursesLoan(s.marks[m], |s.loans|)
    {
      assert MarkOk(s, m);
    }
    forall k: nat | k < |s.schedule|
      ensures s.schedule[k].loan != |s.loans|
    {
      assert RowOk(s, k);
    }
    NoRows(s.schedule, |s.loans|);
  }

  lemma {:induction false} NoRows(schedule: seq<Installment>, loan: nat)
    requires forall k: nat :: k < |schedule| ==> schedule[k].loan != loan
    ensures RowCount(schedule, loan) == 0
  {
    if schedule != [] {
      var n := |schedule| - 1;
      assert forall k: nat :: k < n ==> schedule[..n][k] == schedule[k];
      NoRows(schedule[..n], loan);
    }
  }

  /** What a disbursement makes of the rows. */
  function DisbursedRows(s: LoanState, i: nat, payment: int): LoanState
    requires i < |s.loans| && s.loans[i].term >= 0
  {
    s.(loans := s.loans[i := s.loans[i].(status := LoanStatus.ACTIVE)],
       schedule := s.schedule + NewRows(i, payment, s.today, s.loans[i].term),
       marks := s.marks + [Disbursement(i, s.today)])
  }

  predicate CanDisburse(s: LoanState, i: nat, payment: int)
    requires i < |s.loans|
  {
    var loan := s.loans[i];
    !IsDisbursed(s.marks, i) && loan.account.Some? && Annuity.MonthlyPayment(loan.amount, loan.rate, loan.term) == Ok(payment)
  }

  lemma DisbursedLoanOk(s: LoanState, i: nat, payment: int, j: nat)
    requires RowsOk(s) && i < |s.loans| && j < |s.loans| && CanDisburse(s, i, payment)
    ensures LoanOk(DisbursedRows(s, i, payment), j)
  {
    var v, n := DisbursedRows(s, i, payment), s.loans[i].term;
    assert LoanOk(s, j);
    hide IsDisbursed, RowsOk, Annuity.MonthlyPayment;
    MarksGrow(s.marks, Disbursement(i, s.today), j, Installment(i, 1, s.today, 0, None));
    RowsAppended(s.schedule, i, payment, s.today, n, j);
    if j == i {
      assert v.schedule[|s.schedule|] == NewRows(i, payment, s.today, n)[0];
    } else {
      assert AllPaid(v.schedule, j) ==> AllPaid(s.schedule, j) by {
        assert forall k :: 0 <= k < |s.schedule| ==> v.schedule[k] == s.schedule[k];
      }
    }
  }

  lemma DisbursedRowOk(s: LoanState, i: nat, payment: int, k: nat)
    requires RowsOk(s) && i < |s.loans| && CanDisburse(s, i, payment)
    requires k < |DisbursedRows(s, i, payment).schedule|
    ensures RowOk(DisbursedRows(s, i, payment), k)
  {
    var v, n := DisbursedRows(s, i, payment), s.loans[i].term;
    var row := v.schedule[k];
    if k < |s.schedule| {
      assert RowOk(s, k);
      assert LoanOk(s, i);
    } else {
      assert row == NewRows(i, payment, s.today, n)[k - |s.schedule|];
    }
    MarksGrow(s.marks, Disbursement(i, s.today), i, row);
  }

  lemma DisbursedOrdered(s: LoanState, i: nat, payment: int, k: nat, l: nat)
    requires RowsOk(s) && i < |s.loans| && CanDisburse(s, i, payment)
    requires k < l < |DisbursedRows(s, i, payment).schedule|
    ensures RowsOrdered(DisbursedRows(s, i, payment).schedule, k, l)
  {
    var v, n := DisbursedRows(s, i, payment), s.loans[i].term;
    assert LoanOk(s, i);
    assert k < |s.schedule| ==> RowOk(s, k);
    assert l < |s.schedule| ==> RowsOrdered(s.schedule, k, l);
    assert k >= |s.schedule| ==> v.schedule[k] == NewRows(i, payment, s.today, n)[k - |s.schedule|];
    assert l >= |s.schedule| ==> v.schedule[l] == NewRows(i, payment, s.today, n)[l - |s.schedule|];
  }

  lemma DisbursedMarks(s: LoanState, i: nat, payment: int)
    requires RowsOk(s) && i < |s.loans| && CanDisburse(s, i, payment)
    ensures var v := DisbursedRows(s, i, payment);
            && (forall m: nat :: m < |v.marks| ==> MarkOk(v, m))
            && (forall m: nat, n: nat :: m < n < |v.marks| ==> MarksDiffer(v.marks, m, n))
  {
    var v := DisbursedRows(s, i, payment);
    forall m: nat | m < |v.marks|
      ensures MarkOk(v, m)
    {
      assert m < |s.marks| ==> MarkOk(s, m);
    }
    forall m: nat, n: nat | m < n < |v.marks|
      ensures MarksDiffer(v.marks, m, n)
    {
      assert n < |s.marks| ==> MarksDiffer(s.marks, m, n);
      assert !DisbursesLoan(s.marks[m], i);
    }
  }

  lemma DisbursedRowsOk(s: LoanState, i: nat, payment: int)
    requires RowsOk(s) && i < |s.loans| && CanDisburse(s, i, payment)
    ensures RowsOk(DisbursedRows(s, i, payment))
    ensures Principal(DisbursedRows(s, i, payment).loans) == Principal(s.loans) + s.loans[i].amount
    ensures PaidBack(DisbursedRows(s, i, payment).schedule) == PaidBack(s.schedule)
  {
    var v := DisbursedRows(s, i, payment);
    assert LoanOk(s, i);
    PrincipalUpdated(s.loans, i, v.loans[i]);
    RowsAppended(s.schedule, i, payment, s.today, s.loans[i].term, i);
    DisbursedMarks(s, i, payment);
    forall j: nat | j < |v.loans|
      ensures LoanOk(v, j)
    {
      DisbursedLoanOk(s, i, payment, j);
    }
    forall k: nat | k < |v.schedule|
      ensures RowOk(v, k)
    {
      DisbursedRowOk(s, i, payment, k);
    }
    forall k: nat, l: nat | k < l < |v.schedule|
      ensures RowsOrdered(v.schedule, k, l)
    {
      DisbursedOrdered(s, i, payment, k, l);
    }
  }

  /** What a repayment makes of the rows. */
  function RepaidRows(s: LoanState, k: nat, key: string, journal: nat): LoanState
    requires k < |s.schedule| && s.schedule[k].loan < |s.loans|
  {
    var row := s.schedule[k];
    var schedule := s.schedule[k := row.(journal := Some(journal))];
    s.(loans := if AllPaid(schedule, row.loan) then s.loans[row.loan := s.loans[row.loan].(status := PAID)] else s.loans,
       schedule := schedule,
       marks := s.marks + [Repayment(key, k)])
  }

  lemma RepaidRowsOk(s: LoanState, k: nat, key: string, journal: nat)
    requires RowsOk(s) && k < |s.schedule| && s.schedule[k].loan < |s.loans|
    requires s.schedule[k].journal.None? && FindRepayment(s.marks, key).None?
    ensures RowsOk(RepaidRows(s, k, key, journal))
    ensures Principal(RepaidRows(s, k, key, journal).loans) == Principal(s.loans)
    ensures PaidBack(RepaidRows(s, k, key, journal).schedule) == PaidBack(s.schedule) + s.schedule[k].amount
  {
    var v, row := RepaidRows(s, k, key, journal), s.schedule[k];
    assert RowOk(s, k);
    RowPaid(s.schedule, k, v.schedule[k], row.loan);
    PrincipalUpdated(s.loans, row.loan, v.loans[row.loan]);
    forall j: nat | j < |v.loans|
      ensures LoanOk(v, j)
    {
      RepaidLoanOk(s, k, key, journal, j);
    }
    forall l: nat | l < |v.schedule|
      ensures RowOk(v, l)
    {
      assert RowOk(s, l);
      MarksGrow(s.marks, Repayment(key, k), 0, v.schedule[l]);
      SameDates(s.marks + [Repayment(key, k)], s.schedule[l], v.schedule[l]);
      MarksGrow(s.marks, Repayment(key, k), 0, s.schedule[l]);
    }
    forall l: nat, n: nat | l < n < |v.schedule|
      ensures RowsOrdered(v.schedule, l, n)
    {
      assert RowsOrdered(s.schedule, l, n);
    }
    RepaidMarks(s, k, key, journal);
  }

  lemma SameDates(marks: seq<LoanMark>, a: Installment, b: Installment)
    requires b == a.(journal := b.journal) && DatedFrom(marks, a)
    ensures DatedFrom(marks, b)
  {
    var m :| 0 <= m < |marks| && DatesRow(marks[m], a);
    assert DatesRow(marks[m], b);
  }

  lemma RepaidLoanOk(s: LoanState, k: nat, key: string, journal: nat, j: nat)
    requires RowsOk(s) && k < |s.schedule| && s.schedule[k].loan < |s.loans| && j < |s.loans|
    requires s.schedule[k].journal.None?
    ensures LoanOk(RepaidRows(s, k, key, journal), j)
  {
    var v, row := RepaidRows(s, k, key, journal), s.schedule[k];
    assert LoanOk(s, j) && RowOk(s, k);
    hide IsDisbursed, RowsOk, Annuity.MonthlyPayment;
    MarksGrow(s.marks, Repayment(key, k), j, Installment(0, 1, s.today, 0, None));
    RowPaid(s.schedule, k, v.schedule[k], j);
    if j != row.loan {
      assert AllPaid(v.schedule, j) <==> AllPaid(s.schedule, j) by {
        OthersPaid(s.schedule, k, v.schedule[k], j);
      }
    }
  }

  lemma OthersPaid(schedule: seq<Installment>, k: nat, row: Installment, loan: nat)
    requires k < |schedule| && row.loan == schedule[k].loan != loan
    ensures AllPaid(schedule[k := row], loan) <==> AllPaid(schedule, loan)
  {
    var v := schedule[k := row];
    if AllPaid(v, loan) {
      forall l | 0 <= l < |schedule| && schedule[l].loan == loan
        ensures schedule[l].journal.Some?
      {
        assert v[l].loan == loan;
      }
    }
  }

  lemma RepaidMarks(s: LoanState, k: nat, key: string, journal: nat)
    requires RowsOk(s) && k < |s.schedule| && s.schedule[k].loan < |s.loans|
    requires s.schedule[k].journal.None? && FindRepayment(s.marks, key).None?
    ensures var v := RepaidRows(s, k, key, journal);
            && (forall m: nat :: m < |v.marks| ==> MarkOk(v, m))
            && (forall m: nat, n: nat :: m < n < |v.marks| ==> MarksDiffer(v.marks, m, n))
  {
    var v := RepaidRows(s, k, key, journal);
    forall m: nat | m < |v.marks|
      ensures MarkOk(v, m)
    {
      assert m < |s.marks| ==> MarkOk(s, m);
    }
    forall m: nat, n: nat | m < n < |v.marks|
      ensures MarksDiffer(v.marks, m, n)
    {
      assert MarkOk(s, m);
      assert n < |s.marks| ==> MarksDiffer(s.marks, m, n);
    }
  }
}
