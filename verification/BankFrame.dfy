/**
 What the banking services leave alone: a ledger account that is neither a customer's nor one of the three
 settlement accounts keeps its balance through any of their calls. So they are among the things that may
 happen elsewhere between two steps of the lending services.
 */
module BankFrame {
  import opened Common
  import opened Journals
  import opened Canonical
  import opened Ledger
  import opened LedgerRuns
  import opened Accounting
  import opened Banking
  import opened BankRuns
  import opened BankTheorems
  import Loans
  import LoanRuns
  import LoanTheorems

  /** No service of this bank posts to `code`. */
  predicate Outside(bank: Bank, code: string) {
    code !in Codes(bank.accounts) && code !in {CLEARING, FUNDING, PAYMENT_INCOME}
  }

  predicate Unmoved(bank: Bank, v: Bank, code: string) {
    NetOf(v.book.journals, code) == NetOf(bank.book.journals, code) && Codes(v.accounts) == Codes(bank.accounts)
  }

  lemma SameJournals(bank: Bank, v: Bank, code: string)
    requires v.book.journals == bank.book.journals && v.accounts == bank.accounts
    ensures Unmoved(bank, v, code)
  {
  }

  lemma TwoLinesLeave(bank: Bank, v: Bank, lines: seq<Line>, code: string)
    requires |v.book.journals| == |bank.book.journals| + 1 && bank.book.journals <= v.book.journals
    requires v.book.journals[|bank.book.journals|].status == POSTED && v.book.journals[|bank.book.journals|].lines == lines
    requires |lines| == 2 && lines[0].account != code && lines[1].account != code && v.accounts == bank.accounts
    ensures Unmoved(bank, v, code)
  {
    NetAfterAppend(bank.book.journals, v.book.journals, code);
    TwoLines(lines[0], lines[1], code);
    assert lines == [lines[0], lines[1]];
  }

  lemma OtherCode(bank: Bank, a: nat, code: string)
    requires a < |bank.accounts| && Outside(bank, code)
    ensures bank.accounts[a].code != code
  {
    assert Codes(bank.accounts)[a] == bank.accounts[a].code;
  }

  lemma PartyCodes(bank: Bank, t: Transfer, code: string)
    requires PartiesExist(bank, t) && Outside(bank, code)
    ensures TransferLines(bank.accounts, t)[0].account != code && TransferLines(bank.accounts, t)[1].account != code
  {
    OtherCode(bank, t.source, code);
    if t.destination.Some? {
      OtherCode(bank, t.destination.value, code);
    }
  }

  lemma SettledLeaves(h: Hashing, bank: Bank, i: nat, at: string, code: string)
    requires BankOk(h, bank) && i < |bank.transfers| && at != "" && Outside(bank, code)
    ensures CodesKnown(bank) && AllPartiesExist(bank) && Unmoved(bank, Settled(h, bank, i, at).0, code)
  {
    SettledEffect(h, bank, i, at);
    var t, r := bank.transfers[i], Settled(h, bank, i, at);
    PartyCodes(bank, t, code);
    hide BankOk, Settled, Unmoved;
    if r.1.None? {
      TwoLinesLeave(bank, r.0, TransferLines(bank.accounts, t), code);
    } else {
      SameJournals(bank, r.0, code);
    }
  }

  lemma ExecutedLeaves(h: Hashing, bank: Bank, actor: Actor, q: TransferRequest, code: string)
    requires BankOk(h, bank) && AllResting(bank) && q.at != "" && Outside(bank, code)
    ensures CodesKnown(bank) && Unmoved(bank, Executed(h, bank, actor, q).0, code)
  {
    BankOkShape(h, bank);
    if FindTransfer(bank.transfers, q.key).None? && TransferProblem(bank, actor, q).None? {
      AppendRow(h, bank, NewTransfer(q));
      hide BankOk, Settled, TransferProblem;
      SettledLeaves(h, bank.(transfers := bank.transfers + [NewTransfer(q)]), |bank.transfers|, q.at, code);
    }
  }

  lemma ProcessedOneLeaves(h: Hashing, bank: Bank, i: nat, at: string, code: string)
    requires BankOk(h, bank) && i < |bank.transfers| && at != "" && Outside(bank, code)
    ensures CodesKnown(bank) && AllPartiesExist(bank) && Unmoved(bank, ProcessedOne(h, bank, i, at).0, code)
  {
    SettledLeaves(h, bank, i, at, code);
    hide BankOk, Settled;
  }

  lemma {:induction false} ProcessedLeaves(h: Hashing, bank: Bank, i: nat, now: nat, at: string, code: string)
    requires BankOk(h, bank) && at != "" && Outside(bank, code)
    ensures CodesKnown(bank) && AllPartiesExist(bank)
    ensures ProcessedFrom(h, bank, i, now, at).1.None? ==> Unmoved(bank, ProcessedFrom(h, bank, i, now, at).0, code)
    decreases |bank.transfers| - i
  {
    BankOkShape(h, bank);
    SameJournals(bank, bank, code);
    if i < |bank.transfers| {
      hide BankOk, ProcessedOne, NetOf;
      if IsDue(bank.transfers[i], now) {
        ProcessedOneKeepsOk(h, bank, i, at);
        ProcessedOneLeaves(h, bank, i, at, code);
        var one := ProcessedOne(h, bank, i, at);
        if one.1.None? {
          ProcessedLeaves(h, one.0, i + 1, now, at, code);
        }
      } else {
        ProcessedLeaves(h, bank, i + 1, now, at, code);
      }
    }
  }

  lemma ReversedLeaves(h: Hashing, bank: Bank, i: nat, at: string, code: string)
    requires BankOk(h, bank) && i < |bank.transfers| && at != "" && Outside(bank, code)
    ensures forall j :: j in bank.book.journals ==> LinesKnown(bank.book.accounts, j.lines)
    ensures Unmoved(bank, TransferReversed(h, bank, i, at).0, code)
  {
    TransferReversedEffect(h, bank, i, at);
    hide BankOk, TransferReversed;
    var r := TransferReversed(h, bank, i, at);
    if r.1.None? {
      PartyCodes(bank, bank.transfers[i], code);
      TwoLinesLeave(bank, r.0, Mirror(TransferLines(bank.accounts, bank.transfers[i])), code);
    }
  }

  lemma FundedLeaves(h: Hashing, bank: Bank, q: FundingRequest, code: string)
    requires BankOk(h, bank) && q.at != "" && Outside(bank, code)
    ensures CodesKnown(bank) && Unmoved(bank, Funded(h, bank, q).0, code)
  {
    FundedEffect(h, bank, q);
    hide BankOk, Funded;
    var v := Funded(h, bank, q).0;
    if v != Aborted(bank, v.book.nextId) {
      OtherCode(bank, q.account, code);
      TwoLinesLeave(bank, v, FundingLines(bank.accounts[q.account], q.amount), code);
    }
  }

  lemma BillLeaves(h: Hashing, bank: Bank, actor: Actor, q: BillRequest, code: string)
    requires BankOk(h, bank) && q.at != "" && Outside(bank, code)
    ensures CodesKnown(bank) && Unmoved(bank, BillSettled(h, bank, actor, q).0, code)
  {
    BillSettledEffect(h, bank, actor, q);
    hide BankOk, BillSettled;
    var v := BillSettled(h, bank, actor, q).0;
    if v != Aborted(bank, v.book.nextId) {
      OtherCode(bank, q.account, code);
      TwoLinesLeave(bank, v, BillLines(bank.accounts[q.account], bank.bills[q.bill]), code);
    }
  }

  lemma ApprovedLeaves(h: Hashing, bank: Bank, i: nat, at: string, code: string)
    requires BankOk(h, bank) && i < |bank.transfers| && at != ""
    ensures CodesKnown(bank) && AllPartiesExist(bank) && Unmoved(bank, Approved(h, bank, i, at).0, code)
  {
    BankOkShape(h, bank);
    if bank.transfers[i].status == UNDER_REVIEW {
      ApprovalNeverCompletes(h, bank, i, at);
      hide BankOk, Approved;
      SameJournals(bank, Approved(h, bank, i, at).0, code);
    }
  }

  /** No call of a banking service moves an account that is none of its business. */
  lemma StepLeaves(h: Hashing, bank: Bank, step: BankStep, code: string)
    requires BankOk(h, bank) && AllResting(bank) && Ready(bank) && Allowed(bank, step) && Outside(bank, code)
    ensures Unmoved(bank, ApplyBank(h, bank, step), code)
  {
    match step {
      case Execute(actor, q) => ExecutedLeaves(h, bank, actor, q, code);
      case GateBlock(q) => SameJournals(bank, ApplyBank(h, bank, step), code);
      case ProcessDue(now, at) => ProcessedLeaves(h, bank, 0, now, at, code);
      case Approve(i, at) => ApprovedLeaves(h, bank, i, at, code);
      case ReverseRow(i, at) => ReversedLeaves(h, bank, i, at, code);
      case Fund(q) => FundedLeaves(h, bank, q, code);
      case PayBill(actor, q) => BillLeaves(h, bank, actor, q, code);
      case SetCustomerStatus(a, status) => assert Codes(ApplyBank(h, bank, step).accounts) == Codes(bank.accounts);
      case SetLedgerStatus(_, _) => SameJournals(bank, ApplyBank(h, bank, step), code);
    }
  }

  /** Every step of the banking services is one that the runs of the lending services allow in between. */
  lemma BankingIsElsewhere(h: Hashing, s: Loans.LoanState, step: BankStep)
    requires LoanRuns.LoansOk(h, s) && AllResting(s.bank) && Ready(s.bank) && Allowed(s.bank, step)
    ensures LoanTheorems.AllowedLoan(h, s, LoanTheorems.Elsewhere(ApplyBank(h, s.bank, step)))
  {
    BankStepKeepsOk(h, s.bank, step);
    assert Loans.PORTFOLIO !in {CLEARING, FUNDING, PAYMENT_INCOME};
    StepLeaves(h, s.bank, step, Loans.PORTFOLIO);
  }
}
