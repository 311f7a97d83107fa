/**
 A refused call names its reason. The reason is always a true one.
 */
module Refusals {
  import opened Common
  import opened Journals
  import opened Canonical
  import opened Ledger
  import opened LedgerOutcomes
  import opened Banking
  import Cards
  import Loans
  import Calendar

  predicate TransferReason(bank: Bank, actor: Actor, q: TransferRequest, e: BankError) {
    match e
    case InvalidAmount => q.amount <= 0
    case NotFound =>
      || q.source >= |bank.accounts|
      || (q.destination.Some? && q.destination.value >= |bank.accounts|)
      || (q.destination.None? && q.beneficiary.Some?
          && (q.beneficiary.value >= |bank.beneficiaries| || bank.beneficiaries[q.beneficiary.value].owner != actor.id))
    case Forbidden => actor.isCustomer && q.source < |bank.accounts| && bank.accounts[q.source].owner != actor.id
    case NotActive => IsInactive(bank, q.source) || (q.destination.Some? && IsInactive(bank, q.destination.value))
    case CurrencyMismatch => MixesCurrencies(bank, q)
    case BeneficiaryUnverified => q.beneficiary.Some? && q.beneficiary.value < |bank.beneficiaries| && !bank.beneficiaries[q.beneficiary.value].verified
    case TxLimitExceeded => q.source < |bank.accounts| && q.amount > bank.accounts[q.source].txLimit
    case DailyLimitExceeded => q.source < |bank.accounts| && OutflowToday(bank.transfers, q.source, q.now) + q.amount > bank.accounts[q.source].dailyLimit
    case InsufficientFunds => q.source < |bank.accounts| && Available(bank, q.source) < q.amount
    case DuplicateReference => exists t :: t in bank.transfers && t.reference == q.reference
    case _ => false
  }

  predicate IsInactive(bank: Bank, a: nat) {
    a < |bank.accounts| && bank.accounts[a].status != CustomerStatus.ACTIVE
  }

  /** The source is no dollar account, or the other party is in another currency. */
  predicate MixesCurrencies(bank: Bank, q: TransferRequest) {
    && q.source < |bank.accounts|
    && var currency := bank.accounts[q.source].currency;
       || currency != "USD"
       || (q.destination.Some? && q.destination.value < |bank.accounts| && bank.accounts[q.destination.value].currency != currency)
       || (q.destination.None? && q.beneficiary.Some? && q.beneficiary.value < |bank.beneficiaries|
           && bank.beneficiaries[q.beneficiary.value].currency != currency)
  }

  lemma TransferReasonHolds(bank: Bank, actor: Actor, q: TransferRequest)
    ensures TransferProblem(bank, actor, q).Some? ==> TransferReason(bank, actor, q, TransferProblem(bank, actor, q).value)
  {
    hide OutflowToday, Available;
  }

  /** A bill: its reasons, in the terms of the request. */
  lemma BillReasonHolds(h: Hashing, bank: Bank, actor: Actor, q: BillRequest)
    requires CodesKnown(bank)
    ensures var r := BillSettled(h, bank, actor, q).1;
            && (r == Some(NotFound) ==> q.account >= |bank.accounts| || q.bill >= |bank.bills|)
            && (r == Some(Forbidden) ==> actor.isCustomer && q.account < |bank.accounts| && bank.accounts[q.account].owner != actor.id)
            && (r == Some(NotActive) ==> IsInactive(bank, q.account))
            && (r == Some(InsufficientFunds) ==>
                  q.account < |bank.accounts| && q.bill < |bank.bills| && Available(bank, q.account) < bank.bills[q.bill])
            && (r == Some(BillAlreadyPaid) ==> exists p :: p in bank.payments && p.bill == q.bill)
  {
    hide Available, PostedBook, PostProblem;
  }

  /** Drafts and reversed journals are not reversed, and the attempt leaves no trace. */
  lemma ReverseReasonHolds(h: Hashing, book: Book, original: Journal, p: Posting)
    requires LinesKnown(book.accounts, p.lines)
    ensures var r := ReverseProblem(book, original, p);
            && (original.status != POSTED <==> r == Some(NotPosted))
            && (original.status == POSTED && (exists j :: j in book.journals && j.reverses == Some(original.id)) <==> r == Some(AlreadyReversed))
            && (r in {Some(NotPosted), Some(AlreadyReversed)} ==> ReversedBook(h, book, original, p) == book)
  {
    hide PostProblem;
    if j :| j in book.journals && j.reverses == Some(original.id) {
      var i :| 0 <= i < |book.journals| && book.journals[i] == j;
    }
  }

  /** A transfer that is not completed cannot be reversed, and the attempt leaves no trace. */
  lemma ReversalReasonHolds(h: Hashing, bank: Bank, i: nat, at: string)
    requires i < |bank.transfers| && forall j :: j in bank.book.journals ==> LinesKnown(bank.book.accounts, j.lines)
    ensures bank.transfers[i].status != COMPLETED ==> TransferReversed(h, bank, i, at) == (bank, Some(NotReversible))
    ensures TransferReversed(h, bank, i, at).1 == Some(NotReversible) ==>
              bank.transfers[i].status != COMPLETED || bank.transfers[i].journal.None?
  {
  }

  predicate PurchaseReason(s: Cards.CardState, q: Cards.PurchaseRequest, e: Cards.CardError)
    requires q.card < |s.cards| && s.cards[q.card].account < |s.bank.accounts|
  {
    var card := s.cards[q.card];
    match e
    case CardExpired => Calendar.Before(card.expiry, s.today)
    case CardFrozen => card.status == Cards.FROZEN
    case CardNotActive(status) => status == card.status && status !in {Cards.CARD_ACTIVE, Cards.FROZEN}
    case OnlineDisabled => q.online && !card.onlineEnabled
    case InternationalDisabled => q.international && !card.internationalEnabled
    case CardTxLimit => q.amount > card.txLimit
    case CardDailyLimit => Cards.SumSince(s.purchases, q.card, s.today) + q.amount > card.dailyLimit
    case CardAccountNotActive => card.kind == Cards.DEBIT_CARD && IsInactive(s.bank, card.account)
    case CardFundsShort => card.kind == Cards.DEBIT_CARD && Available(s.bank, card.account) < q.amount
    case CreditLimitExceeded => card.kind != Cards.DEBIT_CARD && Cards.RawUsed(s, q.card) + q.amount > card.creditLimit
    case _ => false
  }

  lemma PurchaseReasonHolds(s: Cards.CardState, q: Cards.PurchaseRequest)
    requires q.card < |s.cards| && s.cards[q.card].account < |s.bank.accounts|
    ensures Cards.PurchaseProblem(s, q).Some? ==> PurchaseReason(s, q, Cards.PurchaseProblem(s, q).value)
  {
    hide Available, Cards.SumSince, Cards.RawUsed;
  }

  /** A repayment: its reasons. */
  lemma RepaymentReasonHolds(h: Hashing, s: Loans.LoanState, k: nat, key: string, slip: Loans.Slip)
    requires k < |s.schedule| && s.schedule[k].loan < |s.loans| && Loans.LoanAccountsExist(s)
    ensures var r, row := Loans.Repaid(h, s, k, key, slip).1, s.schedule[k];
            var borrower := s.loans[row.loan].account;
            && (r == Err(Loans.InstallmentAlreadyPaid) ==> row.journal.Some?)
            && (r == Err(Loans.NoAccount) ==> borrower.None?)
            && (r == Err(Loans.LoanFundsShort) ==> borrower.Some? && Available(s.bank, borrower.value) < row.amount)
  {
    hide Available, Loans.LoanPosted, Loans.RepayKey, Loans.FindRepayment;
  }

  predicate PostingReason(book: Book, p: Posting, e: PostError) {
    match e
    case NoPostings => p.lines == []
    case MixedCurrencies =>
      exists l, m :: l in p.lines && m in p.lines && l.account in book.accounts && m.account in book.accounts
                     && book.accounts[l.account].currency != book.accounts[m.account].currency
    case DeclaredCurrencyDiffers =>
      p.declared != "" && exists l :: l in p.lines && l.account in book.accounts && book.accounts[l.account].currency != p.declared
    case ReferenceTaken => exists j :: j in book.journals && j.reference == p.reference
    case AccountNotActive(code) => code in book.accounts && book.accounts[code].status != LedgerStatus.ACTIVE && exists l :: l in p.lines && l.account == code
    case AmountNotPositive => exists l :: l in p.lines && l.amount <= 0
    case Unbalanced => SumSide(p.lines, DEBIT) != SumSide(p.lines, CREDIT)
  }

  lemma {:induction false} LineReason(accounts: Accounts, lines: seq<Line>)
    requires LinesKnown(accounts, lines) && LineProblem(accounts, lines).Some?
    ensures var e := LineProblem(accounts, lines).value;
            match e
            case AccountNotActive(code) =>
              code in accounts && accounts[code].status != LedgerStatus.ACTIVE && exists l :: l in lines && l.account == code
            case AmountNotPositive => exists l :: l in lines && l.amount <= 0
            case _ => false
  {
    assert lines[0] in lines;
    if accounts[lines[0].account].status == LedgerStatus.ACTIVE && lines[0].amount > 0 {
      assert forall l :: l in lines[1..] ==> l in lines;
      LineReason(accounts, lines[1..]);
    }
  }

  lemma PostingReasonHolds(book: Book, p: Posting)
    requires LinesKnown(book.accounts, p.lines)
    ensures PostProblem(book, p).Some? ==> PostingReason(book, p, PostProblem(book, p).value)
  {
    if p.lines != [] {
      assert p.lines[0] in p.lines;
    }
    if LineProblem(book.accounts, p.lines).Some? {
      LineReason(book.accounts, p.lines);
    } else {
      NoLineProblemIff(book.accounts, p.lines);
      if p.lines != [] {
        LedgerOutcomes.SidesNotNegative(p.lines, DEBIT);
      }
    }
  }
}
