/**
 The money services as they run: each method reads and updates the tables step by step, rolls back when
 it has to, and ends in the state that its specification function in `Banking` gives.
 */
module TransferServices {
  import opened Common
  import opened Journals
  import opened Canonical
  import opened Ledger
  import opened Accounting
  import opened Banking

  class TransferService {
    const ledger: LedgerService
    const beneficiaries: seq<Beneficiary>
    const bills: seq<int>
    var accounts: seq<Account>
    var transfers: seq<Transfer>
    var payments: seq<Payment>
    var records: seq<Record>

    constructor (ledger: LedgerService, accounts: seq<Account>, beneficiaries: seq<Beneficiary>, bills: seq<int>)
      ensures this.ledger == ledger
      ensures State() == Bank(ledger.State(), accounts, beneficiaries, bills, [], [], [])
    {
      this.ledger, this.accounts, this.beneficiaries, this.bills := ledger, accounts, beneficiaries, bills;
      transfers, payments, records := [], [], [];
    }

    function State(): Bank
      reads this, ledger
    {
      Bank(ledger.State(), accounts, beneficiaries, bills, transfers, payments, records)
    }

    /** Leaving an atomic block by an exception: everything but the id sequence is as it was. */
    method Rollback(saved: Bank)
      requires saved.beneficiaries == beneficiaries && saved.bills == bills
      modifies this, ledger
      ensures State() == Aborted(saved, old(ledger.nextId))
    {
      ledger.accounts, ledger.journals := saved.book.accounts, saved.book.journals;
      accounts, transfers, payments, records := saved.accounts, saved.transfers, saved.payments, saved.records;
    }

    /** `Transfer.transition`: the only assignment to a status, refused outside the table. */
    method ChangeStatus(i: nat, next: TransferStatus) returns (ok: bool)
      requires i < |transfers|
      modifies this`transfers
      ensures ok <==> next in AllowedNext(old(transfers)[i].status)
      ensures transfers == if ok then old(transfers)[i := old(transfers)[i].(status := next)] else old(transfers)
    {
      if next !in AllowedNext(transfers[i].status) {
        return false;
      }
      transfers := transfers[i := transfers[i].(status := next)];
      ok := true;
    }

    /** Post a journal for a service that stands at `saved`; `accounts` may have grown since. */
    method Post(saved: Bank, p: Posting) returns (r: Result<Journal, BankError>)
      requires LinesKnown(ledger.accounts, p.lines)
      requires State() == saved.(book := saved.book.(accounts := ledger.accounts))
      modifies this, ledger
      ensures (State(), if r.Ok? then None else Some(r.error)) == PostLines(ledger.h, saved, old(ledger.State()), p)
      ensures r.Ok? ==> r.value.id == old(ledger.nextId)
    {
      var posted := ledger.PostJournal(p);
      match posted
      case Ok(journal) => r := Ok(journal);
      case Err(e) =>
        Rollback(saved);
        r := Err(PostingRefused(e));
    }

    /** `_settle` */
    method Settle(i: nat, at: string) returns (problem: Option<BankError>)
      requires i < |transfers| && PartiesExist(State(), transfers[i]) && CodesKnown(State())
      modifies this, ledger
      ensures (State(), problem) == Settled(ledger.h, old(State()), i, at)
    {
      var saved := State();
      ledger.GetOrCreateAccount(CLEARING, ASSET, "USD");
      var t := transfers[i];
      var lines := TransferLines(accounts, t);
      assert EnsureAccount(saved.book, CLEARING, "USD") == ledger.State();
      var posted := Post(saved, Posting(t.reference, "Transfer " + t.reference, lines, at, ""));
      if posted.Err? {
        return Some(posted.error);
      }
      transfers := transfers[i := t.(journal := Some(posted.value.id))];
      var started := ChangeStatus(i, PROCESSING);
      if !started {
        Rollback(saved);
        return Some(IllegalTransition);
      }
      var completed := ChangeStatus(i, COMPLETED);
      assert transfers == saved.transfers[i := t.(journal := Some(posted.value.id), status := COMPLETED)];
      problem := None;
    }

    /** `_execute_transfer_atomic` */
    method Execute(actor: Actor, q: TransferRequest) returns (r: Result<nat, BankError>)
      requires CodesKnown(State())
      modifies this, ledger
      ensures (State(), r) == Executed(ledger.h, old(State()), actor, q)
    {
      var existing := FindTransfer(transfers, q.key);
      if existing.Some? {
        return Ok(existing.value);
      }
      var refusal := TransferProblem(State(), actor, q);
      if refusal.Some? {
        return Err(refusal.value);
      }
      var saved := State();
      var status := if q.scheduledFor.Some? then PENDING else CREATED;
      if q.underReview {
        status := UNDER_REVIEW;
      }
      var i := |transfers|;
      transfers := transfers + [Transfer(q.reference, q.key, q.source, q.destination, q.amount, status, None, q.now, q.scheduledFor)];
      assert State() == saved.(transfers := saved.transfers + [NewTransfer(q)]);
      if q.underReview || status == PENDING {
        return Ok(i);
      }
      var problem := Settle(i, q.at);
      if problem.Some? {
        Rollback(saved);
        return Err(problem.value);
      }
      r := Ok(i);
    }

    /** One transfer that is due: fail it, or settle it. */
    method ProcessOne(i: nat, at: string) returns (problem: Option<BankError>)
      requires i < |transfers| && CodesKnown(State()) && AllPartiesExist(State())
      requires transfers[i].status == PENDING
      modifies this, ledger
      ensures (State(), problem) == ProcessedOne(ledger.h, old(State()), i, at)
    {
      var t := transfers[i];
      if accounts[t.source].status != CustomerStatus.ACTIVE || Available(State(), t.source) < t.amount {
        var failed := ChangeStatus(i, FAILED);
        return None;
      }
      problem := Settle(i, at);
    }

    /** `process_due_scheduled`; an error that is no transfer error leaves the loop and undoes all of it. */
    method ProcessDue(now: nat, at: string) returns (problem: Option<BankError>)
      requires CodesKnown(State()) && AllPartiesExist(State())
      modifies this, ledger
      ensures (State(), problem) == Processed(ledger.h, old(State()), now, at)
    {
      var saved := State();
      var i, n := 0, |transfers|;
      while i < n
        invariant i <= n == |transfers| && beneficiaries == saved.beneficiaries && bills == saved.bills
        invariant CodesKnown(State()) && AllPartiesExist(State())
        invariant ProcessedFrom(ledger.h, saved, 0, now, at) == ProcessedFrom(ledger.h, State(), i, now, at)
      {
        if IsDue(transfers[i], now) {
          ghost var before := State();
          SettledKeepsShape(ledger.h, before, i, at);
          problem := ProcessOne(i, at);
          assert ProcessedFrom(ledger.h, before, i, now, at)
              == if problem.Some? then (State(), problem) else ProcessedFrom(ledger.h, State(), i + 1, now, at);
          if problem.Some? {
            Rollback(saved);
            return;
          }
        }
        i := i + 1;
      }
      problem := None;
    }

    /** `approve_transfer` with `_settle_locked` */
    method Approve(i: nat, at: string) returns (problem: Option<BankError>)
      requires i < |transfers| && CodesKnown(State()) && AllPartiesExist(State())
      modifies this, ledger
      ensures (State(), problem) == Approved(ledger.h, old(State()), i, at)
    {
      var t := transfers[i];
      if t.status != UNDER_REVIEW {
        return Some(NotPendingApproval);
      }
      var saved := State();
      var processing := ChangeStatus(i, PROCESSING);
      assert PartiesExist(State(), transfers[i]);
      if Available(State(), t.source) < t.amount {
        var failed := ChangeStatus(i, FAILED);
        return None;
      }
      problem := Settle(i, at);
      if problem.Some? {
        Rollback(saved);
      }
    }

    /** `reverse_transfer` */
    method Reverse(i: nat, at: string) returns (problem: Option<BankError>)
      requires i < |transfers|
      requires forall j :: j in ledger.journals ==> LinesKnown(ledger.accounts, j.lines)
      modifies this, ledger
      ensures (State(), problem) == TransferReversed(ledger.h, old(State()), i, at)
    {
      var t := transfers[i];
      if t.status != COMPLETED || t.journal.None? {
        return Some(NotReversible);
      }
      var original := JournalWithId(ledger.journals, t.journal.value);
      if original.None? {
        return Some(NotFound);
      }
      var reversal := ledger.ReverseJournal(original.value, "REV-" + t.reference, "", at);
      if reversal.Err? {
        return Some(ReversalRefused(reversal.error));
      }
      var reversed := ChangeStatus(i, REVERSED);
      problem := None;
    }

    /** `fund_account` */
    method Fund(q: FundingRequest) returns (problem: Option<BankError>)
      requires CodesKnown(State())
      modifies this, ledger
      ensures (State(), problem) == Funded(ledger.h, old(State()), q)
    {
      if q.key != "" && FindRecord(records, q.key).Some? {
        return None;
      }
      if q.amount <= 0 {
        return Some(InvalidAmount);
      }
      if q.account >= |accounts| {
        return Some(NotFound);
      }
      var account := accounts[q.account];
      if account.status != CustomerStatus.ACTIVE {
        return Some(NotActive);
      }
      var saved := State();
      ledger.GetOrCreateAccount(FUNDING, ASSET, account.currency);
      assert EnsureAccount(saved.book, FUNDING, account.currency) == ledger.State();
      var lines := FundingLines(account, q.amount);
      var posted := Post(saved, Posting(q.reference, q.reference, lines, q.at, account.currency));
      if posted.Err? {
        return Some(posted.error);
      }
      var key := if q.key != "" then q.key else q.reference;
      if FindRecord(records, key).Some? {
        Rollback(saved);
        return Some(DuplicateKey);
      }
      records := records + [Record(key, posted.value.id, q.amount)];
      problem := None;
    }

    /** `pay_bill` behind its risk gate, and `_pay_bill_atomic` */
    method PayBill(actor: Actor, q: BillRequest) returns (problem: Option<BankError>)
      requires CodesKnown(State())
      modifies this, ledger
      ensures (State(), problem) == BillSettled(ledger.h, old(State()), actor, q)
    {
      if PaymentKeyUsed(payments, q.key) {
        return None;
      }
      if q.account >= |accounts| || q.bill >= |bills| {
        return Some(NotFound);
      }
      var account, amount := accounts[q.account], bills[q.bill];
      if actor.isCustomer && account.owner != actor.id {
        return Some(Forbidden);
      }
      if account.status != CustomerStatus.ACTIVE {
        return Some(NotActive);
      }
      if Available(State(), q.account) < amount {
        return Some(InsufficientFunds);
      }
      if BillPaid(payments, q.bill) {
        return Some(BillAlreadyPaid);
      }
      var saved := State();
      ledger.GetOrCreateAccount(PAYMENT_INCOME, ASSET, "USD");
      assert EnsureAccount(saved.book, PAYMENT_INCOME, "USD") == ledger.State();
      var posted := Post(saved, Posting(q.reference, q.reference, BillLines(account, amount), q.at, ""));
      if posted.Err? {
        return Some(posted.error);
      }
      payments := payments + [Payment(q.bill, q.account, amount, q.key, posted.value.id)];
      problem := None;
    }
  }
}
