/**
 A bank with one empty customer account: where the concrete runs start that show a failure to occur.
 */
module OneAccount {
  import opened Common
  import opened Canonical
  import opened Ledger
  import opened Accounting
  import opened Banking
  import opened BankRuns
  import opened BankTheorems

  const CODE := "2000-A"
  const NOON := "2026-01-01T12:00:00+00:00"

  function EmptyBank(): Bank {
    Bank(Book(0, map[CODE := LedgerAccount(LIABILITY, "USD", LedgerStatus.ACTIVE)], []),
         [Account(0, CODE, CustomerStatus.ACTIVE, "USD", 1000, 1000, 0)], [], [], [], [], [])
  }

  lemma EmptyBankOk(h: Hashing)
    ensures BankOk(h, EmptyBank()) && AllResting(EmptyBank()) && CodesKnown(EmptyBank())
    ensures Codes(EmptyBank().accounts) == [CODE]
  {
    var bank := EmptyBank();
    assert bank.accounts[1..] == [];
    assert Codes(bank.accounts) == [CODE];
    NoMoneyMovedYet(h, bank.accounts, bank.book.accounts, [], []);
  }
}
