/**
 A reviewed transfer with ample funds whose approval aborts, reached from an empty bank.
 */
module ApprovalInstance {
  import opened Common
  import opened Journals
  import opened Canonical
  import opened Ledger
  import opened LedgerRuns
  import opened Accounting
  import opened Banking
  import opened BankRuns
  import opened BankTheorems
  import opened OneAccount
  import opened Walks

  const DEPOSIT := FundingRequest(0, 100, "", "F", NOON)

  /** An external transfer of 50 that the risk gate sends to review. */
  const REVIEWED := TransferRequest("T", "K", 0, None, None, 50, None, true, NOON, 0)

  lemma DepositArrives(h: Hashing)
    ensures CodesKnown(EmptyBank())
    ensures var v := Funded(h, EmptyBank(), DEPOSIT).0;
            v.accounts == EmptyBank().accounts && v.transfers == [] && Available(v, 0) == 100
  {
    EmptyBankOk(h);
    ReadyWhenOk(h, EmptyBank());
    hide BankOk;
    WalkFund(h, EmptyBank(), {}, DEPOSIT);
  }

  /** With 100 in the account, the transfer of 50 goes to review; its approval then aborts and leaves it there. */
  lemma FundedApprovalAborts(h: Hashing)
    ensures CodesKnown(EmptyBank()) && CodesKnown(Funded(h, EmptyBank(), DEPOSIT).0)
    ensures var v := Executed(h, Funded(h, EmptyBank(), DEPOSIT).0, Actor(0, true), REVIEWED).0;
            && CodesKnown(v) && AllPartiesExist(v)
            && |v.transfers| == 1 && v.transfers[0].status == UNDER_REVIEW && Available(v, 0) == 100
            && var r := Approved(h, v, 0, NOON);
               r.1.Some? && r.0.transfers == v.transfers
  {
    EmptyBankOk(h);
    DepositArrives(h);
    FundedKeepsOk(h, EmptyBank(), DEPOSIT);
    var bank := Funded(h, EmptyBank(), DEPOSIT).0;
    ExecutedKeepsOk(h, bank, Actor(0, true), REVIEWED);
    hide BankOk, Funded, Settled, Approved;
    BankOkShape(h, bank);
    assert TransferProblem(bank, Actor(0, true), REVIEWED).None?;
    var v := Executed(h, bank, Actor(0, true), REVIEWED).0;
    assert v == bank.(transfers := [] + [NewTransfer(REVIEWED)]);
    ApprovalNeverCompletes(h, v, 0, NOON);
  }
}
