/**
 An account that ends below zero: its holder receives a transfer, pays the money out, and the transfer is reversed.
 */
module OverdraftInstance {
  import opened Common
  import opened Canonical
  import opened Ledger
  import opened Banking
  import opened BankRuns
  import opened BankTheorems
  import opened Solvency
  import opened OneAccount
  import opened Walks

  const OTHER := "2000-B"

  /** Two customers without money; account 0 belongs to the one, account 1 to the other. */
  function TwoCustomers(): Bank {
    Bank(Book(0, map[CODE := LedgerAccount(LIABILITY, "USD", LedgerStatus.ACTIVE), OTHER := LedgerAccount(LIABILITY, "USD", LedgerStatus.ACTIVE)], []),
         [Account(0, CODE, CustomerStatus.ACTIVE, "USD", 1000, 1000, 0), Account(1, OTHER, CustomerStatus.ACTIVE, "USD", 1000, 1000, 0)],
         [], [], [], [], [])
  }

  const DEPOSIT := FundingRequest(0, 100, "", "F", NOON)
  const GIFT := TransferRequest("T", "K", 0, Some(1), None, 100, None, false, NOON, 0)
  const PAYOUT := TransferRequest("U", "L", 1, None, None, 100, None, false, NOON, 0)

  /** Fund the first customer, pass the money on to the second, who pays it out; reverse the first transfer. */
  const RUN := [Fund(DEPOSIT), Execute(Actor(0, true), GIFT), Execute(Actor(1, true), PAYOUT), ReverseRow(0, NOON)]

  lemma StartOk(h: Hashing)
    ensures Walking(h, TwoCustomers(), {}) && Solvent(TwoCustomers())
    ensures Available(TwoCustomers(), 0) == 0 && Available(TwoCustomers(), 1) == 0
  {
    var bank := TwoCustomers();
    assert bank.accounts[1..][1..] == [];
    assert Codes(bank.accounts) == [CODE, OTHER];
    NoMoneyMovedYet(h, bank.accounts, bank.book.accounts, [], []);
    hide BankOk;
    ReadyWhenOk(h, bank);
  }

  /** The transfer and the payout, each from an account that holds 100, pass all checks. */
  lemma GiftAccepted(bank: Bank)
    requires bank.accounts == TwoCustomers().accounts && bank.transfers == [] && Available(bank, 0) == 100
    ensures Accepted(bank, Actor(0, true), GIFT)
  {
    hide Available;
  }

  lemma PayoutAccepted(bank: Bank)
    requires bank.accounts == TwoCustomers().accounts && |bank.transfers| == 1 && Available(bank, 1) == 100
    requires bank.transfers[0].key == "K" && bank.transfers[0].reference == "T" && bank.transfers[0].source == 0
    ensures Accepted(bank, Actor(1, true), PAYOUT)
  {
    hide Available;
    assert bank.transfers[1..] == [];
    assert OutflowToday(bank.transfers, 1, 0) == OutflowToday([], 1, 0);
  }

  /** Before the reversal: the receiver of transfer 0 has nothing left. */
  ghost predicate PaidOut(h: Hashing, bank: Bank) {
    && Walking(h, bank, {"F", "T", "U"}) && bank.accounts == TwoCustomers().accounts && |bank.transfers| == 2
    && bank.transfers[0] == NewTransfer(GIFT).(status := COMPLETED, journal := bank.transfers[0].journal)
    && Available(bank, 0) == 0 && Available(bank, 1) == 0
  }

  lemma MoneyPaidOut(h: Hashing)
    ensures PaidOut(h, BankAfter(h, TwoCustomers(), RUN[..3]))
  {
    var s0 := TwoCustomers();
    StartOk(h);
    hide Walking, Available, NextBank, Accepted, TransferProblem;
    WalkFund(h, s0, {}, DEPOSIT);
    var s1 := NextBank(h, s0, RUN[0]);
    GiftAccepted(s1);
    WalkExecute(h, s1, {} + {"F"}, Actor(0, true), GIFT);
    var s2 := NextBank(h, s1, RUN[1]);
    assert s2.transfers == [Settlement(WithNewRow(s1, GIFT), 0)];
    PayoutAccepted(s2);
    WalkExecute(h, s2, {} + {"F"} + {"T"}, Actor(1, true), PAYOUT);
    assert {} + {"F"} + {"T"} + {"U"} == {"F", "T", "U"};
    FirstThree(h, s0);
  }

  lemma FirstThree(h: Hashing, bank: Bank)
    ensures BankAfter(h, bank, RUN[..3]) == NextBank(h, NextBank(h, NextBank(h, bank, RUN[0]), RUN[1]), RUN[2])
  {
    hide NextBank;
    BankAfterOneMore(h, bank, RUN, 0);
    BankAfterOneMore(h, bank, RUN, 1);
    BankAfterOneMore(h, bank, RUN, 2);
  }

  /** From two empty accounts, four calls that all succeed leave the second at -100. */
  lemma ReversalOverdraws(h: Hashing)
    ensures BankOk(h, TwoCustomers()) && AllResting(TwoCustomers()) && Solvent(TwoCustomers())
    ensures var before, after := BankAfter(h, TwoCustomers(), RUN[..3]), BankAfter(h, TwoCustomers(), RUN);
            && Reverses(before, RUN[3]) && !StepCovered(before, RUN[3])
            && |after.accounts| == 2 && Available(after, 0) == 100 && Available(after, 1) == -100
  {
    StartOk(h);
    MoneyPaidOut(h);
    LastStep(h, TwoCustomers());
    var before := BankAfter(h, TwoCustomers(), RUN[..3]);
    hide BankOk, AllResting, Solvent, NextBank, BankAfter, TwoCustomers;
    GiftReversed(h, before);
  }

  lemma LastStep(h: Hashing, bank: Bank)
    ensures BankAfter(h, bank, RUN) == NextBank(h, BankAfter(h, bank, RUN[..3]), RUN[3])
  {
    hide NextBank;
    BankAfterOneMore(h, bank, RUN, 3);
    assert RUN[..4] == RUN;
  }

  lemma GiftReversed(h: Hashing, before: Bank)
    requires PaidOut(h, before)
    ensures Reverses(before, RUN[3]) && !StepCovered(before, RUN[3])
    ensures var after := NextBank(h, before, RUN[3]);
            |after.accounts| == 2 && Available(after, 0) == 100 && Available(after, 1) == -100
  {
    WalkReverse(h, before, {"F", "T", "U"}, 0, NOON);
    hide Walking, Available, NextBank, ReversalPasses, Allowed, Ready;
  }
}
