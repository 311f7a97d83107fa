/**
 A day on which an account with a daily limit of 1000 spends 3000: two scheduled transfers and an immediate one.
 */
module DailyLimitInstance {
  import opened Common
  import opened Canonical
  import opened Ledger
  import opened Banking
  import opened BankRuns
  import opened BankTheorems
  import opened DailyLimits
  import opened OneAccount
  import opened Walks

  const DEPOSIT := FundingRequest(0, 3000, "", "F", NOON)
  const FIRST := TransferRequest("T", "K", 0, None, None, 1000, Some(5), false, NOON, 0)
  const SECOND := TransferRequest("U", "L", 0, None, None, 1000, Some(5), false, NOON, 0)
  const THIRD := TransferRequest("V", "M", 0, None, None, 1000, None, false, NOON, 0)
  const HOLDER := Actor(0, true)

  /** Fund the account, schedule two transfers, make a third at once, and let the scheduled ones fall due. */
  const RUN := [Fund(DEPOSIT), Execute(HOLDER, FIRST), Execute(HOLDER, SECOND), Execute(HOLDER, THIRD), ProcessDue(5, NOON)]

  lemma StartOk(h: Hashing)
    ensures BankOk(h, EmptyBank()) && AllResting(EmptyBank()) && DailyOk(EmptyBank()) && RowsWithin(EmptyBank())
    ensures Walking(h, EmptyBank(), {}) && Available(EmptyBank(), 0) == 0
  {
    var bank := EmptyBank();
    EmptyBankOk(h);
    NoMoneyMovedYet(h, bank.accounts, bank.book.accounts, [], []);
    hide BankOk;
    ReadyWhenOk(h, bank);
  }

  // ----- the three requests

  lemma FirstAccepted(bank: Bank)
    requires bank.accounts == EmptyBank().accounts && bank.transfers == [] && Available(bank, 0) == 3000
    ensures Accepted(bank, HOLDER, FIRST)
  {
    hide Available;
  }

  lemma {:induction false} WaitingCountsNothing(rows: seq<Transfer>)
    requires forall t :: t in rows ==> t.status == PENDING
    ensures OutflowToday(rows, 0, 0) == 0
  {
    if rows != [] {
      assert rows[0] in rows && forall t :: t in rows[1..] ==> t in rows;
      WaitingCountsNothing(rows[1..]);
    }
  }

  lemma SecondAccepted(bank: Bank)
    requires bank.accounts == EmptyBank().accounts && bank.transfers == [NewTransfer(FIRST)] && Available(bank, 0) == 3000
    ensures Accepted(bank, HOLDER, SECOND)
  {
    hide Available, OutflowToday, FindTransfer;
    WaitingCountsNothing(bank.transfers);
  }

  lemma ThirdAccepted(bank: Bank)
    requires bank.accounts == EmptyBank().accounts && Available(bank, 0) == 3000
    requires bank.transfers == [NewTransfer(FIRST), NewTransfer(SECOND)]
    ensures Accepted(bank, HOLDER, THIRD)
  {
    hide Available, OutflowToday, FindTransfer;
    WaitingCountsNothing(bank.transfers);
  }

  // ----- the state before the scheduled run, and after it

  predicate IsDone(t: Transfer, q: TransferRequest) {
    t == NewTransfer(q).(status := COMPLETED, journal := t.journal)
  }

  /** Two transfers wait, the third is completed, and 2000 are left for them. */
  ghost predicate Waiting(h: Hashing, bank: Bank) {
    && Walking(h, bank, {"F", "V"}) && bank.accounts == EmptyBank().accounts
    && |bank.transfers| == 3 && bank.transfers[0] == NewTransfer(FIRST) && bank.transfers[1] == NewTransfer(SECOND)
    && IsDone(bank.transfers[2], THIRD) && Available(bank, 0) == 2000
  }

  lemma TwoWait(h: Hashing)
    ensures Waiting(h, BankAfter(h, EmptyBank(), RUN[..4]))
  {
    var s0 := EmptyBank();
    StartOk(h);
    hide Walking, Available, NextBank, Accepted;
    WalkFund(h, s0, {}, DEPOSIT);
    var s1 := NextBank(h, s0, RUN[0]);
    FirstAccepted(s1);
    WalkSchedule(h, s1, {} + {"F"}, HOLDER, FIRST);
    var s2 := NextBank(h, s1, RUN[1]);
    assert s2.transfers == [NewTransfer(FIRST)];
    SecondAccepted(s2);
    WalkSchedule(h, s2, {} + {"F"}, HOLDER, SECOND);
    var s3 := NextBank(h, s2, RUN[2]);
    assert s3.transfers == [NewTransfer(FIRST), NewTransfer(SECOND)];
    ThirdAccepted(s3);
    WalkExecute(h, s3, {} + {"F"}, HOLDER, THIRD);
    assert {} + {"F"} + {"V"} == {"F", "V"};
    FirstFour(h, s0);
  }

  lemma FirstFour(h: Hashing, bank: Bank)
    ensures BankAfter(h, bank, RUN[..4])
         == NextBank(h, NextBank(h, NextBank(h, NextBank(h, bank, RUN[0]), RUN[1]), RUN[2]), RUN[3])
  {
    hide NextBank;
    BankAfterOneMore(h, bank, RUN, 0);
    BankAfterOneMore(h, bank, RUN, 1);
    BankAfterOneMore(h, bank, RUN, 2);
    BankAfterOneMore(h, bank, RUN, 3);
  }

  lemma LastStep(h: Hashing, bank: Bank)
    ensures BankAfter(h, bank, RUN) == NextBank(h, BankAfter(h, bank, RUN[..4]), ProcessDue(5, NOON))
  {
    hide NextBank;
    BankAfterOneMore(h, bank, RUN, 4);
    assert RUN[..5] == RUN;
  }

  /** One turn of the scheduled run, for a transfer with the funds for it. */
  lemma Turn(h: Hashing, bank: Bank, refs: set<string>, i: nat, q: TransferRequest)
    requires BankOk(h, bank) && Open(bank, refs) && bank.accounts == EmptyBank().accounts && q in [FIRST, SECOND]
    requires i < |bank.transfers| && bank.transfers[i] == NewTransfer(q) && q.reference !in refs && Available(bank, 0) >= 1000
    ensures CodesKnown(bank) && AllPartiesExist(bank)
    ensures var r := ProcessedOne(h, bank, i, NOON);
            && r.1.None? && BankOk(h, r.0) && Open(r.0, refs + {q.reference}) && r.0.accounts == bank.accounts
            && r.0.transfers == bank.transfers[i := Settlement(bank, i)] && Available(r.0, 0) == Available(bank, 0) - 1000
            && CodesKnown(r.0) && AllPartiesExist(r.0)
            && ProcessedFrom(h, bank, i, 5, NOON) == ProcessedFrom(h, r.0, i + 1, 5, NOON)
  {
    ProcessedOneKeepsOk(h, bank, i, NOON);
    WalkSettle(h, bank, refs, i, NOON);
    hide BankOk, Settled, Available, Open;
    BankOkShape(h, ProcessedOne(h, bank, i, NOON).0);
  }

  predicate AllDone(rows: seq<Transfer>) {
    |rows| == 3 && IsDone(rows[0], FIRST) && IsDone(rows[1], SECOND) && IsDone(rows[2], THIRD)
  }

  lemma TwoTurns(h: Hashing, bank: Bank)
    requires Waiting(h, bank)
    ensures CodesKnown(bank) && AllPartiesExist(bank)
    ensures var r := ProcessedFrom(h, bank, 0, 5, NOON);
            r.1.None? && r.0.accounts == bank.accounts && AllDone(r.0.transfers)
  {
    Turn(h, bank, {"F", "V"}, 0, FIRST);
    var one := ProcessedOne(h, bank, 0, NOON).0;
    hide BankOk, Open, ProcessedOne, ProcessedFrom, Available, AllResting, Ready, CodesKnown, AllPartiesExist;
    SecondTurn(h, one);
  }

  lemma SecondTurn(h: Hashing, one: Bank)
    requires BankOk(h, one) && Open(one, {"F", "V"} + {"T"}) && one.accounts == EmptyBank().accounts && Available(one, 0) >= 1000
    requires |one.transfers| == 3
    requires IsDone(one.transfers[0], FIRST) && one.transfers[1] == NewTransfer(SECOND) && IsDone(one.transfers[2], THIRD)
    ensures CodesKnown(one) && AllPartiesExist(one)
    ensures var r := ProcessedFrom(h, one, 1, 5, NOON);
            r.1.None? && r.0.accounts == one.accounts && AllDone(r.0.transfers)
  {
    Turn(h, one, {"F", "V"} + {"T"}, 1, SECOND);
    hide BankOk, Open, ProcessedOne, ProcessedFrom, Available;
    NothingDue(h, ProcessedOne(h, one, 1, NOON).0);
  }

  lemma DueStep(h: Hashing, bank: Bank)
    requires Waiting(h, bank)
    ensures var v := NextBank(h, bank, ProcessDue(5, NOON));
            |v.accounts| == 1 && v.accounts[0].dailyLimit == 1000 && AllDone(v.transfers)
  {
    TwoTurns(h, bank);
    hide BankOk, AllResting, Open, ProcessedFrom, Available, AllDone, IsDone, CodesKnown, AllPartiesExist, NewTransfer;
  }

  /** The third row is not due. */
  lemma NothingDue(h: Hashing, bank: Bank)
    requires CodesKnown(bank) && AllPartiesExist(bank) && |bank.transfers| == 3 && IsDone(bank.transfers[2], THIRD)
    ensures ProcessedFrom(h, bank, 2, 5, NOON) == (bank, None)
  {
    hide ProcessedOne, CodesKnown, AllPartiesExist;
    assert ProcessedFrom(h, bank, 3, 5, NOON) == (bank, None);
  }

  lemma ThreeRows(rows: seq<Transfer>)
    requires AllDone(rows)
    ensures CompletedOut(rows, 0, 0) == 3000 && OutflowToday(rows, 0, 0) == 3000
    ensures ScheduledOut(rows, 0, 0) == 2000 && ScheduledCount(rows, 0, 0) == 2
  {
    var last, rest := rows[2..], rows[1..];
    assert last[1..] == [] && rest[1..] == last;
    assert CompletedOut(last, 0, 0) == OutflowToday(last, 0, 0) == 1000;
    assert CompletedOut(rest, 0, 0) == OutflowToday(rest, 0, 0) == 2000;
    assert ScheduledOut(last, 0, 0) == 0 && ScheduledCount(last, 0, 0) == 0;
    assert ScheduledOut(rest, 0, 0) == 1000 && ScheduledCount(rest, 0, 0) == 1;
  }

  /**
   The account's limit is 1000 and its outflow of the day 3000, also by the service's own sum: the bound of
   the limit times one more than the number of scheduled transfers is attained.
   */
  lemma LimitExceeded(h: Hashing)
    ensures BankOk(h, EmptyBank()) && AllResting(EmptyBank()) && DailyOk(EmptyBank()) && RowsWithin(EmptyBank())
    ensures var v := BankAfter(h, EmptyBank(), RUN);
            && |v.accounts| == 1 && v.accounts[0].dailyLimit == 1000
            && CompletedOut(v.transfers, 0, 0) == 3000 && OutflowToday(v.transfers, 0, 0) == 3000
            && ScheduledOut(v.transfers, 0, 0) == 2000 && ScheduledCount(v.transfers, 0, 0) == 2
  {
    StartOk(h);
    TwoWait(h);
    LastStep(h, EmptyBank());
    var before := BankAfter(h, EmptyBank(), RUN[..4]);
    hide *;
    DueStep(h, before);
    ThreeRows(BankAfter(h, EmptyBank(), RUN).transfers);
  }
}
