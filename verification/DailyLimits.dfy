/**
 How far the daily limit reaches. It is checked when a transfer is made, against what has been completed by
 then; a scheduled transfer is settled later without another check, and counts for the day on which it was made.
 */
module DailyLimits {
  import opened Common
  import opened Journals
  import opened Canonical
  import opened Ledger
  import opened Banking
  import opened BankRuns
  import opened BankTheorems
  import opened TransferLifecycle

  // ----- the outflow of a day

  predicate LeavesOn(t: Transfer, a: nat, day: nat) {
    t.source == a && t.status == COMPLETED && t.createdAt / MICROSECONDS_PER_DAY == day
  }

  /** All that left account `a` by transfers made on day `day` and completed at any time. */
  function CompletedOut(transfers: seq<Transfer>, a: nat, day: nat): int {
    if transfers == [] then 0
    else (if LeavesOn(transfers[0], a, day) then transfers[0].amount else 0) + CompletedOut(transfers[1..], a, day)
  }

  predicate SettledLater(t: Transfer, a: nat, day: nat) {
    LeavesOn(t, a, day) && t.scheduledFor.Some?
  }

  /** The part of it that was scheduled, and how many transfers that are. */
  function ScheduledOut(transfers: seq<Transfer>, a: nat, day: nat): int {
    if transfers == [] then 0
    else (if SettledLater(transfers[0], a, day) then transfers[0].amount else 0) + ScheduledOut(transfers[1..], a, day)
  }

  function ScheduledCount(transfers: seq<Transfer>, a: nat, day: nat): nat {
    if transfers == [] then 0
    else (if SettledLater(transfers[0], a, day) then 1 else 0) + ScheduledCount(transfers[1..], a, day)
  }

  lemma {:induction false} OutflowHasTwoParts(transfers: seq<Transfer>, a: nat, day: nat)
    ensures CompletedOut(transfers, a, day) == ImmediateOut(transfers, a, day) + ScheduledOut(transfers, a, day)
  {
    if transfers != [] {
      OutflowHasTwoParts(transfers[1..], a, day);
    }
  }

  /** The sum that the service takes is that of the day, save that it also counts the first instant of the next. */
  lemma {:induction false} ServiceSumsTheDay(transfers: seq<Transfer>, a: nat, now: nat)
    requires forall t :: t in transfers ==> t.createdAt != DayStart(now) + MICROSECONDS_PER_DAY
    ensures OutflowToday(transfers, a, now) == CompletedOut(transfers, a, now / MICROSECONDS_PER_DAY)
  {
    if transfers != [] {
      var t := transfers[0];
      assert t in transfers && forall s :: s in transfers[1..] ==> s in transfers;
      SameDay(t.createdAt, now);
      assert t.createdAt == MICROSECONDS_PER_DAY * (t.createdAt / MICROSECONDS_PER_DAY) + t.createdAt % MICROSECONDS_PER_DAY;
      ServiceSumsTheDay(transfers[1..], a, now);
    }
  }

  // ----- every single transfer is within the limit

  predicate RowWithin(bank: Bank, t: Transfer) {
    t.source < |bank.accounts| && (t.status != FAILED ==> t.amount <= bank.accounts[t.source].dailyLimit)
  }

  ghost predicate RowsWithin(bank: Bank) {
    forall i :: 0 <= i < |bank.transfers| ==> RowWithin(bank, bank.transfers[i])
  }

  ghost predicate SameLimits(bank: Bank, v: Bank) {
    |v.accounts| == |bank.accounts| && forall a :: 0 <= a < |v.accounts| ==> v.accounts[a].dailyLimit == bank.accounts[a].dailyLimit
  }

  /** The limits stay, and at most new rows that are within them are added. */
  ghost predicate AddsWithin(bank: Bank, v: Bank) {
    SameLimits(bank, v) && forall i :: |bank.transfers| <= i < |v.transfers| ==> RowWithin(v, v.transfers[i])
  }

  lemma ExecutedAddsWithin(h: Hashing, bank: Bank, actor: Actor, q: TransferRequest)
    requires BankOk(h, bank) && AllResting(bank) && q.at != ""
    ensures CodesKnown(bank) && AddsWithin(bank, Executed(h, bank, actor, q).0)
  {
    ExecutedShape(h, bank, actor, q);
    CompletedPositive(h, bank);
    hide BankOk, Executed, FindTransfer;
    OutflowNotNegative(bank.transfers, q.source, q.now);
  }

  lemma {:induction false} OutflowNotNegative(transfers: seq<Transfer>, a: nat, now: nat)
    requires forall t :: t in transfers && t.status == COMPLETED ==> t.amount > 0
    ensures OutflowToday(transfers, a, now) >= 0
  {
    if transfers != [] {
      assert transfers[0] in transfers && forall s :: s in transfers[1..] ==> s in transfers;
      OutflowNotNegative(transfers[1..], a, now);
    }
  }

  lemma {:induction false} ProcessedKeepsRows(h: Hashing, bank: Bank, i: nat, now: nat, at: string)
    requires CodesKnown(bank) && AllPartiesExist(bank)
    ensures var v := ProcessedFrom(h, bank, i, now, at).0;
            v.accounts == bank.accounts && |v.transfers| == |bank.transfers|
    decreases |bank.transfers| - i
  {
    hide Settled;
    if i < |bank.transfers| {
      if IsDue(bank.transfers[i], now) {
        SettledKeepsShape(h, bank, i, at);
        var one := ProcessedOne(h, bank, i, at);
        if one.1.None? {
          ProcessedKeepsRows(h, one.0, i + 1, now, at);
        }
      } else {
        ProcessedKeepsRows(h, bank, i + 1, now, at);
      }
    }
  }

  lemma StepAddsWithin(h: Hashing, bank: Bank, step: BankStep)
    requires BankOk(h, bank) && AllResting(bank) && Ready(bank) && Allowed(bank, step)
    ensures AddsWithin(bank, ApplyBank(h, bank, step))
  {
    match step {
      case Execute(actor, q) => ExecutedAddsWithin(h, bank, actor, q);
      case ProcessDue(now, at) => hide ProcessedFrom; ProcessedKeepsRows(h, bank, 0, now, at);
      case Approve(i, at) => hide Settled; if bank.transfers[i].status == UNDER_REVIEW { ApprovalNeverCompletes(h, bank, i, at); }
      case ReverseRow(i, at) => hide TransferReversed; TransferReversedEffect(h, bank, i, at);
      case Fund(q) => hide Funded; FundedEffect(h, bank, q);
      case PayBill(actor, q) => hide BillSettled; BillSettledEffect(h, bank, actor, q);
      case _ =>
    }
  }

  lemma StepKeepsWithin(h: Hashing, bank: Bank, step: BankStep)
    requires BankOk(h, bank) && AllResting(bank) && Ready(bank) && Allowed(bank, step)
    ensures RowsWithin(bank) ==> RowsWithin(ApplyBank(h, bank, step))
    ensures SameLimits(bank, ApplyBank(h, bank, step))
  {
    StepAddsWithin(h, bank, step);
    StepAdvances(h, bank, step);
    hide BankOk, ApplyBank, Follows;
    var v := ApplyBank(h, bank, step);
    if RowsWithin(bank) {
      forall i | 0 <= i < |v.transfers|
        ensures RowWithin(v, v.transfers[i])
      {
        if i < |bank.transfers| {
          assert Advances(bank.transfers[i], v.transfers[i]) && RowWithin(bank, bank.transfers[i]);
          if bank.transfers[i].status == FAILED {
            EndIsFinal(FAILED, v.transfers[i].status);
          }
        }
      }
    }
  }

  lemma {:induction false} RunKeepsWithin(h: Hashing, bank: Bank, steps: seq<BankStep>)
    requires BankOk(h, bank) && AllResting(bank) && RowsWithin(bank)
    ensures RowsWithin(BankAfter(h, bank, steps)) && SameLimits(bank, BankAfter(h, bank, steps))
    decreases |steps|
  {
    ReadyWhenOk(h, bank);
    hide BankOk, AllResting, RowsWithin, ApplyBank;
    if steps != [] {
      if Allowed(bank, steps[0]) {
        BankStepKeepsOk(h, bank, steps[0]);
        StepKeepsWithin(h, bank, steps[0]);
      }
      RunKeepsWithin(h, NextBank(h, bank, steps[0]), steps[1..]);
    }
  }

  // ----- the bound

  /** The limit, read as an amount: a negative one lets nothing through, like zero. */
  function LimitOf(bank: Bank, a: nat): nat
    requires a < |bank.accounts|
  {
    if bank.accounts[a].dailyLimit < 0 then 0 else bank.accounts[a].dailyLimit
  }

  lemma {:induction false} ScheduledBounded(transfers: seq<Transfer>, a: nat, day: nat, limit: nat)
    requires forall t :: t in transfers && t.source == a && t.status == COMPLETED ==> t.amount <= limit
    ensures ScheduledOut(transfers, a, day) <= ScheduledCount(transfers, a, day) * limit
  {
    if transfers != [] {
      assert transfers[0] in transfers && forall s :: s in transfers[1..] ==> s in transfers;
      ScheduledBounded(transfers[1..], a, day, limit);
      OneMoreTime(ScheduledCount(transfers[1..], a, day), limit);
    }
  }

  lemma OneMoreTime(n: int, limit: int)
    ensures (1 + n) * limit == limit + n * limit
  {
  }

  /**
   Over any run, what leaves an account by transfers made on one day exceeds the daily limit by no more than
   the scheduled ones among them, and stays within the limit times one more than their number.
   */
  lemma DayOutflowBounded(h: Hashing, bank: Bank, steps: seq<BankStep>, a: nat, day: nat)
    requires BankOk(h, bank) && AllResting(bank) && DailyOk(bank) && RowsWithin(bank) && a < |bank.accounts|
    ensures var rows := BankAfter(h, bank, steps).transfers;
            && CompletedOut(rows, a, day) <= LimitOf(bank, a) + ScheduledOut(rows, a, day)
            && CompletedOut(rows, a, day) <= (1 + ScheduledCount(rows, a, day)) * LimitOf(bank, a)
  {
    BankRun(h, bank, steps);
    RunKeepsWithin(h, bank, steps);
    var v := BankAfter(h, bank, steps);
    hide BankOk, AllResting, BankAfter;
    OutflowHasTwoParts(v.transfers, a, day);
    assert WithinLimit(v, a, day);
    forall t | t in v.transfers && t.source == a && t.status == COMPLETED
      ensures t.amount <= LimitOf(bank, a)
    {
      var i :| 0 <= i < |v.transfers| && v.transfers[i] == t;
      assert RowWithin(v, v.transfers[i]);
    }
    ScheduledBounded(v.transfers, a, day, LimitOf(bank, a));
    OneMoreTime(ScheduledCount(v.transfers, a, day), LimitOf(bank, a));
  }
}
