/**
 The life of a transfer row over whole runs: its identity never changes, its status only moves along the
 transition table, and a row that has ended stays as it is.
 */
module TransferLifecycle {
  import opened Common
  import opened Journals
  import opened Canonical
  import opened Ledger
  import opened LedgerRuns
  import opened Banking
  import opened BankRuns
  import opened BankTheorems

  // ----- paths in the transition table

  /** `t` can be reached from `s` by exactly `n` transitions of the table. */
  predicate LeadsTo(s: TransferStatus, t: TransferStatus, n: nat)
    decreases n
  {
    if n == 0 then s == t else exists m :: m in AllowedNext(s) && LeadsTo(m, t, n - 1)
  }

  ghost predicate Follows(s: TransferStatus, t: TransferStatus) {
    exists n: nat :: LeadsTo(s, t, n)
  }

  lemma {:induction false} LeadsOn(s: TransferStatus, t: TransferStatus, u: TransferStatus, n: nat, k: nat)
    requires LeadsTo(s, t, n) && LeadsTo(t, u, k)
    ensures LeadsTo(s, u, n + k)
    decreases n
  {
    if n > 0 {
      var m :| m in AllowedNext(s) && LeadsTo(m, t, n - 1);
      LeadsOn(m, t, u, n - 1, k);
      assert LeadsTo(m, u, n + k - 1);
    }
  }

  lemma FollowsOn(s: TransferStatus, t: TransferStatus, u: TransferStatus)
    requires Follows(s, t) && Follows(t, u)
    ensures Follows(s, u)
  {
    var n: nat :| LeadsTo(s, t, n);
    var k: nat :| LeadsTo(t, u, k);
    LeadsOn(s, t, u, n, k);
  }

  /** A status without successors is left by no path. */
  lemma EndIsFinal(s: TransferStatus, t: TransferStatus)
    requires AllowedNext(s) == {} && Follows(s, t)
    ensures t == s
  {
    var n: nat :| LeadsTo(s, t, n);
    assert n == 0;
  }

  lemma OneStep(s: TransferStatus, t: TransferStatus)
    ensures Follows(s, s)
    ensures t in AllowedNext(s) ==> Follows(s, t)
  {
    assert LeadsTo(s, s, 0);
    if t in AllowedNext(s) {
      assert LeadsTo(t, t, 0);
      assert LeadsTo(s, t, 1);
    }
  }

  /** The table by its targets: where each status may be entered from. */
  lemma EnteredFrom(s: TransferStatus)
    ensures CREATED !in AllowedNext(s)
    ensures PENDING in AllowedNext(s) <==> s == CREATED
    ensures PROCESSING in AllowedNext(s) <==> s in {CREATED, PENDING, UNDER_REVIEW}
    ensures CANCELED in AllowedNext(s) <==> s in {CREATED, PENDING, UNDER_REVIEW}
    ensures UNDER_REVIEW in AllowedNext(s) <==> s in {PENDING, PROCESSING}
    ensures FAILED in AllowedNext(s) <==> s in {CREATED, PENDING, PROCESSING, UNDER_REVIEW}
    ensures COMPLETED in AllowedNext(s) <==> s == PROCESSING
    ensures REVERSED in AllowedNext(s) <==> s == COMPLETED
  {
  }

  /** How far a transfer still is from an end that it can no longer leave. */
  function Stage(s: TransferStatus): nat {
    match s
    case CREATED => 0
    case PENDING => 1
    case PROCESSING => 2
    case UNDER_REVIEW => 2
    case COMPLETED => 3
    case FAILED => 4
    case CANCELED => 4
    case REVERSED => 4
  }

  lemma {:induction false} StagesRise(s: TransferStatus, t: TransferStatus, n: nat)
    requires LeadsTo(s, t, n)
    ensures Stage(s) <= Stage(t) && (Stage(s) >= 3 && s != t ==> s == COMPLETED && t == REVERSED)
    decreases n
  {
    if n > 0 {
      var m :| m in AllowedNext(s) && LeadsTo(m, t, n - 1);
      EnteredFrom(s);
      StagesRise(m, t, n - 1);
    }
  }

  /** Along any path: no status of an earlier stage is entered again, and after COMPLETED there is only REVERSED. */
  lemma NoWayBack(s: TransferStatus, t: TransferStatus)
    requires Follows(s, t)
    ensures Stage(s) <= Stage(t)
    ensures s == COMPLETED ==> t in {COMPLETED, REVERSED}
    ensures s in {FAILED, CANCELED, REVERSED} ==> t == s
  {
    var n: nat :| LeadsTo(s, t, n);
    StagesRise(s, t, n);
  }

  // ----- rows

  /** Later, a row still has the same parties, amount and keys, keeps its journal, and followed the table. */
  ghost predicate Advances(t: Transfer, u: Transfer) {
    && u == t.(status := u.status, journal := u.journal)
    && (t.journal.Some? ==> u.journal == t.journal)
    && Follows(t.status, u.status)
  }

  ghost predicate RowsAdvance(a: seq<Transfer>, b: seq<Transfer>) {
    |a| <= |b| && forall i :: 0 <= i < |a| ==> Advances(a[i], b[i])
  }

  lemma RowsStay(a: seq<Transfer>)
    ensures RowsAdvance(a, a)
  {
    forall i | 0 <= i < |a|
      ensures Advances(a[i], a[i])
    {
      OneStep(a[i].status, a[i].status);
    }
  }

  lemma RowsAdvanceOn(a: seq<Transfer>, b: seq<Transfer>, c: seq<Transfer>)
    requires RowsAdvance(a, b) && RowsAdvance(b, c)
    ensures RowsAdvance(a, c)
  {
    forall i | 0 <= i < |a|
      ensures Advances(a[i], c[i])
    {
      assert Advances(a[i], b[i]) && Advances(b[i], c[i]);
      FollowsOn(a[i].status, b[i].status, c[i].status);
    }
  }

  lemma RowAdvances(a: seq<Transfer>, i: nat, u: Transfer)
    requires i < |a| && Advances(a[i], u)
    ensures RowsAdvance(a, a[i := u])
  {
    RowsStay(a);
  }

  lemma RowAdded(a: seq<Transfer>, b: seq<Transfer>)
    requires |a| <= |b| && b[..|a|] == a
    ensures RowsAdvance(a, b)
  {
    RowsStay(a);
    forall i | 0 <= i < |a|
      ensures Advances(a[i], b[i])
    {
      assert b[..|a|][i] == b[i];
      assert Advances(a[i], a[i]);
    }
  }

  // ----- the services

  /** Settling passes through PROCESSING to COMPLETED. */
  lemma SettledAdvances(h: Hashing, bank: Bank, i: nat, at: string)
    requires BankOk(h, bank) && i < |bank.transfers| && at != "" && bank.transfers[i].journal.None?
    ensures CodesKnown(bank) && AllPartiesExist(bank)
    ensures RowsAdvance(bank.transfers, Settled(h, bank, i, at).0.transfers)
  {
    SettledEffect(h, bank, i, at);
    RowsStay(bank.transfers);
    hide BankOk, Settled;
    var r := Settled(h, bank, i, at);
    if r.1.None? {
      var t := bank.transfers[i];
      OneStep(t.status, PROCESSING);
      OneStep(PROCESSING, COMPLETED);
      FollowsOn(t.status, PROCESSING, COMPLETED);
      RowAdvances(bank.transfers, i, r.0.transfers[i]);
    }
  }

  lemma ExecutedAdvances(h: Hashing, bank: Bank, actor: Actor, q: TransferRequest)
    requires BankOk(h, bank) && AllResting(bank) && q.at != ""
    ensures CodesKnown(bank)
    ensures RowsAdvance(bank.transfers, Executed(h, bank, actor, q).0.transfers)
  {
    BankOkShape(h, bank);
    RowsStay(bank.transfers);
    if FindTransfer(bank.transfers, q.key).None? && TransferProblem(bank, actor, q).None? {
      var created := bank.(transfers := bank.transfers + [NewTransfer(q)]);
      AppendRow(h, bank, NewTransfer(q));
      RowAdded(bank.transfers, created.transfers);
      if InitialStatus(q) == CREATED {
        SettledEffect(h, created, |bank.transfers|, q.at);
        hide BankOk, Settled, RowsAdvance;
        var settled := Settled(h, created, |bank.transfers|, q.at);
        if settled.1.None? {
          RowAdded(bank.transfers, settled.0.transfers);
        }
      }
    }
  }

  lemma ProcessedOneAdvances(h: Hashing, bank: Bank, i: nat, at: string)
    requires BankOk(h, bank) && i < |bank.transfers| && bank.transfers[i].status == PENDING && at != ""
    ensures CodesKnown(bank) && AllPartiesExist(bank)
    ensures RowsAdvance(bank.transfers, ProcessedOne(h, bank, i, at).0.transfers)
  {
    BankOkShape(h, bank);
    assert TransferOk(bank, bank.transfers[i]);
    SettledAdvances(h, bank, i, at);
    hide BankOk, Settled, RowsAdvance;
    OneStep(PENDING, FAILED);
    RowAdvances(bank.transfers, i, bank.transfers[i].(status := FAILED));
  }

  lemma {:induction false} ProcessedFromAdvances(h: Hashing, bank: Bank, i: nat, now: nat, at: string)
    requires BankOk(h, bank) && AllResting(bank) && at != ""
    ensures CodesKnown(bank) && AllPartiesExist(bank)
    ensures ProcessedFrom(h, bank, i, now, at).1.None? ==>
              RowsAdvance(bank.transfers, ProcessedFrom(h, bank, i, now, at).0.transfers)
    decreases |bank.transfers| - i
  {
    BankOkShape(h, bank);
    RowsStay(bank.transfers);
    hide BankOk, ProcessedOne, RowsAdvance;
    if i < |bank.transfers| {
      if IsDue(bank.transfers[i], now) {
        ProcessedOneKeepsOk(h, bank, i, at);
        ProcessedOneAdvances(h, bank, i, at);
        var one := ProcessedOne(h, bank, i, at);
        if one.1.None? {
          ProcessedFromAdvances(h, one.0, i + 1, now, at);
          if ProcessedFrom(h, one.0, i + 1, now, at).1.None? {
            RowsAdvanceOn(bank.transfers, one.0.transfers, ProcessedFrom(h, one.0, i + 1, now, at).0.transfers);
          }
        }
      } else {
        ProcessedFromAdvances(h, bank, i + 1, now, at);
      }
    }
  }

  lemma ApprovedAdvances(h: Hashing, bank: Bank, i: nat, at: string)
    requires BankOk(h, bank) && i < |bank.transfers| && at != ""
    ensures CodesKnown(bank) && AllPartiesExist(bank)
    ensures RowsAdvance(bank.transfers, Approved(h, bank, i, at).0.transfers)
  {
    BankOkShape(h, bank);
    RowsStay(bank.transfers);
    if bank.transfers[i].status == UNDER_REVIEW {
      ApprovalNeverCompletes(h, bank, i, at);
      hide BankOk, Approved, RowsAdvance;
      OneStep(UNDER_REVIEW, FAILED);
      RowAdvances(bank.transfers, i, bank.transfers[i].(status := FAILED));
    }
  }

  lemma ReversedAdvances(h: Hashing, bank: Bank, i: nat, at: string)
    requires BankOk(h, bank) && i < |bank.transfers| && at != ""
    ensures forall j :: j in bank.book.journals ==> LinesKnown(bank.book.accounts, j.lines)
    ensures RowsAdvance(bank.transfers, TransferReversed(h, bank, i, at).0.transfers)
  {
    TransferReversedEffect(h, bank, i, at);
    hide BankOk, TransferReversed, RowsAdvance, Follows;
    RowsStay(bank.transfers);
    var r := TransferReversed(h, bank, i, at);
    if r.1.None? {
      OneStep(COMPLETED, REVERSED);
      RowAdvances(bank.transfers, i, bank.transfers[i].(status := REVERSED));
    }
  }

  lemma StepAdvances(h: Hashing, bank: Bank, step: BankStep)
    requires BankOk(h, bank) && AllResting(bank) && Ready(bank) && Allowed(bank, step)
    ensures RowsAdvance(bank.transfers, ApplyBank(h, bank, step).transfers)
  {
    RowsStay(bank.transfers);
    hide BankOk, RowsAdvance;
    match step {
      case Execute(actor, q) => ExecutedAdvances(h, bank, actor, q);
      case GateBlock(q) => RowAdded(bank.transfers, GateBlocked(bank, q).transfers);
      case ProcessDue(now, at) => ProcessedFromAdvances(h, bank, 0, now, at);
      case Approve(i, at) => ApprovedAdvances(h, bank, i, at);
      case ReverseRow(i, at) => ReversedAdvances(h, bank, i, at);
      case Fund(q) => FundedEffect(h, bank, q);
      case PayBill(actor, q) => BillSettledEffect(h, bank, actor, q);
      case SetCustomerStatus(_, _) =>
      case SetLedgerStatus(_, _) =>
    }
  }

  // ----- whole runs

  /**
   Over any run, every row keeps its identity and its journal, and its status has moved along the
   transition table only; a FAILED or REVERSED row is the same row at the end.
   */
  lemma {:induction false} RunFollowsTable(h: Hashing, bank: Bank, steps: seq<BankStep>)
    requires BankOk(h, bank) && AllResting(bank)
    ensures RowsAdvance(bank.transfers, BankAfter(h, bank, steps).transfers)
    decreases |steps|
  {
    ReadyWhenOk(h, bank);
    RowsStay(bank.transfers);
    hide BankOk, AllResting, RowsAdvance, ApplyBank;
    if steps != [] {
      if Allowed(bank, steps[0]) {
        BankStepKeepsOk(h, bank, steps[0]);
        StepAdvances(h, bank, steps[0]);
        var next := ApplyBank(h, bank, steps[0]);
        RunFollowsTable(h, next, steps[1..]);
        RowsAdvanceOn(bank.transfers, next.transfers, BankAfter(h, next, steps[1..]).transfers);
      } else {
        RunFollowsTable(h, bank, steps[1..]);
      }
    }
  }

  lemma EndedRowsStay(h: Hashing, bank: Bank, steps: seq<BankStep>, i: nat)
    requires BankOk(h, bank) && AllResting(bank) && i < |bank.transfers|
    requires bank.transfers[i].status in {FAILED, REVERSED}
    ensures i < |BankAfter(h, bank, steps).transfers| && BankAfter(h, bank, steps).transfers[i] == bank.transfers[i]
  {
    RunFollowsTable(h, bank, steps);
    BankRun(h, bank, steps);
    var after := BankAfter(h, bank, steps);
    var t, u := bank.transfers[i], after.transfers[i];
    JournalByStatus(h, bank, i);
    JournalByStatus(h, after, i);
    hide BankOk, BankAfter, Follows;
    assert Advances(t, u);
    EndIsFinal(t.status, u.status);
  }

  lemma JournalByStatus(h: Hashing, bank: Bank, i: nat)
    requires BankOk(h, bank) && i < |bank.transfers|
    ensures bank.transfers[i].journal.Some? <==> bank.transfers[i].status in {COMPLETED, REVERSED}
  {
    assert TransferOk(bank, bank.transfers[i]);
  }

  // ----- exactly once

  /** A key that some transfer carries returns that transfer, after whatever happened in between, and changes nothing. */
  lemma KeyReturnsRow(h: Hashing, bank: Bank, steps: seq<BankStep>, i: nat, actor: Actor, retry: TransferRequest)
    requires BankOk(h, bank) && AllResting(bank) && i < |bank.transfers| && retry.key == bank.transfers[i].key
    ensures var v := BankAfter(h, bank, steps);
            CodesKnown(v) && Executed(h, v, actor, retry) == (v, Ok(i))
  {
    BankRun(h, bank, steps);
    RunFollowsTable(h, bank, steps);
    var v := BankAfter(h, bank, steps);
    BankOkShape(h, v);
    assert Advances(bank.transfers[i], v.transfers[i]);
    KeyNamesRow(h, v, i);
  }

  lemma ExecutedRow(h: Hashing, bank: Bank, actor: Actor, q: TransferRequest)
    requires BankOk(h, bank) && AllResting(bank) && q.at != "" && CodesKnown(bank)
    ensures var first := Executed(h, bank, actor, q);
            first.1.Ok? ==> first.1.value < |first.0.transfers| && first.0.transfers[first.1.value].key == q.key
  {
    if FindTransfer(bank.transfers, q.key).None? && TransferProblem(bank, actor, q).None? {
      AppendRow(h, bank, NewTransfer(q));
      hide BankOk, Settled;
      if InitialStatus(q) == CREATED {
        SettledEffect(h, bank.(transfers := bank.transfers + [NewTransfer(q)]), |bank.transfers|, q.at);
      }
    }
  }

  /**
   Exactly once: however often a key is retried, by whomever, with whatever arguments and after whatever other
   calls, the transfer of its first successful use is returned and nothing changes.
   */
  lemma RetryReturnsOriginal(
      h: Hashing, bank: Bank, actor: Actor, q: TransferRequest, steps: seq<BankStep>, other: Actor, retry: TransferRequest)
    requires BankOk(h, bank) && AllResting(bank) && q.at != "" && retry.key == q.key
    ensures CodesKnown(bank)
    ensures var first := Executed(h, bank, actor, q);
            first.1.Ok? ==>
              var v := BankAfter(h, first.0, steps);
              CodesKnown(v) && Executed(h, v, other, retry) == (v, first.1)
  {
    BankOkShape(h, bank);
    ExecutedKeepsOk(h, bank, actor, q);
    var first := Executed(h, bank, actor, q);
    if first.1.Ok? {
      FirstUse(h, bank, actor, q);
      KeyReturnsRow(h, first.0, steps, first.1.value, other, retry);
    }
  }

  /** A first successful use returns the row that carries its key. */
  lemma FirstUse(h: Hashing, bank: Bank, actor: Actor, q: TransferRequest)
    requires BankOk(h, bank) && AllResting(bank) && q.at != "" && CodesKnown(bank) && Executed(h, bank, actor, q).1.Ok?
    ensures var first := Executed(h, bank, actor, q);
            && BankOk(h, first.0) && AllResting(first.0)
            && first.1.value < |first.0.transfers| && first.0.transfers[first.1.value].key == q.key
  {
    ExecutedKeepsOk(h, bank, actor, q);
    ExecutedRow(h, bank, actor, q);
  }
}
