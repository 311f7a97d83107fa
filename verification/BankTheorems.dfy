/**
 Results about whole runs of the banking services: lifecycle and exactly-once of transfers, conservation
 of customer money, and the daily limit.
 */
module BankTheorems {
  import opened Common
  import opened Journals
  import opened Canonical
  import opened Ledger
  import opened LedgerRuns
  import opened Accounting
  import opened Banking
  import opened BankRuns

  // ----- sums over rows

  function External(t: Transfer): int {
    if t.status == COMPLETED && t.destination.None? then t.amount else 0
  }

  /** What completed external transfers have moved out. */
  function ExternalOut(transfers: seq<Transfer>): int {
    if transfers == [] then 0 else External(transfers[0]) + ExternalOut(transfers[1..])
  }

  function SumPayments(payments: seq<Payment>): int {
    if payments == [] then 0 else payments[0].amount + SumPayments(payments[1..])
  }

  function SumRecords(records: seq<Record>): int {
    if records == [] then 0 else records[0].amount + SumRecords(records[1..])
  }

  /** An immediate transfer that left account `a`, created on day `day`, and is completed. */
  function Immediate(t: Transfer, a: nat, day: nat): int {
    if t.source == a && t.status == COMPLETED && t.scheduledFor.None? && t.createdAt / MICROSECONDS_PER_DAY == day
    then t.amount else 0
  }

  function ImmediateOut(transfers: seq<Transfer>, a: nat, day: nat): int {
    if transfers == [] then 0 else Immediate(transfers[0], a, day) + ImmediateOut(transfers[1..], a, day)
  }

  lemma {:induction false} RowUpdated(transfers: seq<Transfer>, i: nat, t: Transfer, a: nat, day: nat)
    requires i < |transfers|
    ensures ExternalOut(transfers[i := t]) == ExternalOut(transfers) - External(transfers[i]) + External(t)
    ensures ImmediateOut(transfers[i := t], a, day)
         == ImmediateOut(transfers, a, day) - Immediate(transfers[i], a, day) + Immediate(t, a, day)
  {
    if i == 0 {
      assert transfers[0 := t][1..] == transfers[1..];
    } else {
      assert transfers[i := t][1..] == transfers[1..][i - 1 := t];
      RowUpdated(transfers[1..], i - 1, t, a, day);
    }
  }

  lemma {:induction false} RowAppended(transfers: seq<Transfer>, t: Transfer, a: nat, day: nat)
    ensures ExternalOut(transfers + [t]) == ExternalOut(transfers) + External(t)
    ensures ImmediateOut(transfers + [t], a, day) == ImmediateOut(transfers, a, day) + Immediate(t, a, day)
  {
    if transfers == [] {
      assert transfers + [t] == [t] && [t][1..] == [];
    } else {
      assert (transfers + [t])[1..] == transfers[1..] + [t];
      RowAppended(transfers[1..], t, a, day);
    }
  }

  lemma {:induction false} PaymentAppended(payments: seq<Payment>, p: Payment)
    ensures SumPayments(payments + [p]) == SumPayments(payments) + p.amount
  {
    if payments == [] {
      assert payments + [p] == [p] && [p][1..] == [];
    } else {
      assert (payments + [p])[1..] == payments[1..] + [p];
      PaymentAppended(payments[1..], p);
    }
  }

  lemma {:induction false} RecordAppended(records: seq<Record>, r: Record)
    ensures SumRecords(records + [r]) == SumRecords(records) + r.amount
  {
    if records == [] {
      assert records + [r] == [r] && [r][1..] == [];
    } else {
      assert (records + [r])[1..] == records[1..] + [r];
      RecordAppended(records[1..], r);
    }
  }

  // ----- what one more journal does to balances

  lemma NetAfterAppend(old_: seq<Journal>, new_: seq<Journal>, code: string)
    requires |new_| == |old_| + 1 && old_ <= new_ && new_[|old_|].status == POSTED
    ensures NetOf(new_, code) == NetOf(old_, code) + NetDebit(new_[|old_|].lines, code)
  {
    assert new_ == old_ + [new_[|old_|]];
    NetOfAppend(old_, [new_[|old_|]], code);
    NetOfOne(new_[|old_|], code);
  }

  lemma {:induction false} SumNetAfterAppend(codes: seq<string>, old_: seq<Journal>, new_: seq<Journal>)
    requires |new_| == |old_| + 1 && old_ <= new_ && new_[|old_|].status == POSTED
    ensures SumNet(codes, new_) == SumNet(codes, old_) + SumNetDebit(codes, new_[|old_|].lines)
  {
    if codes != [] {
      NetAfterAppend(old_, new_, codes[0]);
      SumNetAfterAppend(codes[1..], old_, new_);
    }
  }

  lemma TwoLines(d: Line, c: Line, code: string)
    ensures NetDebit([d, c], code)
         == (if d.account == code then Signed(d) else 0) + (if c.account == code then Signed(c) else 0)
  {
    assert [d, c][1..] == [c] && [c][1..] == [];
    assert NetDebit([c], code) == (if c.account == code then Signed(c) else 0) + NetDebit([c][1..], code);
  }

  lemma SumTwoLines(codes: seq<string>, d: Line, c: Line)
    requires NoDuplicates(codes)
    ensures SumNetDebit(codes, [d, c])
         == (if d.account in codes then Signed(d) else 0) + (if c.account in codes then Signed(c) else 0)
  {
    assert [d, c] == [d] + [c] && [c] == [c] + [];
    SumNetDebitStep(codes, d, [c]);
    SumNetDebitStep(codes, c, []);
    SumNetDebitEmpty(codes);
  }

  // ----- the quantities

  /** The money that customers hold: the sum of their balances. */
  function Deposits(bank: Bank): int {
    -SumNet(Codes(bank.accounts), bank.book.journals)
  }

  /** `Deposits` is what its name says. */
  lemma {:induction false} DepositsIsSum(bank: Bank, n: nat)
    requires n <= |bank.accounts|
    ensures -SumNet(Codes(bank.accounts[n..]), bank.book.journals) == SumBalances(bank, n)
    decreases |bank.accounts| - n
  {
    if n < |bank.accounts| {
      assert bank.accounts[n..][1..] == bank.accounts[n + 1..];
      DepositsIsSum(bank, n + 1);
    }
  }

  /** What a customer can spend: posted credits less posted debits, less what is blocked. */
  lemma AvailableBySides(bank: Bank, a: nat)
    requires a < |bank.accounts|
    ensures var js, code := bank.book.journals, bank.accounts[a].code;
            Available(bank, a) == PostedOn(js, code, CREDIT) - PostedOn(js, code, DEBIT) - bank.accounts[a].blocked
  {
    NetOfSides(bank.book.journals, bank.accounts[a].code);
  }

  function SumBalances(bank: Bank, n: nat): int
    requires n <= |bank.accounts|
    decreases |bank.accounts| - n
  {
    if n == |bank.accounts| then 0 else BalanceOf(bank, n) + SumBalances(bank, n + 1)
  }

  /** Customer money not explained by funding, external transfers and bills. */
  function Unexplained(bank: Bank): int {
    Deposits(bank) - SumRecords(bank.records) + ExternalOut(bank.transfers) + SumPayments(bank.payments)
  }

  /** The clearing account's debits less credits, not explained by completed external transfers. */
  function Unsettled(bank: Bank): int {
    NetOf(bank.book.journals, CLEARING) + ExternalOut(bank.transfers)
  }

  ghost predicate Solvent(bank: Bank) {
    forall a: nat :: a < |bank.accounts| ==> Available(bank, a) >= 0
  }

  predicate WithinLimit(bank: Bank, a: nat, day: nat)
    requires a < |bank.accounts|
  {
    var out := ImmediateOut(bank.transfers, a, day);
    out <= bank.accounts[a].dailyLimit || out <= 0
  }

  ghost predicate DailyOk(bank: Bank) {
    forall a: nat, day: nat :: a < |bank.accounts| ==> WithinLimit(bank, a, day)
  }

  /** Conservation, of deposits and of the clearing account, and the daily limit. */
  ghost predicate Accounted(bank: Bank, v: Bank) {
    && |v.accounts| == |bank.accounts|
    && Unexplained(v) == Unexplained(bank) && Unsettled(v) == Unsettled(bank)
    && (DailyOk(bank) ==> DailyOk(v))
  }

  ghost predicate StaysSolvent(bank: Bank, v: Bank) {
    Solvent(bank) ==> Solvent(v)
  }

  // ----- elementary steps

  lemma AbortedAccounted(bank: Bank, nextId: nat)
    ensures Accounted(bank, Aborted(bank, nextId)) && StaysSolvent(bank, Aborted(bank, nextId))
  {
    var v := Aborted(bank, nextId);
    if DailyOk(bank) {
      forall a: nat, day: nat | a < |v.accounts|
        ensures WithinLimit(v, a, day)
      {
        assert WithinLimit(bank, a, day);
      }
    }
    if Solvent(bank) {
      forall a: nat | a < |v.accounts|
        ensures Available(v, a) >= 0
      {
        assert Available(bank, a) >= 0;
      }
    }
  }

  /** Replacing a row that is not COMPLETED by one that is not. */
  lemma RowAccounted(bank: Bank, i: nat, t: Transfer)
    requires i < |bank.transfers| && bank.transfers[i].status != COMPLETED && t.status != COMPLETED
    ensures Accounted(bank, bank.(transfers := bank.transfers[i := t]))
    ensures StaysSolvent(bank, bank.(transfers := bank.transfers[i := t]))
  {
    var v := bank.(transfers := bank.transfers[i := t]);
    RowUpdated(bank.transfers, i, t, 0, 0);
    if DailyOk(bank) {
      forall a: nat, day: nat | a < |v.accounts|
        ensures WithinLimit(v, a, day)
      {
        assert WithinLimit(bank, a, day);
        RowUpdated(bank.transfers, i, t, a, day);
      }
    }
    SameMoneySolvent(bank, v);
  }

  lemma NewRowAccounted(bank: Bank, t: Transfer)
    requires t.status != COMPLETED
    ensures Accounted(bank, bank.(transfers := bank.transfers + [t]))
    ensures StaysSolvent(bank, bank.(transfers := bank.transfers + [t]))
  {
    var v := bank.(transfers := bank.transfers + [t]);
    RowAppended(bank.transfers, t, 0, 0);
    if DailyOk(bank) {
      forall a: nat, day: nat | a < |v.accounts|
        ensures WithinLimit(v, a, day)
      {
        assert WithinLimit(bank, a, day);
        RowAppended(bank.transfers, t, a, day);
      }
    }
    SameMoneySolvent(bank, v);
  }

  lemma SameMoneySolvent(bank: Bank, v: Bank)
    requires v.accounts == bank.accounts && v.book.journals == bank.book.journals
    ensures StaysSolvent(bank, v)
  {
    if Solvent(bank) {
      forall a: nat | a < |v.accounts|
        ensures Available(v, a) >= 0
      {
        assert Available(bank, a) >= 0;
      }
    }
  }

  lemma CustomerCode(h: Hashing, bank: Bank, a: nat, code: string)
    requires BankOk(h, bank) && a < |bank.accounts|
    ensures bank.accounts[a].code in Codes(bank.accounts)
    ensures code in {CLEARING, FUNDING, PAYMENT_INCOME} ==> code !in Codes(bank.accounts) && code != bank.accounts[a].code
    ensures NoDuplicates(Codes(bank.accounts))
  {
    hide BookOk, TransfersOk;
    assert Codes(bank.accounts)[a] == bank.accounts[a].code;
    forall i | 0 <= i < |bank.accounts|
      ensures bank.accounts[i].code !in {CLEARING, FUNDING, PAYMENT_INCOME}
    {
      assert bank.accounts[i] in bank.accounts;
    }
  }

  lemma DistinctCodes(h: Hashing, bank: Bank, a: nat, b: nat)
    requires BankOk(h, bank) && a < |bank.accounts| && b < |bank.accounts|
    ensures bank.accounts[a].code == bank.accounts[b].code <==> a == b
  {
    CustomerCode(h, bank, a, CLEARING);
    hide BankOk;
    assert Codes(bank.accounts)[a] == bank.accounts[a].code && Codes(bank.accounts)[b] == bank.accounts[b].code;
  }

  /** Account `a` is told by its code from the parties of a transfer that it is not, and from the clearing account. */
  lemma PartiesApart(h: Hashing, bank: Bank, t: Transfer, a: nat)
    requires BankOk(h, bank) && PartiesExist(bank, t) && a < |bank.accounts|
    ensures bank.accounts[a].code != CLEARING
    ensures bank.accounts[a].code == bank.accounts[t.source].code <==> a == t.source
    ensures t.destination.Some? ==> (bank.accounts[a].code == bank.accounts[t.destination.value].code <==> a == t.destination.value)
  {
    CustomerCode(h, bank, a, CLEARING);
    hide BankOk;
    DistinctCodes(h, bank, a, t.source);
    if t.destination.Some? {
      DistinctCodes(h, bank, a, t.destination.value);
    }
  }

  /** What one more journal of two lines does to the available balance of account `a`. */
  lemma TwoLinesMove(bank: Bank, v: Bank, lines: seq<Line>, a: nat)
    requires v.accounts == bank.accounts && a < |bank.accounts| && |lines| == 2
    requires |v.book.journals| == |bank.book.journals| + 1 && bank.book.journals <= v.book.journals
    requires v.book.journals[|bank.book.journals|].status == POSTED && v.book.journals[|bank.book.journals|].lines == lines
    ensures var code := bank.accounts[a].code;
            Available(v, a) == Available(bank, a) - (if lines[0].account == code then Signed(lines[0]) else 0)
                                                  - (if lines[1].account == code then Signed(lines[1]) else 0)
  {
    NetAfterAppend(bank.book.journals, v.book.journals, bank.accounts[a].code);
    TwoLines(lines[0], lines[1], bank.accounts[a].code);
    assert lines == [lines[0], lines[1]];
  }

  /** What a transfer of the row's amount does to the available balance of account `a`. */
  function Gain(t: Transfer, a: nat): int {
    (if t.destination == Some(a) then t.amount else 0) - (if t.source == a then t.amount else 0)
  }

  lemma SettlementMoney(h: Hashing, bank: Bank, v: Bank, i: nat)
    requires BankOk(h, bank) && i < |bank.transfers| && PartiesExist(bank, bank.transfers[i]) && SettlesRow(bank, v, i)
    ensures var out := if bank.transfers[i].destination.None? then bank.transfers[i].amount else 0;
            && Deposits(v) == Deposits(bank) - out
            && NetOf(v.book.journals, CLEARING) == NetOf(bank.book.journals, CLEARING) - out
  {
    var t := bank.transfers[i];
    var codes, lines := Codes(bank.accounts), TransferLines(bank.accounts, t);
    CustomerCode(h, bank, t.source, CLEARING);
    if t.destination.Some? {
      CustomerCode(h, bank, t.destination.value, CLEARING);
    }
    hide BankOk;
    SumNetAfterAppend(codes, bank.book.journals, v.book.journals);
    SumTwoLines(codes, lines[0], lines[1]);
    ClearingMoves(bank.book.journals, v.book.journals, lines);
    assert lines == [lines[0], lines[1]];
  }

  /** What one more journal of two lines does to the clearing account. */
  lemma ClearingMoves(old_: seq<Journal>, new_: seq<Journal>, lines: seq<Line>)
    requires |new_| == |old_| + 1 && old_ <= new_ && new_[|old_|].status == POSTED && new_[|old_|].lines == lines
    requires |lines| == 2
    ensures NetOf(new_, CLEARING) == NetOf(old_, CLEARING)
         + (if lines[0].account == CLEARING then Signed(lines[0]) else 0) + (if lines[1].account == CLEARING then Signed(lines[1]) else 0)
  {
    NetAfterAppend(old_, new_, CLEARING);
    TwoLines(lines[0], lines[1], CLEARING);
    assert lines == [lines[0], lines[1]];
  }

  lemma SettlementMoves(h: Hashing, bank: Bank, v: Bank, i: nat, a: nat)
    requires BankOk(h, bank) && i < |bank.transfers| && PartiesExist(bank, bank.transfers[i]) && SettlesRow(bank, v, i)
    requires a < |bank.accounts|
    ensures Available(v, a) == Available(bank, a) + Gain(bank.transfers[i], a)
  {
    var t := bank.transfers[i];
    PartiesApart(h, bank, t, a);
    hide BankOk, Available;
    TwoLinesMove(bank, v, TransferLines(bank.accounts, t), a);
  }

  lemma SettlementSolvent(h: Hashing, bank: Bank, v: Bank, i: nat)
    requires BankOk(h, bank) && i < |bank.transfers| && PartiesExist(bank, bank.transfers[i]) && SettlesRow(bank, v, i)
    requires 0 < bank.transfers[i].amount <= Available(bank, bank.transfers[i].source)
    ensures StaysSolvent(bank, v)
  {
    if Solvent(bank) {
      forall a: nat | a < |v.accounts|
        ensures Available(v, a) >= 0
      {
        assert Available(bank, a) >= 0;
        SettlementMoves(h, bank, v, i, a);
        hide BankOk, Available;
      }
    }
  }

  lemma SettlementAccounted(h: Hashing, bank: Bank, v: Bank, i: nat)
    requires BankOk(h, bank) && i < |bank.transfers| && PartiesExist(bank, bank.transfers[i]) && SettlesRow(bank, v, i)
    requires bank.transfers[i].scheduledFor.Some? ||
               ImmediateOut(bank.transfers, bank.transfers[i].source, bank.transfers[i].createdAt / MICROSECONDS_PER_DAY)
               + bank.transfers[i].amount <= bank.accounts[bank.transfers[i].source].dailyLimit
    ensures Accounted(bank, v)
  {
    var t := bank.transfers[i];
    var done := v.transfers[i];
    SettlementMoney(h, bank, v, i);
    hide BankOk, Deposits, NetOf;
    RowUpdated(bank.transfers, i, done, 0, 0);
    if DailyOk(bank) {
      forall a: nat, day: nat | a < |v.accounts|
        ensures WithinLimit(v, a, day)
      {
        assert WithinLimit(bank, a, day);
        RowUpdated(bank.transfers, i, done, a, day);
      }
    }
  }

  lemma ReversalMoney(h: Hashing, bank: Bank, v: Bank, i: nat)
    requires BankOk(h, bank) && i < |bank.transfers| && ReversesRow(bank, v, i)
    ensures var back := External(bank.transfers[i]);
            && Deposits(v) == Deposits(bank) + back
            && NetOf(v.book.journals, CLEARING) == NetOf(bank.book.journals, CLEARING) + back
  {
    var t := bank.transfers[i];
    var codes, lines := Codes(bank.accounts), Mirror(TransferLines(bank.accounts, t));
    CustomerCode(h, bank, t.source, CLEARING);
    if t.destination.Some? {
      CustomerCode(h, bank, t.destination.value, CLEARING);
    }
    hide BankOk, NetOf, SumNet;
    assert lines == [lines[0], lines[1]];
    SumNetAfterAppend(codes, bank.book.journals, v.book.journals);
    SumTwoLines(codes, lines[0], lines[1]);
    ClearingMoves(bank.book.journals, v.book.journals, lines);
  }

  lemma ReversalAccounted(h: Hashing, bank: Bank, v: Bank, i: nat)
    requires BankOk(h, bank) && i < |bank.transfers| && ReversesRow(bank, v, i)
    ensures Accounted(bank, v)
  {
    assert TransferOk(bank, bank.transfers[i]);
    ReversalMoney(h, bank, v, i);
    hide BankOk, Deposits, NetOf, TransferLines, Mirror;
    RowUpdated(bank.transfers, i, v.transfers[i], 0, 0);
    if DailyOk(bank) {
      forall a: nat, day: nat | a < |v.accounts|
        ensures WithinLimit(v, a, day)
      {
        assert WithinLimit(bank, a, day);
        RowUpdated(bank.transfers, i, v.transfers[i], a, day);
      }
    }
  }

  lemma FundingAccounted(h: Hashing, bank: Bank, v: Bank, a: nat, amount: int)
    requires BankOk(h, bank) && a < |bank.accounts| && amount > 0
    requires PostsOnly(bank, v, FundingLines(bank.accounts[a], amount)) && v.payments == bank.payments
    requires |v.records| == |bank.records| + 1 && v.records[..|bank.records|] == bank.records
    requires v.records[|bank.records|].amount == amount
    ensures Accounted(bank, v) && StaysSolvent(bank, v)
  {
    var codes, lines := Codes(bank.accounts), FundingLines(bank.accounts[a], amount);
    CustomerCode(h, bank, a, FUNDING);
    CustomerCode(h, bank, a, CLEARING);
    hide BankOk;
    SumNetAfterAppend(codes, bank.book.journals, v.book.journals);
    SumTwoLines(codes, lines[0], lines[1]);
    ClearingMoves(bank.book.journals, v.book.journals, lines);
    assert lines == [lines[0], lines[1]];
    assert v.records == bank.records + [v.records[|bank.records|]];
    RecordAppended(bank.records, v.records[|bank.records|]);
    SameRowsDaily(bank, v);
    if Solvent(bank) {
      forall b: nat | b < |v.accounts|
        ensures Available(v, b) >= 0
      {
        assert Available(bank, b) >= 0;
        CustomerCode(h, bank, b, FUNDING);
        NetAfterAppend(bank.book.journals, v.book.journals, bank.accounts[b].code);
        TwoLines(lines[0], lines[1], bank.accounts[b].code);
      }
    }
  }

  lemma SameRowsDaily(bank: Bank, v: Bank)
    requires v.accounts == bank.accounts && v.transfers == bank.transfers
    ensures DailyOk(bank) ==> DailyOk(v)
  {
    if DailyOk(bank) {
      forall a: nat, day: nat | a < |v.accounts|
        ensures WithinLimit(v, a, day)
      {
        assert WithinLimit(bank, a, day);
      }
    }
  }

  lemma BillAccounted(h: Hashing, bank: Bank, v: Bank, a: nat, amount: int, p: Payment)
    requires BankOk(h, bank) && a < |bank.accounts| && amount <= Available(bank, a)
    requires PostsOnly(bank, v, BillLines(bank.accounts[a], amount)) && v.records == bank.records
    requires v.payments == bank.payments + [p] && p.amount == amount
    ensures Accounted(bank, v) && StaysSolvent(bank, v)
  {
    var codes, lines := Codes(bank.accounts), BillLines(bank.accounts[a], amount);
    CustomerCode(h, bank, a, PAYMENT_INCOME);
    CustomerCode(h, bank, a, CLEARING);
    hide BankOk;
    SumNetAfterAppend(codes, bank.book.journals, v.book.journals);
    SumTwoLines(codes, lines[0], lines[1]);
    ClearingMoves(bank.book.journals, v.book.journals, lines);
    assert lines == [lines[0], lines[1]];
    PaymentAppended(bank.payments, p);
    SameRowsDaily(bank, v);
    if Solvent(bank) {
      forall b: nat | b < |v.accounts|
        ensures Available(v, b) >= 0
      {
        assert Available(bank, b) >= 0;
        CustomerCode(h, bank, b, PAYMENT_INCOME);
        assert bank.accounts[b].code == bank.accounts[a].code ==> b == a by {
          assert Codes(bank.accounts)[a] == bank.accounts[a].code && Codes(bank.accounts)[b] == bank.accounts[b].code;
        }
        NetAfterAppend(bank.book.journals, v.book.journals, bank.accounts[b].code);
        TwoLines(lines[0], lines[1], bank.accounts[b].code);
      }
    }
  }

  // ----- the services, one by one

  /** The outflow that the limit check sees is at least the immediate transfers of the day. */
  lemma {:induction false} OutflowCoversImmediate(transfers: seq<Transfer>, a: nat, now: nat)
    requires forall t :: t in transfers && t.status == COMPLETED ==> t.amount > 0
    ensures ImmediateOut(transfers, a, now / MICROSECONDS_PER_DAY) <= OutflowToday(transfers, a, now)
  {
    if transfers != [] {
      var t := transfers[0];
      assert t in transfers && forall s :: s in transfers[1..] ==> s in transfers;
      SameDay(t.createdAt, now);
      OutflowCoversImmediate(transfers[1..], a, now);
    }
  }

  lemma SameDay(created: nat, now: nat)
    ensures created / MICROSECONDS_PER_DAY == now / MICROSECONDS_PER_DAY ==>
              DayStart(now) <= created <= DayStart(now) + MICROSECONDS_PER_DAY
  {
    assert created == MICROSECONDS_PER_DAY * (created / MICROSECONDS_PER_DAY) + created % MICROSECONDS_PER_DAY;
  }

  lemma CompletedPositive(h: Hashing, bank: Bank)
    requires BankOk(h, bank)
    ensures forall t :: t in bank.transfers && t.status == COMPLETED ==> t.amount > 0
  {
    hide BookOk;
    forall t | t in bank.transfers && t.status == COMPLETED
      ensures t.amount > 0
    {
      assert TransferOk(bank, t);
    }
  }

  lemma ExecutedAccounted(h: Hashing, bank: Bank, actor: Actor, q: TransferRequest)
    requires BankOk(h, bank) && AllResting(bank) && q.at != ""
    ensures CodesKnown(bank)
    ensures Accounted(bank, Executed(h, bank, actor, q).0) && StaysSolvent(bank, Executed(h, bank, actor, q).0)
  {
    ExecutedShape(h, bank, actor, q);
    var v, created, i := Executed(h, bank, actor, q).0, WithNewRow(bank, q), |bank.transfers|;
    hide BankOk, Executed, TransferProblem, Accounted, StaysSolvent, SettlesRow;
    AbortedAccounted(bank, v.book.nextId);
    NewRowAccounted(bank, NewTransfer(q));
    if v != Aborted(bank, v.book.nextId) && v != created {
      ImmediateFits(h, bank, q);
      assert Available(created, q.source) == Available(bank, q.source);
      SettlementAccounted(h, created, v, i);
      SettlementSolvent(h, created, v, i);
      Compose(bank, created, v);
    }
  }

  lemma Compose(a: Bank, b: Bank, c: Bank)
    requires Accounted(a, b) && Accounted(b, c) && StaysSolvent(a, b) && StaysSolvent(b, c)
    ensures Accounted(a, c) && StaysSolvent(a, c)
  {
  }

  lemma ImmediateFits(h: Hashing, bank: Bank, q: TransferRequest)
    requires BankOk(h, bank) && q.source < |bank.accounts| && InitialStatus(q) == CREATED
    requires OutflowToday(bank.transfers, q.source, q.now) + q.amount <= bank.accounts[q.source].dailyLimit
    ensures ImmediateOut(bank.transfers + [NewTransfer(q)], q.source, q.now / MICROSECONDS_PER_DAY) + q.amount
         <= bank.accounts[q.source].dailyLimit
  {
    CompletedPositive(h, bank);
    hide BankOk;
    OutflowCoversImmediate(bank.transfers, q.source, q.now);
    RowAppended(bank.transfers, NewTransfer(q), q.source, q.now / MICROSECONDS_PER_DAY);
  }

  lemma ProcessedOneAccounted(h: Hashing, bank: Bank, i: nat, now: nat, at: string)
    requires BankOk(h, bank) && i < |bank.transfers| && IsDue(bank.transfers[i], now) && at != ""
    ensures CodesKnown(bank) && AllPartiesExist(bank)
    ensures ProcessedOne(h, bank, i, at).1.None? ==>
              Accounted(bank, ProcessedOne(h, bank, i, at).0) && StaysSolvent(bank, ProcessedOne(h, bank, i, at).0)
  {
    BankOkShape(h, bank);
    assert TransferOk(bank, bank.transfers[i]);
    SettledEffect(h, bank, i, at);
    hide BankOk, Settled, Accounted, StaysSolvent;
    RowAccounted(bank, i, bank.transfers[i].(status := FAILED));
    var t, r := bank.transfers[i], ProcessedOne(h, bank, i, at);
    if bank.accounts[t.source].status == CustomerStatus.ACTIVE && t.amount <= Available(bank, t.source) && r.1.None? {
      SettlementAccounted(h, bank, r.0, i);
      SettlementSolvent(h, bank, r.0, i);
    }
  }

  lemma {:induction false} ProcessedFromAccounted(h: Hashing, bank: Bank, i: nat, now: nat, at: string)
    requires BankOk(h, bank) && at != ""
    ensures CodesKnown(bank) && AllPartiesExist(bank)
    ensures ProcessedFrom(h, bank, i, now, at).1.None? ==>
              Accounted(bank, ProcessedFrom(h, bank, i, now, at).0) && StaysSolvent(bank, ProcessedFrom(h, bank, i, now, at).0)
    decreases |bank.transfers| - i
  {
    BankOkShape(h, bank);
    AbortedAccounted(bank, bank.book.nextId);
    hide BankOk, ProcessedOne, Accounted, StaysSolvent;
    if i < |bank.transfers| {
      if IsDue(bank.transfers[i], now) {
        ProcessedOneKeepsOk(h, bank, i, at);
        ProcessedOneAccounted(h, bank, i, now, at);
        var one := ProcessedOne(h, bank, i, at);
        if one.1.None? {
          ProcessedFromAccounted(h, one.0, i + 1, now, at);
          if ProcessedFrom(h, one.0, i + 1, now, at).1.None? {
            Compose(bank, one.0, ProcessedFrom(h, one.0, i + 1, now, at).0);
          }
        }
      } else {
        ProcessedFromAccounted(h, bank, i + 1, now, at);
      }
    }
  }

  // ----- runs

  datatype BankStep =
    | Execute(actor: Actor, request: TransferRequest)
    | GateBlock(request: TransferRequest)
    | ProcessDue(now: nat, at: string)
    | Approve(row: nat, at: string)
    | ReverseRow(row: nat, at: string)
    | Fund(funding: FundingRequest)
    | PayBill(actor: Actor, bill: BillRequest)
    | SetCustomerStatus(account: nat, customerStatus: CustomerStatus)
    | SetLedgerStatus(code: string, ledgerStatus: LedgerStatus)

  /** Callers pass existing rows and a posting time. */
  predicate Allowed(bank: Bank, step: BankStep) {
    match step
    case Execute(_, q) => q.at != ""
    case GateBlock(_) => true
    case ProcessDue(_, at) => at != ""
    case Approve(i, at) => i < |bank.transfers| && at != ""
    case ReverseRow(i, at) => i < |bank.transfers| && at != ""
    case Fund(q) => q.at != ""
    case PayBill(_, q) => q.at != ""
    case SetCustomerStatus(a, _) => a < |bank.accounts|
    case SetLedgerStatus(code, _) => code in bank.book.accounts
  }

  /** The foreign keys that make the services well defined; part of the invariant. */
  predicate Ready(bank: Bank) {
    CodesKnown(bank) && AllPartiesExist(bank) && forall j :: j in bank.book.journals ==> LinesKnown(bank.book.accounts, j.lines)
  }

  function ApplyBank(h: Hashing, bank: Bank, step: BankStep): Bank
    requires Ready(bank) && Allowed(bank, step)
  {
    match step
    case Execute(actor, q) => Executed(h, bank, actor, q).0
    case GateBlock(q) => GateBlocked(bank, q)
    case ProcessDue(now, at) => Processed(h, bank, now, at).0
    case Approve(i, at) => Approved(h, bank, i, at).0
    case ReverseRow(i, at) => TransferReversed(h, bank, i, at).0
    case Fund(q) => Funded(h, bank, q).0
    case PayBill(actor, q) => BillSettled(h, bank, actor, q).0
    case SetCustomerStatus(a, status) =>
      bank.(accounts := bank.accounts[a := bank.accounts[a].(status := status)])
    case SetLedgerStatus(code, status) =>
      bank.(book := WithAccount(bank.book, code, bank.book.accounts[code].(status := status)))
  }

  /** A step that is not allowed leaves the state as it is. */
  function NextBank(h: Hashing, bank: Bank, step: BankStep): Bank {
    if Ready(bank) && Allowed(bank, step) then ApplyBank(h, bank, step) else bank
  }

  function BankAfter(h: Hashing, bank: Bank, steps: seq<BankStep>): Bank
    decreases |steps|
  {
    if steps == [] then bank else BankAfter(h, NextBank(h, bank, steps[0]), steps[1..])
  }

  lemma {:induction false} BankAfterOneMore(h: Hashing, bank: Bank, steps: seq<BankStep>, n: nat)
    requires n < |steps|
    ensures BankAfter(h, bank, steps[..n + 1]) == NextBank(h, BankAfter(h, bank, steps[..n]), steps[n])
    decreases n
  {
    hide NextBank;
    if n > 0 {
      assert steps[..n + 1][1..] == steps[1..][..n] && steps[..n][1..] == steps[1..][..n - 1];
      BankAfterOneMore(h, NextBank(h, bank, steps[0]), steps[1..], n - 1);
    }
  }

  lemma StatusSteps(h: Hashing, bank: Bank, v: Bank)
    requires BankOk(h, bank) && AllResting(bank) && BookOk(h, v.book)
    requires v == bank.(accounts := v.accounts, book := v.book) && v.book.journals == bank.book.journals
    requires |v.accounts| == |bank.accounts|
    requires forall a :: 0 <= a < |v.accounts| ==> v.accounts[a] == bank.accounts[a].(status := v.accounts[a].status)
    requires forall x :: x in bank.book.accounts ==> x in v.book.accounts && v.book.accounts[x].kind == bank.book.accounts[x].kind
    ensures BankOk(h, v) && AllResting(v) && Accounted(bank, v) && StaysSolvent(bank, v)
  {
    assert Codes(v.accounts) == Codes(bank.accounts);
    hide BookOk;
    forall t | t in v.transfers
      ensures TransferOk(v, t)
    {
      TransferOkGrows(bank, v, t);
    }
    assert AccountsOk(v) by {
      forall a | a in v.accounts
        ensures a.code in v.book.accounts && v.book.accounts[a.code].kind == LIABILITY && a.code !in {CLEARING, FUNDING, PAYMENT_INCOME}
      {
        var i :| 0 <= i < |v.accounts| && v.accounts[i] == a;
        assert bank.accounts[i] in bank.accounts;
      }
    }
    StatusMoney(bank, v);
  }

  lemma StatusMoney(bank: Bank, v: Bank)
    requires v == bank.(accounts := v.accounts, book := v.book) && v.book.journals == bank.book.journals
    requires |v.accounts| == |bank.accounts| && Codes(v.accounts) == Codes(bank.accounts)
    requires forall a :: 0 <= a < |v.accounts| ==> v.accounts[a] == bank.accounts[a].(status := v.accounts[a].status)
    ensures Accounted(bank, v) && StaysSolvent(bank, v)
  {
    if DailyOk(bank) {
      forall a: nat, day: nat | a < |v.accounts|
        ensures WithinLimit(v, a, day)
      {
        assert WithinLimit(bank, a, day);
      }
    }
    if Solvent(bank) {
      forall a: nat | a < |v.accounts|
        ensures Available(v, a) >= 0
      {
        assert Available(bank, a) >= 0;
      }
    }
  }

  lemma ReadyWhenOk(h: Hashing, bank: Bank)
    requires BankOk(h, bank)
    ensures Ready(bank)
  {
    BankOkShape(h, bank);
    JournalLinesKnown(h, bank.book);
  }

  lemma BankStepKeepsOk(h: Hashing, bank: Bank, step: BankStep)
    requires BankOk(h, bank) && AllResting(bank) && Ready(bank) && Allowed(bank, step)
    ensures BankOk(h, ApplyBank(h, bank, step)) && AllResting(ApplyBank(h, bank, step))
  {
    match step {
      case Execute(actor, q) => hide BankOk; ExecutedKeepsOk(h, bank, actor, q);
      case GateBlock(q) => hide BankOk; GateBlockedKeepsOk(h, bank, q);
      case ProcessDue(now, at) => hide BankOk; ProcessedKeepsOk(h, bank, now, at);
      case Approve(i, at) => hide BankOk; ApprovedKeepsOk(h, bank, i, at);
      case ReverseRow(i, at) => hide BankOk; TransferReversedKeepsOk(h, bank, i, at);
      case Fund(q) => hide BankOk; FundedKeepsOk(h, bank, q);
      case PayBill(actor, q) => hide BankOk; BillSettledKeepsOk(h, bank, actor, q);
      case SetCustomerStatus(a, status) => StatusSteps(h, bank, ApplyBank(h, bank, step));
      case SetLedgerStatus(code, status) =>
        AccountKeepsBook(h, bank.book, code, bank.book.accounts[code].(status := status));
        StatusSteps(h, bank, ApplyBank(h, bank, step));
    }
  }

  lemma BankStepAccounted(h: Hashing, bank: Bank, step: BankStep)
    requires BankOk(h, bank) && AllResting(bank) && Ready(bank) && Allowed(bank, step)
    ensures Accounted(bank, ApplyBank(h, bank, step))
    ensures !step.ReverseRow? ==> StaysSolvent(bank, ApplyBank(h, bank, step))
  {
    if step.SetCustomerStatus? || step.SetLedgerStatus? {
      StatusStepAccounted(h, bank, step);
    } else {
      hide BankOk, Accounted, StaysSolvent, Executed, Processed, Approved, TransferReversed, Funded, BillSettled;
      AbortedAccounted(bank, bank.book.nextId);
      match step {
        case Execute(actor, q) => ExecutedAccounted(h, bank, actor, q);
        case GateBlock(q) => NewRowAccounted(bank, NewTransfer(q).(status := FAILED));
        case ProcessDue(now, at) => ProcessDueAccounted(h, bank, now, at);
        case Approve(i, at) => ApproveAccounted(h, bank, i, at);
        case ReverseRow(i, at) => ReverseRowAccounted(h, bank, i, at);
        case Fund(q) => FundAccounted(h, bank, q);
        case PayBill(actor, q) => PayBillAccounted(h, bank, actor, q);
        case _ =>
      }
    }
  }

  lemma StatusStepAccounted(h: Hashing, bank: Bank, step: BankStep)
    requires BankOk(h, bank) && AllResting(bank) && Ready(bank) && Allowed(bank, step)
    requires step.SetCustomerStatus? || step.SetLedgerStatus?
    ensures Accounted(bank, ApplyBank(h, bank, step)) && StaysSolvent(bank, ApplyBank(h, bank, step))
  {
    if step.SetLedgerStatus? {
      AccountKeepsBook(h, bank.book, step.code, bank.book.accounts[step.code].(status := step.ledgerStatus));
    }
    StatusSteps(h, bank, ApplyBank(h, bank, step));
  }

  lemma ProcessDueAccounted(h: Hashing, bank: Bank, now: nat, at: string)
    requires BankOk(h, bank) && AllResting(bank) && at != ""
    ensures CodesKnown(bank) && AllPartiesExist(bank)
    ensures Accounted(bank, Processed(h, bank, now, at).0) && StaysSolvent(bank, Processed(h, bank, now, at).0)
  {
    ProcessedFromAccounted(h, bank, 0, now, at);
    hide BankOk, ProcessedFrom, Accounted, StaysSolvent;
    AbortedAccounted(bank, ProcessedFrom(h, bank, 0, now, at).0.book.nextId);
  }

  lemma ApproveAccounted(h: Hashing, bank: Bank, i: nat, at: string)
    requires BankOk(h, bank) && i < |bank.transfers| && at != ""
    ensures CodesKnown(bank) && AllPartiesExist(bank)
    ensures Accounted(bank, Approved(h, bank, i, at).0) && StaysSolvent(bank, Approved(h, bank, i, at).0)
  {
    BankOkShape(h, bank);
    AbortedAccounted(bank, bank.book.nextId);
    if bank.transfers[i].status == UNDER_REVIEW {
      ApprovalNeverCompletes(h, bank, i, at);
      hide BankOk, Approved, Accounted, StaysSolvent;
      RowAccounted(bank, i, bank.transfers[i].(status := FAILED));
      AbortedAccounted(bank, Approved(h, bank, i, at).0.book.nextId);
    }
  }

  lemma ReverseRowAccounted(h: Hashing, bank: Bank, i: nat, at: string)
    requires BankOk(h, bank) && i < |bank.transfers| && at != ""
    ensures forall j :: j in bank.book.journals ==> LinesKnown(bank.book.accounts, j.lines)
    ensures Accounted(bank, TransferReversed(h, bank, i, at).0)
  {
    TransferReversedEffect(h, bank, i, at);
    hide BankOk, TransferReversed, Accounted;
    var r := TransferReversed(h, bank, i, at);
    AbortedAccounted(bank, r.0.book.nextId);
    if r.1.None? {
      ReversalAccounted(h, bank, r.0, i);
    }
  }

  lemma FundAccounted(h: Hashing, bank: Bank, q: FundingRequest)
    requires BankOk(h, bank) && q.at != ""
    ensures CodesKnown(bank)
    ensures Accounted(bank, Funded(h, bank, q).0) && StaysSolvent(bank, Funded(h, bank, q).0)
  {
    FundedEffect(h, bank, q);
    var r := Funded(h, bank, q);
    hide BankOk, Funded, Accounted, StaysSolvent;
    if r.0 == Aborted(bank, r.0.book.nextId) {
      AbortedAccounted(bank, r.0.book.nextId);
    } else {
      FundingAccounted(h, bank, r.0, q.account, q.amount);
    }
  }

  lemma PayBillAccounted(h: Hashing, bank: Bank, actor: Actor, q: BillRequest)
    requires BankOk(h, bank) && q.at != ""
    ensures CodesKnown(bank)
    ensures Accounted(bank, BillSettled(h, bank, actor, q).0) && StaysSolvent(bank, BillSettled(h, bank, actor, q).0)
  {
    BillSettledEffect(h, bank, actor, q);
    var r := BillSettled(h, bank, actor, q);
    hide BankOk, BillSettled, Accounted, StaysSolvent;
    if r.0 == Aborted(bank, r.0.book.nextId) {
      AbortedAccounted(bank, r.0.book.nextId);
    } else {
      BillAccounted(h, bank, r.0, q.account, bank.bills[q.bill],
                    Payment(q.bill, q.account, bank.bills[q.bill], q.key, bank.book.nextId));
    }
  }

  // ----- the start

  /** A bank that has not moved any money yet is sound. */
  lemma NoMoneyMovedYet(h: Hashing, accounts: seq<Account>, ledger: Accounts, beneficiaries: seq<Beneficiary>, bills: seq<int>)
    requires NoDuplicates(Codes(accounts))
    requires forall a :: a in accounts ==>
               && a.code in ledger && ledger[a.code].kind == LIABILITY && a.code !in {CLEARING, FUNDING, PAYMENT_INCOME}
               && a.blocked == 0 && a.dailyLimit >= 0
    ensures var bank := Bank(Book(0, ledger, []), accounts, beneficiaries, bills, [], [], []);
            && BankOk(h, bank) && AllResting(bank) && Solvent(bank) && DailyOk(bank)
            && Unexplained(bank) == 0 && Unsettled(bank) == 0
  {
    var bank := Bank(Book(0, ledger, []), accounts, beneficiaries, bills, [], [], []);
    assert BookOk(h, bank.book);
    forall a: nat | a < |accounts|
      ensures Available(bank, a) >= 0
    {
      assert accounts[a] in accounts;
    }
    forall a: nat, day: nat | a < |accounts|
      ensures WithinLimit(bank, a, day)
    {
      assert ImmediateOut([], a, day) == 0;
    }
    SumNetEmpty(Codes(accounts));
  }

  // ----- the theorems

  /**
   In every state reachable from a sound one: a transfer has a journal exactly when it is COMPLETED or
   REVERSED, the journal moves its amount between its parties, it is REVERSED exactly when that journal
   has a reversal, no two transfers share a key, a reference or a journal, and no bill is paid twice.
   Customer money is explained by funding, external transfers and bills, the clearing account by the
   external transfers that are completed and not reversed, and the daily limit of immediate transfers is kept.
   */
  lemma {:induction false} BankRun(h: Hashing, bank: Bank, steps: seq<BankStep>)
    requires BankOk(h, bank) && AllResting(bank)
    ensures BankOk(h, BankAfter(h, bank, steps)) && AllResting(BankAfter(h, bank, steps))
    ensures Unexplained(BankAfter(h, bank, steps)) == Unexplained(bank)
    ensures Unsettled(BankAfter(h, bank, steps)) == Unsettled(bank)
    ensures DailyOk(bank) ==> DailyOk(BankAfter(h, bank, steps))
    decreases |steps|
  {
    ReadyWhenOk(h, bank);
    hide BankOk, AllResting, Unexplained, Unsettled, DailyOk, ApplyBank;
    if steps != [] {
      if Allowed(bank, steps[0]) {
        BankStepKeepsOk(h, bank, steps[0]);
        BankStepAccounted(h, bank, steps[0]);
        BankRun(h, ApplyBank(h, bank, steps[0]), steps[1..]);
      } else {
        BankRun(h, bank, steps[1..]);
      }
    }
  }

  lemma KeyNamesRow(h: Hashing, bank: Bank, i: nat)
    requires BankOk(h, bank) && i < |bank.transfers|
    ensures FindTransfer(bank.transfers, bank.transfers[i].key) == Some(i)
  {
    hide BookOk;
    var k := FindTransfer(bank.transfers, bank.transfers[i].key).value;
    assert k < i ==> RowsDiffer(bank.transfers, k, i);
    assert i < k ==> RowsDiffer(bank.transfers, i, k);
  }
}
