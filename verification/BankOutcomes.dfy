/**
 What each money service does, seen from outside: exactly when a call passes, what it then moves and which
 row it writes, and that a refused call moves nothing.
 */
module BankOutcomes {
  import opened Common
  import opened Journals
  import opened Canonical
  import opened Ledger
  import opened LedgerRuns
  import opened Accounting
  import opened Banking
  import opened BankRuns
  import opened BankTheorems
  import opened Movements

  // ----- funding

  function FundingPosting(account: Account, q: FundingRequest): Posting {
    Posting(q.reference, q.reference, FundingLines(account, q.amount), q.at, account.currency)
  }

  function FundingKey(q: FundingRequest): string {
    if q.key != "" then q.key else q.reference
  }

  predicate FundingPasses(bank: Bank, q: FundingRequest) {
    && q.amount > 0 && q.account < |bank.accounts|
    && (forall i :: 0 <= i < |bank.records| ==> bank.records[i].key != FundingKey(q))
    && var account := bank.accounts[q.account];
       && account.status == CustomerStatus.ACTIVE
       && Acceptable(bank, FUNDING, account.currency, FundingPosting(account, q), FUNDING, account.code, q.amount)
  }

  /** A deposit of a new key arrives in full, once and on the account named, or nothing happens. */
  lemma FundingOutcome(h: Hashing, bank: Bank, q: FundingRequest)
    requires BankOk(h, bank) && q.at != ""
    ensures CodesKnown(bank)
    ensures var r := Funded(h, bank, q);
            if q.key != "" && exists i :: 0 <= i < |bank.records| && bank.records[i].key == q.key then r == (bank, None)
            else
              && (r.1.None? <==> FundingPasses(bank, q)) && (q.amount <= 0 ==> r == (bank, Some(InvalidAmount)))
              && (r.1.Some? ==> NothingMoved(bank, r.0))
              && (r.1.None? ==>
                    && r.0 == bank.(book := r.0.book, records := bank.records + [Record(FundingKey(q), bank.book.nextId, q.amount)])
                    && Moves(bank, r.0, FUNDING, bank.accounts[q.account].code, q.amount)
                    && Available(r.0, q.account) == Available(bank, q.account) + q.amount)
  {
    BankOkShape(h, bank);
    hide BankOk, PostLines, Acceptable, Moves, Available, FundingPosting, FundingKey;
    if q.account < |bank.accounts| {
      var account := bank.accounts[q.account];
      FundingPosted(h, bank, q);
      assert FundingPosting(account, q) == Posting(q.reference, q.reference, FundingLines(account, q.amount), q.at, account.currency);
      assert FundingKey(q) == if q.key != "" then q.key else q.reference;
    }
  }

  lemma FundingPosted(h: Hashing, bank: Bank, q: FundingRequest)
    requires BankOk(h, bank) && q.at != "" && q.account < |bank.accounts|
    ensures var account := bank.accounts[q.account];
            var book, p := EnsureAccount(bank.book, FUNDING, account.currency), FundingPosting(account, q);
            && LinesKnown(book.accounts, p.lines)
            && var r := PostLines(h, bank, book, p);
               && (r.1.None? <==> Acceptable(bank, FUNDING, account.currency, p, FUNDING, account.code, q.amount))
               && NothingMoved(bank, Aborted(bank, r.0.book.nextId))
               && (r.1.Some? ==> NothingMoved(bank, r.0))
               && (r.1.None? ==>
                     var w := r.0.(records := bank.records + [Record(FundingKey(q), bank.book.nextId, q.amount)]);
                     && r.0 == bank.(book := r.0.book) && Moves(bank, w, FUNDING, account.code, q.amount)
                     && Available(w, q.account) == Available(bank, q.account) + q.amount)
  {
    var account := bank.accounts[q.account];
    BankOkShape(h, bank);
    assert account in bank.accounts;
    CustomerCode(h, bank, q.account, FUNDING);
    var p := FundingPosting(account, q);
    hide BankOk, PostLines, Acceptable, Moves, Available;
    ServiceMoves(h, bank, FUNDING, account.currency, p, FUNDING, account.code, q.amount);
    ServicePosting(h, bank, FUNDING, account.currency, p);
    var v := PostLines(h, bank, EnsureAccount(bank.book, FUNDING, account.currency), p).0;
    if Moves(bank, v, FUNDING, account.code, q.amount) {
      MovesAvailable(h, bank, v, FUNDING, account.code, q.amount, q.account);
      var w := v.(records := bank.records + [Record(FundingKey(q), bank.book.nextId, q.amount)]);
      SameBooks(bank, v, w, FUNDING, account.code, q.amount);
    }
  }

  /** Rows beside the books do not matter for what was moved. */
  lemma SameBooks(bank: Bank, v: Bank, w: Bank, x: string, y: string, n: int)
    requires w.book == v.book && w.accounts == v.accounts
    ensures Moves(bank, v, x, y, n) ==> Moves(bank, w, x, y, n)
    ensures forall a: nat :: a < |v.accounts| ==> Available(w, a) == Available(v, a)
  {
  }

  // ----- bills

  function BillPosting(account: Account, amount: int, q: BillRequest): Posting {
    Posting(q.reference, q.reference, BillLines(account, amount), q.at, "")
  }

  /** The payer is the owner or no customer, and has the money; the bill is open; the ledger accepts. */
  predicate BillPasses(bank: Bank, actor: Actor, q: BillRequest) {
    && q.account < |bank.accounts| && q.bill < |bank.bills|
    && var account, amount := bank.accounts[q.account], bank.bills[q.bill];
       && (actor.isCustomer ==> account.owner == actor.id)
       && account.status == CustomerStatus.ACTIVE && amount <= Available(bank, q.account)
       && (forall i :: 0 <= i < |bank.payments| ==> bank.payments[i].bill != q.bill)
       && Acceptable(bank, PAYMENT_INCOME, "USD", BillPosting(account, amount, q), account.code, PAYMENT_INCOME, amount)
  }

  /** A new key pays the bill named, exactly and once, from an account that stays solvent; or nothing happens. */
  lemma BillOutcome(h: Hashing, bank: Bank, actor: Actor, q: BillRequest)
    requires BankOk(h, bank) && q.at != ""
    ensures CodesKnown(bank)
    ensures var r := BillSettled(h, bank, actor, q);
            if exists i :: 0 <= i < |bank.payments| && bank.payments[i].key == q.key then r == (bank, None)
            else
              && (r.1.None? <==> BillPasses(bank, actor, q))
              && (r.1.Some? ==> NothingMoved(bank, r.0))
              && (r.1.None? ==>
                    var amount := bank.bills[q.bill];
                    && r.0 == bank.(book := r.0.book,
                                    payments := bank.payments + [Payment(q.bill, q.account, amount, q.key, bank.book.nextId)])
                    && Moves(bank, r.0, bank.accounts[q.account].code, PAYMENT_INCOME, amount)
                    && 0 <= Available(r.0, q.account) == Available(bank, q.account) - amount)
  {
    BankOkShape(h, bank);
    hide BankOk, PostLines, Acceptable, Moves, Available, BillPosting;
    if q.account < |bank.accounts| && q.bill < |bank.bills| {
      var account, amount := bank.accounts[q.account], bank.bills[q.bill];
      BillPosted(h, bank, q);
      assert BillPosting(account, amount, q) == Posting(q.reference, q.reference, BillLines(account, amount), q.at, "");
    }
  }

  lemma BillPosted(h: Hashing, bank: Bank, q: BillRequest)
    requires BankOk(h, bank) && q.at != "" && q.account < |bank.accounts| && q.bill < |bank.bills|
    ensures var account, amount := bank.accounts[q.account], bank.bills[q.bill];
            var p := BillPosting(account, amount, q);
            && LinesKnown(EnsureAccount(bank.book, PAYMENT_INCOME, "USD").accounts, p.lines)
            && var r := PostLines(h, bank, EnsureAccount(bank.book, PAYMENT_INCOME, "USD"), p);
               && (r.1.None? <==> Acceptable(bank, PAYMENT_INCOME, "USD", p, account.code, PAYMENT_INCOME, amount))
               && (r.1.Some? ==> NothingMoved(bank, r.0))
               && (r.1.None? ==>
                     var w := r.0.(payments := bank.payments + [Payment(q.bill, q.account, amount, q.key, bank.book.nextId)]);
                     && r.0 == bank.(book := r.0.book) && Moves(bank, w, account.code, PAYMENT_INCOME, amount)
                     && Available(w, q.account) == Available(bank, q.account) - amount)
  {
    var account, amount := bank.accounts[q.account], bank.bills[q.bill];
    BankOkShape(h, bank);
    assert account in bank.accounts;
    CustomerCode(h, bank, q.account, PAYMENT_INCOME);
    var p := BillPosting(account, amount, q);
    hide BankOk, PostLines, Acceptable, Moves, Available;
    ServiceMoves(h, bank, PAYMENT_INCOME, "USD", p, account.code, PAYMENT_INCOME, amount);
    var v := PostLines(h, bank, EnsureAccount(bank.book, PAYMENT_INCOME, "USD"), p).0;
    if Moves(bank, v, account.code, PAYMENT_INCOME, amount) {
      MovesAvailable(h, bank, v, account.code, PAYMENT_INCOME, amount, q.account);
      var w := v.(payments := bank.payments + [Payment(q.bill, q.account, amount, q.key, bank.book.nextId)]);
      SameBooks(bank, v, w, account.code, PAYMENT_INCOME, amount);
    }
  }

  // ----- settling a transfer

  function TransferPosting(accounts: seq<Account>, t: Transfer, at: string): Posting
    requires t.source < |accounts| && (t.destination.Some? ==> t.destination.value < |accounts|)
  {
    Posting(t.reference, "Transfer " + t.reference, TransferLines(accounts, t), at, "")
  }

  /** Where a transfer's money goes. */
  function Payee(accounts: seq<Account>, t: Transfer): string
    requires t.destination.Some? ==> t.destination.value < |accounts|
  {
    if t.destination.Some? then accounts[t.destination.value].code else CLEARING
  }

  predicate SettlementAccepted(bank: Bank, t: Transfer, at: string)
    requires PartiesExist(bank, t)
  {
    Acceptable(bank, CLEARING, "USD", TransferPosting(bank.accounts, t, at),
               bank.accounts[t.source].code, Payee(bank.accounts, t), t.amount)
  }

  /** A row that waits is settled exactly when the ledger accepts its movement; then the payee has the amount. */
  lemma SettlementOutcome(h: Hashing, bank: Bank, i: nat, at: string)
    requires BankOk(h, bank) && i < |bank.transfers| && at != "" && PROCESSING in AllowedNext(bank.transfers[i].status)
    ensures CodesKnown(bank) && AllPartiesExist(bank)
    ensures var r, t := Settled(h, bank, i, at), bank.transfers[i];
            && (r.1.None? <==> SettlementAccepted(bank, t, at))
            && (r.1.Some? ==> NothingMoved(bank, r.0))
            && (r.1.None? ==>
                  && r.0 == bank.(book := r.0.book,
                                  transfers := bank.transfers[i := t.(journal := Some(bank.book.nextId), status := COMPLETED)])
                  && Moves(bank, r.0, bank.accounts[t.source].code, Payee(bank.accounts, t), t.amount))
  {
    BankOkShape(h, bank);
    var t := bank.transfers[i];
    var p := TransferPosting(bank.accounts, t, at);
    var x, y := bank.accounts[t.source].code, Payee(bank.accounts, t);
    TransferLinesKnown(h, bank, t);
    hide BankOk, PostLines, Moves, Acceptable;
    ServiceMoves(h, bank, CLEARING, "USD", p, x, y, t.amount);
    var v := PostLines(h, bank, EnsureAccount(bank.book, CLEARING, "USD"), p).0;
    SameBooks(bank, v, Settled(h, bank, i, at).0, x, y, t.amount);
  }

  lemma TransferLinesKnown(h: Hashing, bank: Bank, t: Transfer)
    requires BankOk(h, bank) && PartiesExist(bank, t)
    ensures LinesKnown(EnsureAccount(bank.book, CLEARING, "USD").accounts, TransferLines(bank.accounts, t))
  {
    BankOkShape(h, bank);
    assert bank.accounts[t.source] in bank.accounts;
    assert t.destination.Some? ==> bank.accounts[t.destination.value] in bank.accounts;
  }

  // ----- executing a transfer

  /** A review holds a transfer back even if it is scheduled; a schedule holds it back until then. */
  predicate SettlesAtOnce(q: TransferRequest) {
    !q.underReview && q.scheduledFor.None?
  }

  predicate ExecutionPasses(bank: Bank, actor: Actor, q: TransferRequest) {
    && TransferProblem(bank, actor, q).None?
    && (SettlesAtOnce(q) ==> PartiesExist(bank, NewTransfer(q)) && SettlementAccepted(bank, NewTransfer(q), q.at))
  }

  /** The row as it is written first: nothing but the request, in the state that the verdict and the date call for. */
  predicate RequestRow(t: Transfer, q: TransferRequest) {
    && t.reference == q.reference && t.key == q.key && t.source == q.source && t.destination == q.destination
    && t.amount == q.amount && t.createdAt == q.now && t.scheduledFor == q.scheduledFor
  }

  /**
   A new key: the transfer is reviewed, scheduled or settled; settled, its amount has left the source, whose
   available balance is not negative, for the payee. Otherwise nothing happens.
   */
  lemma ExecutionOutcome(h: Hashing, bank: Bank, actor: Actor, q: TransferRequest)
    requires BankOk(h, bank) && q.at != "" && forall i :: 0 <= i < |bank.transfers| ==> bank.transfers[i].key != q.key
    ensures CodesKnown(bank)
    ensures var r := Executed(h, bank, actor, q);
            && (r.1.Ok? <==> ExecutionPasses(bank, actor, q))
            && (r.1.Err? ==> NothingMoved(bank, r.0))
            && (r.1.Ok? ==>
                  && r.1.value == |bank.transfers| && |r.0.transfers| == |bank.transfers| + 1
                  && var t := r.0.transfers[|bank.transfers|];
                     && RequestRow(t, q) && r.0 == bank.(book := r.0.book, transfers := bank.transfers + [t])
                     && (q.underReview ==> t.status == UNDER_REVIEW)
                     && (!q.underReview && q.scheduledFor.Some? ==> t.status == PENDING)
                     && (SettlesAtOnce(q) <==> t.status == COMPLETED)
                     && (SettlesAtOnce(q) <==> t.journal == Some(bank.book.nextId))
                     && (SettlesAtOnce(q) ==>
                           Moves(bank, r.0, bank.accounts[q.source].code, Payee(bank.accounts, t), q.amount))
                     && (!SettlesAtOnce(q) ==> r.0.book == bank.book))
  {
    BankOkShape(h, bank);
    assert FindTransfer(bank.transfers, q.key).None?;
    hide BankOk, FindTransfer, Settled, Moves, SettlementAccepted, TransferProblem, NothingMoved, Payee;
    assert NothingMoved(bank, bank) by {
      UnmovedItself(bank);
    }
    if TransferProblem(bank, actor, q).None? && SettlesAtOnce(q) {
      SettledAtOnce(h, bank, actor, q);
    }
  }

  lemma SettledAtOnce(h: Hashing, bank: Bank, actor: Actor, q: TransferRequest)
    requires BankOk(h, bank) && q.at != "" && FindTransfer(bank.transfers, q.key).None?
    requires TransferProblem(bank, actor, q).None? && SettlesAtOnce(q)
    ensures PartiesExist(bank, NewTransfer(q)) && CodesKnown(WithNewRow(bank, q))
    ensures var r := Settled(h, WithNewRow(bank, q), |bank.transfers|, q.at);
            && (r.1.None? <==> SettlementAccepted(bank, NewTransfer(q), q.at))
            && NothingMoved(bank, Aborted(bank, r.0.book.nextId))
            && (r.1.None? ==>
                  var t := NewTransfer(q).(journal := Some(bank.book.nextId), status := COMPLETED);
                  && r.0 == bank.(book := r.0.book, transfers := bank.transfers + [t])
                  && Moves(bank, r.0, bank.accounts[q.source].code, Payee(bank.accounts, t), q.amount))
  {
    AppendRow(h, bank, NewTransfer(q));
    var created, i := WithNewRow(bank, q), |bank.transfers|;
    BankOkShape(h, bank);
    SettledEffect(h, created, i, q.at);
    hide BankOk, Settled, Moves, Acceptable, TransferProblem, FindTransfer;
    SettlementOutcome(h, created, i, q.at);
    var v := Settled(h, created, i, q.at).0;
    assert created.transfers[i := v.transfers[i]] == bank.transfers + [v.transfers[i]];
    SameStart(bank, created, q, v);
  }

  /** The row that was added does not change what is acceptable or what was moved. */
  lemma SameStart(bank: Bank, created: Bank, q: TransferRequest, v: Bank)
    requires created == WithNewRow(bank, q) && PartiesExist(bank, NewTransfer(q))
    ensures SettlementAccepted(created, NewTransfer(q), q.at) <==> SettlementAccepted(bank, NewTransfer(q), q.at)
    ensures var x, y := bank.accounts[q.source].code, Payee(bank.accounts, NewTransfer(q));
            Moves(created, v, x, y, q.amount) ==> Moves(bank, v, x, y, q.amount)
  {
  }

  // ----- the scheduled run

  /** A waiting transfer whose time has come. */
  predicate Waits(t: Transfer, now: nat) {
    t.status == PENDING && t.scheduledFor.Some? && t.scheduledFor.value <= now
  }

  predicate WillSettle(accounts: seq<Account>, t: Transfer, available: seq<int>)
    requires t.source < |accounts| == |available|
  {
    accounts[t.source].status == CustomerStatus.ACTIVE && t.amount <= available[t.source]
  }

  function Handed(t: Transfer, available: seq<int>): (r: seq<int>)
    requires t.source < |available| && (t.destination.Some? ==> t.destination.value < |available|)
    ensures |r| == |available|
  {
    var paid := available[t.source := available[t.source] - t.amount];
    if t.destination.None? then paid
    else paid[t.destination.value := paid[t.destination.value] + t.amount]
  }

  predicate PartiesIn(rows: seq<Transfer>, n: nat) {
    forall t :: t in rows ==> t.source < n && (t.destination.Some? ==> t.destination.value < n)
  }

  /**
   The scheduled run on paper: the statuses of the rows and the money available after it, from account
   statuses, rows and available balances alone.
   */
  function Plan(accounts: seq<Account>, rows: seq<Transfer>, available: seq<int>, now: nat): (seq<TransferStatus>, seq<int>)
    requires |available| == |accounts| && PartiesIn(rows, |accounts|)
  {
    if rows == [] then ([], available)
    else
      var t, rest := rows[0], rows[1..];
      if !Waits(t, now) then
        var plan := Plan(accounts, rest, available, now);
        ([t.status] + plan.0, plan.1)
      else if WillSettle(accounts, t, available) then
        var plan := Plan(accounts, rest, Handed(t, available), now);
        ([COMPLETED] + plan.0, plan.1)
      else
        var plan := Plan(accounts, rest, available, now);
        ([FAILED] + plan.0, plan.1)
  }

  /** What the accounts have, in order. */
  ghost predicate HasAvailable(bank: Bank, available: seq<int>) {
    |available| == |bank.accounts| && forall a: nat :: a < |available| ==> available[a] == Available(bank, a)
  }

  /** The rows from `i` on have come to the planned statuses, and those before are as they were. */
  ghost predicate CameTo(bank: Bank, v: Bank, i: nat, plan: (seq<TransferStatus>, seq<int>)) {
    && v.accounts == bank.accounts && |v.transfers| == |bank.transfers| == i + |plan.0|
    && HasAvailable(v, plan.1)
    && (forall k :: 0 <= k < i ==> v.transfers[k] == bank.transfers[k])
    && forall k :: i <= k < |v.transfers| ==>
         v.transfers[k] == bank.transfers[k].(status := plan.0[k - i], journal := v.transfers[k].journal)
  }

  lemma PartiesFrom(h: Hashing, bank: Bank, i: nat)
    requires BankOk(h, bank) && i <= |bank.transfers|
    ensures CodesKnown(bank) && AllPartiesExist(bank) && PartiesIn(bank.transfers[i..], |bank.accounts|)
  {
    BankOkShape(h, bank);
    forall t | t in bank.transfers[i..]
      ensures t.source < |bank.accounts| && (t.destination.Some? ==> t.destination.value < |bank.accounts|)
    {
      var k: nat :| i <= k < |bank.transfers| && bank.transfers[k] == t;
      assert PartiesExist(bank, bank.transfers[k]);
    }
  }

  /** One turn of the run, as planned. */
  lemma TurnAsPlanned(h: Hashing, bank: Bank, i: nat, now: nat, at: string, available: seq<int>)
    requires BankOk(h, bank) && at != "" && i < |bank.transfers| && HasAvailable(bank, available) && Waits(bank.transfers[i], now)
    ensures CodesKnown(bank) && AllPartiesExist(bank)
    ensures var t, r := bank.transfers[i], ProcessedOne(h, bank, i, at);
            r.1.None? ==>
              if WillSettle(bank.accounts, t, available)
              then && r.0 == bank.(book := r.0.book,
                                   transfers := bank.transfers[i := t.(status := COMPLETED, journal := Some(bank.book.nextId))])
                   && HasAvailable(r.0, Handed(t, available))
              else r.0 == bank.(transfers := bank.transfers[i := t.(status := FAILED)]) && HasAvailable(r.0, available)
  {
    BankOkShape(h, bank);
    SettlementOutcome(h, bank, i, at);
    var t, r := bank.transfers[i], ProcessedOne(h, bank, i, at);
    assert available[t.source] == Available(bank, t.source);
    if r.1.None? && WillSettle(bank.accounts, t, available) {
      SettledAvailable(h, bank, r.0, i, available);
    }
  }

  lemma SettledAvailable(h: Hashing, bank: Bank, v: Bank, i: nat, available: seq<int>)
    requires BankOk(h, bank) && i < |bank.transfers| && HasAvailable(bank, available) && PartiesExist(bank, bank.transfers[i])
    requires var t := bank.transfers[i]; Moves(bank, v, bank.accounts[t.source].code, Payee(bank.accounts, t), t.amount)
    ensures HasAvailable(v, Handed(bank.transfers[i], available))
  {
    var t := bank.transfers[i];
    forall a: nat | a < |bank.accounts|
      ensures Handed(t, available)[a] == Available(v, a)
    {
      assert available[a] == Available(bank, a);
      PartiesApart(h, bank, t, a);
      hide BankOk, Moves, Available;
      MovesAvailable(h, bank, v, bank.accounts[t.source].code, Payee(bank.accounts, t), t.amount, a);
    }
  }

  /** The scheduled run does what the plan says, whenever no posting is refused. */
  lemma {:induction false} RunAsPlanned(h: Hashing, bank: Bank, i: nat, now: nat, at: string, available: seq<int>)
    requires BankOk(h, bank) && AllResting(bank) && at != "" && i <= |bank.transfers| && HasAvailable(bank, available)
    ensures CodesKnown(bank) && AllPartiesExist(bank) && PartiesIn(bank.transfers[i..], |bank.accounts|)
    ensures var r := ProcessedFrom(h, bank, i, now, at);
            r.1.None? ==> CameTo(bank, r.0, i, Plan(bank.accounts, bank.transfers[i..], available, now))
    decreases |bank.transfers| - i
  {
    PartiesFrom(h, bank, i);
    var rows := bank.transfers[i..];
    if i < |bank.transfers| {
      var t := bank.transfers[i];
      assert rows[0] == t && rows[1..] == bank.transfers[i + 1..];
      hide BankOk, ProcessedOne, HasAvailable, CameTo, WillSettle, Waits, Handed, PartiesIn, AllPartiesExist, CodesKnown, AllResting;
      if Waits(t, now) {
        ProcessedOneKeepsOk(h, bank, i, at);
        TurnAsPlanned(h, bank, i, now, at, available);
        var one := ProcessedOne(h, bank, i, at);
        if one.1.None? {
          assert one.0.transfers[i + 1..] == rows[1..];
          var left := if WillSettle(bank.accounts, t, available) then Handed(t, available) else available;
          DecidedRests(bank, one.0, i);
          RunAsPlanned(h, one.0, i + 1, now, at, left);
          var v := ProcessedFrom(h, bank, i, now, at);
          if v.1.None? {
            CameOneFurther(bank, one.0, v.0, i, Plan(bank.accounts, rows[1..], left, now));
          }
        }
      } else {
        RunAsPlanned(h, bank, i + 1, now, at, available);
        var v := ProcessedFrom(h, bank, i, now, at);
        if v.1.None? {
          CameOneFurther(bank, bank, v.0, i, Plan(bank.accounts, rows[1..], available, now));
        }
      }
    } else {
      assert rows == [];
    }
  }

  lemma DecidedRests(bank: Bank, one: Bank, i: nat)
    requires AllResting(bank) && i < |bank.transfers| == |one.transfers| && one.transfers[i].status in {COMPLETED, FAILED}
    requires forall k :: 0 <= k < |bank.transfers| && k != i ==> one.transfers[k] == bank.transfers[k]
    ensures AllResting(one)
  {
  }

  /** The turn of row `i`, and then the rest. */
  lemma CameOneFurther(bank: Bank, one: Bank, v: Bank, i: nat, plan: (seq<TransferStatus>, seq<int>))
    requires i < |bank.transfers| == |one.transfers| && one.accounts == bank.accounts && CameTo(one, v, i + 1, plan)
    requires forall k :: 0 <= k < |bank.transfers| && k != i ==> one.transfers[k] == bank.transfers[k]
    requires one.transfers[i] == bank.transfers[i].(status := one.transfers[i].status, journal := one.transfers[i].journal)
    ensures CameTo(bank, v, i, ([one.transfers[i].status] + plan.0, plan.1))
  {
    hide HasAvailable;
  }

  /** `process_due_scheduled`: as planned, or one refused posting undoes it all. */
  lemma ScheduledRunOutcome(h: Hashing, bank: Bank, now: nat, at: string, available: seq<int>)
    requires BankOk(h, bank) && AllResting(bank) && at != "" && HasAvailable(bank, available)
    ensures CodesKnown(bank) && AllPartiesExist(bank) && PartiesIn(bank.transfers, |bank.accounts|)
    ensures var r := Processed(h, bank, now, at);
            if r.1.None? then CameTo(bank, r.0, 0, Plan(bank.accounts, bank.transfers, available, now))
            else NothingMoved(bank, r.0)
  {
    assert bank.transfers[0..] == bank.transfers;
    RunAsPlanned(h, bank, 0, now, at, available);
    ProcessedFromKeepsOk(h, bank, 0, now, at);
  }
}
