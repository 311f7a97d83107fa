/**
 Single steps of concrete runs: with all accounts open and fresh references, nothing refuses a posting.
 */
module Walks {
  import opened Common
  import opened Journals
  import opened Canonical
  import opened Ledger
  import opened LedgerRuns
  import opened Accounting
  import opened Banking
  import opened BankRuns
  import opened BankTheorems
  import opened Solvency

  /** Everything is active and in one currency, and only references of `refs` have been used. */
  ghost predicate Open(bank: Bank, refs: set<string>) {
    && (forall x :: x in bank.book.accounts ==>
          bank.book.accounts[x].currency == "USD" && bank.book.accounts[x].status == LedgerStatus.ACTIVE)
    && (forall a :: a in bank.accounts ==> a.currency == "USD" && a.status == CustomerStatus.ACTIVE)
    && (forall j :: j in bank.book.journals ==> j.reference in refs)
  }

  ghost predicate Walking(h: Hashing, bank: Bank, refs: set<string>) {
    BankOk(h, bank) && AllResting(bank) && Ready(bank) && Open(bank, refs)
  }

  lemma WalkingOn(h: Hashing, bank: Bank, refs: set<string>, step: BankStep, more: set<string>)
    requires Walking(h, bank, refs) && Allowed(bank, step) && Open(ApplyBank(h, bank, step), more)
    ensures Walking(h, ApplyBank(h, bank, step), more) && NextBank(h, bank, step) == ApplyBank(h, bank, step)
  {
    hide BankOk, ApplyBank;
    BankStepKeepsOk(h, bank, step);
    ReadyWhenOk(h, ApplyBank(h, bank, step));
  }

  lemma OpenFits(bank: Bank, refs: set<string>, extra: string, reference: string, x: string, y: string)
    requires Open(bank, refs) && reference !in refs && x != y
    requires var book := EnsureAccount(bank.book, extra, "USD"); x in book.accounts && y in book.accounts
    ensures MovementFits(EnsureAccount(bank.book, extra, "USD"), reference, x, y)
  {
  }

  /** One more journal, with one more reference. */
  lemma OpenAfter(bank: Bank, v: Bank, refs: set<string>, extra: string, reference: string)
    requires Open(bank, refs) && v.accounts == bank.accounts
    requires v.book.accounts == EnsureAccount(bank.book, extra, "USD").accounts
    requires |v.book.journals| == |bank.book.journals| + 1 && bank.book.journals <= v.book.journals
    requires v.book.journals[|bank.book.journals|].reference == reference
    ensures Open(v, refs + {reference})
  {
    assert v.book.journals == bank.book.journals + [v.book.journals[|bank.book.journals|]];
  }

  // ----- funding

  lemma WalkFund(h: Hashing, bank: Bank, refs: set<string>, q: FundingRequest)
    requires Walking(h, bank, refs) && q.at != "" && q.amount > 0 && q.account < |bank.accounts|
    requires q.reference !in refs && bank.records == []
    ensures var v := NextBank(h, bank, Fund(q));
            && Walking(h, v, refs + {q.reference}) && v == bank.(book := v.book, records := v.records)
            && forall a: nat :: a < |bank.accounts| ==>
                 Available(v, a) == Available(bank, a) + if a == q.account then q.amount else 0
  {
    var account := bank.accounts[q.account];
    var lines, book := FundingLines(account, q.amount), EnsureAccount(bank.book, FUNDING, "USD");
    CustomerCode(h, bank, q.account, FUNDING);
    hide BankOk, PostLines;
    assert account in bank.accounts;
    OpenFits(bank, refs, FUNDING, q.reference, FUNDING, account.code);
    MovementPosts(h, bank, book, Posting(q.reference, q.reference, lines, q.at, "USD"), FUNDING, account.code, q.amount);
    var v := Funded(h, bank, q).0;
    OpenAfter(bank, v, refs, FUNDING, q.reference);
    WalkingOn(h, bank, refs, Fund(q), refs + {q.reference});
    FundedMoney(h, bank, v, q.account, q.amount);
  }

  lemma FundedMoney(h: Hashing, bank: Bank, v: Bank, account: nat, amount: int)
    requires BankOk(h, bank) && account < |bank.accounts| && v.accounts == bank.accounts
    requires |v.book.journals| == |bank.book.journals| + 1 && bank.book.journals <= v.book.journals
    requires v.book.journals[|bank.book.journals|].status == POSTED
    requires v.book.journals[|bank.book.journals|].lines == FundingLines(bank.accounts[account], amount)
    ensures forall a: nat :: a < |bank.accounts| ==>
              Available(v, a) == Available(bank, a) + if a == account then amount else 0
  {
    hide BankOk, Available;
    forall a: nat | a < |bank.accounts|
      ensures Available(v, a) == Available(bank, a) + if a == account then amount else 0
    {
      CustomerCode(h, bank, a, FUNDING);
      DistinctCodes(h, bank, a, account);
      TwoLinesMove(bank, v, FundingLines(bank.accounts[account], amount), a);
    }
  }

  // ----- settling

  function Settlement(bank: Bank, i: nat): Transfer
    requires i < |bank.transfers|
  {
    bank.transfers[i].(status := COMPLETED, journal := Some(bank.book.nextId))
  }

  lemma WalkSettle(h: Hashing, bank: Bank, refs: set<string>, i: nat, at: string)
    requires BankOk(h, bank) && Open(bank, refs) && i < |bank.transfers| && at != ""
    requires bank.transfers[i].status in {CREATED, PENDING} && bank.transfers[i].reference !in refs
    requires bank.transfers[i].destination != Some(bank.transfers[i].source)
    ensures CodesKnown(bank) && AllPartiesExist(bank)
    ensures var r := Settled(h, bank, i, at);
            && r.1.None? && Open(r.0, refs + {bank.transfers[i].reference})
            && r.0 == bank.(book := r.0.book, transfers := bank.transfers[i := Settlement(bank, i)])
            && forall a: nat :: a < |bank.accounts| ==> Available(r.0, a) == Available(bank, a) + Gain(bank.transfers[i], a)
  {
    var t := bank.transfers[i];
    var lines := SettlementFits(h, bank, refs, i);
    SettledEffect(h, bank, i, at);
    SettledMoney(h, bank, i, at);
    var book := EnsureAccount(bank.book, CLEARING, "USD");
    var r := Settled(h, bank, i, at);
    hide BankOk, PostLines, Available, Open, MovementFits;
    MovementPosts(h, bank, book, Posting(t.reference, "Transfer " + t.reference, lines, at, ""),
                  lines[0].account, lines[1].account, t.amount);
    OpenAfter(bank, r.0, refs, CLEARING, t.reference);
  }

  lemma SettlementFits(h: Hashing, bank: Bank, refs: set<string>, i: nat) returns (lines: seq<Line>)
    requires BankOk(h, bank) && Open(bank, refs) && i < |bank.transfers| && bank.transfers[i].status in {CREATED, PENDING}
    requires bank.transfers[i].reference !in refs && bank.transfers[i].destination != Some(bank.transfers[i].source)
    ensures PartiesExist(bank, bank.transfers[i]) && bank.transfers[i].amount > 0
    ensures lines == TransferLines(bank.accounts, bank.transfers[i]) && lines == [lines[0], lines[1]]
    ensures MovementFits(EnsureAccount(bank.book, CLEARING, "USD"), bank.transfers[i].reference, lines[0].account, lines[1].account)
  {
    BankOkShape(h, bank);
    assert TransferOk(bank, bank.transfers[i]);
    var t := bank.transfers[i];
    lines := TransferLines(bank.accounts, t);
    PartiesApart(h, bank, t, t.source);
    hide BankOk, Open;
    OpenFits(bank, refs, CLEARING, t.reference, lines[0].account, lines[1].account);
  }

  lemma SettledMoney(h: Hashing, bank: Bank, i: nat, at: string)
    requires BankOk(h, bank) && i < |bank.transfers| && at != ""
    ensures CodesKnown(bank) && AllPartiesExist(bank)
    ensures var r := Settled(h, bank, i, at);
            r.1.None? ==> forall a: nat :: a < |bank.accounts| ==> Available(r.0, a) == Available(bank, a) + Gain(bank.transfers[i], a)
  {
    SettledEffect(h, bank, i, at);
    var r := Settled(h, bank, i, at);
    hide BankOk, Settled, Available, Gain;
    if r.1.None? {
      forall a: nat | a < |bank.accounts|
        ensures Available(r.0, a) == Available(bank, a) + Gain(bank.transfers[i], a)
      {
        SettlementMoves(h, bank, r.0, i, a);
      }
    }
  }

  // ----- transfers

  /** A transfer request that is accepted and has not been made before. */
  predicate Accepted(bank: Bank, actor: Actor, q: TransferRequest) {
    q.at != "" && FindTransfer(bank.transfers, q.key).None? && TransferProblem(bank, actor, q).None?
  }

  /** A scheduled transfer waits. */
  lemma WalkSchedule(h: Hashing, bank: Bank, refs: set<string>, actor: Actor, q: TransferRequest)
    requires Walking(h, bank, refs) && Accepted(bank, actor, q) && InitialStatus(q) == PENDING
    ensures var v := NextBank(h, bank, Execute(actor, q));
            && Walking(h, v, refs) && v == bank.(transfers := bank.transfers + [NewTransfer(q)])
            && forall a: nat :: a < |bank.accounts| ==> Available(v, a) == Available(bank, a)
  {
    hide BankOk, TransferProblem, FindTransfer, Settled;
    assert ApplyBank(h, bank, Execute(actor, q)) == bank.(transfers := bank.transfers + [NewTransfer(q)]);
    WalkingOn(h, bank, refs, Execute(actor, q), refs);
  }

  /** An immediate one is settled. */
  lemma WalkExecute(h: Hashing, bank: Bank, refs: set<string>, actor: Actor, q: TransferRequest)
    requires Walking(h, bank, refs) && Accepted(bank, actor, q) && InitialStatus(q) == CREATED
    requires q.reference !in refs && q.destination != Some(q.source)
    ensures var v := NextBank(h, bank, Execute(actor, q));
            && Walking(h, v, refs + {q.reference})
            && v == bank.(book := v.book, transfers := bank.transfers + [Settlement(WithNewRow(bank, q), |bank.transfers|)])
            && forall a: nat :: a < |bank.accounts| ==> Available(v, a) == Available(bank, a) + Gain(NewTransfer(q), a)
  {
    var created, i := WithNewRow(bank, q), |bank.transfers|;
    NewRowOk(h, bank, actor, q);
    hide BankOk, Open, AllResting, Available, Settled, Accepted, ApplyBank, Gain;
    WalkSettle(h, created, refs, i, q.at);
    var v := AcceptedSettles(h, bank, actor, q);
    assert created.transfers[i := Settlement(created, i)] == bank.transfers + [Settlement(created, i)];
    SameMoney(bank, created);
    assert Allowed(bank, Execute(actor, q)) by {
      AcceptedAllowed(bank, actor, q);
    }
    hide Settlement, NextBank;
    WalkingOn(h, bank, refs, Execute(actor, q), refs + {q.reference});
  }

  lemma AcceptedAllowed(bank: Bank, actor: Actor, q: TransferRequest)
    requires Accepted(bank, actor, q)
    ensures Allowed(bank, Execute(actor, q))
  {
  }

  lemma AcceptedSettles(h: Hashing, bank: Bank, actor: Actor, q: TransferRequest) returns (v: Bank)
    requires Ready(bank) && Accepted(bank, actor, q) && InitialStatus(q) == CREATED
    requires CodesKnown(WithNewRow(bank, q)) && AllPartiesExist(WithNewRow(bank, q))
    requires Settled(h, WithNewRow(bank, q), |bank.transfers|, q.at).1.None?
    ensures v == ApplyBank(h, bank, Execute(actor, q)) == Settled(h, WithNewRow(bank, q), |bank.transfers|, q.at).0
  {
    hide Settled, TransferProblem, FindTransfer;
    v := ApplyBank(h, bank, Execute(actor, q));
  }

  lemma NewRowOk(h: Hashing, bank: Bank, actor: Actor, q: TransferRequest)
    requires BankOk(h, bank) && Accepted(bank, actor, q)
    ensures BankOk(h, WithNewRow(bank, q))
    ensures forall refs :: Open(bank, refs) ==> Open(WithNewRow(bank, q), refs)
  {
    AppendRow(h, bank, NewTransfer(q));
  }

  lemma SameMoney(bank: Bank, v: Bank)
    requires v.accounts == bank.accounts && v.book.journals == bank.book.journals
    ensures forall a: nat :: a < |bank.accounts| ==> Available(v, a) == Available(bank, a)
  {
  }

  // ----- reversals

  lemma WalkReverse(h: Hashing, bank: Bank, refs: set<string>, i: nat, at: string)
    requires Walking(h, bank, refs) && i < |bank.transfers| && at != ""
    requires bank.transfers[i].status == COMPLETED && bank.transfers[i].destination.Some?
    requires "REV-" + bank.transfers[i].reference !in refs
    ensures var v := NextBank(h, bank, ReverseRow(i, at));
            && Reverses(bank, ReverseRow(i, at)) && BankOk(h, v) && AllResting(v)
            && v.accounts == bank.accounts && v.transfers == bank.transfers[i := bank.transfers[i].(status := REVERSED)]
            && forall a: nat :: a < |bank.accounts| ==> Available(v, a) == Available(bank, a) - Gain(bank.transfers[i], a)
  {
    var v := Reversed(h, bank, refs, i, at);
    BankStepKeepsOk(h, bank, ReverseRow(i, at));
    hide BankOk, AllResting, ApplyBank, Available, Open, ReversalPasses, Gain;
    ReversedMoney(h, bank, v, i);
  }

  lemma Reversed(h: Hashing, bank: Bank, refs: set<string>, i: nat, at: string) returns (v: Bank)
    requires Walking(h, bank, refs) && i < |bank.transfers| && at != ""
    requires bank.transfers[i].status == COMPLETED && bank.transfers[i].destination.Some?
    requires "REV-" + bank.transfers[i].reference !in refs
    ensures v == ApplyBank(h, bank, ReverseRow(i, at)) && Reverses(bank, ReverseRow(i, at)) && ReversesRow(bank, v, i)
  {
    hide BankOk, AllResting, Open, TransferReversed, ReversalPasses, ReversesRow, PartiesExist, Ready, Aborted;
    OpenReverses(h, bank, refs, i);
    ReversalPassesIff(h, bank, i, at);
    TransferReversedEffect(h, bank, i, at);
    v := ApplyBank(h, bank, ReverseRow(i, at));
  }

  lemma ReversedMoney(h: Hashing, bank: Bank, v: Bank, i: nat)
    requires BankOk(h, bank) && i < |bank.transfers| && ReversesRow(bank, v, i)
    ensures forall a: nat :: a < |bank.accounts| ==> Available(v, a) == Available(bank, a) - Gain(bank.transfers[i], a)
  {
    hide BankOk, Available, Gain;
    forall a: nat | a < |bank.accounts|
      ensures Available(v, a) == Available(bank, a) - Gain(bank.transfers[i], a)
    {
      ReversalMoves(h, bank, v, i, a);
    }
  }

  lemma OpenReverses(h: Hashing, bank: Bank, refs: set<string>, i: nat)
    requires Walking(h, bank, refs) && i < |bank.transfers| && bank.transfers[i].status == COMPLETED
    requires bank.transfers[i].destination.Some? && "REV-" + bank.transfers[i].reference !in refs
    ensures PartiesExist(bank, bank.transfers[i]) && ReversalPasses(bank, i)
  {
    hide BankOk;
    assert PartiesExist(bank, bank.transfers[i]);
  }
}
