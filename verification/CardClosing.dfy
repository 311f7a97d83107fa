/**
 Which closings are safe: the exact condition on the reference date, with the state in which the others go
 wrong.
 */
module CardClosing {
  import opened Common
  import opened Journals
  import opened Canonical
  import opened Ledger
  import opened LedgerRuns
  import opened Accounting
  import opened Banking
  import opened BankRuns
  import opened Calendar
  import opened Cards
  import opened CardRuns
  import opened OneAccount

  /** Every statement is what its composition, recomputed from the purchases, sums to. */
  ghost predicate AllExplained(s: CardState) {
    forall i: nat :: i < |s.statements| ==> Explained(s, s.statements[i])
  }

  predicate Explained(s: CardState, t: Statement) {
    t.amount == Billable(s.purchases, t.card, t.cycle)
  }

  /** From any sound state of that date, after a closing and any run, every statement is explained. */
  ghost predicate SafeToClose(h: Hashing, today: Day, reference: Day) {
    forall s: CardState, steps: seq<CardStep> ::
      CardsOk(s) && s.today == today ==> AllExplained(CardAfter(h, CyclesClosed(s, reference), steps))
  }

  // ----- a card to buy with

  /** A new credit card that does not expire this month. */
  function NewCard(today: Day): Card {
    Card(0, CREDIT_CARD, CARD_ACTIVE, AddMonths(today, 1), 1000, 1000, 1000, true, true)
  }

  function Unused(today: Day): CardState {
    CardState(EmptyBank(), [NewCard(today)], [], [], [], today)
  }

  function Shopping(amount: int, reference: string): PurchaseRequest {
    PurchaseRequest(0, amount, false, false, None, reference, "", NOON)
  }

  /** Nothing stands in the way of a purchase with this reference. */
  predicate CanShop(s: CardState, amount: int, reference: string) {
    && AccountsExist(s) && s.cards == [NewCard(s.today)] && 0 < amount <= 1000
    && SumSince(s.purchases, 0, s.today) + amount <= 1000 && RawUsed(s, 0) + amount <= 1000
    && s.bank.accounts == EmptyBank().accounts
    && MovementFits(EnsureAccount(s.bank.book, RECEIVABLE, "USD"), reference, CODE, RECEIVABLE)
  }

  predicate IsPurchase(p: Purchase, amount: int, day: Day) {
    p.card == 0 && p.amount == amount && p.on == day && !p.declined && p.journal.Some?
  }

  lemma ShoppingSucceeds(h: Hashing, s: CardState, amount: int, reference: string)
    requires CanShop(s, amount, reference)
    ensures var r := Purchased(h, s, Shopping(amount, reference));
            && r.1.Ok? && r.0 == s.(bank := r.0.bank, purchases := r.0.purchases)
            && |r.0.purchases| == |s.purchases| + 1 && r.0.purchases[..|s.purchases|] == s.purchases
            && IsPurchase(r.0.purchases[|s.purchases|], amount, s.today)
            && r.0.bank == s.bank.(book := r.0.bank.book)
            && r.0.bank.book.accounts == EnsureAccount(s.bank.book, RECEIVABLE, "USD").accounts
            && |r.0.bank.book.journals| == |s.bank.book.journals| + 1 && s.bank.book.journals <= r.0.bank.book.journals
            && r.0.bank.book.journals[|s.bank.book.journals|].reference == reference
  {
    var q := Shopping(amount, reference);
    AddMonthsCorrect(s.today, 0, 1);
    var lines := CardLines(s.bank.accounts[0], amount);
    MovementPosts(h, s.bank, EnsureAccount(s.bank.book, RECEIVABLE, "USD"), Posting(reference, "", lines, q.at, ""),
                  CODE, RECEIVABLE, amount);
    hide PostLines, SumSince, RawUsed, AddMonths, EnsureAccount;
    assert PurchaseProblem(s, q).None?;
    assert FindBought(s.marks, q.key).None?;
  }

  /** Buy for 10, close the running month, buy for 5: the statement stays at 10 and its composition is 15. */
  lemma ClosedTooEarly(h: Hashing, today: Day, reference: Day)
    requires MonthIndex(reference) == MonthIndex(today) + 1
    ensures AccountsExist(Unused(today))
    ensures var bought := Purchased(h, Unused(today), Shopping(10, "A")).0;
            && CardsOk(bought) && bought.today == today
            && var closed := CyclesClosed(bought, reference);
               && AccountsExist(closed) && |closed.statements| == 1
               && closed.statements[0].amount == 10 && closed.statements[0].card == 0
               && var again := Purchased(h, closed, Shopping(5, "B"));
                  && again.1.Ok? && again.0.statements == closed.statements
                  && Billable(again.0.purchases, 0, closed.statements[0].cycle) == 15
  {
    var s := Unused(today);
    NothingBoughtYet(s.bank, s.cards, today);
    assert s.purchases == [] && s.statements == [] && s.bank.book.journals == [];
    ShoppingSucceeds(h, s, 10, "A");
    PurchasedKeepsOk(h, s, Shopping(10, "A"));
    var bought := Purchased(h, s, Shopping(10, "A")).0;
    hide Purchased, CardsOk;
    var cycle := PreviousCycle(reference);
    CycleIsMonth(reference, today);
    assert bought.purchases == [] + [bought.purchases[0]];
    BillableSnoc([], bought.purchases[0], 0, cycle);
    var closed := CyclesClosed(bought, reference);
    OneStatement(bought, cycle);
    hide PreviousCycle, InCycle, CyclesClosed;
    SecondPurchaseFits(bought, closed);
    ShoppingSucceeds(h, closed, 5, "B");
    var again := Purchased(h, closed, Shopping(5, "B")).0;
    assert again.purchases == closed.purchases + [again.purchases[1]];
    BillableSnoc(closed.purchases, again.purchases[1], 0, cycle);
  }

  lemma OneStatement(s: CardState, cycle: Cycle)
    requires |s.cards| == 1 && Closable(s.cards[0]) && s.statements == [] && Billable(s.purchases, 0, cycle) > 0
    ensures ClosedUpTo(s, cycle, 1) == [NewStatement(0, cycle, Billable(s.purchases, 0, cycle))]
  {
    assert ClosedUpTo(s, cycle, 0) == [];
    assert ClosedUpTo(s, cycle, 1) == ClosedOne(s, [], 0, cycle);
  }

  lemma SecondPurchaseFits(bought: CardState, closed: CardState)
    requires closed == bought.(statements := closed.statements) && |closed.statements| == 1 && !closed.statements[0].paid
    requires AccountsExist(bought) && bought.cards == [NewCard(bought.today)] && |bought.purchases| == 1 && bought.purchases[0].amount == 10
    requires bought.bank.accounts == EmptyBank().accounts && |bought.bank.book.journals| == 1
    requires bought.bank.book.journals[0].reference == "A"
    requires bought.bank.book.accounts == EnsureAccount(EmptyBank().book, RECEIVABLE, "USD").accounts
    ensures CanShop(closed, 5, "B")
  {
    assert closed.purchases[..0] == [] && closed.statements[..0] == [];
    assert SumSince([], 0, closed.today) == 0 && SumApproved([], 0) == 0 && SumStatements([], 0, true) == 0;
    hide AddMonths;
  }

  /**
   A closing is safe exactly when its reference date does not lie in the month after today's. Past months are
   over, and months further ahead have nothing to bill.
   */
  lemma SafeToCloseIff(h: Hashing, today: Day, reference: Day)
    ensures SafeToClose(h, today, reference) <==> MonthIndex(reference) != MonthIndex(today) + 1
  {
    if MonthIndex(reference) == MonthIndex(today) + 1 {
      EarlyIsUnsafe(h, today, reference);
    } else {
      hide CardsOk, CardAfter, CyclesClosed, AllExplained, PreviousCycle;
      forall s: CardState, steps: seq<CardStep> | CardsOk(s) && s.today == today
        ensures AllExplained(CardAfter(h, CyclesClosed(s, reference), steps))
      {
        ClosingKeepsOk(s, reference);
        CardRunOk(h, CyclesClosed(s, reference), steps);
        SoundIsExplained(CardAfter(h, CyclesClosed(s, reference), steps));
      }
    }
  }

  lemma ClosingKeepsOk(s: CardState, reference: Day)
    requires CardsOk(s) && MonthIndex(reference) != MonthIndex(s.today) + 1
    ensures CardsOk(CyclesClosed(s, reference))
  {
    ClosedKeepsOk(s, reference, |s.cards|);
  }

  lemma EarlyIsUnsafe(h: Hashing, today: Day, reference: Day)
    requires MonthIndex(reference) == MonthIndex(today) + 1
    ensures !SafeToClose(h, today, reference)
  {
    ClosedTooEarly(h, today, reference);
    var bought := Purchased(h, Unused(today), Shopping(10, "A")).0;
    var closed := CyclesClosed(bought, reference);
    var after := CardAfter(h, closed, [Buy(Shopping(5, "B"))]);
    OnePurchaseRun(h, closed, Shopping(5, "B"));
    hide Purchased, CardsOk, CyclesClosed, CardAfter, Billable, Unused;
    assert !Explained(after, after.statements[0]);
    assert !AllExplained(after);
  }

  lemma OnePurchaseRun(h: Hashing, s: CardState, q: PurchaseRequest)
    requires AccountsExist(s)
    ensures CardAfter(h, s, [Buy(q)]) == Purchased(h, s, q).0
  {
    assert [Buy(q)][1..] == [];
    assert CardAfter(h, s, [Buy(q)]) == CardAfter(h, ApplyCard(h, s, Buy(q)), []);
  }

  lemma SoundIsExplained(s: CardState)
    requires CardsOk(s)
    ensures AllExplained(s)
  {
    forall i: nat | i < |s.statements|
      ensures Explained(s, s.statements[i])
    {
      assert StatementOk(s, s.statements[i]);
    }
  }
}
